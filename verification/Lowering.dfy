/**
 Lowering operations into a fresh parameter table: every parameter is looked up in the table it comes
 from and interned in the new one. What comes out is the same tree with its parameters relocated.
 */
module Lowering {
  import opened Prelude
  import opened Ir
  import opened Verifier
  import opened Builder
  import opened Renaming
  import opened RenamingInvariance
  import opened Composition

  // ---- lowering into a fresh table ----------------------------------------------------------------

  type Table = seq<Parameter>

  datatype RebuildError =
    | UnknownParameter(index: nat)
    | ControlRejected
    | MixedIdentities
    | NotAppended(error: BuildError)
    | NotValid

  /** A stored parameter, resolved in the graph's table and interned in the new one. */
  function LowerParams(ps: seq<Param>, from: Table, table: Table): Result<(seq<Param>, Table), RebuildError> {
    if ps == [] then Ok(([], table))
    else
      match ps[0]
      case Fixed(_) =>
        var (rest, t) :- LowerParams(ps[1..], from, table);
        Ok(([ps[0]] + rest, t))
      case Index(i) =>
        if i >= |from| then Err(UnknownParameter(i))
        else
          var t1 := Interned(table, from[i]);
          var (rest, t) :- LowerParams(ps[1..], from, t1);
          Ok(([Index(IndexOf(t1, from[i]))] + rest, t))
  }

  function LowerOps(ops: seq<Operation>, from: Table, table: Table): Result<(seq<Operation>, Table), RebuildError>
    decreases ops
  {
    if ops == [] then Ok(([], table))
    else
      var (op, t1) :- LowerOp(ops[0], from, table);
      var (rest, t) :- LowerOps(ops[1..], from, t1);
      Ok(([op] + rest, t))
  }

  /** Bodies first, then the operation's own parameters. */
  function LowerOp(op: Operation, from: Table, table: Table): Result<(Operation, Table), RebuildError>
    decreases op
  {
    var (instruction, t1) :- LowerInstruction(op.instruction, from, table);
    var (ps, t) :- LowerParams(op.params, from, t1);
    Ok((Operation(instruction, op.qubits, ps, op.tag), t))
  }

  /** A control operation is constructed anew from its lowered bodies, with the constructor's checks. */
  function LowerInstruction(i: Instruction, from: Table, table: Table): Result<(Instruction, Table), RebuildError>
    decreases i
  {
    match i
    case Gate(_) => Ok((i, table))
    case Data(_) => Ok((i, table))
    case Control(c) =>
      var (c', t) :- LowerControl(c, from, table);
      if Accepted(c') then Ok((Control(c'), t)) else Err(ControlRejected)
  }

  function LowerControl(c: ControlOp, from: Table, table: Table): Result<(ControlOp, Table), RebuildError>
    decreases c
  {
    match c
    case If(e, t, els) =>
      var (t', t1) :- LowerOps(t, from, table);
      var (els', t2) :- LowerMaybe(els, from, t1);
      Ok((ControlOp.If(e, t', els'), t2))
    case While(e, b) =>
      var (b', t1) :- LowerOps(b, from, table);
      Ok((ControlOp.While(e, b'), t1))
    case For(v, a, z, s, b) =>
      var (b', t1) :- LowerOps(b, from, table);
      Ok((For(v, a, z, s, b'), t1))
    case Switch(e, cases, d) =>
      var (cases', t1) :- LowerCases(cases, from, table);
      var (d', t2) :- LowerMaybe(d, from, t1);
      Ok((ControlOp.Switch(e, cases', d'), t2))
    case Break => Ok((Break, table))
    case Continue => Ok((Continue, table))
  }

  function LowerMaybe(b: MaybeBody, from: Table, table: Table): Result<(MaybeBody, Table), RebuildError>
    decreases b
  {
    match b
    case Absent => Ok((Absent, table))
    case Present(ops) =>
      var (ops', t) :- LowerOps(ops, from, table);
      Ok((Present(ops'), t))
  }

  function LowerCases(cases: seq<SwitchCase>, from: Table, table: Table): Result<(seq<SwitchCase>, Table), RebuildError>
    decreases cases
  {
    if cases == [] then Ok(([], table))
    else
      var (first, t1) :- LowerCase(cases[0], from, table);
      var (rest, t) :- LowerCases(cases[1..], from, t1);
      Ok(([first] + rest, t))
  }

  function LowerCase(c: SwitchCase, from: Table, table: Table): Result<(SwitchCase, Table), RebuildError>
    decreases c
  {
    var (body, t) :- LowerOps(c.body, from, table);
    Ok((SwitchCase(c.value, body), t))
  }

  // ---- lowering is renaming the parameters -----------------------------------------------------------

  /** Where each parameter of the old table is in the new one; nothing else moves. */
  function Relocation(from: Table, table: Table): Renaming {
    HandleMap(None, Some(seq(|from|, i requires 0 <= i < |from| => Index(IndexOf(table, from[i])))), map[], map[])
  }

  /** A parameter keeps its index when the table grows. */
  lemma {:induction false} IndexStays(table: Table, more: Table, p: Parameter)
    requires p in table && table <= more
    ensures IndexOf(more, p) == IndexOf(table, p)
    decreases |table|
  {
    assert more[0] == table[0];
    if table[0] != p {
      assert more[1..][..|table| - 1] == table[1..];
      IndexStays(table[1..], more[1..], p);
    }
  }

  lemma InternedIn(table: Table, p: Parameter)
    ensures table <= Interned(table, p) && p in Interned(table, p)
  {
    if p !in table {
      assert (table + [p])[|table|] == p;
    }
  }

  lemma IndexFinds(table: Table, p: Parameter)
    requires p in table
    ensures IndexOf(table, p) < |table| && table[IndexOf(table, p)] == p
  {
  }

  predicate ParamsIn(ps: seq<Param>, n: nat) {
    forall p | p in ps :: p.Index? ==> p.index < n
  }

  lemma {:induction false} ParamsRelocated(ps: seq<Param>, from: Table, table: Table, final: Table)
    requires ParamsIn(ps, |from|)
    ensures LowerParams(ps, from, table).Ok?
    ensures var (ps', t) := LowerParams(ps, from, table).value;
            && table <= t && |ps'| == |ps|
            && (t <= final ==>
                  && ps' == RenameParams(ps, Relocation(from, final))
                  && forall k | 0 <= k < |ps| :: ParamsEqual(ps'[k], ps[k], final, from))
    decreases |ps|
  {
    hide IndexOf, Interned;
    if ps != [] {
      assert ps[0] in ps;
      if ps[0].Fixed? {
        ParamsRelocated(ps[1..], from, table, final);
      } else {
        var p := from[ps[0].index];
        var t1 := Interned(table, p);
        InternedIn(table, p);
        ParamsRelocated(ps[1..], from, t1, final);
        if LowerParams(ps, from, table).value.1 <= final {
          IndexStays(t1, final, p);
          IndexFinds(final, p);
        }
      }
    }
  }

  /** Lowering a well-made tree succeeds, only adds parameters, and relocates the indices in every table that extends the result. */
  lemma {:induction false} OpsRelocated(ops: seq<Operation>, from: Table, table: Table, final: Table, qubits: set<nat>)
    requires WellMade(ops, qubits, |from|)
    ensures LowerOps(ops, from, table).Ok?
    ensures var (ops', t) := LowerOps(ops, from, table).value;
            table <= t && (t <= final ==> ops' == RenameOps(ops, Relocation(from, final)) && OpsEqual(ops', ops, final, from))
    decreases ops
  {
    hide LowerOp, RenameOp, Relocation, WellMadeOp, OperationsEqual;
    if ops != [] {
      assert WellMadeOp(ops[0], qubits, |from|);
      OpRelocated(ops[0], from, table, final, qubits);
      var (op, t1) := LowerOp(ops[0], from, table).value;
      TailWellMade(ops, qubits, |from|);
      OpsRelocated(ops[1..], from, t1, final, qubits);
    }
  }

  lemma TailWellMade(ops: seq<Operation>, qubits: set<nat>, n: nat)
    requires ops != [] && WellMade(ops, qubits, n)
    ensures WellMade(ops[1..], qubits, n)
  {
    hide WellMadeOp;
    forall k | 0 <= k < |ops[1..]|
      ensures WellMadeOp(ops[1..][k], qubits, n)
    {
      assert ops[1..][k] == ops[k + 1];
    }
  }

  lemma {:induction false} OpRelocated(op: Operation, from: Table, table: Table, final: Table, qubits: set<nat>)
    requires WellMadeOp(op, qubits, |from|)
    ensures LowerOp(op, from, table).Ok?
    ensures var (op', t) := LowerOp(op, from, table).value;
            table <= t && (t <= final ==> op' == RenameOp(op, Relocation(from, final)) && OperationsEqual(op', op, final, from))
    decreases op, 1
  {
    hide LowerParams, LowerInstruction, RenameInstruction, Relocation, WellMade, ParamsEqual, InstructionsEqual;
    InstructionRelocated(op, from, table, final, qubits);
    var (i, t1) := LowerInstruction(op.instruction, from, table).value;
    ParamsRelocated(op.params, from, t1, final);
    QubitsStay(op.qubits, from, final);
    var (op', t) := LowerOp(op, from, table).value;
    if t <= final {
      EqualInstructions(op', op, final, from);
    }
  }

  predicate InstructionsEqual(a: Instruction, b: Instruction, ps: Table, qs: Table) {
    match (a, b)
    case (Gate(g), Gate(g')) => g == g'
    case (Data(d), Data(d')) => DataEqual(d, d')
    case (Control(c), Control(c')) => ControlEqual(c, c', ps, qs)
    case (_, _) => false
  }

  lemma EqualInstructions(a: Operation, b: Operation, ps: Table, qs: Table)
    requires a.qubits == b.qubits && a.tag == b.tag && |a.params| == |b.params|
    requires forall k | 0 <= k < |a.params| :: ParamsEqual(a.params[k], b.params[k], ps, qs)
    requires InstructionsEqual(a.instruction, b.instruction, ps, qs)
    ensures OperationsEqual(a, b, ps, qs)
  {
  }

  lemma {:induction false} InstructionRelocated(op: Operation, from: Table, table: Table, final: Table, qubits: set<nat>)
    requires WellMadeOp(op, qubits, |from|)
    ensures LowerInstruction(op.instruction, from, table).Ok?
    ensures var (i, t) := LowerInstruction(op.instruction, from, table).value;
            table <= t && (t <= final ==> i == RenameInstruction(op.instruction, Relocation(from, final))
                                          && InstructionsEqual(i, op.instruction, final, from))
    decreases op, 0
  {
    hide LowerControl, RenameControl, Relocation, WellMade, Accepted, ControlEqual, ParamsEqual;
    match op.instruction {
      case Gate(_) =>
      case Data(d) =>
        DataStays(d, from, final);
        SameData(d);
      case Control(c) =>
        ControlRelocated(c, from, table, final, qubits);
        SameAccepted(c, from, table);
    }
  }

  lemma {:induction false} LoweredValues(cases: seq<SwitchCase>, from: Table, table: Table)
    requires LowerCases(cases, from, table).Ok?
    ensures var cases' := LowerCases(cases, from, table).value.0;
            |cases'| == |cases| && forall k | 0 <= k < |cases| :: cases'[k].value == cases[k].value
    decreases |cases|
  {
    hide LowerOps;
    if cases != [] {
      LoweredValues(cases[1..], from, LowerCase(cases[0], from, table).value.1);
    }
  }

  /** The constructor's checks look at no operation of a body. */
  lemma SameAccepted(c: ControlOp, from: Table, table: Table)
    requires LowerControl(c, from, table).Ok?
    ensures Accepted(LowerControl(c, from, table).value.0) <==> Accepted(c)
  {
    hide LowerOps, LowerCases, LowerMaybe;
    if c.Switch? {
      LoweredValues(c.cases, from, table);
    }
  }

  predicate CaseEqual(a: SwitchCase, b: SwitchCase, ps: Table, qs: Table) {
    a.value == b.value && OpsEqual(a.body, b.body, ps, qs)
  }

  lemma {:induction false} SameExpr(e: Expr)
    ensures ExprsEqual(e, e)
    decreases e
  {
    if e.Apply? {
      forall k | 0 <= k < |e.args|
        ensures ExprsEqual(e.args[k], e.args[k])
      {
        SameExpr(e.args[k]);
      }
    }
  }

  lemma SameData(d: DataOp)
    ensures DataEqual(d, d)
  {
    if d.Store? {
      SameExpr(d.value);
    }
  }

  lemma QubitsStay(qs: seq<nat>, from: Table, final: Table)
    ensures RenameQubits(qs, Relocation(from, final)) == qs
  {
  }

  lemma DataStays(d: DataOp, from: Table, final: Table)
    ensures RenameData(d, Relocation(from, final)) == d
  {
    if d.Store? {
      ExprStays(d.value, from, final);
    }
  }

  lemma {:induction false} ExprStays(e: Expr, from: Table, final: Table)
    ensures RenameExpr(e, Relocation(from, final)) == e
    decreases e
  {
    if e.Apply? {
      forall k | 0 <= k < |e.args|
        ensures RenameExprs(e.args, Relocation(from, final))[k] == e.args[k]
      {
        RenameExprsAt(e.args, Relocation(from, final), k);
        ExprStays(e.args[k], from, final);
      }
    }
  }

  lemma {:induction false} ControlRelocated(c: ControlOp, from: Table, table: Table, final: Table, qubits: set<nat>)
    requires forall k | 0 <= k < |Bodies(c)| :: WellMade(Bodies(c)[k], qubits, |from|)
    ensures LowerControl(c, from, table).Ok?
    ensures var (c', t) := LowerControl(c, from, table).value;
            table <= t && (t <= final ==> c' == RenameControl(c, Relocation(from, final)) && ControlEqual(c', c, final, from))
    decreases c
  {
    hide LowerOps, RenameOps, WellMade, RenameExpr, Relocation, OpsEqual, ExprsEqual;
    match c {
      case If(e, t, els) =>
        assert Bodies(c)[0] == t && (els.Present? ==> |Bodies(c)| == 2 && Bodies(c)[1] == els.ops);
        OpsRelocated(t, from, table, final, qubits);
        MaybeRelocated(els, from, LowerOps(t, from, table).value.1, final, qubits);
        ExprStays(e, from, final);
        SameExpr(e);
      case While(e, b) =>
        assert Bodies(c)[0] == b;
        OpsRelocated(b, from, table, final, qubits);
        ExprStays(e, from, final);
        SameExpr(e);
      case For(v, a, z, s, b) =>
        assert Bodies(c)[0] == b;
        OpsRelocated(b, from, table, final, qubits);
        ExprStays(a, from, final);
        ExprStays(z, from, final);
        ExprStays(s, from, final);
        SameExpr(a);
        SameExpr(z);
        SameExpr(s);
        VarStays(v, from, final);
      case Switch(e, cases, d) =>
        assert d.Present? ==> Bodies(c)[|cases|] == d.ops;
        assert forall k | 0 <= k < |cases| :: Bodies(c)[k] == cases[k].body;
        CasesRelocated(cases, from, table, final, qubits);
        MaybeRelocated(d, from, LowerCases(cases, from, table).value.1, final, qubits);
        ExprStays(e, from, final);
        SameExpr(e);
      case Break =>
      case Continue =>
    }
  }

  lemma VarStays(v: ClassicalVar, from: Table, final: Table)
    ensures Relocation(from, final).Var(v) == v
  {
  }

  lemma {:induction false} MaybeRelocated(b: MaybeBody, from: Table, table: Table, final: Table, qubits: set<nat>)
    requires b.Present? ==> WellMade(b.ops, qubits, |from|)
    ensures LowerMaybe(b, from, table).Ok?
    ensures var (b', t) := LowerMaybe(b, from, table).value;
            table <= t && (t <= final ==> b' == RenameMaybe(b, Relocation(from, final)) && MaybeEqual(b', b, final, from))
    decreases b
  {
    hide WellMade, Relocation;
    if b.Present? {
      OpsRelocated(b.ops, from, table, final, qubits);
    }
  }

  lemma {:induction false} CasesRelocated(cases: seq<SwitchCase>, from: Table, table: Table, final: Table, qubits: set<nat>)
    requires forall k | 0 <= k < |cases| :: WellMade(cases[k].body, qubits, |from|)
    ensures LowerCases(cases, from, table).Ok?
    ensures var (cases', t) := LowerCases(cases, from, table).value;
            && table <= t && |cases'| == |cases|
            && (t <= final ==>
                  && cases' == RenameCases(cases, Relocation(from, final))
                  && forall k | 0 <= k < |cases| :: CaseEqual(cases'[k], cases[k], final, from))
    decreases cases
  {
    hide WellMade, Relocation, LowerCase, RenameCase, CaseEqual;
    if cases != [] {
      CaseRelocated(cases[0], from, table, final, qubits);
      CasesRelocated(cases[1..], from, LowerCase(cases[0], from, table).value.1, final, qubits);
    }
  }

  lemma {:induction false} CaseRelocated(c: SwitchCase, from: Table, table: Table, final: Table, qubits: set<nat>)
    requires WellMade(c.body, qubits, |from|)
    ensures LowerCase(c, from, table).Ok?
    ensures var (c', t) := LowerCase(c, from, table).value;
            table <= t && (t <= final ==> c' == RenameCase(c, Relocation(from, final)) && CaseEqual(c', c, final, from))
    decreases c
  {
    OpsRelocated(c.body, from, table, final, qubits);
  }

  // ---- relocation changes no judgement ---------------------------------------------------------------------------------

  /** Moving parameters changes no judgement of the verifier. */
  lemma RelocatedIsValid(ops: seq<Operation>, h: Handles, from: Table, final: Table)
    requires Valid(ops, h)
    ensures Valid(RenameOps(ops, Relocation(from, final)), h)
  {
    hide Verify, RenameOps, Relocation;
    RelocationKeepsJudgements(ops, h, from, final, Verifier.State({}, {}), Verifier.Placing(false, false));
  }

  lemma {:induction false} RelocationKeepsJudgements(ops: seq<Operation>, h: Handles, from: Table, final: Table, st: Verifier.State, p: Placing)
    ensures Verify(RenameOps(ops, Relocation(from, final)), h, st, p) == Verify(ops, h, st, p)
    decreases ops
  {
    hide VerifyOp, RenameOp, Relocation;
    if ops != [] {
      RelocationKeepsOp(ops[0], h, from, final, st, p, |ops| == 1);
      var r := VerifyOp(ops[0], h, st, p, |ops| == 1);
      assert RenameOps(ops, Relocation(from, final))[1..] == RenameOps(ops[1..], Relocation(from, final));
      if r.Ok? {
        RelocationKeepsJudgements(ops[1..], h, from, final, r.value, p);
      }
    }
  }

  lemma {:induction false} RelocationKeepsOp(op: Operation, h: Handles, from: Table, final: Table, st: Verifier.State, p: Placing, last: bool)
    ensures VerifyOp(RenameOp(op, Relocation(from, final)), h, st, p, last) == VerifyOp(op, h, st, p, last)
    decreases op
  {
    hide VerifyControl, VerifyData, RenameControl, Relocation;
    var r := Relocation(from, final);
    if op.instruction.Data? {
      DataStays(op.instruction.data, from, final);
    } else if op.instruction.Control? {
      ControlShape(op.instruction.control, r);
      RelocationKeepsControl(op.instruction.control, h, from, final, st, p);
      assert RenameOp(op, r).instruction == Control(RenameControl(op.instruction.control, r));
    }
  }

  lemma {:induction false} RelocationKeepsControl(c: ControlOp, h: Handles, from: Table, final: Table, st: Verifier.State, p: Placing)
    ensures VerifyControl(RenameControl(c, Relocation(from, final)), h, st, p) == VerifyControl(c, h, st, p)
    decreases c, |Bodies(c)| + 1
  {
    hide VerifyBodies, VerifyHeads, RenameControl, Relocation;
    var r := Relocation(from, final);
    ControlShape(c, r);
    HeadsStay(Heads(c), from, final);
    if c.For? {
      VarStays(c.loopVar, from, final);
    }
    assert Enter(p, RenameControl(c, r)) == Enter(p, c) by { SameEntry(c, r, p); }
    RelocationKeepsBodies(c, 0, h, from, final, st, Enter(p, c));
  }

  lemma SameEntry(c: ControlOp, r: Renaming, p: Placing)
    ensures Enter(p, RenameControl(c, r)) == Enter(p, c)
  {
  }

  lemma {:induction false} HeadsStay(es: seq<Expr>, from: Table, final: Table)
    ensures RenameExprs(es, Relocation(from, final)) == es
    decreases |es|
  {
    hide Relocation;
    if es != [] {
      ExprStays(es[0], from, final);
      HeadsStay(es[1..], from, final);
    }
  }

  lemma {:induction false} RelocationKeepsBodies(c: ControlOp, k: nat, h: Handles, from: Table, final: Table, st: Verifier.State, p: Placing)
    requires k <= |Bodies(c)|
    ensures |Bodies(RenameControl(c, Relocation(from, final)))| == |Bodies(c)|
    ensures VerifyBodies(RenameControl(c, Relocation(from, final)), k, h, st, p) == VerifyBodies(c, k, h, st, p)
    decreases c, |Bodies(c)| - k
  {
    hide Verify, RenameControl, RenameOps, Relocation;
    ControlShape(c, Relocation(from, final));
    if k < |Bodies(c)| {
      RelocationKeepsJudgements(Bodies(c)[k], h, from, final, st, p);
      var r := Verify(Bodies(c)[k], h, st, p);
      if r.Ok? {
        RelocationKeepsBodies(c, k + 1, h, from, final, st.(defined := r.value.defined), p);
      }
    }
  }
}
