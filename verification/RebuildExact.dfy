/** Exactly which operations a circuit can be rebuilt from, and what the rebuilt circuit is, for any input. */
module RebuildExact {
  import opened Prelude
  import opened Ir
  import opened Placement
  import opened Verifier
  import opened Builder
  import opened BuilderReach
  import opened AppendMeaning
  import opened RenamingInvariance
  import opened Composition
  import opened Rechecking
  import opened Lowering
  import opened Rebuilding
  import opened Renaming

  function AsSet(qubits: seq<nat>): set<nat> {
    set q | q in qubits
  }

  // ---- what lowering says about its input -------------------------------------------------------------------

  /** A lowered case body is the lowering of the body in some table. */
  lemma {:induction false} CaseLowered(cases: seq<SwitchCase>, from: Table, table: Table, k: nat) returns (t: Table)
    requires LowerCases(cases, from, table).Ok? && k < |cases|
    ensures var cases' := LowerCases(cases, from, table).value.0;
            |cases'| == |cases| && LowerOps(cases[k].body, from, t).Ok? && LowerOps(cases[k].body, from, t).value.0 == cases'[k].body
    decreases |cases|
  {
    hide LowerOps;
    LoweredValues(cases, from, table);
    if k == 0 {
      t := table;
    } else {
      t := CaseLowered(cases[1..], from, LowerCase(cases[0], from, table).value.1, k - 1);
    }
  }

  lemma LoweredShape(c: ControlOp, from: Table, table: Table)
    requires LowerControl(c, from, table).Ok?
    ensures |Bodies(LowerControl(c, from, table).value.0)| == |Bodies(c)|
  {
    hide LowerOps, LowerCases;
    if c.Switch? {
      LoweredValues(c.cases, from, table);
    }
  }

  lemma BodyLowered(c: ControlOp, from: Table, table: Table, k: nat) returns (t: Table)
    requires LowerControl(c, from, table).Ok? && k < |Bodies(c)|
    ensures |Bodies(LowerControl(c, from, table).value.0)| == |Bodies(c)|
    ensures LowerOps(Bodies(c)[k], from, t).Ok?
    ensures LowerOps(Bodies(c)[k], from, t).value.0 == Bodies(LowerControl(c, from, table).value.0)[k]
  {
    hide LowerOps, LowerCases;
    LoweredShape(c, from, table);
    t := table;
    match c {
      case If(_, a, els) =>
        if k == 1 {
          t := LowerOps(a, from, table).value.1;
        }
      case While(_, _) =>
      case For(_, _, _, _, _) =>
      case Switch(_, cases, d) =>
        LoweredValues(cases, from, table);
        if k < |cases| {
          t := CaseLowered(cases, from, table, k);
        } else {
          t := LowerCases(cases, from, table).value.1;
        }
    }
  }

  lemma {:induction false} ParamsLowered(ps: seq<Param>, from: Table, table: Table)
    requires LowerParams(ps, from, table).Ok?
    ensures ParamsIn(ps, |from|) && |LowerParams(ps, from, table).value.0| == |ps|
    decreases |ps|
  {
    if ps != [] {
      ParamsLowered(ps[1..], from, if ps[0].Fixed? then table else Interned(table, from[ps[0].index]));
    }
  }

  lemma FitsHead(op: Operation, rest: seq<Operation>, known: seq<nat>)
    ensures Fits([op] + rest, known) <==> FitsOp(op, known) && Fits(rest, known)
  {
    hide FitsOp;
    var ops := [op] + rest;
    assert forall k | 0 <= k < |rest| :: rest[k] == ops[k + 1];
    assert ops[0] == op && forall k | 0 < k < |ops| :: ops[k] == rest[k - 1];
  }

  lemma WellMadeHead(op: Operation, rest: seq<Operation>, qubits: set<nat>, n: nat)
    requires WellMadeOp(op, qubits, n) && WellMade(rest, qubits, n)
    ensures WellMade([op] + rest, qubits, n)
  {
    hide WellMadeOp;
    var ops := [op] + rest;
    assert ops[0] == op && forall k | 0 < k < |ops| :: ops[k] == rest[k - 1];
  }

  /** What lowers to a tree that fits is well made and fits. */
  lemma {:induction false} LoweredBack(ops: seq<Operation>, from: Table, table: Table, known: seq<nat>)
    requires LowerOps(ops, from, table).Ok? && Fits(LowerOps(ops, from, table).value.0, known)
    ensures WellMade(ops, AsSet(known), |from|) && Fits(ops, known)
    decreases ops
  {
    hide LowerOp, FitsOp, WellMadeOp, AsSet;
    if ops != [] {
      hide Fits, WellMade;
      var (op, t) := LowerOp(ops[0], from, table).value;
      FitsHead(op, LowerOps(ops[1..], from, t).value.0, known);
      LoweredOpBack(ops[0], from, table, known);
      LoweredBack(ops[1..], from, t, known);
      assert ops == [ops[0]] + ops[1..];
      FitsHead(ops[0], ops[1..], known);
      WellMadeHead(ops[0], ops[1..], AsSet(known), |from|);
    }
  }

  lemma {:induction false} LoweredOpBack(op: Operation, from: Table, table: Table, known: seq<nat>)
    requires LowerOp(op, from, table).Ok? && FitsOp(LowerOp(op, from, table).value.0, known)
    ensures WellMadeOp(op, AsSet(known), |from|) && FitsOp(op, known)
    decreases op
  {
    hide LowerOps, LowerControl, LowerParams, Fits, WellMade, Bodies, Accepted;
    var (i, t1) := LowerInstruction(op.instruction, from, table).value;
    ParamsLowered(op.params, from, t1);
    if op.instruction.Control? {
      var c := op.instruction.control;
      LoweredShape(c, from, table);
      forall k | 0 <= k < |Bodies(c)|
        ensures WellMade(Bodies(c)[k], AsSet(known), |from|) && Fits(Bodies(c)[k], known)
      {
        var t := BodyLowered(c, from, table, k);
        assert Fits(Bodies(i.control)[k], known);
        LoweredBack(Bodies(c)[k], from, t, known);
      }
      SameAccepted(c, from, table);
    }
  }

  // ---- what appending says about its input ------------------------------------------------------------------

  predicate Passes(d: Draft, op: Operation, arities: Arities) {
    PreCheck(d, op.instruction, ArityOf(arities, op.instruction), op.qubits, |op.params|).None?
  }

  lemma LoweredArity(i: Instruction, from: Table, table: Table, arities: Arities)
    requires LowerInstruction(i, from, table).Ok?
    ensures ArityOf(arities, LowerInstruction(i, from, table).value.0) == ArityOf(arities, i)
  {
    hide LowerControl, Accepted;
  }

  /** The checks look only at the qubits, the handles and the scopes. */
  lemma PassesBefore(d: Draft, d1: Draft, op: Operation, arities: Arities)
    requires d1 == d.(params := d1.params, symbols := d1.symbols, ops := d1.ops) && Passes(d1, op, arities)
    ensures Passes(d, op, arities)
  {
    hide PreCheck, OpIds;
    PreCheckPasses(d1, d, op.instruction, ArityOf(arities, op.instruction), op.qubits, |op.params|,
                   OpIds(Operation(op.instruction, op.qubits, [], None)));
  }

  /** A successful run of appends adds the lowered operations, each of which passes the checks. */
  lemma {:induction false} AppendedAll(d: Draft, ops: seq<Operation>, from: Table, arities: Arities)
    requires AppendAll(d, ops, from, arities).Ok? && d.symbols == SymbolsOf(d.params)
    ensures LowerOps(ops, from, d.params).Ok?
    ensures var (ops', t) := LowerOps(ops, from, d.params).value;
            && AppendAll(d, ops, from, arities) == Ok(d.(params := t, symbols := SymbolsOf(t), ops := d.ops + ops'))
            && forall k | 0 <= k < |ops'| :: Passes(d, ops'[k], arities)
    decreases |ops|
  {
    hide PreCheck, LowerInstruction, LowerParams, SymbolsOf, ArityOf;
    if ops == [] {
      assert d.ops + [] == d.ops;
    } else {
      var d1 := AppendLowered(d, ops[0], from, arities).value;
      var (i, t1) := LowerInstruction(ops[0].instruction, from, d.params).value;
      var (op, t2) := LowerOp(ops[0], from, d.params).value;
      ParamsLowered(ops[0].params, from, t1);
      LoweredArity(ops[0].instruction, from, d.params, arities);
      assert d1 == d.(params := t2, symbols := SymbolsOf(t2), ops := d.ops + [op]) && Passes(d, op, arities);
      AppendedAll(d1, ops[1..], from, arities);
      var rest := LowerOps(ops[1..], from, t2).value.0;
      assert d.ops + [op] + rest == d.ops + ([op] + rest);
      forall k | 0 <= k < |[op] + rest|
        ensures Passes(d, ([op] + rest)[k], arities)
      {
        if k > 0 {
          PassesBefore(d, d1, rest[k - 1], arities);
        }
      }
    }
  }

  /** In a valid tree the checks of an append come down to the operands. */
  lemma PassesExactly(d: Draft, ops: seq<Operation>, k: nat, arities: Arities)
    requires d.scopes == [] && Valid(ops, d.Handles()) && k < |ops|
    ensures Passes(d, ops[k], arities) <==> Operands(ops[k], ArityOf(arities, ops[k].instruction), d.qubits, |ops[k].params|)
  {
    hide Verify, PreCheck, TypedOp, PlacedOp, Operands, ArityOf;
    VerifyCharacterised(ops, d.Handles(), Verifier.State({}, {}), Verifier.Placing(false, false));
    PreChecked(d, ops[k], ArityOf(arities, ops[k].instruction), |ops[k].params|, k + 1 == |ops|);
  }

  // ---- the main result --------------------------------------------------------------------------------------

  predicate AllOperands(ops: seq<Operation>, qubits: seq<nat>, arities: Arities) {
    forall k | 0 <= k < |ops| :: Operands(ops[k], ArityOf(arities, ops[k].instruction), qubits, |ops[k].params|)
  }

  /**
   Distinct qubits, one identity, qubits and parameters in the tables and accepted control operations at
   every depth, matching operand counts at the top, a valid tree, and a phase in the table.
   */
  predicate Rebuildable(qubits: seq<nat>, ops: seq<Operation>, from: Table, vars: seq<ClassicalType>, values: seq<ClassicalType>,
                        phase: Param, newId: nat, arities: Arities) {
    && NoRepeats(qubits) && !Mixed(Identities(ops)) && WellMade(ops, AsSet(qubits), |from|) && AllOperands(ops, qubits, arities)
    && Valid(ops, Handles(IdentityOf(Identities(ops), newId), vars, values))
    && (phase.Index? ==> phase.index < |from|)
  }

  lemma EmptyStart(id: nat, qubits: seq<nat>, vars: seq<ClassicalType>, values: seq<ClassicalType>)
    ensures var d := New(id, qubits).(vars := vars, values := values);
            d.symbols == SymbolsOf(d.params) && d.Handles() == Handles(id, vars, values) && d.scopes == [] && d.ops == [] && d.params == []
  {
  }

  lemma AllFit(ops: seq<Operation>, qubits: seq<nat>, arities: Arities)
    requires AllOperands(ops, qubits, arities)
    ensures Fits(ops, qubits)
  {
    forall k | 0 <= k < |ops|
      ensures FitsOp(ops[k], qubits)
    {
      assert Operands(ops[k], ArityOf(arities, ops[k].instruction), qubits, |ops[k].params|);
    }
  }

  /** When the appends succeed and the result is valid, the input is well made and valid, and its operations pass. */
  lemma AppendedBack(d0: Draft, ops: seq<Operation>, from: Table, arities: Arities)
    requires d0.scopes == [] && d0.ops == [] && d0.params == [] && d0.symbols == SymbolsOf(d0.params)
    requires AppendAll(d0, ops, from, arities).Ok? && Valid(AppendAll(d0, ops, from, arities).value.ops, d0.Handles())
    ensures WellMade(ops, AsSet(d0.qubits), |from|) && Valid(ops, d0.Handles()) && AllOperands(ops, d0.qubits, arities)
  {
    hide AppendAll, LowerOps, Valid, Passes, Operands, ArityOf, WellMade, Fits, RenameOps, Relocation, OpsEqual, SymbolsOf;
    AppendedAll(d0, ops, from, arities);
    var (ops', t) := LowerOps(ops, from, d0.params).value;
    assert [] + ops' == ops';
    forall k | 0 <= k < |ops'|
      ensures Operands(ops'[k], ArityOf(arities, ops'[k].instruction), d0.qubits, |ops'[k].params|)
    {
      PassesExactly(d0, ops', k, arities);
    }
    AllFit(ops', d0.qubits, arities);
    LoweredBack(ops, from, d0.params, d0.qubits);
    OpsRelocated(ops, from, d0.params, t, AsSet(d0.qubits));
    RelocatedWasValid(ops, d0.Handles(), from, t);
    OperandsBack(ops, ops', from, t, d0.qubits, arities);
  }

  lemma RelocatedWasValid(ops: seq<Operation>, h: Handles, from: Table, final: Table)
    requires Valid(RenameOps(ops, Relocation(from, final)), h)
    ensures Valid(ops, h)
  {
    hide Verify, RenameOps, Relocation;
    RelocationKeepsJudgements(ops, h, from, final, Verifier.State({}, {}), Verifier.Placing(false, false));
  }

  lemma OperandsBack(ops: seq<Operation>, ops': seq<Operation>, from: Table, final: Table, qubits: seq<nat>, arities: Arities)
    requires ops' == RenameOps(ops, Relocation(from, final)) && AllOperands(ops', qubits, arities) && Fits(ops, qubits)
    ensures AllOperands(ops, qubits, arities)
  {
    hide Relocation, FitsOp, NoRepeats;
    forall k | 0 <= k < |ops|
      ensures Operands(ops[k], ArityOf(arities, ops[k].instruction), qubits, |ops[k].params|)
    {
      RenamedAt(ops, Relocation(from, final), k);
      QubitsStay(ops[k].qubits, from, final);
      RelocatedArity(ops[k], from, final, arities);
      assert Operands(ops'[k], ArityOf(arities, ops'[k].instruction), qubits, |ops'[k].params|);
    }
  }

  lemma {:induction false} RenamedAt(ops: seq<Operation>, r: Renaming, k: nat)
    requires k < |ops|
    ensures |RenameOps(ops, r)| == |ops| && RenameOps(ops, r)[k] == RenameOp(ops[k], r)
    decreases |ops|
  {
    hide RenameOp;
    if k > 0 {
      RenamedAt(ops[1..], r, k - 1);
    }
  }

  lemma RelocatedArity(op: Operation, from: Table, final: Table, arities: Arities)
    ensures var op' := RenameOp(op, Relocation(from, final));
            ArityOf(arities, op'.instruction) == ArityOf(arities, op.instruction) && |op'.params| == |op.params|
            && op'.qubits == op.qubits && (op'.instruction.Gate? <==> op.instruction.Gate?)
  {
    hide Relocation, RenameControl;
    QubitsStay(op.qubits, from, final);
    if op.instruction.Data? {
      DataStays(op.instruction.data, from, final);
    }
  }

  /** On a rebuildable input every append succeeds, and the tree that results is equal and valid. */
  lemma AppendsForward(d0: Draft, ops: seq<Operation>, from: Table, arities: Arities)
    requires d0.scopes == [] && d0.ops == [] && d0.params == [] && d0.symbols == SymbolsOf(d0.params)
    requires WellMade(ops, AsSet(d0.qubits), |from|) && Valid(ops, d0.Handles()) && AllOperands(ops, d0.qubits, arities)
    ensures var r := AppendAll(d0, ops, from, arities);
            && r.Ok? && r.value == d0.(params := r.value.params, symbols := r.value.symbols, ops := r.value.ops)
            && Valid(r.value.ops, d0.Handles()) && ParamsKnown(r.value.ops, |r.value.params|)
            && OpsEqual(r.value.ops, ops, r.value.params, from)
  {
    hide AppendAll, LowerOps, Valid, Operands, ArityOf, WellMade, RenameOps, Relocation, OpsEqual, SymbolsOf, ParamsKnown, PreCheck, Identities;
    var known := AsSet(d0.qubits);
    OpsRelocated(ops, from, [], [], known);
    var (ops', t) := LowerOps(ops, from, []).value;
    OpsRelocated(ops, from, [], t, known);
    forall k | 0 <= k < |ops|
      ensures Rechecks(ops[k], d0, arities)
    {
      PassesExactly(d0, ops, k, arities);
    }
    AllAppended(d0, ops, from, t, d0, known, arities);
    assert [] + ops' == ops';
    EqualParamsKnown(ops', ops, t, from);
    RelocatedIsValid(ops, d0.Handles(), from, t);
  }

  /** Rebuilding succeeds exactly on rebuildable inputs, whatever their origin, and gives a valid circuit with equal operations. */
  lemma RebuildsExactly(qubits: seq<nat>, ops: seq<Operation>, from: Table, vars: seq<ClassicalType>, values: seq<ClassicalType>,
                        phase: Param, newId: nat, arities: Arities)
    ensures var r := Rebuild(qubits, ops, from, vars, values, phase, newId, arities);
            && (r.Ok? <==> Rebuildable(qubits, ops, from, vars, values, phase, newId, arities))
            && (r.Ok? ==>
                  var d := r.value;
                  && d.qubits == qubits && d.vars == vars && d.values == values && d.scopes == []
                  && d.id == IdentityOf(Identities(ops), newId) && TopValid(d) && OpsEqual(d.ops, ops, d.params, from)
                  && SamePhase(d.(params := from, phase := phase), d))
  {
    hide AppendAll, Valid, AllOperands, WellMade, OpsEqual, SymbolsOf, ParamsKnown, Identities, SetPhase;
    assert HasDuplicates(qubits) <==> !NoRepeats(qubits) by { SameRepeats(qubits); }
    if NoRepeats(qubits) && !Mixed(Identities(ops)) {
      var id := IdentityOf(Identities(ops), newId);
      var d0 := New(id, qubits).(vars := vars, values := values);
      EmptyStart(id, qubits, vars, values);
      var r := AppendAll(d0, ops, from, arities);
      if WellMade(ops, AsSet(qubits), |from|) && AllOperands(ops, qubits, arities) && Valid(ops, d0.Handles()) {
        AppendsForward(d0, ops, from, arities);
      } else if r.Ok? && Valid(r.value.ops, d0.Handles()) {
        AppendedBack(d0, ops, from, arities);
      }
      if r.Ok? {
        HandlesKept(d0, ops, from, arities);
        if Rebuild(qubits, ops, from, vars, values, phase, newId, arities).Ok? {
          AppendedBack(d0, ops, from, arities);
          AppendsForward(d0, ops, from, arities);
          var d := r.value;
          PhaseSet(d.(params := from, phase := phase), d);
          var d' := SetPhase(d, Resolved(phase, from));
          EqualMore(d.ops, ops, d.params, d'.params, from);
        }
      }
    }
  }

  lemma HandlesKept(d0: Draft, ops: seq<Operation>, from: Table, arities: Arities)
    requires AppendAll(d0, ops, from, arities).Ok? && d0.symbols == SymbolsOf(d0.params)
    ensures AppendAll(d0, ops, from, arities).value.Handles() == d0.Handles()
  {
    hide AppendAll, SymbolsOf;
    AppendedAll(d0, ops, from, arities);
  }
}
