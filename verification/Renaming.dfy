/**
 Renaming qubits, parameters, variables and values through a whole operation tree. Renaming fails
 only on a handle it has no entry for, and the verifier accepts a renamed tree exactly when it
 accepts the original, provided the renaming preserves types and never identifies two values.
 */
module Renaming {
  import opened Prelude
  import opened Ir
  import opened Placement
  import opened Verifier

  datatype RemapError =
    | QubitNotFound(qubit: nat)
    | InvalidParameterIndex(index: nat)
    | MissingVar(v: ClassicalVar)
    | MissingValue(value: ClassicalValue)
    | Rejected

  /** Where handles go. Without a qubit or parameter table those fields are kept as they are. */
  datatype Renaming = HandleMap(
    qubits: Option<map<nat, nat>>,
    params: Option<seq<Param>>,
    vars: map<ClassicalVar, ClassicalVar>,
    values: map<ClassicalValue, ClassicalValue>)
  {
    predicate HasQubit(q: nat) {
      qubits.None? || q in qubits.value
    }

    function Qubit(q: nat): nat {
      if qubits.None? || q !in qubits.value then q else qubits.value[q]
    }

    predicate HasParam(p: Param) {
      params.None? || p.Fixed? || p.index < |params.value|
    }

    function Parameter(p: Param): Param {
      if params.None? || p.Fixed? || p.index >= |params.value| then p else params.value[p.index]
    }

    function Var(v: ClassicalVar): ClassicalVar {
      if v in vars then vars[v] else v
    }

    function Value(v: ClassicalValue): ClassicalValue {
      if v in values then values[v] else v
    }

    /** Types are preserved and distinct values stay distinct. */
    predicate Safe() {
      && (forall v | v in vars :: vars[v].ty == v.ty)
      && (forall v | v in values :: values[v].ty == v.ty)
      && (forall v, w | v in values && w in values && values[v] == values[w] :: v == w)
    }

    /** Handles of `h` go to handles of `h'`. */
    predicate Between(h: Handles, h': Handles) {
      && (forall v | v in vars :: h.OwnsVar(v) && h'.OwnsVar(vars[v]))
      && (forall v | v in values :: h.OwnsValue(v) && h'.OwnsValue(values[v]))
    }
  }

  // ---- the renamed tree ---------------------------------------------------------------------------

  function RenameExpr(e: Expr, r: Renaming): Expr {
    match e
    case VarRead(v) => VarRead(r.Var(v))
    case ValueRead(v) => ValueRead(r.Value(v))
    case Apply(op, ty, args) => Apply(op, ty, RenameExprs(args, r))
  }

  function RenameExprs(es: seq<Expr>, r: Renaming): (s: seq<Expr>)
    ensures |s| == |es|
  {
    if es == [] then [] else [RenameExpr(es[0], r)] + RenameExprs(es[1..], r)
  }

  function RenameData(d: DataOp, r: Renaming): DataOp {
    match d
    case Store(v, e) => Store(r.Var(v), RenameExpr(e, r))
    case MeasureBit(v) => MeasureBit(r.Value(v))
    case MeasureBits(v) => MeasureBits(r.Value(v))
  }

  function RenameOps(ops: seq<Operation>, r: Renaming): (s: seq<Operation>)
    ensures |s| == |ops|
    decreases ops
  {
    if ops == [] then [] else [RenameOp(ops[0], r)] + RenameOps(ops[1..], r)
  }

  function RenameQubits(qs: seq<nat>, r: Renaming): (s: seq<nat>)
    ensures |s| == |qs| && forall i | 0 <= i < |qs| :: s[i] == r.Qubit(qs[i])
  {
    if qs == [] then [] else [r.Qubit(qs[0])] + RenameQubits(qs[1..], r)
  }

  function RenameParams(ps: seq<Param>, r: Renaming): (s: seq<Param>)
    ensures |s| == |ps| && forall i | 0 <= i < |ps| :: s[i] == r.Parameter(ps[i])
  {
    if ps == [] then [] else [r.Parameter(ps[0])] + RenameParams(ps[1..], r)
  }

  function RenameOp(op: Operation, r: Renaming): Operation
    decreases op
  {
    Operation(RenameInstruction(op.instruction, r),
              RenameQubits(op.qubits, r), RenameParams(op.params, r), op.tag)
  }

  function RenameInstruction(i: Instruction, r: Renaming): Instruction
    decreases i
  {
    match i
    case Gate(_) => i
    case Data(d) => Data(RenameData(d, r))
    case Control(c) => Control(RenameControl(c, r))
  }

  function RenameControl(c: ControlOp, r: Renaming): ControlOp
    decreases c
  {
    match c
    case If(e, t, els) => If(RenameExpr(e, r), RenameOps(t, r), RenameMaybe(els, r))
    case While(e, b) => While(RenameExpr(e, r), RenameOps(b, r))
    case For(v, a, z, s, b) => For(r.Var(v), RenameExpr(a, r), RenameExpr(z, r), RenameExpr(s, r), RenameOps(b, r))
    case Switch(e, cases, d) => Switch(RenameExpr(e, r), RenameCases(cases, r), RenameMaybe(d, r))
    case Break => Break
    case Continue => Continue
  }

  function RenameMaybe(b: MaybeBody, r: Renaming): MaybeBody
    decreases b
  {
    match b
    case Absent => Absent
    case Present(ops) => Present(RenameOps(ops, r))
  }

  function RenameCases(cases: seq<SwitchCase>, r: Renaming): (s: seq<SwitchCase>)
    ensures |s| == |cases| && forall k | 0 <= k < |cases| :: s[k].value == cases[k].value
    decreases cases
  {
    if cases == [] then [] else [RenameCase(cases[0], r)] + RenameCases(cases[1..], r)
  }

  function RenameCase(c: SwitchCase, r: Renaming): SwitchCase
    decreases c
  {
    SwitchCase(c.value, RenameOps(c.body, r))
  }

  // ---- renaming with failure --------------------------------------------------------------------------

  /** Every handle the tree mentions has an entry, and every control operation was accepted when constructed. */
  predicate Ready(ops: seq<Operation>, r: Renaming)
    decreases ops
  {
    forall k | 0 <= k < |ops| :: ReadyOp(ops[k], r)
  }

  predicate ReadyOp(op: Operation, r: Renaming)
    decreases op
  {
    && (forall q | q in op.qubits :: r.HasQubit(q)) && (forall p | p in op.params :: r.HasParam(p))
    && match op.instruction
       case Gate(_) => true
       case Data(d) => ReadyData(d, r)
       case Control(c) =>
         && Accepted(c) && (c.For? ==> c.loopVar in r.vars) && (forall e | e in Heads(c) :: ReadyExpr(e, r))
         && forall k | 0 <= k < |Bodies(c)| :: Ready(Bodies(c)[k], r)
  }

  predicate ReadyExpr(e: Expr, r: Renaming) {
    e.Vars() <= r.vars.Keys && e.Values() <= r.values.Keys
  }

  predicate ReadyData(d: DataOp, r: Renaming) {
    match d
    case Store(v, e) => v in r.vars && ReadyExpr(e, r)
    case MeasureBit(v) => v in r.values
    case MeasureBits(v) => v in r.values
  }

  function RemapExpr(e: Expr, r: Renaming): Result<Expr, RemapError> {
    match e
    case VarRead(v) => if v in r.vars then Ok(VarRead(r.vars[v])) else Err(MissingVar(v))
    case ValueRead(v) => if v in r.values then Ok(ValueRead(r.values[v])) else Err(MissingValue(v))
    case Apply(op, ty, args) =>
      var args' :- RemapExprs(args, r);
      Ok(Apply(op, ty, args'))
  }

  function RemapExprs(es: seq<Expr>, r: Renaming): Result<seq<Expr>, RemapError> {
    if es == [] then Ok([])
    else
      var e :- RemapExpr(es[0], r);
      var rest :- RemapExprs(es[1..], r);
      Ok([e] + rest)
  }

  function RemapQubits(qs: seq<nat>, r: Renaming): Result<seq<nat>, RemapError> {
    if qs == [] then Ok([])
    else if !r.HasQubit(qs[0]) then Err(QubitNotFound(qs[0]))
    else
      var rest :- RemapQubits(qs[1..], r);
      Ok([r.Qubit(qs[0])] + rest)
  }

  function RemapParams(ps: seq<Param>, r: Renaming): Result<seq<Param>, RemapError> {
    if ps == [] then Ok([])
    else if !r.HasParam(ps[0]) then Err(InvalidParameterIndex(ps[0].index))
    else
      var rest :- RemapParams(ps[1..], r);
      Ok([r.Parameter(ps[0])] + rest)
  }

  function RemapData(d: DataOp, r: Renaming): Result<DataOp, RemapError> {
    match d
    case Store(v, e) =>
      if v !in r.vars then Err(MissingVar(v))
      else
        var e' :- RemapExpr(e, r);
        Ok(Store(r.vars[v], e'))
    case MeasureBit(v) => if v in r.values then Ok(MeasureBit(r.values[v])) else Err(MissingValue(v))
    case MeasureBits(v) => if v in r.values then Ok(MeasureBits(r.values[v])) else Err(MissingValue(v))
  }

  function RemapOps(ops: seq<Operation>, r: Renaming): Result<seq<Operation>, RemapError>
    decreases ops
  {
    if ops == [] then Ok([])
    else
      var op :- RemapOp(ops[0], r);
      var rest :- RemapOps(ops[1..], r);
      Ok([op] + rest)
  }

  function RemapOp(op: Operation, r: Renaming): Result<Operation, RemapError>
    decreases op
  {
    var qs :- RemapQubits(op.qubits, r);
    var ps :- RemapParams(op.params, r);
    match op.instruction
    case Gate(_) => Ok(Operation(op.instruction, qs, ps, op.tag))
    case Data(d) =>
      var d' :- RemapData(d, r);
      Ok(Operation(Data(d'), qs, ps, op.tag))
    case Control(c) =>
      var c' :- RemapControl(c, r);
      Ok(Operation(Control(c'), qs, ps, op.tag))
  }

  /** The constructors of control operations repeat their checks. */
  function Constructed(c: ControlOp): Result<ControlOp, RemapError> {
    if Accepted(c) then Ok(c) else Err(Rejected)
  }

  function RemapControl(c: ControlOp, r: Renaming): Result<ControlOp, RemapError>
    decreases c
  {
    match c
    case If(e, t, els) =>
      var e' :- RemapExpr(e, r);
      var t' :- RemapOps(t, r);
      var els' :- RemapMaybe(els, r);
      Constructed(If(e', t', els'))
    case While(e, b) =>
      var e' :- RemapExpr(e, r);
      var b' :- RemapOps(b, r);
      Constructed(While(e', b'))
    case For(v, a, z, s, b) =>
      if v !in r.vars then Err(MissingVar(v))
      else
        var a' :- RemapExpr(a, r);
        var z' :- RemapExpr(z, r);
        var s' :- RemapExpr(s, r);
        var b' :- RemapOps(b, r);
        Constructed(For(r.vars[v], a', z', s', b'))
    case Switch(e, cases, d) =>
      var e' :- RemapExpr(e, r);
      var cases' :- RemapCases(cases, r);
      var d' :- RemapMaybe(d, r);
      Constructed(Switch(e', cases', d'))
    case Break => Ok(Break)
    case Continue => Ok(Continue)
  }

  function RemapMaybe(b: MaybeBody, r: Renaming): Result<MaybeBody, RemapError>
    decreases b
  {
    match b
    case Absent => Ok(Absent)
    case Present(ops) =>
      var ops' :- RemapOps(ops, r);
      Ok(Present(ops'))
  }

  function RemapCases(cases: seq<SwitchCase>, r: Renaming): Result<seq<SwitchCase>, RemapError>
    decreases cases
  {
    if cases == [] then Ok([])
    else
      var first :- RemapCase(cases[0], r);
      var rest :- RemapCases(cases[1..], r);
      Ok([first] + rest)
  }

  function RemapCase(c: SwitchCase, r: Renaming): Result<SwitchCase, RemapError>
    decreases c
  {
    var body :- RemapOps(c.body, r);
    Ok(SwitchCase(c.value, body))
  }

  // ---- the two forms agree -----------------------------------------------------------------------------

  lemma {:induction false} TyRenamed(e: Expr, r: Renaming)
    requires r.Safe()
    ensures RenameExpr(e, r).Ty() == e.Ty()
  {
  }

  lemma {:induction false} RemapExprIs(e: Expr, r: Renaming)
    ensures RemapExpr(e, r).Ok? <==> ReadyExpr(e, r)
    ensures RemapExpr(e, r).Ok? ==> RemapExpr(e, r) == Ok(RenameExpr(e, r))
    decreases e, 0
  {
    if e.Apply? {
      RemapExprsIs(e.args, r);
      assert ReadyExpr(e, r) <==> forall a | a in e.args :: ReadyExpr(a, r) by {
        if ReadyExpr(e, r) {
          forall a | a in e.args
            ensures ReadyExpr(a, r)
          {
            assert forall v | v in a.Vars() :: v in e.Vars();
            assert forall v | v in a.Values() :: v in e.Values();
          }
        }
      }
    }
  }

  lemma {:induction false} RemapExprsIs(es: seq<Expr>, r: Renaming)
    ensures RemapExprs(es, r).Ok? <==> forall e | e in es :: ReadyExpr(e, r)
    ensures RemapExprs(es, r).Ok? ==> RemapExprs(es, r) == Ok(RenameExprs(es, r))
    decreases es, 1
  {
    hide ReadyExpr;
    if es != [] {
      RemapExprIs(es[0], r);
      RemapExprsIs(es[1..], r);
      assert forall e :: e in es <==> e == es[0] || e in es[1..];
    }
  }

  lemma {:induction false} RemapQubitsIs(qs: seq<nat>, r: Renaming)
    ensures RemapQubits(qs, r).Ok? <==> forall q | q in qs :: r.HasQubit(q)
    ensures RemapQubits(qs, r).Ok? ==> RemapQubits(qs, r) == Ok(RenameQubits(qs, r))
    decreases |qs|
  {
    if qs != [] {
      RemapQubitsIs(qs[1..], r);
      assert forall q :: q in qs <==> q == qs[0] || q in qs[1..];
    }
  }

  lemma {:induction false} RemapParamsIs(ps: seq<Param>, r: Renaming)
    ensures RemapParams(ps, r).Ok? <==> forall p | p in ps :: r.HasParam(p)
    ensures RemapParams(ps, r).Ok? ==> RemapParams(ps, r) == Ok(RenameParams(ps, r))
    decreases |ps|
  {
    if ps != [] {
      RemapParamsIs(ps[1..], r);
      assert forall p :: p in ps <==> p == ps[0] || p in ps[1..];
    }
  }

  lemma RemapDataIs(d: DataOp, r: Renaming)
    ensures RemapData(d, r).Ok? <==> ReadyData(d, r)
    ensures RemapData(d, r).Ok? ==> RemapData(d, r) == Ok(RenameData(d, r))
  {
    if d.Store? {
      RemapExprIs(d.value, r);
    }
  }

  /** Remapping fails exactly when some handle has no entry, and otherwise renames everything. */
  lemma {:induction false} RemapIsRename(ops: seq<Operation>, r: Renaming)
    requires r.Safe()
    ensures RemapOps(ops, r).Ok? <==> Ready(ops, r)
    ensures RemapOps(ops, r).Ok? ==> RemapOps(ops, r) == Ok(RenameOps(ops, r))
    decreases ops
  {
    hide ReadyOp, RemapOp, RenameOp, r.Safe;
    if ops != [] {
      RemapOpIs(ops[0], r);
      RemapIsRename(ops[1..], r);
      ReadyHead(ops, r);
    }
  }

  lemma ReadyHead(ops: seq<Operation>, r: Renaming)
    requires ops != []
    ensures Ready(ops, r) <==> ReadyOp(ops[0], r) && Ready(ops[1..], r)
  {
    if ReadyOp(ops[0], r) && Ready(ops[1..], r) {
      forall k | 0 <= k < |ops|
        ensures ReadyOp(ops[k], r)
      {
        assert k > 0 ==> ops[k] == ops[1..][k - 1];
      }
    }
  }

  lemma {:induction false} RemapOpIs(op: Operation, r: Renaming)
    requires r.Safe()
    ensures RemapOp(op, r).Ok? <==> ReadyOp(op, r)
    ensures RemapOp(op, r).Ok? ==> RemapOp(op, r) == Ok(RenameOp(op, r))
    decreases op
  {
    hide RemapControl, RemapData, Ready, ReadyData, RenameControl, RenameData, r.Safe, RemapQubits, RemapParams, Accepted, ReadyExpr;
    RemapQubitsIs(op.qubits, r);
    RemapParamsIs(op.params, r);
    match op.instruction {
      case Gate(_) =>
      case Data(d) => RemapDataIs(d, r);
      case Control(c) => RemapControlIs(c, r);
    }
  }

  predicate ReadyControl(c: ControlOp, r: Renaming) {
    && Accepted(c) && (c.For? ==> c.loopVar in r.vars) && (forall e | e in Heads(c) :: ReadyExpr(e, r))
    && forall k | 0 <= k < |Bodies(c)| :: Ready(Bodies(c)[k], r)
  }

  lemma AcceptedRenamed(c: ControlOp, r: Renaming)
    requires r.Safe() && (c.For? ==> c.loopVar in r.vars)
    ensures Accepted(RenameControl(c, r)) <==> Accepted(c)
  {
    match c {
      case If(e, _, _) => TyRenamed(e, r);
      case While(e, _) => TyRenamed(e, r);
      case For(v, a, z, s, _) =>
        TyRenamed(a, r);
        TyRenamed(z, r);
        TyRenamed(s, r);
      case Switch(e, cases, _) => TyRenamed(e, r);
      case Break =>
      case Continue =>
    }
  }

  lemma {:induction false} RemapControlIs(c: ControlOp, r: Renaming)
    requires r.Safe()
    ensures RemapControl(c, r).Ok? <==> ReadyControl(c, r)
    ensures RemapControl(c, r).Ok? ==> RemapControl(c, r) == Ok(RenameControl(c, r))
    decreases c
  {
    hide r.Safe, ReadyExpr, Ready, Accepted, RemapOps, RenameOps, RemapExpr, RenameExpr;
    if c.For? && c.loopVar !in r.vars {
    } else {
      AcceptedRenamed(c, r);
      match c {
        case If(e, t, els) =>
          RemapExprIs(e, r);
          RemapIsRename(t, r);
          RemapMaybeIs(els, r);
          assert Heads(c) == [e];
          assert Bodies(c)[0] == t && (els.Present? ==> |Bodies(c)| == 2 && Bodies(c)[1] == els.ops);
        case While(e, b) =>
          RemapExprIs(e, r);
          RemapIsRename(b, r);
          assert Heads(c) == [e] && Bodies(c) == [b] && Bodies(c)[0] == b;
        case For(v, a, z, s, b) =>
          RemapExprIs(a, r);
          RemapExprIs(z, r);
          RemapExprIs(s, r);
          RemapIsRename(b, r);
          assert Heads(c) == [a, z, s] && Bodies(c) == [b] && Bodies(c)[0] == b;
          assert forall x :: x in Heads(c) <==> x == a || x == z || x == s;
        case Switch(e, cases, d) =>
          RemapExprIs(e, r);
          RemapCasesIs(cases, r);
          RemapMaybeIs(d, r);
          assert Heads(c) == [e];
          SwitchReady(e, cases, d, r);
        case Break => assert Heads(c) == [] && Bodies(c) == []; assert Accepted(c) by { TransferAccepted(c); }
        case Continue => assert Heads(c) == [] && Bodies(c) == []; assert Accepted(c) by { TransferAccepted(c); }
      }
    }
  }

  lemma TransferAccepted(c: ControlOp)
    requires c.Break? || c.Continue?
    ensures Accepted(c)
  {
  }

  lemma SwitchReady(e: Expr, cases: seq<SwitchCase>, d: MaybeBody, r: Renaming)
    ensures var bs := Bodies(Switch(e, cases, d));
            (forall k | 0 <= k < |bs| :: Ready(bs[k], r))
              <==> (forall k | 0 <= k < |cases| :: Ready(cases[k].body, r)) && (d.Present? ==> Ready(d.ops, r))
  {
    hide Ready;
    var bs := Bodies(Switch(e, cases, d));
    assert forall k | 0 <= k < |cases| :: bs[k] == cases[k].body;
    if d.Present? {
      assert bs[|cases|] == d.ops;
    }
  }

  lemma {:induction false} RemapMaybeIs(b: MaybeBody, r: Renaming)
    requires r.Safe()
    ensures RemapMaybe(b, r).Ok? <==> (b.Present? ==> Ready(b.ops, r))
    ensures RemapMaybe(b, r).Ok? ==> RemapMaybe(b, r) == Ok(RenameMaybe(b, r))
    decreases b
  {
    if b.Present? {
      RemapIsRename(b.ops, r);
    }
  }

  lemma {:induction false} RemapCasesIs(cases: seq<SwitchCase>, r: Renaming)
    requires r.Safe()
    ensures RemapCases(cases, r).Ok? <==> forall k | 0 <= k < |cases| :: Ready(cases[k].body, r)
    ensures RemapCases(cases, r).Ok? ==> RemapCases(cases, r) == Ok(RenameCases(cases, r))
    decreases cases
  {
    hide Ready, r.Safe;
    if cases != [] {
      RemapCaseIs(cases[0], r);
      RemapCasesIs(cases[1..], r);
      assert forall k | 1 <= k < |cases| :: cases[k] == cases[1..][k - 1];
    }
  }

  lemma {:induction false} RemapCaseIs(c: SwitchCase, r: Renaming)
    requires r.Safe()
    ensures RemapCase(c, r).Ok? <==> Ready(c.body, r)
    ensures RemapCase(c, r).Ok? ==> RemapCase(c, r) == Ok(RenameCase(c, r))
    decreases c
  {
    RemapIsRename(c.body, r);
  }
}
