/**
 The checks an append makes before it adds an operation, made again later: they still pass when the
 tables have grown, and under another identity when the operation mentions no classical handle.
 Every operation of a circuit built by callbacks passes them again.
 */
module Rechecking {
  import opened Prelude
  import opened Ir
  import opened Verifier
  import opened Builder
  import opened BuilderSafety
  import opened BuilderReach
  import AppendMeaning

  /** The fixed operand counts of opaque instructions, by name. */
  type Arities = string -> Option<(nat, nat)>

  function ArityOf(arities: Arities, i: Instruction): Option<(nat, nat)> {
    match i
    case Gate(name) => arities(name)
    case Data(d) => DataArity(d)
    case Control(_) => None
  }

  // ---- the identities mentioned in a tree -----------------------------------------------------------

  function ExprIds(e: Expr): set<nat> {
    (set v | v in e.Vars() :: v.circuit) + (set v | v in e.Values() :: v.circuit)
  }

  function DataIds(d: DataOp): set<nat> {
    match d
    case Store(v, e) => {v.circuit} + ExprIds(e)
    case MeasureBit(r) => {r.circuit}
    case MeasureBits(r) => {r.circuit}
  }

  function HeadIds(c: ControlOp): set<nat> {
    (set e, i | e in Heads(c) && i in ExprIds(e) :: i) + if c.For? then {c.loopVar.circuit} else {}
  }

  /** The identities of all classical handles, at any depth. */
  function Identities(ops: seq<Operation>): set<nat>
    decreases ops
  {
    if ops == [] then {} else OpIds(ops[0]) + Identities(ops[1..])
  }

  function OpIds(op: Operation): set<nat>
    decreases op
  {
    match op.instruction
    case Gate(_) => {}
    case Data(d) => DataIds(d)
    case Control(c) => HeadIds(c) + BodyIds(c, 0)
  }

  function BodyIds(c: ControlOp, k: nat): set<nat>
    requires k <= |Bodies(c)|
    decreases c, |Bodies(c)| - k
  {
    if k == |Bodies(c)| then {} else Identities(Bodies(c)[k]) + BodyIds(c, k + 1)
  }

  /** Handles with an identity in `ids` that belong to `h` belong to `h'`. */
  predicate Reaches(h: Handles, h': Handles, ids: set<nat>) {
    h.vars <= h'.vars && h.values <= h'.values && (h'.id == h.id || h.id !in ids)
  }

  lemma ReachedExpr(e: Expr, h: Handles, h': Handles, ids: set<nat>)
    requires Reaches(h, h', ids) && ExprIds(e) <= ids && h.OwnsExpr(e)
    ensures h'.OwnsExpr(e)
  {
    assert forall v | v in e.Vars() :: v.circuit in ExprIds(e);
    assert forall v | v in e.Values() :: v.circuit in ExprIds(e);
  }

  lemma ReachedData(d: DataOp, n: nat, h: Handles, h': Handles, ids: set<nat>)
    requires Reaches(h, h', ids) && DataIds(d) <= ids && CheckData(d, n, h).None?
    ensures CheckData(d, n, h').None?
  {
    assert forall i | i in DataIds(d) :: i in ids;
    if d.Store? {
      assert d.target.circuit in DataIds(d);
      ReachedExpr(d.value, h, h', ids);
    } else {
      assert d.result.circuit in DataIds(d);
    }
  }

  lemma {:induction false} ReachedHeads(heads: seq<Expr>, h: Handles, h': Handles, ids: set<nat>)
    requires Reaches(h, h', ids) && (forall e | e in heads :: ExprIds(e) <= ids) && CheckHeads(heads, h).None?
    ensures CheckHeads(heads, h').None?
    decreases |heads|
  {
    hide ExprIds;
    if heads != [] {
      assert ExprIds(heads[0]) <= ids;
      ReachedExpr(heads[0], h, h', ids);
      ReachedHeads(heads[1..], h, h', ids);
    }
  }

  // ---- checks pass again ----------------------------------------------------------------------------

  /** The same qubits, and handle tables that reach. */
  predicate Moves(s: Draft, s': Draft, ids: set<nat>) {
    s'.qubits == s.qubits && Reaches(s.Handles(), s'.Handles(), ids)
  }

  lemma {:induction false} BodyPasses(ops: seq<Operation>, s: Draft, s': Draft, p: Placing, ids: set<nat>)
    requires Moves(s, s', ids) && Identities(ops) <= ids && CheckBody(ops, s, p).None?
    ensures CheckBody(ops, s', p).None?
    decreases ops
  {
    hide CheckBodyOp, OpIds, Moves;
    if ops != [] {
      BodyOpPasses(ops[0], s, s', p, ids);
      BodyPasses(ops[1..], s, s', p, ids);
    }
  }

  lemma {:induction false} BodyOpPasses(op: Operation, s: Draft, s': Draft, p: Placing, ids: set<nat>)
    requires Moves(s, s', ids) && OpIds(op) <= ids && CheckBodyOp(op, s, p).None?
    ensures CheckBodyOp(op, s', p).None?
    decreases op
  {
    hide CheckData, CheckControl, FirstMissing;
    if op.instruction.Data? {
      ReachedData(op.instruction.data, |op.qubits|, s.Handles(), s'.Handles(), ids);
    } else if op.instruction.Control? {
      ControlPasses(op.instruction.control, s, s', p, ids);
    }
  }

  lemma {:induction false} ControlPasses(c: ControlOp, s: Draft, s': Draft, p: Placing, ids: set<nat>)
    requires Moves(s, s', ids) && HeadIds(c) + BodyIds(c, 0) <= ids && CheckControl(c, s, p).None?
    ensures CheckControl(c, s', p).None?
    decreases c, |Bodies(c)| + 1
  {
    hide CheckHeads, CheckBodies, Enter, ExprIds, BodyIds;
    if !c.Break? && !c.Continue? {
      var h, h' := s.Handles(), s'.Handles();
      assert forall i | i in HeadIds(c) :: i in ids;
      forall e | e in Heads(c)
        ensures ExprIds(e) <= ids
      {
        assert forall i | i in ExprIds(e) :: i in HeadIds(c);
      }
      ReachedHeads(Heads(c), h, h', ids);
      if c.For? {
        assert c.loopVar.circuit in HeadIds(c);
      }
      BodiesPass(c, 0, s, s', Enter(p, c), ids);
    }
  }

  lemma {:induction false} BodiesPass(c: ControlOp, k: nat, s: Draft, s': Draft, p: Placing, ids: set<nat>)
    requires k <= |Bodies(c)|
    requires Moves(s, s', ids) && BodyIds(c, k) <= ids && CheckBodies(c, k, s, p).None?
    ensures CheckBodies(c, k, s', p).None?
    decreases c, |Bodies(c)| - k
  {
    hide CheckBody, Bodies, Identities, Moves;
    if k < |Bodies(c)| {
      BodyPasses(Bodies(c)[k], s, s', p, ids);
      BodiesPass(c, k + 1, s, s', p, ids);
    }
  }

  /** The checks on an operation pass again in a state it moves to. */
  lemma PreCheckPasses(s: Draft, s': Draft, instruction: Instruction, arity: Option<(nat, nat)>, qubits: seq<nat>, n: nat, ids: set<nat>)
    requires Moves(s, s', ids) && s'.scopes == s.scopes && PreCheck(s, instruction, arity, qubits, n).None?
    requires OpIds(Operation(instruction, qubits, [], None)) <= ids
    ensures PreCheck(s', instruction, arity, qubits, n).None?
  {
    hide CheckControl, CheckData, FirstMissing, HasDuplicates;
    if instruction.Control? {
      ControlPasses(instruction.control, s, s', s.Placing(), ids);
    } else if instruction.Data? {
      ReachedData(instruction.data, |qubits|, s.Handles(), s'.Handles(), ids);
    }
  }

  // ---- every operation of a built circuit passes them --------------------------------------------------

  predicate Rechecks(op: Operation, s: Draft, arities: Arities) {
    PreCheck(s, op.instruction, ArityOf(arities, op.instruction), op.qubits, |op.params|).None?
  }

  predicate AllRecheck(s: Draft, arities: Arities) {
    forall k | 0 <= k < |s.ops| :: Rechecks(s.ops[k], s, arities)
  }

  lemma RecheckGrows(op: Operation, s: Draft, s': Draft, arities: Arities)
    requires Extends(s, s') && Rechecks(op, s, arities)
    ensures Rechecks(op, s', arities)
  {
    hide PreCheck, OpIds;
    var ids := OpIds(Operation(op.instruction, op.qubits, [], None));
    PreCheckPasses(s, s', op.instruction, ArityOf(arities, op.instruction), op.qubits, |op.params|, ids);
  }

  lemma AllRecheckGrows(s: Draft, s': Draft, arities: Arities)
    requires Extends(s, s') && s'.ops == s.ops && AllRecheck(s, arities)
    ensures AllRecheck(s', arities)
  {
    hide Rechecks;
    forall k | 0 <= k < |s'.ops|
      ensures Rechecks(s'.ops[k], s', arities)
    {
      RecheckGrows(s.ops[k], s, s', arities);
    }
  }

  /** An append keeps the property, whether it succeeds or fails. */
  lemma AppendRechecks(s: Draft, instruction: Instruction, qubits: seq<nat>, args: seq<Argument>, tag: Option<string>, arities: Arities)
    requires AllRecheck(s, arities)
    ensures AllRecheck(AppendOp(s, instruction, ArityOf(arities, instruction), qubits, args, tag).0, arities)
  {
    hide PreCheck, Verify, VerifyBuilder;
    var arity := ArityOf(arities, instruction);
    var (s', e) := AppendOp(s, instruction, arity, qubits, args, tag);
    AppendGrows(s, instruction, arity, qubits, args, tag);
    if e.Some? {
      AllRecheckGrows(s, s', arities);
    } else {
      AppendMeaning.LowerRecords(s, args, 0);
      LowerExtends(s, args, 0);
      var op := s'.ops[|s.ops|];
      assert s'.ops == s.ops + [op] && Rechecks(op, s, arities);
      forall k | 0 <= k < |s'.ops|
        ensures Rechecks(s'.ops[k], s', arities)
      {
        RecheckGrows(s'.ops[k], s, s', arities);
      }
    }
  }

  lemma DataRechecks(s: Draft, s1: Draft, d: DataOp, qubits: seq<nat>, arities: Arities)
    requires AllRecheck(s, arities) && Extends(s, s1) && s1.ops == s.ops
    ensures AllRecheck(AppendData(s1, d, qubits).0, arities)
  {
    hide AppendOp, AllRecheck;
    AllRecheckGrows(s, s1, arities);
    AppendRechecks(s1, Data(d), qubits, [], None, arities);
  }

  lemma ControlRechecks(s: Draft, s1: Draft, c: ControlOp, arities: Arities)
    requires AllRecheck(s, arities) && Extends(s, s1) && s1.ops == s.ops
    ensures AllRecheck(AppendControl(s1, c).0, arities)
  {
    hide AppendOp, AllRecheck;
    AllRecheckGrows(s, s1, arities);
    AppendRechecks(s1, Control(c), UsedQubits(Bodies(c)), [], None, arities);
  }

  /** Appends state the operand counts of their own instruction. Bodies are not asked: their operations are not counted again. */
  predicate OwnArities(c: Command, arities: Arities) {
    match c
    case Append(instruction, arity, _, _, _) => arity == ArityOf(arities, instruction)
    case Swallow(command) => OwnArities(command, arities)
    case _ => true
  }

  lemma StoreRechecks(s: Draft, target: ClassicalVar, value: Expr, arities: Arities)
    requires AllRecheck(s, arities)
    ensures AllRecheck(DoStore(s, target, value).0, arities)
  {
    hide AppendData, AllRecheck;
    DataRechecks(s, s, DataOp.Store(target, value), [], arities);
  }

  lemma MeasureRechecks(s: Draft, qubit: nat, arities: Arities)
    requires AllRecheck(s, arities) && DoMeasure(s, qubit).1.None?
    ensures AllRecheck(DoMeasure(s, qubit).0, arities)
  {
    hide AppendData, AllRecheck;
    var (s1, result) := AllocateValue(s, Bit);
    DataRechecks(s, s1, DataOp.MeasureBit(result), [qubit], arities);
  }

  lemma MeasureBitsRechecks(s: Draft, qubits: seq<nat>, arities: Arities)
    requires AllRecheck(s, arities) && DoMeasureBits(s, qubits).1.None?
    ensures AllRecheck(DoMeasureBits(s, qubits).0, arities)
  {
    hide AppendData, AllRecheck;
    if qubits != [] {
      var (s1, result) := AllocateValue(s, BitVec(|qubits|));
      DataRechecks(s, s1, DataOp.MeasureBits(result), qubits, arities);
    }
  }

  lemma OneRechecks(s: Draft, scope: Option<ScopeKind>, script: Script, make: seq<Operation> -> ControlOp, arities: Arities)
    requires AllRecheck(s, arities) && BuildOne(s, scope, script, make).1.None?
    ensures AllRecheck(BuildOne(s, scope, script, make).0, arities)
  {
    hide BuildBody, AppendControl, AllRecheck, Covers;
    BodyHeld(s, scope, script);
    var (s1, body) := BuildBody(s, scope, script);
    if body.Ok? {
      ControlRechecks(s, s1, make(body.value), arities);
    }
  }

  lemma TwoRecheck(s: Draft, c: Command, arities: Arities)
    requires c.IfElse? && AllRecheck(s, arities) && BuildTwo(s, c).1.None?
    ensures AllRecheck(BuildTwo(s, c).0, arities)
  {
    hide BuildBody, AppendControl, AllRecheck, Covers;
    BodyHeld(s, None, c.thenScript);
    var (s1, t) := BuildBody(s, None, c.thenScript);
    if t.Ok? {
      BodyHeld(s1, None, c.elseScript);
      var (s2, e) := BuildBody(s1, None, c.elseScript);
      if e.Ok? {
        ControlRechecks(s, s2, ControlOp.If(c.condition, t.value, Present(e.value)), arities);
      }
    }
  }

  lemma SwitchRechecks(s: Draft, c: Command, arities: Arities)
    requires c.Switch? && AllRecheck(s, arities) && Step(s, c).1.None?
    ensures AllRecheck(Step(s, c).0, arities)
  {
    hide Collect, AppendControl, AllRecheck, Covers;
    if CheckExpr(c.selector, s.Handles()).None? {
      assert CollectedBodies([], Absent) == [];
      GrowsSame(s);
      CollectHeld(s, s, c.build, [], Absent);
      var (s1, cases, default, e) := Collect(s, c.build, [], Absent);
      if e.None? {
        ControlRechecks(s, s1, ControlOp.Switch(c.selector, cases, default), arities);
      }
    }
  }

  /** Every command keeps the property. */
  lemma {:induction false} StepRechecks(s: Draft, c: Command, arities: Arities)
    requires AllRecheck(s, arities) && OwnArities(c, arities)
    ensures AllRecheck(Step(s, c).0, arities)
    decreases c
  {
    hide AllRecheck, BuildOne, BuildTwo, DoStore, DoMeasure, DoMeasureBits, AppendOp, AppendControl, CheckExpr, CheckVar, CheckRange, Collect, ArityOf;
    if AllOrNothing(c) && Step(s, c).1.Some? {
      FailureIsExact(s, c);
    } else {
      match c {
        case Append(instruction, _, qubits, args, tag) => AppendRechecks(s, instruction, qubits, args, tag, arities);
        case NewVar(ty) => AllRecheckGrows(s, s.(vars := s.vars + [ty]), arities);
        case Store(target, value) => StoreRechecks(s, target, value, arities);
        case Measure(qubit) => MeasureRechecks(s, qubit, arities);
        case MeasureBits(qubits) => MeasureBitsRechecks(s, qubits, arities);
        case MeasureInto(qubit, target) =>
          MeasureRechecks(s, qubit, arities);
          StoreRechecks(DoMeasure(s, qubit).0, target, ValueRead(ClassicalValue(s.id, |s.values|, Bit)), arities);
        case MeasureBitsInto(qubits, target) =>
          MeasureBitsRechecks(s, qubits, arities);
          StoreRechecks(DoMeasureBits(s, qubits).0, target, ValueRead(ClassicalValue(s.id, |s.values|, BitVec(|qubits|))), arities);
        case If(condition, script) => OneRechecks(s, None, script, body => ControlOp.If(condition, body, Absent), arities);
        case IfElse(_, _, _) => TwoRecheck(s, c, arities);
        case While(condition, script) => OneRechecks(s, Some(LoopScope), script, body => ControlOp.While(condition, body), arities);
        case ForUint(loopVar, start, stop, step, script) =>
          OneRechecks(s, Some(LoopScope), script, body => ControlOp.For(loopVar, start, stop, step, body), arities);
        case Switch(_, _) => SwitchRechecks(s, c, arities);
        case BreakLoop => ControlRechecks(s, s, Break, arities);
        case ContinueLoop => ControlRechecks(s, s, Continue, arities);
        case Swallow(command) => StepRechecks(s, command, arities);
        case Raise =>
      }
    }
  }

  lemma {:induction false} ScriptRechecks(s: Draft, script: Script, arities: Arities)
    requires AllRecheck(s, arities) && forall k | 0 <= k < |script| :: OwnArities(script[k], arities)
    ensures AllRecheck(Exec(s, script).0, arities)
    decreases |script|
  {
    hide Step, AllRecheck, OwnArities;
    if script != [] {
      StepRechecks(s, script[0], arities);
      var o := Step(s, script[0]);
      if o.1.None? {
        ScriptRechecks(o.0, script[1..], arities);
      }
    }
  }

  // ---- identities of a typed tree ------------------------------------------------------------------------

  /** All handles of a typed tree have the identity of its circuit. */
  lemma {:induction false} TypedIds(ops: seq<Operation>, h: Handles)
    requires Typed(ops, h)
    ensures Identities(ops) <= {h.id}
    decreases ops
  {
    hide TypedOp, OpIds;
    if ops != [] {
      TypedHead(ops, h);
      TypedOpIds(ops[0], h);
      TypedIds(ops[1..], h);
    }
  }

  lemma ExprIdsOwned(e: Expr, h: Handles)
    requires h.OwnsExpr(e)
    ensures ExprIds(e) <= {h.id}
  {
  }

  lemma {:induction false} TypedOpIds(op: Operation, h: Handles)
    requires TypedOp(op, h)
    ensures OpIds(op) <= {h.id}
    decreases op
  {
    hide ExprIds;
    if op.instruction.Data? {
      if op.instruction.data.Store? {
        ExprIdsOwned(op.instruction.data.value, h);
      }
    } else if op.instruction.Control? {
      var c := op.instruction.control;
      forall e | e in Heads(c)
        ensures ExprIds(e) <= {h.id}
      {
        ExprIdsOwned(e, h);
      }
      TypedBodyIds(c, 0, h);
    }
  }

  lemma {:induction false} TypedBodyIds(c: ControlOp, k: nat, h: Handles)
    requires k <= |Bodies(c)| && forall j | 0 <= j < |Bodies(c)| :: Typed(Bodies(c)[j], h)
    ensures BodyIds(c, k) <= {h.id}
    decreases c, |Bodies(c)| - k
  {
    hide Typed, Identities;
    if k < |Bodies(c)| {
      TypedIds(Bodies(c)[k], h);
      TypedBodyIds(c, k + 1, h);
    }
  }

  /** Every measured value's identity is mentioned. */
  lemma {:induction false} ResultIds(ops: seq<Operation>, v: ClassicalValue)
    requires v in Results(ops)
    ensures v.circuit in Identities(ops)
    decreases ops
  {
    if ops != [] {
      if v in ResultsOp(ops[0]) {
        if ops[0].instruction.Control? {
          ResultBodyIds(ops[0].instruction.control, 0, v);
        }
      } else {
        ResultIds(ops[1..], v);
      }
    }
  }

  lemma {:induction false} ResultBodyIds(c: ControlOp, k: nat, v: ClassicalValue)
    requires k <= |Bodies(c)| && v in ResultsBodies(c, k)
    ensures v.circuit in BodyIds(c, k)
    decreases c, |Bodies(c)| - k
  {
    hide Results, Identities;
    if k < |Bodies(c)| {
      if v in Results(Bodies(c)[k]) {
        ResultIds(Bodies(c)[k], v);
      } else {
        ResultBodyIds(c, k + 1, v);
      }
    }
  }

  /** A typed tree is typed under every handle table that its handles reach. */
  lemma {:induction false} TypedMoves(ops: seq<Operation>, h: Handles, h': Handles, ids: set<nat>)
    requires Typed(ops, h) && Reaches(h, h', ids) && Identities(ops) <= ids
    ensures Typed(ops, h')
    decreases ops
  {
    hide TypedOp, OpIds, Reaches;
    if ops != [] {
      TypedHead(ops, h);
      TypedHead(ops, h');
      TypedOpMoves(ops[0], h, h', ids);
      TypedMoves(ops[1..], h, h', ids);
    }
  }

  lemma {:induction false} TypedOpMoves(op: Operation, h: Handles, h': Handles, ids: set<nat>)
    requires TypedOp(op, h) && Reaches(h, h', ids) && OpIds(op) <= ids
    ensures TypedOp(op, h')
    decreases op
  {
    hide ExprIds;
    if op.instruction.Data? {
      assert forall i | i in DataIds(op.instruction.data) :: i in ids;
      if op.instruction.data.Store? {
        assert op.instruction.data.target.circuit in DataIds(op.instruction.data);
        ReachedExpr(op.instruction.data.value, h, h', ids);
      } else {
        assert op.instruction.data.result.circuit in DataIds(op.instruction.data);
      }
    } else if op.instruction.Control? {
      var c := op.instruction.control;
      assert forall i | i in HeadIds(c) :: i in OpIds(op);
      forall e | e in Heads(c)
        ensures h'.OwnsExpr(e)
      {
        assert forall i | i in ExprIds(e) :: i in HeadIds(c);
        ReachedExpr(e, h, h', ids);
      }
      if c.For? {
        assert c.loopVar.circuit in HeadIds(c);
      }
      TypedBodiesMove(c, 0, h, h', ids);
    }
  }

  lemma {:induction false} TypedBodiesMove(c: ControlOp, k: nat, h: Handles, h': Handles, ids: set<nat>)
    requires k <= |Bodies(c)| && (forall j | 0 <= j < |Bodies(c)| :: Typed(Bodies(c)[j], h))
    requires Reaches(h, h', ids) && BodyIds(c, k) <= ids
    ensures forall j | k <= j < |Bodies(c)| :: Typed(Bodies(c)[j], h')
    decreases c, |Bodies(c)| - k
  {
    hide Typed, Identities, Reaches;
    if k < |Bodies(c)| {
      TypedMoves(Bodies(c)[k], h, h', ids);
      TypedBodiesMove(c, k + 1, h, h', ids);
    }
  }
}
