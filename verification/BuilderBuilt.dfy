/**
 Circuits built by callbacks refer only to their own tables, at every moment and depth. So every
 reachable circuit expands to a control-flow graph that rebuilds to the same operations, and no run
 of it reads a value before measuring it.
 */
module BuilderBuilt {
  import opened Prelude
  import opened Ir
  import opened Verifier
  import opened Builder
  import opened BuilderSafety
  import opened BuilderReach
  import opened AppendMeaning
  import Placement
  import CfgGraph
  import CfgParse
  import CfgRoundTrip
  import CfgMeaning
  import Soundness

  function TablesOf(s: Draft): Tables {
    Tables(set q | q in s.qubits, |s.params|, s.vars, s.values)
  }

  predicate WellBuilt(s: Draft) {
    Built(s.ops, TablesOf(s))
  }

  /** Scripts whose control operations are all made by callbacks. */
  predicate CallbacksOnly(script: Script)
    decreases script, 0
  {
    forall k | 0 <= k < |script| :: CallbackCommand(script[k])
  }

  predicate CallbackCommand(c: Command)
    decreases c, 0
  {
    match c
    case Append(instruction, _, _, _, _) => !instruction.Control?
    case If(_, t) => CallbacksOnly(t)
    case IfElse(_, t, e) => CallbacksOnly(t) && CallbacksOnly(e)
    case While(_, b) => CallbacksOnly(b)
    case ForUint(_, _, _, _, b) => CallbacksOnly(b)
    case Switch(_, build) => forall k | 0 <= k < |build| :: CallbackCase(build[k])
    case Swallow(command) => CallbackCommand(command)
    case _ => true
  }

  predicate CallbackCase(c: CaseCommand)
    decreases c, 0
  {
    match c
    case Case(_, b) => CallbacksOnly(b)
    case Default(b) => CallbacksOnly(b)
    case SwallowCase(command) => CallbackCase(command)
    case RaiseCase => true
  }

  // ---- growing tables -----------------------------------------------------------------------------

  predicate TablesExtend(t: Tables, t': Tables) {
    t.qubits == t'.qubits && t.numParams <= t'.numParams && t.vars <= t'.vars && t.values <= t'.values
  }

  lemma {:induction false} BuiltGrows(ops: seq<Operation>, t: Tables, t': Tables)
    requires TablesExtend(t, t') && Built(ops, t)
    ensures Built(ops, t')
    decreases ops
  {
    forall k | 0 <= k < |ops|
      ensures BuiltOp(ops[k], t')
    {
      assert BuiltOp(ops[k], t);
      BuiltOpGrows(ops[k], t, t');
    }
  }

  lemma {:induction false} BuiltOpGrows(op: Operation, t: Tables, t': Tables)
    requires TablesExtend(t, t') && BuiltOp(op, t)
    ensures BuiltOp(op, t')
    decreases op
  {
    if op.instruction.Control? {
      var c := op.instruction.control;
      forall k | 0 <= k < |Bodies(c)|
        ensures Built(Bodies(c)[k], t')
      {
        BuiltGrows(Bodies(c)[k], t, t');
      }
    }
  }

  lemma BuiltConcat(a: seq<Operation>, b: seq<Operation>, t: Tables)
    ensures Built(a + b, t) <==> Built(a, t) && Built(b, t)
  {
    if Built(a + b, t) {
      forall k | 0 <= k < |a|
        ensures BuiltOp(a[k], t)
      {
        assert (a + b)[k] == a[k];
      }
      forall k | 0 <= k < |b|
        ensures BuiltOp(b[k], t)
      {
        assert (a + b)[|a| + k] == b[k];
      }
    }
  }

  /** A state that extends a well-built one is well built when the added operations are. */
  lemma ExtendedBuilt(s: Draft, s': Draft)
    requires Extends(s, s') && WellBuilt(s)
    ensures TablesExtend(TablesOf(s), TablesOf(s')) && Built(s.ops, TablesOf(s'))
    ensures WellBuilt(s') <==> Built(SplitOff(s'.ops, |s.ops|), TablesOf(s'))
  {
    hide Built;
    BuiltGrows(s.ops, TablesOf(s), TablesOf(s'));
    assert s'.ops == s.ops + SplitOff(s'.ops, |s.ops|);
    BuiltConcat(s.ops, SplitOff(s'.ops, |s.ops|), TablesOf(s'));
  }

  // ---- one appended operation -----------------------------------------------------------------------

  lemma LoweredInTable(s: Draft, args: seq<Argument>)
    ensures var (s', r) := Lower(s, args, 0);
            r.Ok? ==> forall p | p in r.value :: p.Index? ==> p.index < |s'.params|
  {
    LowerRecords(s, args, 0);
    var (s', r) := Lower(s, args, 0);
    assert r.Ok? ==> forall j | 0 <= j < |r.value| :: Records(args[0 + j], r.value[j], s'.params);
  }

  lemma ControlHeads(c: ControlOp, s: Draft, p: Placing)
    requires CheckControl(c, s, p).None?
    ensures TablesOf(s).HasHead(c)
  {
    hide CheckBodies;
    var h := s.Handles();
    if !c.Break? && !c.Continue? {
      HeadsOwned(Heads(c), h);
      forall e | e in Heads(c)
        ensures TablesOf(s).HasExpr(e)
      {
        assert h.OwnsExpr(e);
      }
    } else {
      assert Heads(c) == [];
    }
  }

  lemma DataFits(d: DataOp, numQubits: nat, s: Draft)
    requires CheckData(d, numQubits, s.Handles()).None?
    ensures TablesOf(s).HasData(d, numQubits)
  {
  }

  lemma FieldsKnown(s: Draft, qubits: seq<nat>, params: seq<Param>)
    requires (forall q | q in qubits :: q in s.qubits) && forall p | p in params :: p.Index? ==> p.index < |s.params|
    ensures TablesOf(s).HasFields(qubits, params)
  {
  }

  /** An appended operation refers only to the tables, provided the bodies of a control operation do. */
  lemma AppendBuilt(s: Draft, instruction: Instruction, arity: Option<(nat, nat)>, qubits: seq<nat>, args: seq<Argument>, tag: Option<string>)
    requires WellBuilt(s)
    requires instruction.Control? ==>
               Accepted(instruction.control) && forall b | b in Bodies(instruction.control) :: Built(b, TablesOf(s))
    ensures WellBuilt(AppendOp(s, instruction, arity, qubits, args, tag).0)
  {
    hide CheckControl, CheckData, Verify, VerifyBuilder, Built, Bodies, Accepted, Heads;
    AppendGrows(s, instruction, arity, qubits, args, tag);
    var (s', e) := AppendOp(s, instruction, arity, qubits, args, tag);
    ExtendedBuilt(s, s');
    if e.Some? {
      assert SplitOff(s'.ops, |s.ops|) == [];
      NothingBuilt(TablesOf(s'));
    } else {
      var (s1, params) := Lower(s, args, 0);
      var op := Operation(instruction, qubits, params.value, tag);
      assert SplitOff(s'.ops, |s.ops|) == [op] by { LowerExtends(s, args, 0); }
      LoweredInTable(s, args);
      FirstMissingExactly(qubits, s.qubits);
      assert s'.params == s1.params && s'.qubits == s.qubits;
      assert forall q | q in qubits :: q in s'.qubits;
      FieldsKnown(s', qubits, params.value);
      if instruction.Data? {
        DataFits(instruction.data, |qubits|, s);
        OneDataBuilt(op, TablesOf(s), TablesOf(s'));
      } else if instruction.Control? {
        ControlHeads(instruction.control, s, s.Placing());
        OneControlBuilt(op, TablesOf(s), TablesOf(s'));
      } else {
        OneGateBuilt(op, TablesOf(s'));
      }
    }
  }

  lemma NothingBuilt(t: Tables)
    ensures Built([], t)
  {
  }

  lemma OneGateBuilt(op: Operation, t: Tables)
    requires op.instruction.Gate? && t.HasFields(op.qubits, op.params)
    ensures Built([op], t)
  {
  }

  lemma OneDataBuilt(op: Operation, t: Tables, t': Tables)
    requires op.instruction.Data? && TablesExtend(t, t') && t'.HasFields(op.qubits, op.params)
    requires t.HasData(op.instruction.data, |op.qubits|)
    ensures Built([op], t')
  {
  }

  lemma OneControlBuilt(op: Operation, t: Tables, t': Tables)
    requires op.instruction.Control? && TablesExtend(t, t') && t'.HasFields(op.qubits, op.params)
    requires Accepted(op.instruction.control) && t.HasHead(op.instruction.control)
    requires forall b | b in Bodies(op.instruction.control) :: Built(b, t)
    ensures Built([op], t')
  {
    hide Built, Accepted;
    var c := op.instruction.control;
    forall k | 0 <= k < |Bodies(c)|
      ensures Built(Bodies(c)[k], t')
    {
      assert Bodies(c)[k] in Bodies(c);
      BuiltGrows(Bodies(c)[k], t, t');
    }
    SingletonBuilt(op, t');
  }

  lemma SingletonBuilt(op: Operation, t: Tables)
    requires BuiltOp(op, t)
    ensures Built([op], t)
  {
  }

  // ---- scripts -----------------------------------------------------------------------------------------

  lemma DataBuilt(s: Draft, s1: Draft, d: DataOp, qubits: seq<nat>)
    requires WellBuilt(s) && Extends(s, s1) && s1.ops == s.ops
    ensures WellBuilt(AppendData(s1, d, qubits).0)
  {
    hide AppendOp, Built;
    ExtendedBuilt(s, s1);
    assert SplitOff(s1.ops, |s.ops|) == [];
    NothingBuilt(TablesOf(s1));
    AppendBuilt(s1, Data(d), DataArity(d), qubits, [], None);
  }

  lemma PlainBuilt(s: Draft, c: Command)
    requires WellBuilt(s) && (c.Store? || c.Measure? || c.MeasureBits? || c.MeasureInto? || c.MeasureBitsInto?)
    ensures WellBuilt(Step(s, c).0)
  {
    hide AppendData, Built, VerifyBuilder, Checked, CheckVar, CheckExpr;
    CommandChecked(s, c);
    assert Step(s, c).1.Some? ==> Step(s, c).0 == s by { assert Checked(s, Step(s, c)); CheckedMeans(s, Step(s, c)); }
    if Step(s, c).1.None? {
      match c {
        case Store(target, value) => DataBuilt(s, s, DataOp.Store(target, value), []);
        case Measure(qubit) => MeasureBuilt(s, qubit);
        case MeasureBits(qubits) => MeasureBitsBuilt(s, qubits);
        case MeasureInto(qubit, target) =>
          MeasureBuilt(s, qubit);
          var s1 := DoMeasure(s, qubit).0;
          DataBuilt(s1, s1, DataOp.Store(target, ValueRead(ClassicalValue(s.id, |s.values|, Bit))), []);
        case MeasureBitsInto(qubits, target) =>
          MeasureBitsBuilt(s, qubits);
          var s1 := DoMeasureBits(s, qubits).0;
          DataBuilt(s1, s1, DataOp.Store(target, ValueRead(ClassicalValue(s.id, |s.values|, BitVec(|qubits|)))), []);
      }
    }
  }

  lemma CheckedMeans(s: Draft, o: Outcome)
    requires Checked(s, o)
    ensures Grows(s, o.0) && (o.1.Some? ==> o.0 == s)
  {
  }

  lemma MeasureBuilt(s: Draft, qubit: nat)
    requires WellBuilt(s) && DoMeasure(s, qubit).1.None?
    ensures WellBuilt(DoMeasure(s, qubit).0)
  {
    hide AppendData, Built;
    var (s1, result) := AllocateValue(s, Bit);
    DataBuilt(s, s1, DataOp.MeasureBit(result), [qubit]);
  }

  lemma MeasureBitsBuilt(s: Draft, qubits: seq<nat>)
    requires WellBuilt(s) && DoMeasureBits(s, qubits).1.None?
    ensures WellBuilt(DoMeasureBits(s, qubits).0)
  {
    hide AppendData, Built;
    var (s1, result) := AllocateValue(s, BitVec(|qubits|));
    DataBuilt(s, s1, DataOp.MeasureBits(result), qubits);
  }

  /** A control operation appended over well-built bodies. */
  lemma MadeBuilt(s: Draft, s1: Draft, c: ControlOp)
    requires WellBuilt(s) && Extends(s, s1) && s1.ops == s.ops && forall b | b in Bodies(c) :: Built(b, TablesOf(s1))
    ensures WellBuilt(OrRollback(AppendControl(s1, c), Mark(s)).0)
  {
    hide AppendOp, Built, Bodies, Accepted;
    RollbackExact(s, s1);
    if Accepted(c) {
      ExtendedBuilt(s, s1);
      assert SplitOff(s1.ops, |s.ops|) == [];
      NothingBuilt(TablesOf(s1));
      AppendBuilt(s1, Control(c), None, UsedQubits(Bodies(c)), [], None);
      AppendGrows(s1, Control(c), None, UsedQubits(Bodies(c)), [], None);
    }
  }

  lemma {:induction false} ExecBuilt(s: Draft, script: Script)
    requires WellBuilt(s) && CallbacksOnly(script)
    ensures WellBuilt(Exec(s, script).0)
    decreases script, 0
  {
    hide Step, Built;
    if script != [] {
      assert CallbackCommand(script[0]);
      StepBuilt(s, script[0]);
      var o := Step(s, script[0]);
      if o.1.None? {
        ExecBuilt(o.0, script[1..]);
      }
    }
  }

  lemma {:induction false} BodyBuilt(s: Draft, scope: Option<ScopeKind>, script: Script)
    requires WellBuilt(s) && CallbacksOnly(script)
    ensures var (s1, body) := BuildBody(s, scope, script);
            WellBuilt(s1) && (body.Ok? ==> Built(body.value, TablesOf(s1)))
    decreases script, 1
  {
    hide Exec, Built, Results;
    var s0 := Opened(s, scope);
    BodyHeld(s, scope, script);
    ExecBuilt(s0, script);
    ExecGrows(s0, script);
    var s' := Exec(s0, script).0;
    ExtendedBuilt(s0, s');
  }

  lemma {:induction false} OneBuilt(s: Draft, scope: Option<ScopeKind>, script: Script, make: seq<Operation> -> ControlOp)
    requires WellBuilt(s) && CallbacksOnly(script) && forall b :: Bodies(make(b)) == [b]
    ensures WellBuilt(BuildOne(s, scope, script, make).0)
    decreases script, 2
  {
    hide BuildBody, Built, AppendControl, Bodies, CallbacksOnly, Covers;
    BodyBuilt(s, scope, script);
    BodyHeld(s, scope, script);
    var (s1, body) := BuildBody(s, scope, script);
    if body.Err? {
      RollbackExact(s, s);
    } else {
      MadeBuilt(s, s1, make(body.value));
    }
  }

  lemma {:induction false} TwoBuilt(s: Draft, c: Command)
    requires WellBuilt(s) && c.IfElse? && CallbackCommand(c)
    ensures WellBuilt(BuildTwo(s, c).0)
    decreases c, 2
  {
    hide BuildBody, Built, AppendControl, Bodies, CallbacksOnly, Covers;
    BodyBuilt(s, None, c.thenScript);
    BodyHeld(s, None, c.thenScript);
    var (s1, t) := BuildBody(s, None, c.thenScript);
    if t.Err? {
      RollbackExact(s, s);
    } else {
      BodyBuilt(s1, None, c.elseScript);
      BodyHeld(s1, None, c.elseScript);
      var (s2, e) := BuildBody(s1, None, c.elseScript);
      if e.Err? {
        RollbackExact(s, s2);
      } else {
        ExtendedBuilt(s1, s2);
        BuiltGrows(t.value, TablesOf(s1), TablesOf(s2));
        TwoBodies(c.condition, t.value, e.value);
        MadeBuilt(s, s2, ControlOp.If(c.condition, t.value, Present(e.value)));
      }
    }
  }

  predicate CollectedBuilt(s: Draft, r: Collected) {
    Extends(s, r.0) && r.0.ops == s.ops && forall b | b in CollectedBodies(r.1, r.2) :: Built(b, TablesOf(r.0))
  }

  lemma {:induction false} CollectBuilt(s: Draft, s1: Draft, build: seq<CaseCommand>, cases: seq<SwitchCase>, default: MaybeBody)
    requires WellBuilt(s) && CollectedBuilt(s, (s1, cases, default, None)) && forall k | 0 <= k < |build| :: CallbackCase(build[k])
    ensures CollectedBuilt(s, Collect(s1, build, cases, default))
    decreases build, 0
  {
    hide StepCase, CollectedBuilt, WellBuilt;
    if build != [] {
      CaseBuilt(s, s1, build[0], cases, default);
      var r := StepCase(s1, build[0], cases, default);
      if r.3.None? {
        CollectedIgnores(s, r);
        CollectBuilt(s, r.0, build[1..], r.1, r.2);
      }
    }
  }

  lemma CollectedIgnores(s: Draft, r: Collected)
    requires CollectedBuilt(s, r)
    ensures CollectedBuilt(s, (r.0, r.1, r.2, None))
  {
  }

  /** Another body joins the collected ones. */
  lemma JoinBuilt(s: Draft, s1: Draft, s2: Draft, sofar: seq<seq<Operation>>, body: seq<Operation>, all: seq<seq<Operation>>)
    requires TablesExtend(TablesOf(s1), TablesOf(s2)) && (forall b | b in sofar :: Built(b, TablesOf(s1))) && Built(body, TablesOf(s2))
    requires forall b | b in all :: b in sofar || b == body
    ensures forall b | b in all :: Built(b, TablesOf(s2))
  {
    hide Built;
    forall b | b in all
      ensures Built(b, TablesOf(s2))
    {
      if b in sofar {
        BuiltGrows(b, TablesOf(s1), TablesOf(s2));
      }
    }
  }

  lemma {:induction false} CaseBuilt(s: Draft, s1: Draft, c: CaseCommand, cases: seq<SwitchCase>, default: MaybeBody)
    requires WellBuilt(s) && CollectedBuilt(s, (s1, cases, default, None)) && CallbackCase(c)
    ensures CollectedBuilt(s, StepCase(s1, c, cases, default))
    decreases c, 3
  {
    hide BuildBody, Built, CallbacksOnly, Covers;
    ExtendedBuilt(s, s1);
    assert SplitOff(s1.ops, |s.ops|) == [];
    NothingBuilt(TablesOf(s1));
    var sofar := CollectedBodies(cases, default);
    if c.Case? {
      BodyBuilt(s1, Some(SwitchScope), c.body);
      BodyHeld(s1, Some(SwitchScope), c.body);
      var (s2, body) := BuildBody(s1, Some(SwitchScope), c.body);
      if body.Ok? {
        ExtendedBuilt(s1, s2);
        var cases' := cases + [SwitchCase(c.value, body.value)];
        assert CaseBodies(cases') == CaseBodies(cases) + [body.value];
        JoinBuilt(s, s1, s2, sofar, body.value, CollectedBodies(cases', default));
      }
    } else if c.Default? && !default.Present? {
      BodyBuilt(s1, Some(SwitchScope), c.body);
      BodyHeld(s1, Some(SwitchScope), c.body);
      var (s2, body) := BuildBody(s1, Some(SwitchScope), c.body);
      if body.Ok? {
        ExtendedBuilt(s1, s2);
        JoinBuilt(s, s1, s2, sofar, body.value, CollectedBodies(cases, Present(body.value)));
      }
    } else if c.SwallowCase? {
      CaseBuilt(s, s1, c.command, cases, default);
    }
  }

  lemma {:induction false} SwitchBuilt(s: Draft, c: Command)
    requires WellBuilt(s) && c.Switch? && CallbackCommand(c)
    ensures WellBuilt(Step(s, c).0)
    decreases c, 2
  {
    hide Collect, Built, AppendControl, CallbackCase, Verify;
    if CheckExpr(c.selector, s.Handles()).None? {
      assert CollectedBodies([], Absent) == [];
      CollectBuilt(s, s, c.build, [], Absent);
      var (s1, cases, default, e) := Collect(s, c.build, [], Absent);
      if e.Some? {
        RollbackExact(s, s1);
      } else {
        SwitchBodies(c.selector, cases, default);
        MadeBuilt(s, s1, ControlOp.Switch(c.selector, cases, default));
      }
    }
  }

  lemma {:induction false} StepBuilt(s: Draft, c: Command)
    requires WellBuilt(s) && CallbackCommand(c)
    ensures WellBuilt(Step(s, c).0)
    decreases c, 3
  {
    hide Built, BuildOne, BuildTwo, DoStore, DoMeasure, DoMeasureBits, AppendOp, AppendControl, CallbacksOnly, CheckExpr, CheckVar, CheckRange, Collect;
    match c {
      case Append(instruction, arity, qubits, args, tag) => AppendBuilt(s, instruction, arity, qubits, args, tag);
      case NewVar(ty) => VarBuilt(s, ty);
      case Store(_, _) => PlainBuilt(s, c);
      case Measure(_) => PlainBuilt(s, c);
      case MeasureBits(_) => PlainBuilt(s, c);
      case MeasureInto(_, _) => PlainBuilt(s, c);
      case MeasureBitsInto(_, _) => PlainBuilt(s, c);
      case If(condition, script) => OneBuilt(s, None, script, body => ControlOp.If(condition, body, Absent));
      case IfElse(_, _, _) => TwoBuilt(s, c);
      case While(condition, script) => OneBuilt(s, Some(LoopScope), script, body => ControlOp.While(condition, body));
      case ForUint(loopVar, start, stop, step, script) =>
        OneBuilt(s, Some(LoopScope), script, body => ControlOp.For(loopVar, start, stop, step, body));
      case Switch(_, _) => SwitchBuilt(s, c);
      case BreakLoop => TransferBuilt(s, Break);
      case ContinueLoop => TransferBuilt(s, Continue);
      case Swallow(command) => StepBuilt(s, command);
      case Raise =>
    }
  }

  lemma VarBuilt(s: Draft, ty: ClassicalType)
    requires WellBuilt(s)
    ensures WellBuilt(s.(vars := s.vars + [ty]))
  {
    hide Built;
    var s' := s.(vars := s.vars + [ty]);
    ExtendedBuilt(s, s');
    assert SplitOff(s'.ops, |s.ops|) == [];
    NothingBuilt(TablesOf(s'));
  }

  lemma TransferBuilt(s: Draft, c: ControlOp)
    requires WellBuilt(s) && (c.Break? || c.Continue?)
    ensures WellBuilt(AppendControl(s, c).0)
  {
    hide AppendOp, Built;
    MadeBuilt(s, s, c);
    TransferChecked(s, c);
  }

  // ---- what holds of every reachable circuit ---------------------------------------------------------------

  lemma ReachableIsBuilt(id: nat, qubits: seq<nat>, script: Script)
    requires CallbacksOnly(script)
    ensures WellBuilt(Exec(New(id, qubits), script).0)
  {
    NothingBuilt(TablesOf(New(id, qubits)));
    ExecBuilt(New(id, qubits), script);
  }

  /** Every circuit built by callbacks expands, and its graph rebuilds to its own operations. */
  lemma ReachableRoundTrips(id: nat, qubits: seq<nat>, script: Script)
    requires CallbacksOnly(script)
    ensures var s := Exec(New(id, qubits), script).0;
            && CfgGraph.FromOperations(s.ops).Ok?
            && CfgRoundTrip.ToOperations(CfgGraph.FromOperations(s.ops).value, TablesOf(s), Fixed(0.0)) == Ok(CfgParse.Normalize(s.ops))
  {
    hide Exec, Built, Verify, CfgGraph.FromOperations;
    var s := Exec(New(id, qubits), script).0;
    ReachableIsBuilt(id, qubits, script);
    ReachableIsValid(id, qubits, script);
    VerifyCharacterised(s.ops, s.Handles(), Verifier.State({}, {}), Verifier.Placing(false, false));
    CfgRoundTrip.DecompilingUndoesCompiling(s.ops, TablesOf(s), Fixed(0.0));
  }

  /** No run of a reachable circuit, on any machine, reads a value it has not measured. */
  lemma ReachableRunsAreSafe<S>(id: nat, qubits: seq<nat>, script: Script, m: CfgMeaning.Machine<S>, start: S, fuel: nat)
    ensures CfgMeaning.Run(Soundness.Watch(m), Exec(New(id, qubits), script).0.ops, Soundness.Unwatched(start), fuel).s.safe
  {
    hide Exec, Verify, Valid;
    var s := Exec(New(id, qubits), script).0;
    ReachableIsValid(id, qubits, script);
    Soundness.AcceptedRunsAreSafe(m, s.ops, s.Handles(), start, fuel);
  }
}
