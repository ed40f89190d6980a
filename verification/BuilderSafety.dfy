/**
 What the callback builder guarantees of every script: the state only grows, failures of building
 commands undo everything exactly, and between top-level commands the circuit is valid.
 */
module BuilderSafety {
  import opened Prelude
  import opened Ir
  import opened Placement
  import opened Verifier
  import opened Builder

  // ---- growth -------------------------------------------------------------------------------------

  /** `s'` extends `s`: everything `s` had is still in place, and the open scopes are the same. */
  predicate Extends(s: Draft, s': Draft) {
    && s'.id == s.id && s'.qubits == s.qubits && s'.scopes == s.scopes && s'.phase == s.phase
    && s.ops <= s'.ops && s.params <= s'.params && s.symbols <= s'.symbols && s.vars <= s'.vars && s.values <= s'.values
  }

  /** Whether `v` is measured in `ops` or in one of the bodies held aside. */
  predicate Measured(v: ClassicalValue, ops: seq<Operation>, held: seq<seq<Operation>>) {
    v in Results(ops) || exists b | b in held :: v in Results(b)
  }

  /** Every value allocated since `s` is measured by an operation added since, or in a held body. */
  predicate Covers(s: Draft, s': Draft, held: seq<seq<Operation>>) {
    forall k | |s.values| <= k < |s'.values| :: Measured(s'.Value(k), SplitOff(s'.ops, |s.ops|), held)
  }

  predicate Grows(s: Draft, s': Draft) {
    Extends(s, s') && Covers(s, s', [])
  }

  lemma {:induction false} ResultsAppend(a: seq<Operation>, b: seq<Operation>)
    ensures Results(a + b) == Results(a) + Results(b)
    decreases |a|
  {
    if a == [] {
      assert a + b == b;
    } else {
      ResultsAppend(a[1..], b);
      assert (a + b)[1..] == a[1..] + b;
    }
  }

  lemma GrowsChain(s: Draft, s1: Draft, s2: Draft)
    requires Grows(s, s1) && Grows(s1, s2)
    ensures Grows(s, s2)
  {
    hide Results;
    var a, b := SplitOff(s1.ops, |s.ops|), SplitOff(s2.ops, |s1.ops|);
    assert SplitOff(s2.ops, |s.ops|) == a + b;
    ResultsAppend(a, b);
    forall k | |s.values| <= k < |s2.values|
      ensures Measured(s2.Value(k), a + b, [])
    {
      if k < |s1.values| {
        assert s2.Value(k) == s1.Value(k);
        assert Measured(s1.Value(k), a, []);
      } else {
        assert Measured(s2.Value(k), b, []);
      }
    }
  }

  lemma GrowsSame(s: Draft)
    ensures Grows(s, s)
  {
  }

  /** Undoing to the checkpoint of a smaller state gives back that state, whatever scopes were opened. */
  lemma RollbackExact(s: Draft, s': Draft)
    requires s.scopes <= s'.scopes && Extends(s.(scopes := s'.scopes), s')
    ensures RollbackTo(s', Mark(s)) == s
  {
  }

  // ---- appending ------------------------------------------------------------------------------------

  lemma {:induction false} InternedGrows(symbols: seq<string>, more: seq<string>)
    ensures symbols <= InternedAll(symbols, more)
    decreases |more|
  {
    if more != [] {
      InternedGrows(Interned(symbols, more[0]), more[1..]);
    }
  }

  /** Lowering only interns. */
  lemma {:induction false} LowerExtends(s: Draft, args: seq<Argument>, from: nat)
    requires from <= |args|
    ensures var s' := Lower(s, args, from).0;
            Extends(s, s') && s'.ops == s.ops && s'.vars == s.vars && s'.values == s.values
    decreases |args| - from
  {
    if from < |args| {
      if args[from].Number? {
        LowerExtends(s, args, from + 1);
      } else if args[from].Symbolic? {
        var p := args[from].parameter;
        InternedGrows(s.symbols, p.symbols);
        LowerExtends(AddParameter(s, p), args, from + 1);
      }
    }
  }

  /**
   An append adds the one operation or fails; a failure leaves the operations and the classical
   tables alone, and without arguments it leaves everything alone.
   */
  lemma AppendGrows(s: Draft, instruction: Instruction, arity: Option<(nat, nat)>, qubits: seq<nat>, args: seq<Argument>, tag: Option<string>)
    ensures var (s', e) := AppendOp(s, instruction, arity, qubits, args, tag);
            && Extends(s, s') && s'.vars == s.vars && s'.values == s.values
            && (e.Some? ==> s'.ops == s.ops)
            && (e.Some? && args == [] ==> s' == s)
            && (e.None? ==> |s'.ops| == |s.ops| + 1 && s'.ops[|s.ops|].instruction == instruction)
            && (e.None? && !instruction.Gate? ==> VerifyBuilder(s').Ok?)
  {
    hide CheckControl, CheckData, Verify;
    LowerExtends(s, args, 0);
    var (s1, params) := Lower(s, args, 0);
    if PreCheck(s, instruction, arity, qubits, |args|).None? && params.Ok? {
      var s2 := s1.(ops := s1.ops + [Operation(instruction, qubits, params.value, tag)]);
      assert Extends(s, s2);
      RollbackExact(s, s2);
    }
  }

  /** One operation was added to `s1`, and it contains the held bodies. */
  lemma AddedCovers(s: Draft, s1: Draft, s': Draft, held: seq<seq<Operation>>)
    requires Extends(s, s1) && s1.ops == s.ops && Covers(s, s1, held)
    requires Extends(s1, s') && s'.values == s1.values && |s'.ops| == |s1.ops| + 1
    requires forall b, v | b in held && v in Results(b) :: v in ResultsOp(s'.ops[|s.ops|])
    ensures Grows(s, s')
  {
    hide ResultsOp;
    var added := SplitOff(s'.ops, |s.ops|);
    assert added == [s'.ops[|s.ops|]] && added[1..] == [];
    assert Results(added) == ResultsOp(added[0]) + Results([]);
    assert SplitOff(s1.ops, |s.ops|) == [];
    forall k | |s.values| <= k < |s'.values|
      ensures Measured(s'.Value(k), added, [])
    {
      assert s'.Value(k) == s1.Value(k);
      assert Measured(s1.Value(k), [], held);
    }
  }

  /** What an all-or-nothing command guarantees. */
  predicate Atomic(s: Draft, o: Outcome) {
    && Grows(s, o.0)
    && (o.1.Some? ==> o.0 == s)
  }

  /** Moreover success was checked by a verification of the whole circuit. */
  predicate Checked(s: Draft, o: Outcome) {
    Atomic(s, o) && (o.1.None? ==> VerifyBuilder(o.0).Ok?)
  }

  lemma DataChecked(s: Draft, s1: Draft, d: DataOp, qubits: seq<nat>)
    requires s1 == s || (!d.Store? && (s1, d.result) == AllocateValue(s, d.result.ty))
    ensures Checked(s, OrRollback(AppendData(s1, d, qubits), Mark(s)))
  {
    hide AppendOp, VerifyBuilder, Verify;
    AppendGrows(s1, Data(d), DataArity(d), qubits, [], None);
    var (s', e) := AppendData(s1, d, qubits);
    if e.Some? {
      RollbackExact(s, s1);
    } else if s1 == s {
      GrowsOneOp(s, s');
    } else {
      assert ResultsOp(s'.ops[|s.ops|]) == [d.result] && [d.result][0] == d.result;
      AddedCoversOne(s, s1, s');
    }
  }

  lemma GrowsOneOp(s: Draft, s': Draft)
    requires Extends(s, s') && s'.values == s.values
    ensures Grows(s, s')
  {
  }

  lemma AddedCoversOne(s: Draft, s1: Draft, s': Draft)
    requires Extends(s, s1) && s1.ops == s.ops && |s1.values| == |s.values| + 1
    requires Extends(s1, s') && s'.values == s1.values && |s'.ops| == |s1.ops| + 1
    requires s1.Value(|s.values|) in ResultsOp(s'.ops[|s.ops|])
    ensures Grows(s, s')
  {
    hide ResultsOp;
    var added := SplitOff(s'.ops, |s.ops|);
    assert added == [s'.ops[|s.ops|]] && added[1..] == [];
    assert Results(added) == ResultsOp(added[0]) + Results([]);
    assert s'.Value(|s.values|) == s1.Value(|s.values|);
  }

  lemma StoreChecked(s: Draft, target: ClassicalVar, value: Expr)
    ensures Checked(s, DoStore(s, target, value))
  {
    hide AppendOp, VerifyBuilder, Verify;
    DataChecked(s, s, DataOp.Store(target, value), []);
    AppendGrows(s, Data(DataOp.Store(target, value)), Some((0, 0)), [], [], None);
  }

  lemma MeasureChecked(s: Draft, qubit: nat)
    ensures Checked(s, DoMeasure(s, qubit))
  {
    hide AppendOp, VerifyBuilder, Verify;
    var (s1, result) := AllocateValue(s, Bit);
    DataChecked(s, s1, DataOp.MeasureBit(result), [qubit]);
  }

  lemma MeasureBitsChecked(s: Draft, qubits: seq<nat>)
    ensures Checked(s, DoMeasureBits(s, qubits))
  {
    hide AppendOp, VerifyBuilder, Verify;
    if qubits != [] {
      var (s1, result) := AllocateValue(s, BitVec(|qubits|));
      DataChecked(s, s1, DataOp.MeasureBits(result), qubits);
    }
  }

  /** A measurement and a store, undone together when the store fails. */
  lemma ThenStoreChecked(s: Draft, measured: Outcome, result: ClassicalValue, target: ClassicalVar)
    requires Checked(s, measured)
    ensures Checked(s, ThenStore(s, measured, result, target))
  {
    hide DoStore, VerifyBuilder, Covers;
    GrowsSame(s);
    if measured.1.None? {
      StoreChecked(measured.0, target, ValueRead(result));
      var o := DoStore(measured.0, target, ValueRead(result));
      GrowsChain(s, measured.0, o.0);
      RollbackExact(s, o.0);
    }
  }

  // ---- bodies -----------------------------------------------------------------------------------------

  lemma {:induction false} BodyInResults(c: ControlOp, k: nat, j: nat, v: ClassicalValue)
    requires k <= j < |Bodies(c)| && v in Results(Bodies(c)[j])
    ensures v in ResultsBodies(c, k)
    decreases |Bodies(c)| - k
  {
    hide Results;
    if k < j {
      BodyInResults(c, k + 1, j, v);
    }
  }

  /** A control operation appended over held bodies: all of them are in it, or everything is undone. */
  lemma ControlChecked(s: Draft, s1: Draft, c: ControlOp, held: seq<seq<Operation>>)
    requires Extends(s, s1) && s1.ops == s.ops && Covers(s, s1, held) && forall b | b in held :: b in Bodies(c)
    ensures Checked(s, OrRollback(AppendControl(s1, c), Mark(s)))
  {
    hide AppendOp, VerifyBuilder, Verify, Covers, ResultsOp;
    RollbackExact(s, s1);
    GrowsSame(s);
    if Accepted(c) {
      AppendGrows(s1, Control(c), None, UsedQubits(Bodies(c)), [], None);
      var (s', e) := AppendControl(s1, c);
      if e.None? {
        forall b, v | b in held && v in Results(b)
          ensures v in ResultsOp(s'.ops[|s.ops|])
        {
          var j :| 0 <= j < |Bodies(c)| && Bodies(c)[j] == b;
          BodyInResults(c, 0, j, v);
          ControlResults(s'.ops[|s.ops|]);
        }
        AddedCovers(s, s1, s', held);
      }
    }
  }

  lemma ControlResults(op: Operation)
    requires op.instruction.Control?
    ensures ResultsOp(op) == ResultsBodies(op.instruction.control, 0)
  {
  }

  lemma GrowsExtends(s: Draft, s': Draft)
    requires Grows(s, s')
    ensures Extends(s, s')
  {
  }

  /** A body's operations are split off; what they measured is held. A failed body undoes everything. */
  lemma {:induction false} BodyHeld(s: Draft, scope: Option<ScopeKind>, script: Script)
    ensures var (s1, body) := BuildBody(s, scope, script);
            && Extends(s, s1) && s1.ops == s.ops
            && (body.Err? ==> s1 == s)
            && (body.Ok? ==> Covers(s, s1, [body.value]))
    decreases script, 1
  {
    hide Exec, Results;
    var s0 := Opened(s, scope);
    ExecGrows(s0, script);
    var (s', e) := Exec(s0, script);
    var s2 := s'.(scopes := Truncate(s'.scopes, |s.scopes|));
    assert Extends(s, s2);
    RollbackExact(s, s2);
    if e.None? {
      var (s1, body) := BuildBody(s, scope, script);
      forall k | |s.values| <= k < |s1.values|
        ensures Measured(s1.Value(k), SplitOff(s1.ops, |s.ops|), [body.value])
      {
        assert Measured(s'.Value(k), SplitOff(s'.ops, |s0.ops|), []);
        assert s1.Value(k) == s'.Value(k) && body.value == SplitOff(s'.ops, |s.ops|);
      }
    }
  }

  lemma {:induction false} ExecGrows(s: Draft, script: Script)
    ensures Grows(s, Exec(s, script).0)
    decreases script, 0
  {
    hide Step, Covers, Extends;
    if script == [] {
      GrowsSame(s);
    } else {
      StepGrows(s, script[0]);
      var o := Step(s, script[0]);
      if o.1.None? {
        ExecGrows(o.0, script[1..]);
        GrowsChain(s, o.0, Exec(o.0, script[1..]).0);
      }
    }
  }

  lemma {:induction false} OneChecked(s: Draft, scope: Option<ScopeKind>, script: Script, make: seq<Operation> -> ControlOp)
    requires forall b :: Bodies(make(b)) == [b]
    ensures Checked(s, BuildOne(s, scope, script, make))
    decreases script, 2
  {
    hide BuildBody, VerifyBuilder, Covers, AppendControl, Bodies;
    BodyHeld(s, scope, script);
    var (s1, body) := BuildBody(s, scope, script);
    if body.Err? {
      RollbackExact(s, s);
      GrowsSame(s);
    } else {
      ControlChecked(s, s1, make(body.value), [body.value]);
    }
  }

  lemma {:induction false} TwoChecked(s: Draft, c: Command)
    requires c.IfElse?
    ensures Checked(s, BuildTwo(s, c))
    decreases c, 2
  {
    hide BuildBody, VerifyBuilder, AppendControl, Bodies, Results;
    BodyHeld(s, None, c.thenScript);
    var (s1, t) := BuildBody(s, None, c.thenScript);
    if t.Err? {
      RollbackExact(s, s);
      GrowsSame(s);
    } else {
      BodyHeld(s1, None, c.elseScript);
      var (s2, e) := BuildBody(s1, None, c.elseScript);
      if e.Err? {
        RollbackExact(s, s2);
        GrowsSame(s);
      } else {
        BothHeld(s, s1, s2, t.value, e.value);
        TwoBodies(c.condition, t.value, e.value);
        ControlChecked(s, s2, ControlOp.If(c.condition, t.value, Present(e.value)), [t.value, e.value]);
      }
    }
  }

  lemma TwoBodies(condition: Expr, t: seq<Operation>, e: seq<Operation>)
    ensures Bodies(ControlOp.If(condition, t, Present(e))) == [t, e]
  {
  }

  /** Held bodies accumulate. */
  lemma HeldChain(s: Draft, s1: Draft, s2: Draft, held: seq<seq<Operation>>, body: seq<Operation>)
    requires Extends(s, s1) && Extends(s1, s2) && s1.ops == s.ops && s2.ops == s1.ops
    requires Covers(s, s1, held) && Covers(s1, s2, [body])
    ensures Extends(s, s2) && Covers(s, s2, held + [body])
  {
    hide Results;
    assert SplitOff(s1.ops, |s.ops|) == [] && SplitOff(s2.ops, |s1.ops|) == [] && SplitOff(s2.ops, |s.ops|) == [];
    forall k | |s.values| <= k < |s2.values|
      ensures Measured(s2.Value(k), [], held + [body])
    {
      if k < |s1.values| {
        assert s2.Value(k) == s1.Value(k) && Measured(s1.Value(k), [], held);
      } else {
        assert Measured(s2.Value(k), [], [body]);
        assert body in held + [body];
      }
    }
  }

  lemma BothHeld(s: Draft, s1: Draft, s2: Draft, t: seq<Operation>, e: seq<Operation>)
    requires Extends(s, s1) && Extends(s1, s2) && s1.ops == s.ops && s2.ops == s1.ops
    requires Covers(s, s1, [t]) && Covers(s1, s2, [e])
    ensures Extends(s, s2) && Covers(s, s2, [t, e])
  {
    HeldChain(s, s1, s2, [t], e);
    assert [t] + [e] == [t, e];
  }

  /** The bodies collected by a switch builder. */
  function CollectedBodies(cases: seq<SwitchCase>, default: MaybeBody): seq<seq<Operation>> {
    CaseBodies(cases) + if default.Present? then [default.ops] else []
  }

  lemma CoversMore(s: Draft, s': Draft, held: seq<seq<Operation>>, more: seq<seq<Operation>>)
    requires Covers(s, s', held) && forall b | b in held :: b in more
    ensures Covers(s, s', more)
  {
    hide Results;
    forall k | |s.values| <= k < |s'.values|
      ensures Measured(s'.Value(k), SplitOff(s'.ops, |s.ops|), more)
    {
      assert Measured(s'.Value(k), SplitOff(s'.ops, |s.ops|), held);
    }
  }

  /** What a switch builder has collected so far, whether or not the last call failed. */
  predicate Collects(s: Draft, r: Collected) {
    Extends(s, r.0) && r.0.ops == s.ops && Covers(s, r.0, CollectedBodies(r.1, r.2))
  }

  lemma {:induction false} CollectHeld(s: Draft, s1: Draft, build: seq<CaseCommand>, cases: seq<SwitchCase>, default: MaybeBody)
    requires Collects(s, (s1, cases, default, None))
    ensures Collects(s, Collect(s1, build, cases, default))
    decreases build, 0
  {
    hide StepCase, Covers, Extends;
    if build != [] {
      CaseHeld(s, s1, build[0], cases, default);
      var r := StepCase(s1, build[0], cases, default);
      if r.3.None? {
        CollectHeld(s, r.0, build[1..], r.1, r.2);
      }
    }
  }

  lemma {:induction false} CaseHeld(s: Draft, s1: Draft, c: CaseCommand, cases: seq<SwitchCase>, default: MaybeBody)
    requires Collects(s, (s1, cases, default, None))
    ensures Collects(s, StepCase(s1, c, cases, default))
    decreases c, 3
  {
    hide BuildBody, Covers, Results;
    if c.Case? {
      BodyHeld(s1, Some(SwitchScope), c.body);
      var (s2, body) := BuildBody(s1, Some(SwitchScope), c.body);
      if body.Ok? {
        HeldChain(s, s1, s2, CollectedBodies(cases, default), body.value);
        var cases' := cases + [SwitchCase(c.value, body.value)];
        assert CaseBodies(cases') == CaseBodies(cases) + [body.value];
        CoversMore(s, s2, CollectedBodies(cases, default) + [body.value], CollectedBodies(cases', default));
      }
    } else if c.Default? && !default.Present? {
      BodyHeld(s1, Some(SwitchScope), c.body);
      var (s2, body) := BuildBody(s1, Some(SwitchScope), c.body);
      if body.Ok? {
        HeldChain(s, s1, s2, CollectedBodies(cases, default), body.value);
        CoversMore(s, s2, CollectedBodies(cases, default) + [body.value], CollectedBodies(cases, Present(body.value)));
      }
    } else if c.SwallowCase? {
      CaseHeld(s, s1, c.command, cases, default);
    }
  }

  lemma {:induction false} SwitchChecked(s: Draft, c: Command)
    requires c.Switch?
    ensures Checked(s, Step(s, c))
    decreases c, 2
  {
    hide Collect, VerifyBuilder, Covers, AppendControl, Verify;
    if CheckExpr(c.selector, s.Handles()).Some? {
      GrowsSame(s);
    } else {
      assert CollectedBodies([], Absent) == [];
      GrowsSame(s);
      CollectHeld(s, s, c.build, [], Absent);
      var (s1, cases, default, e) := Collect(s, c.build, [], Absent);
      if e.Some? {
        RollbackExact(s, s1);
      } else {
        SwitchBodies(c.selector, cases, default);
        ControlChecked(s, s1, ControlOp.Switch(c.selector, cases, default), CollectedBodies(cases, default));
      }
    }
  }

  lemma SwitchBodies(target: Expr, cases: seq<SwitchCase>, default: MaybeBody)
    ensures Bodies(ControlOp.Switch(target, cases, default)) == CollectedBodies(cases, default)
  {
  }

  /** Commands whose failure undoes everything: measurements, stores and control commands. */
  predicate AllOrNothing(c: Command) {
    !c.Append? && !c.NewVar? && !c.Swallow? && !c.Raise?
  }

  lemma {:induction false} CommandChecked(s: Draft, c: Command)
    requires AllOrNothing(c)
    ensures Checked(s, Step(s, c))
    decreases c, 3
  {
    hide VerifyBuilder, Covers, Extends, BuildOne, BuildTwo, DoStore, DoMeasure, DoMeasureBits, Verify, CheckExpr, CheckVar, CheckRange, AppendControl;
    GrowsSame(s);
    match c {
      case Store(target, value) => StoreChecked(s, target, value);
      case Measure(qubit) => MeasureChecked(s, qubit);
      case MeasureBits(qubits) => MeasureBitsChecked(s, qubits);
      case MeasureInto(qubit, target) =>
        MeasureChecked(s, qubit);
        ThenStoreChecked(s, DoMeasure(s, qubit), ClassicalValue(s.id, |s.values|, Bit), target);
      case MeasureBitsInto(qubits, target) =>
        MeasureBitsChecked(s, qubits);
        ThenStoreChecked(s, DoMeasureBits(s, qubits), ClassicalValue(s.id, |s.values|, BitVec(|qubits|)), target);
      case If(condition, script) => OneChecked(s, None, script, body => ControlOp.If(condition, body, Absent));
      case IfElse(_, _, _) => TwoChecked(s, c);
      case While(condition, script) => OneChecked(s, Some(LoopScope), script, body => ControlOp.While(condition, body));
      case ForUint(loopVar, start, stop, step, script) =>
        OneChecked(s, Some(LoopScope), script, body => ControlOp.For(loopVar, start, stop, step, body));
      case Switch(_, _) => SwitchChecked(s, c);
      case BreakLoop => TransferChecked(s, Break);
      case ContinueLoop => TransferChecked(s, Continue);
    }
  }

  lemma TransferChecked(s: Draft, c: ControlOp)
    requires c.Break? || c.Continue?
    ensures Checked(s, AppendControl(s, c))
  {
    hide AppendOp, VerifyBuilder, Verify;
    GrowsSame(s);
    ControlChecked(s, s, c, []);
    AppendGrows(s, Control(c), None, UsedQubits(Bodies(c)), [], None);
  }

  lemma {:induction false} StepGrows(s: Draft, c: Command)
    ensures Grows(s, Step(s, c).0)
    decreases c, 4
  {
    hide VerifyBuilder, Verify, AppendOp;
    if AllOrNothing(c) {
      CommandChecked(s, c);
    } else if c.Append? {
      GrowsSame(s);
      AppendGrows(s, c.instruction, c.arity, c.qubits, c.args, c.tag);
      if !(c.instruction.Control? && !Accepted(c.instruction.control)) {
        GrowsOneOp(s, Step(s, c).0);
      }
    } else if c.Swallow? {
      StepGrows(s, c.command);
    } else {
      GrowsSame(s);
    }
  }
}
