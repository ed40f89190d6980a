/**
 Every circuit reachable through the builder: valid between top-level commands, well built at all
 times, and therefore expandable, rebuildable and safe to run. Inside a callback validity can fail,
 and exactly when is stated.
 */
module BuilderReach {
  import opened Prelude
  import opened Ir
  import opened Placement
  import opened Verifier
  import opened Builder
  import opened BuilderSafety

  /** Between top-level commands: no open scope, and `validate` passes. */
  predicate TopValid(s: Draft) {
    s.scopes == [] && Valid(s.ops, s.Handles())
  }

  // ---- the analysis under growing tables -------------------------------------------------------------

  predicate TablesGrow(h: Handles, h': Handles) {
    h.id == h'.id && h.vars <= h'.vars && h.values <= h'.values
  }

  lemma {:induction false} TypedGrows(ops: seq<Operation>, h: Handles, h': Handles)
    requires TablesGrow(h, h') && Typed(ops, h)
    ensures Typed(ops, h')
    decreases ops
  {
    forall k | 0 <= k < |ops|
      ensures TypedOp(ops[k], h')
    {
      assert TypedOp(ops[k], h);
      TypedOpGrows(ops[k], h, h');
    }
  }

  lemma {:induction false} TypedOpGrows(op: Operation, h: Handles, h': Handles)
    requires TablesGrow(h, h') && TypedOp(op, h)
    ensures TypedOp(op, h')
    decreases op
  {
    if op.instruction.Control? {
      var c := op.instruction.control;
      forall k | 0 <= k < |Bodies(c)|
        ensures Typed(Bodies(c)[k], h')
      {
        TypedGrows(Bodies(c)[k], h, h');
      }
    }
  }

  /** Accepting runs stay accepting, with the same result, when the tables grow. */
  lemma VerifyGrows(ops: seq<Operation>, h: Handles, h': Handles, st: Verifier.State, p: Placing)
    requires TablesGrow(h, h') && Verify(ops, h, st, p).Ok?
    ensures Verify(ops, h', st, p) == Verify(ops, h, st, p)
  {
    hide Verify;
    VerifyCharacterised(ops, h, st, p);
    VerifyCharacterised(ops, h', st, p);
    TypedGrows(ops, h, h');
  }

  /** A gate after an accepted tree changes nothing, where no transfer may end the tree. */
  lemma {:induction false} VerifyThenGate(ops: seq<Operation>, gate: Operation, h: Handles, st: Verifier.State)
    requires gate.instruction.Gate? && Verify(ops, h, st, Verifier.Placing(false, false)).Ok?
    ensures Verify(ops + [gate], h, st, Verifier.Placing(false, false)) == Verify(ops, h, st, Verifier.Placing(false, false))
    decreases |ops|
  {
    hide VerifyControl, VerifyData;
    var p := Verifier.Placing(false, false);
    if ops == [] {
      assert [] + [gate] == [gate] && [gate][1..] == [];
      assert Verify([gate], h, st, p) == Verify([], h, st, p);
    } else {
      var st1 := VerifyOp(ops[0], h, st, p, |ops| == 1).value;
      assert (ops + [gate])[1..] == ops[1..] + [gate];
      assert VerifyOp(ops[0], h, st, p, |ops + [gate]| == 1) == Ok(st1);
      VerifyThenGate(ops[1..], gate, h, st1);
    }
  }

  // ---- between top-level commands ----------------------------------------------------------------------

  /** All allocated values are measured somewhere in the circuit. */
  predicate AllMeasured(s: Draft) {
    forall k | 0 <= k < |s.values| :: s.Value(k) in Results(s.ops)
  }

  lemma ValidMeans(s: Draft)
    requires s.scopes == []
    ensures TopValid(s) <==> VerifyBuilder(s).Ok? && AllMeasured(s)
  {
    hide Verify, Results;
    var h := s.Handles();
    VerifyCharacterised(s.ops, h, Verifier.State({}, {}), Verifier.Placing(false, false));
    var r := Verify(s.ops, h, Verifier.State({}, {}), Verifier.Placing(false, false));
    if r.Ok? {
      assert r.value.defined == {} + ToSet(Results(s.ops));
      forall k | 0 <= k < |s.values|
        ensures ClassicalValue(h.id, k, h.values[k]) in r.value.defined <==> s.Value(k) in Results(s.ops)
      {
      }
      assert Valid(s.ops, h) ==> forall k | 0 <= k < |s.values| :: ClassicalValue(h.id, k, h.values[k]) in r.value.defined;
    }
  }

  lemma CoverageKept(s: Draft, s': Draft)
    requires AllMeasured(s) && Grows(s, s')
    ensures AllMeasured(s')
  {
    hide Results;
    var added := SplitOff(s'.ops, |s.ops|);
    assert s'.ops == s.ops + added;
    ResultsAppend(s.ops, added);
    forall k | 0 <= k < |s'.values|
      ensures s'.Value(k) in Results(s'.ops)
    {
      if k < |s.values| {
        assert s'.Value(k) == s.Value(k);
      } else {
        assert Measured(s'.Value(k), added, []);
      }
    }
  }

  /** Every command, succeeding or failing, keeps the circuit valid. */
  lemma {:induction false} StepSafe(s: Draft, c: Command)
    requires TopValid(s)
    ensures TopValid(Step(s, c).0)
    decreases c
  {
    hide VerifyBuilder, Verify, AppendOp, Valid, Covers, BuildOne, BuildTwo, DoStore, DoMeasure, DoMeasureBits, AppendControl, Collect;
    var s' := Step(s, c).0;
    StepGrows(s, c);
    ValidMeans(s);
    CoverageKept(s, s');
    ValidMeans(s');
    if AllOrNothing(c) {
      CommandChecked(s, c);
    } else if c.Append? {
      AppendSafe(s, c.instruction, c.arity, c.qubits, c.args, c.tag);
    } else if c.NewVar? {
      NewVarSafe(s, c.ty);
    } else if c.Swallow? {
      StepSafe(s, c.command);
    }
  }

  lemma NewVarSafe(s: Draft, ty: ClassicalType)
    requires s.scopes == [] && VerifyBuilder(s).Ok?
    ensures VerifyBuilder(s.(vars := s.vars + [ty])).Ok?
  {
    hide Verify;
    VerifyGrows(s.ops, s.Handles(), s.(vars := s.vars + [ty]).Handles(), Verifier.State({}, {}), s.Placing());
  }

  lemma AppendSafe(s: Draft, instruction: Instruction, arity: Option<(nat, nat)>, qubits: seq<nat>, args: seq<Argument>, tag: Option<string>)
    requires s.scopes == [] && VerifyBuilder(s).Ok?
    ensures VerifyBuilder(AppendOp(s, instruction, arity, qubits, args, tag).0).Ok?
  {
    hide Verify, AppendOp;
    AppendGrows(s, instruction, arity, qubits, args, tag);
    var (s', e) := AppendOp(s, instruction, arity, qubits, args, tag);
    if e.None? && instruction.Gate? {
      assert s'.ops == s.ops + [s'.ops[|s.ops|]];
      VerifyThenGate(s.ops, s'.ops[|s.ops|], s.Handles(), Verifier.State({}, {}));
    }
  }

  lemma {:induction false} ScriptSafe(s: Draft, script: Script)
    requires TopValid(s)
    ensures TopValid(Exec(s, script).0)
    decreases |script|
  {
    hide Step, Valid;
    if script != [] {
      StepSafe(s, script[0]);
      var o := Step(s, script[0]);
      if o.1.None? {
        ScriptSafe(o.0, script[1..]);
      }
    }
  }

  /** Every circuit reachable from a new one by any script passes `validate` when control is back at the top level. */
  lemma ReachableIsValid(id: nat, qubits: seq<nat>, script: Script)
    ensures TopValid(Exec(New(id, qubits), script).0)
  {
    ScriptSafe(New(id, qubits), script);
  }

  /** A failing all-or-nothing command leaves no trace, at any depth and with any scopes open. */
  lemma FailureIsExact(s: Draft, c: Command)
    requires AllOrNothing(c) && Step(s, c).1.Some?
    ensures Step(s, c).0 == s
  {
    CommandChecked(s, c);
  }

  /** A failing plain append may leave interned parameters behind, and nothing else. */
  lemma FailedAppend(s: Draft, c: Command)
    requires c.Append? && Step(s, c).1.Some?
    ensures var s' := Step(s, c).0;
            s' == s.(params := s'.params, symbols := s'.symbols) && s.params <= s'.params && s.symbols <= s'.symbols
  {
    AppendGrows(s, c.instruction, c.arity, c.qubits, c.args, c.tag);
  }

  // ---- inside a callback ---------------------------------------------------------------------------------

  lemma {:induction false} ResultsOwned(ops: seq<Operation>, h: Handles, v: ClassicalValue)
    requires Typed(ops, h) && v in Results(ops)
    ensures h.OwnsValue(v)
    decreases ops
  {
    if ops != [] {
      TypedHead(ops, h);
      if v in ResultsOp(ops[0]) {
        if ops[0].instruction.Control? {
          ResultsOwnedBodies(ops[0].instruction.control, 0, h, v);
        }
      } else {
        ResultsOwned(ops[1..], h, v);
      }
    }
  }

  lemma {:induction false} ResultsOwnedBodies(c: ControlOp, k: nat, h: Handles, v: ClassicalValue)
    requires k <= |Bodies(c)| && (forall j | 0 <= j < |Bodies(c)| :: Typed(Bodies(c)[j], h)) && v in ResultsBodies(c, k)
    ensures h.OwnsValue(v)
    decreases c, |Bodies(c)| - k
  {
    hide Typed, Results;
    if k < |Bodies(c)| {
      if v in Results(Bodies(c)[k]) {
        ResultsOwned(Bodies(c)[k], h, v);
      } else {
        ResultsOwnedBodies(c, k + 1, h, v);
      }
    }
  }

  /**
   An if/else at the top level: when the second callback starts, the first body is held outside the
   circuit, so `validate` passes there exactly if the first body measured nothing.
   */
  lemma ValidInsideElse(s: Draft, thenScript: Script)
    requires TopValid(s) && BuildBody(s, None, thenScript).1.Ok?
    ensures TopValid(BuildBody(s, None, thenScript).0) <==> BuildBody(s, None, thenScript).0.values == s.values
  {
    hide Verify, Results, Exec, BuildBody;
    BodyHeld(s, None, thenScript);
    var s1 := BuildBody(s, None, thenScript).0;
    ValidMeans(s);
    ValidMeans(s1);
    VerifyGrows(s.ops, s.Handles(), s1.Handles(), Verifier.State({}, {}), s.Placing());
    if |s.values| < |s1.values| && s1.Value(|s.values|) in Results(s.ops) {
      VerifyCharacterised(s.ops, s.Handles(), Verifier.State({}, {}), s.Placing());
      ResultsOwned(s.ops, s.Handles(), s1.Value(|s.values|));
    }
    if s1.values == s.values {
      forall k | 0 <= k < |s1.values|
        ensures s1.Value(k) in Results(s1.ops)
      {
        assert s1.Value(k) == s.Value(k);
      }
    }
  }

  /** Measuring a qubit of a new circuit. */
  lemma MeasureSucceeds(id: nat, qubits: seq<nat>, q: nat)
    requires q in qubits
    ensures var v := ClassicalValue(id, 0, Bit);
            DoMeasure(New(id, qubits), q) ==
            (New(id, qubits).(values := [Bit], ops := [Operation(Data(DataOp.MeasureBit(v)), [q], [], None)]), None)
  {
    var s := New(id, qubits);
    var (s1, v) := AllocateValue(s, Bit);
    var op := Operation(Data(DataOp.MeasureBit(v)), [q], [], None);
    var s2 := s1.(ops := [op]);
    assert [q][1..] == [] && FirstMissing([q], qubits).None?;
    assert PreCheck(s1, op.instruction, DataArity(op.instruction.data), [q], 0).None?;
    assert [] + [op] == [op];
    OneMeasurementVerifies(s2, v, op);
    assert AppendData(s1, op.instruction.data, [q]) == (s2, None);
    assert s1.values == [Bit];
  }

  lemma OneMeasurementVerifies(s: Draft, v: ClassicalValue, op: Operation)
    requires op.instruction == Data(DataOp.MeasureBit(v)) && |op.qubits| == 1 && v.ty == Bit
    requires s.ops == [op] && s.Handles().OwnsValue(v)
    ensures VerifyBuilder(s).Ok?
  {
    var st := Verifier.State({}, {});
    assert VerifyOp(op, s.Handles(), st, s.Placing(), true) == Define(v, st);
    var st1 := Define(v, st).value;
    assert [op][1..] == [];
    assert Verify([], s.Handles(), st1, s.Placing()) == Ok(st1);
  }

  /**
   On a new circuit, an if/else whose first callback measures one qubit: validation fails while the
   second callback runs, although every command so far succeeded.
   */
  lemma InvalidInsideElse(id: nat, qubits: seq<nat>, q: nat)
    requires q in qubits
    ensures var s := New(id, qubits);
            TopValid(s) && BuildBody(s, None, [Measure(q)]).1.Ok? && !TopValid(BuildBody(s, None, [Measure(q)]).0)
  {
    hide DoMeasure, Verify, Results;
    var s, script := New(id, qubits), [Measure(q)];
    ReachableIsValid(id, qubits, []);
    MeasureSucceeds(id, qubits, q);
    var s1 := DoMeasure(s, q).0;
    assert script[1..] == [];
    assert Step(s, script[0]) == DoMeasure(s, q);
    assert Exec(s, script) == (s1, None);
    ValidInsideElse(s, script);
  }
}
