/**
 The circuit object and its callback builders: operations of open bodies live at the tail of the one
 operation vector, closing a body splits them off, and failures roll back to checkpoints. Every
 method is proved to take the step of the transition function.
 */
module CircuitBuilder {
  import opened Prelude
  import opened Ir
  import opened Verifier
  import opened Builder
  import opened BuilderSafety

  class Circuit {
    const id: nat
    var qubits: seq<nat>
    var ops: seq<Operation>
    var params: seq<Parameter>
    var symbols: seq<string>
    var vars: seq<ClassicalType>
    var values: seq<ClassicalType>
    var scopes: seq<ScopeKind>
    var phase: Param

    /** The circuit as a value. */
    function Snapshot(): Draft
      reads this
    {
      Draft(id, qubits, ops, params, symbols, vars, values, scopes, phase)
    }

    constructor (id: nat, qubits: seq<nat>)
      ensures Snapshot() == New(id, qubits)
    {
      this.id, this.qubits := id, qubits;
      ops, params, symbols, vars, values, scopes := [], [], [], [], [], [];
      phase := Fixed(0.0);
    }

    // ---- checkpoints ------------------------------------------------------------------------------

    method TakeCheckpoint() returns (mark: Checkpoint)
      ensures mark == Mark(Snapshot())
    {
      mark := Checkpoint(|ops|, |params|, |symbols|, |vars|, |values|, |scopes|);
    }

    method Rollback(mark: Checkpoint)
      modifies this
      ensures Snapshot() == RollbackTo(old(Snapshot()), mark)
    {
      ops := Truncate(ops, mark.ops);
      params := Truncate(params, mark.params);
      symbols := Truncate(symbols, mark.symbols);
      vars := Truncate(vars, mark.vars);
      values := Truncate(values, mark.values);
      scopes := Truncate(scopes, mark.scopes);
    }

    // ---- append ---------------------------------------------------------------------------------------

    /** Interns the parameter; the index is where it is found from now on. */
    method Intern(p: Parameter) returns (index: nat)
      modifies this
      ensures Snapshot() == AddParameter(old(Snapshot()), p)
      ensures index == IndexOf(params, p) && index < |params| && params[index] == p
    {
      var known := p in params;
      if !known {
        params := params + [p];
        var i := 0;
        ghost var before := symbols;
        while i < |p.symbols|
          invariant i <= |p.symbols|
          invariant InternedAll(before, p.symbols) == InternedAll(symbols, p.symbols[i..])
          invariant Snapshot() == old(Snapshot()).(params := params, symbols := symbols) && params == old(params) + [p]
        {
          symbols := Interned(symbols, p.symbols[i]);
          i := i + 1;
        }
        assert params[|old(params)|] == p;
      }
      index := IndexOf(params, p);
    }

    /** Lowers the arguments in order; a non-finite number stops the append. */
    method LowerArguments(args: seq<Argument>) returns (r: Result<seq<Param>, BuildError>)
      modifies this
      ensures (Snapshot(), r) == Lower(old(Snapshot()), args, 0)
    {
      var lowered: seq<Param> := [];
      var i := 0;
      ghost var all := Lower(Snapshot(), args, 0).1;
      assert all.Ok? ==> [] + all.value == all.value;
      while i < |args|
        invariant i <= |args|
        invariant Lower(old(Snapshot()), args, 0).0 == Lower(Snapshot(), args, i).0
        invariant var rest := Lower(Snapshot(), args, i).1;
                  Lower(old(Snapshot()), args, 0).1 == if rest.Ok? then Ok(lowered + rest.value) else rest
      {
        match args[i] {
          case NotFinite =>
            return Err(InvalidParameter(i));
          case Number(v) =>
            ghost var rest := Lower(Snapshot(), args, i + 1).1;
            assert rest.Ok? ==> lowered + ([Fixed(v)] + rest.value) == lowered + [Fixed(v)] + rest.value;
            lowered := lowered + [Fixed(v)];
          case Symbolic(p) =>
            ghost var s := Snapshot();
            var index := Intern(p);
            ghost var rest := Lower(Snapshot(), args, i + 1).1;
            assert rest.Ok? ==> lowered + ([Index(index)] + rest.value) == lowered + [Index(index)] + rest.value;
            lowered := lowered + [Index(index)];
        }
        i := i + 1;
      }
      assert Lower(Snapshot(), args, i) == (Snapshot(), Ok([]));
      assert lowered + [] == lowered;
      r := Ok(lowered);
    }

    method AppendOwned(instruction: Instruction, arity: Option<(nat, nat)>, qs: seq<nat>, args: seq<Argument>, tag: Option<string>)
      returns (e: Option<BuildError>)
      modifies this
      ensures (Snapshot(), e) == AppendOp(old(Snapshot()), instruction, arity, qs, args, tag)
    {
      hide PreCheck, Verify;
      var mark := TakeCheckpoint();
      e := PreCheck(Snapshot(), instruction, arity, qs, |args|);
      if e.Some? {
        return;
      }
      var lowered := LowerArguments(args);
      if lowered.Err? {
        return Some(lowered.error);
      }
      ops := ops + [Operation(instruction, qs, lowered.value, tag)];
      if !instruction.Gate? {
        var v := VerifyBuilder(Snapshot());
        if v.Err? {
          Rollback(mark);
          return Some(Verification(v.error));
        }
      }
    }

    method AppendControlOp(c: ControlOp) returns (e: Option<BuildError>)
      modifies this
      ensures (Snapshot(), e) == AppendControl(old(Snapshot()), c)
    {
      hide AppendOp, Accepted, UsedQubits;
      if !Accepted(c) {
        return Some(Rejected);
      }
      e := AppendOwned(Control(c), None, UsedQubits(Bodies(c)), [], None);
    }

    // ---- classical data --------------------------------------------------------------------------------

    method NewVariable(ty: ClassicalType) returns (v: ClassicalVar)
      modifies this
      ensures Snapshot() == Step(old(Snapshot()), NewVar(ty)).0 && v == Snapshot().Var(|old(vars)|)
    {
      vars := vars + [ty];
      v := ClassicalVar(id, |vars| - 1, ty);
    }

    method StoreExpr(target: ClassicalVar, value: Expr) returns (e: Option<BuildError>)
      modifies this
      ensures (Snapshot(), e) == DoStore(old(Snapshot()), target, value)
    {
      hide AppendOp, CheckExpr, CheckVar;
      e := CheckVar(target, Snapshot().Handles());
      if e.Some? {
        return;
      }
      e := CheckExpr(value, Snapshot().Handles());
      if e.Some? {
        return;
      }
      e := AppendOwned(Data(DataOp.Store(target, value)), DataArity(DataOp.Store(target, value)), [], [], None);
    }

    method MeasureQubit(qubit: nat) returns (e: Option<BuildError>)
      modifies this
      ensures (Snapshot(), e) == DoMeasure(old(Snapshot()), qubit)
    {
      hide AppendOp;
      var mark := TakeCheckpoint();
      var result := ClassicalValue(id, |values|, Bit);
      values := values + [Bit];
      e := AppendOwned(Data(DataOp.MeasureBit(result)), DataArity(DataOp.MeasureBit(result)), [qubit], [], None);
      if e.Some? {
        Rollback(mark);
      }
    }

    method MeasureQubits(qs: seq<nat>) returns (e: Option<BuildError>)
      modifies this
      ensures (Snapshot(), e) == DoMeasureBits(old(Snapshot()), qs)
    {
      hide AppendOp;
      if qs == [] {
        return Some(EmptyMeasurement);
      }
      var mark := TakeCheckpoint();
      var result := ClassicalValue(id, |values|, BitVec(|qs|));
      values := values + [BitVec(|qs|)];
      e := AppendOwned(Data(DataOp.MeasureBits(result)), DataArity(DataOp.MeasureBits(result)), qs, [], None);
      if e.Some? {
        Rollback(mark);
      }
    }

    method MeasureQubitInto(qubit: nat, target: ClassicalVar) returns (e: Option<BuildError>)
      modifies this
      ensures (Snapshot(), e) == DoMeasureInto(old(Snapshot()), qubit, target)
    {
      hide DoMeasure, DoStore, CheckVar;
      e := CheckVar(target, Snapshot().Handles());
      if e.Some? {
        return;
      }
      var mark := TakeCheckpoint();
      var result := ClassicalValue(id, |values|, Bit);
      e := MeasureQubit(qubit);
      if e.None? {
        e := StoreExpr(target, ValueRead(result));
        if e.Some? {
          Rollback(mark);
        }
      }
    }

    method MeasureQubitsInto(qs: seq<nat>, target: ClassicalVar) returns (e: Option<BuildError>)
      modifies this
      ensures (Snapshot(), e) == DoMeasureBitsInto(old(Snapshot()), qs, target)
    {
      hide DoMeasureBits, DoStore, CheckVar;
      e := CheckVar(target, Snapshot().Handles());
      if e.Some? {
        return;
      }
      var mark := TakeCheckpoint();
      var result := ClassicalValue(id, |values|, BitVec(|qs|));
      e := MeasureQubits(qs);
      if e.None? {
        e := StoreExpr(target, ValueRead(result));
        if e.Some? {
          Rollback(mark);
        }
      }
    }

    // ---- the external transaction protocol ----------------------------------------------------------------

    method BeginTransaction() returns (t: Checkpoint)
      ensures t == Mark(Snapshot())
    {
      t := TakeCheckpoint();
    }

    /** Starts a callback body: whatever scopes are open beyond the transaction are closed first. */
    method EnterBody(t: Checkpoint, scope: Option<ScopeKind>)
      modifies this`scopes
      ensures Snapshot() == Opened(old(Snapshot()).(scopes := Truncate(old(scopes), t.scopes)), scope)
    {
      scopes := Truncate(scopes, t.scopes);
      if scope.Some? {
        scopes := scopes + [scope.value];
      }
    }

    /** Ends a callback body and captures its operations. */
    method FinishBody(t: Checkpoint) returns (body: seq<Operation>)
      modifies this`scopes, this`ops
      ensures Snapshot() == old(Snapshot()).(scopes := Truncate(old(scopes), t.scopes), ops := Truncate(old(ops), t.ops))
      ensures body == SplitOff(old(ops), t.ops)
    {
      scopes := Truncate(scopes, t.scopes);
      body := SplitOff(ops, t.ops);
      ops := Truncate(ops, t.ops);
    }

    method CommitTransaction(t: Checkpoint)
      modifies this`scopes
      ensures Snapshot() == old(Snapshot()).(scopes := Truncate(old(scopes), t.scopes))
    {
      scopes := Truncate(scopes, t.scopes);
    }

    method RollbackTransaction(t: Checkpoint)
      modifies this
      ensures Snapshot() == RollbackTo(old(Snapshot()), t)
    {
      Rollback(t);
    }

    // ---- control commands ---------------------------------------------------------------------------------

    /** Runs what a callback does, stopping at its first unhandled error. */
    method RunCallback(script: Script) returns (e: Option<BuildError>)
      modifies this
      ensures (Snapshot(), e) == Exec(old(Snapshot()), script)
      decreases script, 0
    {
      hide Step;
      var i := 0;
      while i < |script|
        invariant i <= |script|
        invariant Exec(old(Snapshot()), script) == Exec(Snapshot(), script[i..])
      {
        e := Perform(script[i]);
        if e.Some? {
          return;
        }
        i := i + 1;
      }
      e := None;
    }

    method BuildControlBody(scope: Option<ScopeKind>, script: Script) returns (body: Result<seq<Operation>, BuildError>)
      modifies this
      ensures (Snapshot(), body) == BuildBody(old(Snapshot()), scope, script)
      decreases script, 1
    {
      hide Exec;
      var mark := TakeCheckpoint();
      if scope.Some? {
        scopes := scopes + [scope.value];
      }
      var e := RunCallback(script);
      scopes := Truncate(scopes, mark.scopes);
      if e.Some? {
        Rollback(mark);
        return Err(e.value);
      }
      body := Ok(SplitOff(ops, mark.ops));
      ops := Truncate(ops, mark.ops);
    }

    method BuildSingle(scope: Option<ScopeKind>, script: Script, make: seq<Operation> -> ControlOp) returns (e: Option<BuildError>)
      modifies this
      ensures (Snapshot(), e) == BuildOne(old(Snapshot()), scope, script, make)
      decreases script, 2
    {
      hide BuildBody, AppendControl;
      var mark := TakeCheckpoint();
      var body := BuildControlBody(scope, script);
      if body.Err? {
        e := Some(body.error);
      } else {
        e := AppendControlOp(make(body.value));
      }
      if e.Some? {
        Rollback(mark);
      }
    }

    method BuildBranches(c: Command) returns (e: Option<BuildError>)
      requires c.IfElse?
      modifies this
      ensures (Snapshot(), e) == BuildTwo(old(Snapshot()), c)
      decreases c, 2
    {
      hide BuildBody, AppendControl;
      var mark := TakeCheckpoint();
      var thenBody := BuildControlBody(None, c.thenScript);
      if thenBody.Err? {
        e := Some(thenBody.error);
      } else {
        var elseBody := BuildControlBody(None, c.elseScript);
        if elseBody.Err? {
          e := Some(elseBody.error);
        } else {
          e := AppendControlOp(ControlOp.If(c.condition, thenBody.value, Present(elseBody.value)));
        }
      }
      if e.Some? {
        Rollback(mark);
      }
    }

    /** One call of a builder method, as a callback makes it. */
    method Perform(c: Command) returns (e: Option<BuildError>)
      modifies this
      ensures (Snapshot(), e) == Step(old(Snapshot()), c)
      decreases c, 3
    {
      hide AppendOp, AppendControl, BuildOne, BuildTwo, DoStore, DoMeasure, DoMeasureBits, DoMeasureInto, DoMeasureBitsInto,
        CheckExpr, CheckVar, CheckRange, Collect, Accepted;
      match c
      case Append(instruction, arity, qs, args, tag) =>
        if instruction.Control? && !Accepted(instruction.control) {
          return Some(Rejected);
        }
        e := AppendOwned(instruction, arity, qs, args, tag);
      case NewVar(ty) =>
        var v := NewVariable(ty);
        e := None;
      case Store(target, value) => e := StoreExpr(target, value);
      case Measure(qubit) => e := MeasureQubit(qubit);
      case MeasureBits(qs) => e := MeasureQubits(qs);
      case MeasureInto(qubit, target) => e := MeasureQubitInto(qubit, target);
      case MeasureBitsInto(qs, target) => e := MeasureQubitsInto(qs, target);
      case If(condition, script) =>
        e := CheckExpr(condition, Snapshot().Handles());
        if e.None? {
          e := BuildSingle(None, script, body => ControlOp.If(condition, body, Absent));
        }
      case IfElse(condition, _, _) =>
        e := CheckExpr(condition, Snapshot().Handles());
        if e.None? {
          e := BuildBranches(c);
        }
      case While(condition, script) =>
        e := CheckExpr(condition, Snapshot().Handles());
        if e.None? {
          e := BuildSingle(Some(LoopScope), script, body => ControlOp.While(condition, body));
        }
      case ForUint(loopVar, start, stop, step, script) =>
        e := CheckRange(loopVar, start, stop, step, Snapshot().Handles());
        if e.None? {
          e := BuildSingle(Some(LoopScope), script, body => ControlOp.For(loopVar, start, stop, step, body));
        }
      case Switch(_, _) => e := BuildSwitch(c);
      case BreakLoop => e := AppendControlOp(Break);
      case ContinueLoop => e := AppendControlOp(Continue);
      case Swallow(command) =>
        var ignored := Perform(command);
        e := None;
      case Raise => e := Some(CallbackError);
    }

    method BuildSwitch(c: Command) returns (e: Option<BuildError>)
      requires c.Switch?
      modifies this
      ensures (Snapshot(), e) == Step(old(Snapshot()), c)
      decreases c, 2
    {
      hide Collect, AppendControl, CheckExpr;
      e := CheckExpr(c.selector, Snapshot().Handles());
      if e.Some? {
        return;
      }
      var mark := TakeCheckpoint();
      var builder := new SwitchBuilder(this);
      e := builder.RunCallback(c.build);
      if e.None? {
        e := AppendControlOp(ControlOp.Switch(c.selector, builder.cases, builder.default));
      }
      if e.Some? {
        Rollback(mark);
      }
    }
  }

  /** Collects the cases of one switch while its callback runs. */
  class SwitchBuilder {
    const circuit: Circuit
    var cases: seq<SwitchCase>
    var default: MaybeBody

    constructor (circuit: Circuit)
      ensures this.circuit == circuit && cases == [] && default == Absent
    {
      this.circuit := circuit;
      cases, default := [], Absent;
    }

    function Collected(e: Option<BuildError>): Collected
      reads this, circuit
    {
      (circuit.Snapshot(), cases, default, e)
    }

    method RunCallback(build: seq<CaseCommand>) returns (e: Option<BuildError>)
      modifies this, circuit
      ensures Collected(e) == Collect(old(circuit.Snapshot()), build, old(cases), old(default))
      decreases build, 0
    {
      hide StepCase;
      var i := 0;
      while i < |build|
        invariant i <= |build|
        invariant Collect(old(circuit.Snapshot()), build, old(cases), old(default)) == Collect(circuit.Snapshot(), build[i..], cases, default)
      {
        e := Perform(build[i]);
        if e.Some? {
          return;
        }
        i := i + 1;
      }
      e := None;
    }

    method Perform(c: CaseCommand) returns (e: Option<BuildError>)
      modifies this, circuit
      ensures Collected(e) == StepCase(old(circuit.Snapshot()), c, old(cases), old(default))
      decreases c, 3
    {
      hide BuildBody;
      match c
      case Case(value, script) =>
        var body := circuit.BuildControlBody(Some(SwitchScope), script);
        if body.Err? {
          return Some(body.error);
        }
        cases := cases + [SwitchCase(value, body.value)];
        e := None;
      case Default(script) =>
        if default.Present? {
          return Some(DefaultAlreadyDefined);
        }
        var body := circuit.BuildControlBody(Some(SwitchScope), script);
        if body.Err? {
          return Some(body.error);
        }
        default := Present(body.value);
        e := None;
      case SwallowCase(command) =>
        var ignored := Perform(command);
        e := None;
      case RaiseCase =>
        e := Some(CallbackError);
    }
  }
}
