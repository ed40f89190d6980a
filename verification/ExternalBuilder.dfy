/**
 Foreign callbacks drive the builder through explicit transactions instead of closures. Each client
 method is proved to take the same step as the closure builder, on success and on failure.
 */
module ExternalBuilder {
  import opened Prelude
  import opened Ir
  import opened Verifier
  import opened Builder
  import opened BuilderSafety
  import opened CircuitBuilder

  class PyCircuit {
    const inner: Circuit

    constructor (inner: Circuit)
      ensures this.inner == inner
    {
      this.inner := inner;
    }

    function Snapshot(): Draft
      reads inner
    {
      inner.Snapshot()
    }

    method CallBody(script: Script) returns (e: Option<BuildError>)
      modifies inner
      ensures (Snapshot(), e) == Exec(old(Snapshot()), script)
      decreases script, 0
    {
      hide Step;
      var i := 0;
      while i < |script|
        invariant i <= |script|
        invariant Exec(old(Snapshot()), script) == Exec(Snapshot(), script[i..])
      {
        e := Perform(script[i]);
        if e.Some? {
          return;
        }
        i := i + 1;
      }
      e := None;
    }

    /** One body in its own transaction, then the operation made from it. */
    method Single(scope: Option<ScopeKind>, script: Script, make: seq<Operation> -> ControlOp) returns (e: Option<BuildError>)
      modifies inner
      ensures (Snapshot(), e) == BuildOne(old(Snapshot()), scope, script, make)
      decreases script, 2
    {
      hide Exec, AppendControl, Extends, Covers, RollbackTo;
      ghost var s := Snapshot();
      var t := inner.BeginTransaction();
      inner.EnterBody(t, scope);
      assert Snapshot() == Opened(s, scope) by { ReopenSame(s, scope); }
      e := CallBody(script);
      ghost var s1 := Snapshot();
      BodyExtends(s, scope, script);
      if e.Some? {
        inner.RollbackTransaction(t);
        FailedOne(s, scope, script, make);
        return;
      }
      var body := inner.FinishBody(t);
      assert (Snapshot(), Ok(body)) == BuildBody(s, scope, script);
      ghost var s2 := Snapshot();
      e := inner.AppendControlOp(make(body));
      if e.Some? {
        inner.RollbackTransaction(t);
        return;
      }
      CommitNothing(s, s2, make(body));
      inner.CommitTransaction(t);
    }

    /** Both bodies of an if/else share one transaction. */
    method Branches(c: Command) returns (e: Option<BuildError>)
      requires c.IfElse?
      modifies inner
      ensures (Snapshot(), e) == BuildTwo(old(Snapshot()), c)
      decreases c, 2
    {
      hide Exec, AppendControl, Extends, Covers, RollbackTo;
      ghost var s := Snapshot();
      var t := inner.BeginTransaction();
      inner.EnterBody(t, None);
      assert Snapshot() == s by { ReopenSame(s, None); }
      e := CallBody(c.thenScript);
      BodyExtends(s, None, c.thenScript);
      if e.Some? {
        inner.RollbackTransaction(t);
        FailedThen(s, c);
        return;
      }
      var thenBody := inner.FinishBody(t);
      ghost var s1 := Snapshot();
      assert (s1, Ok(thenBody)) == BuildBody(s, None, c.thenScript);
      BodyKeeps(s, None, c.thenScript);
      inner.EnterBody(t, None);
      assert Snapshot() == s1 by { ReopenKept(s, s1); }
      e := CallBody(c.elseScript);
      BodyExtends(s1, None, c.elseScript);
      if e.Some? {
        ghost var s2 := Snapshot();
        inner.RollbackTransaction(t);
        FailedElse(s, s1, c);
        return;
      }
      var elseBody := inner.FinishBody(t);
      SameMarks(s, s1);
      assert (Snapshot(), Ok(elseBody)) == BuildBody(s1, None, c.elseScript);
      ghost var s3 := Snapshot();
      BodyKeeps(s1, None, c.elseScript);
      e := inner.AppendControlOp(ControlOp.If(c.condition, thenBody, Present(elseBody)));
      if e.Some? {
        inner.RollbackTransaction(t);
        return;
      }
      KeepsChain(s, s1, s3);
      CommitNothing(s, s3, ControlOp.If(c.condition, thenBody, Present(elseBody)));
      inner.CommitTransaction(t);
    }

    method Perform(c: Command) returns (e: Option<BuildError>)
      modifies inner
      ensures (Snapshot(), e) == Step(old(Snapshot()), c)
      decreases c, 3
    {
      hide AppendOp, AppendControl, BuildOne, BuildTwo, DoStore, DoMeasure, DoMeasureBits, DoMeasureInto, DoMeasureBitsInto,
        CheckExpr, CheckVar, CheckRange, Collect, Accepted;
      match c
      case If(condition, script) =>
        e := CheckExpr(condition, Snapshot().Handles());
        if e.None? {
          e := Single(None, script, body => ControlOp.If(condition, body, Absent));
        }
      case IfElse(condition, _, _) =>
        e := CheckExpr(condition, Snapshot().Handles());
        if e.None? {
          e := Branches(c);
        }
      case While(condition, script) =>
        e := CheckExpr(condition, Snapshot().Handles());
        if e.None? {
          e := Single(Some(LoopScope), script, body => ControlOp.While(condition, body));
        }
      case ForUint(loopVar, start, stop, step, script) =>
        e := CheckRange(loopVar, start, stop, step, Snapshot().Handles());
        if e.None? {
          e := Single(Some(LoopScope), script, body => ControlOp.For(loopVar, start, stop, step, body));
        }
      case Switch(_, _) => e := SwitchOn(c);
      case Swallow(command) =>
        var ignored := Perform(command);
        e := None;
      case _ => e := inner.Perform(c);   // the other methods pass straight through
    }

    method SwitchOn(c: Command) returns (e: Option<BuildError>)
      requires c.Switch?
      modifies inner
      ensures (Snapshot(), e) == Step(old(Snapshot()), c)
      decreases c, 2
    {
      hide Collect, AppendControl, CheckExpr, RollbackTo, Extends, Covers;
      ghost var s := Snapshot();
      e := CheckExpr(c.selector, Snapshot().Handles());
      if e.Some? {
        return;
      }
      var t := inner.BeginTransaction();
      var builder := new PySwitchBuilder(this, t);
      e := builder.CallBuild(c.build);
      builder.closed := true;
      var transaction := builder.transaction;
      builder.transaction := None;
      if e.Some? {
        if transaction.Some? {
          inner.RollbackTransaction(transaction.value);
        }
        return;
      }
      var cases, default := builder.cases, builder.default;
      ghost var s1 := Snapshot();
      CollectKeeps(s, c.build);
      e := inner.AppendControlOp(ControlOp.Switch(c.selector, cases, default));
      if e.Some? {
        inner.RollbackTransaction(t);
        return;
      }
      CommitNothing(s, s1, ControlOp.Switch(c.selector, cases, default));
      inner.CommitTransaction(t);
    }
  }

  /** The case builder handed to a switch callback: usable only until the switch closes it. */
  class PySwitchBuilder {
    const circuit: PyCircuit
    var transaction: Option<Checkpoint>
    var cases: seq<SwitchCase>
    var default: MaybeBody
    var closed: bool

    constructor (circuit: PyCircuit, t: Checkpoint)
      ensures this.circuit == circuit && transaction == Some(t) && cases == [] && default == Absent && !closed
    {
      this.circuit := circuit;
      transaction := Some(t);
      cases, default, closed := [], Absent, false;
    }

    predicate Open()
      reads this
    {
      !closed && transaction.Some?
    }

    function Collected(e: Option<BuildError>): Collected
      reads this, circuit.inner
    {
      (circuit.Snapshot(), cases, default, e)
    }

    method CallBuild(build: seq<CaseCommand>) returns (e: Option<BuildError>)
      requires Open()
      modifies this`cases, this`default, circuit.inner
      ensures Collected(e) == Collect(old(circuit.Snapshot()), build, old(cases), old(default))
      decreases build, 0
    {
      hide StepCase;
      var i := 0;
      while i < |build|
        invariant i <= |build|
        invariant Collect(old(circuit.Snapshot()), build, old(cases), old(default)) == Collect(circuit.Snapshot(), build[i..], cases, default)
      {
        e := Perform(build[i]);
        if e.Some? {
          return;
        }
        i := i + 1;
      }
      e := None;
    }

    /** A nested transaction for one case body. */
    method CaseBody(script: Script) returns (body: Result<seq<Operation>, BuildError>)
      modifies circuit.inner
      ensures (circuit.Snapshot(), body) == BuildBody(old(circuit.Snapshot()), Some(SwitchScope), script)
      decreases script, 2
    {
      hide Exec, Extends, Covers, RollbackTo;
      ghost var s := circuit.Snapshot();
      var t := circuit.inner.BeginTransaction();
      circuit.inner.EnterBody(t, Some(SwitchScope));
      assert circuit.Snapshot() == Opened(s, Some(SwitchScope)) by { ReopenSame(s, Some(SwitchScope)); }
      var e := circuit.CallBody(script);
      BodyExtends(s, Some(SwitchScope), script);
      if e.Some? {
        circuit.inner.RollbackTransaction(t);
        FailedBody(s, Some(SwitchScope), script);
        return Err(e.value);
      }
      var ops := circuit.inner.FinishBody(t);
      assert (circuit.Snapshot(), Ok(ops)) == BuildBody(s, Some(SwitchScope), script);
      BodyKeeps(s, Some(SwitchScope), script);
      CommitKept(s, circuit.Snapshot());
      circuit.inner.CommitTransaction(t);
      body := Ok(ops);
    }

    /** A closed builder refuses new cases and changes nothing. */
    method Perform(c: CaseCommand) returns (e: Option<BuildError>)
      modifies this`cases, this`default, circuit.inner
      ensures old(Open()) ==> Collected(e) == StepCase(old(circuit.Snapshot()), c, old(cases), old(default))
      ensures !old(Open()) ==> Collected(e) == (old(circuit.Snapshot()), old(cases), old(default), e)
      ensures !old(Open()) && (c.Case? || c.Default?) ==> e.Some?
      decreases c, 3
    {
      hide BuildBody;
      match c
      case Case(value, script) =>
        if !Open() {
          return Some(CallbackError);
        }
        var body := CaseBody(script);
        if body.Err? {
          return Some(body.error);
        }
        cases := cases + [SwitchCase(value, body.value)];
        e := None;
      case Default(script) =>
        if default.Present? {
          return Some(DefaultAlreadyDefined);
        }
        if !Open() {
          return Some(CallbackError);
        }
        var body := CaseBody(script);
        if body.Err? {
          return Some(body.error);
        }
        default := Present(body.value);
        e := None;
      case SwallowCase(command) =>
        var ignored := Perform(command);
        e := None;
      case RaiseCase =>
        e := Some(CallbackError);
    }
  }

  // ---- why the protocol matches the closures -------------------------------------------------------------

  lemma ReopenSame(s: Draft, scope: Option<ScopeKind>)
    ensures Opened(s.(scopes := Truncate(s.scopes, Mark(s).scopes)), scope) == Opened(s, scope)
  {
  }

  lemma ReopenKept(s: Draft, s1: Draft)
    requires s1.scopes == s.scopes
    ensures Opened(s1.(scopes := Truncate(s1.scopes, Mark(s).scopes)), None) == s1
  {
  }

  lemma SameMarks(s: Draft, s1: Draft)
    requires s1.scopes == s.scopes && s1.ops == s.ops
    ensures Mark(s1).scopes == Mark(s).scopes && Mark(s1).ops == Mark(s).ops
  {
  }

  lemma BodyExtends(s: Draft, scope: Option<ScopeKind>, script: Script)
    ensures Extends(Opened(s, scope), Exec(Opened(s, scope), script).0)
  {
    ExecGrows(Opened(s, scope), script);
    GrowsExtends(Opened(s, scope), Exec(Opened(s, scope), script).0);
  }

  lemma BodyKeeps(s: Draft, scope: Option<ScopeKind>, script: Script)
    ensures var s1 := BuildBody(s, scope, script).0;
            Extends(s, s1) && s1.ops == s.ops && s1.scopes == s.scopes
  {
    hide BuildBody, Covers;
    BodyHeld(s, scope, script);
  }

  lemma KeepsChain(s: Draft, s1: Draft, s2: Draft)
    requires Extends(s, s1) && Extends(s1, s2)
    ensures Extends(s, s2)
  {
  }

  /** Undoing straight from the body's end is undoing with the scopes closed first. */
  lemma UndoBoth(s: Draft, s': Draft)
    requires s.scopes <= s'.scopes && Extends(s.(scopes := s'.scopes), s')
    ensures RollbackTo(s', Mark(s)) == s
    ensures RollbackTo(s'.(scopes := Truncate(s'.scopes, |s.scopes|)), Mark(s)) == s
    ensures RollbackTo(s, Mark(s)) == s
  {
  }

  lemma FailedBody(s: Draft, scope: Option<ScopeKind>, script: Script)
    requires Exec(Opened(s, scope), script).1.Some? && Extends(Opened(s, scope), Exec(Opened(s, scope), script).0)
    ensures var (s1, e) := Exec(Opened(s, scope), script);
            BuildBody(s, scope, script) == (RollbackTo(s1, Mark(s)), Err(e.value))
  {
    hide Exec, RollbackTo;
    UndoBoth(s, Exec(Opened(s, scope), script).0);
  }

  lemma FailedOne(s: Draft, scope: Option<ScopeKind>, script: Script, make: seq<Operation> -> ControlOp)
    requires Exec(Opened(s, scope), script).1.Some? && Extends(Opened(s, scope), Exec(Opened(s, scope), script).0)
    ensures var (s1, e) := Exec(Opened(s, scope), script);
            BuildOne(s, scope, script, make) == (RollbackTo(s1, Mark(s)), e)
  {
    hide Exec, RollbackTo;
    UndoBoth(s, Exec(Opened(s, scope), script).0);
  }

  lemma FailedThen(s: Draft, c: Command)
    requires c.IfElse? && Exec(s, c.thenScript).1.Some? && Extends(s, Exec(s, c.thenScript).0)
    ensures var (s1, e) := Exec(s, c.thenScript);
            BuildTwo(s, c) == (RollbackTo(s1, Mark(s)), e)
  {
    hide Exec, RollbackTo;
    UndoBoth(s, Exec(s, c.thenScript).0);
    assert Opened(s, None) == s;
  }

  lemma FailedElse(s: Draft, s1: Draft, c: Command)
    requires c.IfElse? && BuildBody(s, None, c.thenScript).0 == s1 && BuildBody(s, None, c.thenScript).1.Ok?
    requires Extends(s, s1) && Exec(s1, c.elseScript).1.Some? && Extends(s1, Exec(s1, c.elseScript).0)
    ensures var (s2, e) := Exec(s1, c.elseScript);
            BuildTwo(s, c) == (RollbackTo(s2, Mark(s)), e)
  {
    hide Exec, RollbackTo;
    var s2 := Exec(s1, c.elseScript).0;
    assert Opened(s1, None) == s1;
    UndoBoth(s1, s2);
    UndoBoth(s, s1);
    KeepsChain(s, s1, s2);
    UndoBoth(s, s2);
  }

  /** Committing after a successful append has no scope left to close. */
  lemma CommitNothing(s: Draft, s1: Draft, c: ControlOp)
    requires s1.scopes == s.scopes
    ensures var s' := AppendControl(s1, c).0; s'.(scopes := Truncate(s'.scopes, Mark(s).scopes)) == s'
  {
    hide AppendOp;
    if Accepted(c) {
      AppendGrows(s1, Control(c), None, UsedQubits(Bodies(c)), [], None);
    }
  }

  lemma CommitKept(s: Draft, s1: Draft)
    requires s1.scopes == s.scopes
    ensures s1.(scopes := Truncate(s1.scopes, Mark(s).scopes)) == s1
  {
  }

  lemma CollectKeeps(s: Draft, build: seq<CaseCommand>)
    ensures Collect(s, build, [], Absent).0.scopes == s.scopes
  {
    hide Collect, Covers;
    assert CollectedBodies([], Absent) == [];
    GrowsSame(s);
    StartCollects(s);
    CollectHeld(s, s, build, [], Absent);
  }

  lemma StartCollects(s: Draft)
    ensures Collects(s, (s, [], Absent, None))
  {
  }
}
