/**
 What each builder command does, stated through the callbacks themselves: the operation a control
 command adds has as bodies what its callbacks add when they run in their scopes, one after the other.
 */
module BuilderMeaning {
  import opened Prelude
  import opened Ir
  import opened Verifier
  import opened Builder
  import opened BuilderSafety
  import opened AppendMeaning

  // ---- callbacks ------------------------------------------------------------------------------------

  /** A callback run on `s` inside further scopes. */
  function Ran(s: Draft, scopes: seq<ScopeKind>, script: Script): Outcome {
    Exec(s.(scopes := s.scopes + scopes), script)
  }

  /** The operations it adds. */
  function Added(s: Draft, scopes: seq<ScopeKind>, script: Script): seq<Operation> {
    var t := Ran(s, scopes, script).0;
    if |s.ops| <= |t.ops| then t.ops[|s.ops|..] else []
  }

  /** The circuit it leaves when they are held aside and the scopes are closed. */
  function Left(s: Draft, scopes: seq<ScopeKind>, script: Script): Draft {
    Ran(s, scopes, script).0.(ops := s.ops, scopes := s.scopes)
  }

  predicate Runs(s: Draft, scopes: seq<ScopeKind>, script: Script) {
    Ran(s, scopes, script).1.None?
  }

  function Scopes(scope: Option<ScopeKind>): seq<ScopeKind> {
    if scope.None? then [] else [scope.value]
  }

  lemma BodyMeans(s: Draft, scope: Option<ScopeKind>, script: Script)
    ensures var (t, body) := BuildBody(s, scope, script);
            var scopes := Scopes(scope);
            && (Runs(s, scopes, script) ==> (t, body) == (Left(s, scopes, script), Ok(Added(s, scopes, script))))
            && (!Runs(s, scopes, script) ==> (t, body) == (s, Err(Ran(s, scopes, script).1.value)))
  {
    hide Exec, Covers;
    var s0 := Opened(s, scope);
    assert s0 == s.(scopes := s.scopes + Scopes(scope)) by {
      assert s.scopes + [] == s.scopes;
    }
    ExecGrows(s0, script);
    BodyHeld(s, scope, script);
    assert Truncate(s0.scopes, |s.scopes|) == s.scopes;
  }

  // ---- adding a control operation ---------------------------------------------------------------------

  /** The qubits of the operations directly in the bodies, each once, in ascending order. */
  ghost predicate Uses(qs: seq<nat>, bodies: seq<seq<Operation>>) {
    && (forall i, j | 0 <= i < j < |qs| :: qs[i] < qs[j])
    && (forall q :: q in qs <==> UsedIn(bodies, q))
  }

  ghost predicate UsedIn(bodies: seq<seq<Operation>>, q: nat) {
    exists i, j :: 0 <= i < |bodies| && 0 <= j < |bodies[i]| && q in bodies[i][j].qubits
  }

  predicate Ascending(qs: seq<nat>) {
    forall i, j | 0 <= i < j < |qs| :: qs[i] < qs[j]
  }

  lemma {:induction false} InsertedAscending(x: nat, s: seq<nat>)
    requires Ascending(s)
    ensures var r := InsertAscending(x, s); Ascending(r) && forall q :: q in r <==> q == x || q in s
    decreases |s|
  {
    if s == [] || x < s[0] {
      AscendingPrepend(x, s);
    } else if s[0] < x {
      InsertedAscending(x, s[1..]);
      assert forall q :: q in s <==> q == s[0] || q in s[1..];
      AscendingPrepend(s[0], InsertAscending(x, s[1..]));
    }
  }

  lemma AscendingPrepend(x: nat, s: seq<nat>)
    requires Ascending(s) && forall q | q in s :: x < q
    ensures Ascending([x] + s)
  {
    assert forall k | 0 < k < |[x] + s| :: ([x] + s)[k] == s[k - 1] && s[k - 1] in s;
  }

  lemma {:induction false} AllInserted(xs: seq<nat>, s: seq<nat>)
    requires Ascending(s)
    ensures var r := InsertAllAscending(xs, s); Ascending(r) && forall q :: q in r <==> q in xs || q in s
    decreases |xs|
  {
    hide Ascending, InsertAscending;
    if xs != [] {
      InsertedAscending(xs[0], s);
      AllInserted(xs[1..], InsertAscending(xs[0], s));
      assert forall q :: q in xs <==> q == xs[0] || q in xs[1..];
    }
  }

  lemma {:induction false} UsedByMeans(ops: seq<Operation>, s: seq<nat>)
    requires Ascending(s)
    ensures var r := UsedByOps(ops, s);
            Ascending(r) && forall q :: q in r <==> q in s || exists j :: 0 <= j < |ops| && q in ops[j].qubits
    decreases |ops|
  {
    hide Ascending, InsertAllAscending;
    if ops != [] {
      var s1 := InsertAllAscending(ops[0].qubits, s);
      AllInserted(ops[0].qubits, s);
      UsedByMeans(ops[1..], s1);
      var r := UsedByOps(ops, s);
      forall q
        ensures q in r <==> q in s || exists j :: 0 <= j < |ops| && q in ops[j].qubits
      {
        if j :| 0 <= j < |ops[1..]| && q in ops[1..][j].qubits {
          assert q in ops[j + 1].qubits;
        }
        if j :| 0 <= j < |ops| && q in ops[j].qubits {
          assert j > 0 ==> ops[1..][j - 1] == ops[j];
        }
      }
    }
  }

  lemma {:induction false} UsedMeans(bodies: seq<seq<Operation>>)
    ensures Uses(UsedQubits(bodies), bodies)
    decreases |bodies|
  {
    hide UsedByOps;
    if bodies != [] {
      var rest := UsedQubits(bodies[1..]);
      UsedMeans(bodies[1..]);
      UsedByMeans(bodies[0], rest);
      forall q
        ensures q in UsedQubits(bodies) <==> UsedIn(bodies, q)
      {
        if i, j :| 0 <= i < |bodies[1..]| && 0 <= j < |bodies[1..][i]| && q in bodies[1..][i][j].qubits {
          assert bodies[i + 1] == bodies[1..][i] && q in bodies[i + 1][j].qubits;
        }
        if i, j :| 0 <= i < |bodies| && 0 <= j < |bodies[i]| && q in bodies[i][j].qubits {
          assert i > 0 ==> bodies[1..][i - 1] == bodies[i];
        }
      }
    }
  }

  /** The type checks of the constructor pass, and the operation may stand at the end of the circuit. */
  predicate Addable(s: Draft, c: ControlOp) {
    var op := Operation(Control(c), [], [], None);
    Accepted(c) && FitsOp(op, s.qubits) && VerifiesWith(s, op)
  }

  /** Exactly this control operation was added, on exactly the qubits of its bodies. */
  ghost predicate Adds(s: Draft, c: ControlOp, s': Draft) {
    && |s'.ops| == |s.ops| + 1
    && var op := s'.ops[|s.ops|];
       && s' == s.(ops := s.ops + [op])
       && op.instruction == Control(c) && op.params == [] && op.tag == None && Uses(op.qubits, Bodies(c))
  }

  lemma AscendingRepeats(qs: seq<nat>)
    requires Ascending(qs)
    ensures NoRepeats(qs)
  {
  }

  lemma FitsUsed(c: ControlOp, known: seq<nat>, qs: seq<nat>)
    requires Uses(qs, Bodies(c)) && forall k | 0 <= k < |Bodies(c)| :: Fits(Bodies(c)[k], known)
    ensures forall q | q in qs :: q in known
  {
    hide Bodies;
    forall q | q in qs
      ensures q in known
    {
      assert UsedIn(Bodies(c), q);
      var i, j :| 0 <= i < |Bodies(c)| && 0 <= j < |Bodies(c)[i]| && q in Bodies(c)[i][j].qubits;
      assert Fits(Bodies(c)[i], known) && FitsOp(Bodies(c)[i][j], known);
    }
  }

  lemma ControlAdded(s: Draft, c: ControlOp)
    ensures var (s', e) := AppendControl(s, c);
            && (e.None? <==> Addable(s, c))
            && (e.None? ==> Adds(s, c, s'))
  {
    hide AppendOp, Verify, Bodies, UsedQubits, Accepted;
    var qs := UsedQubits(Bodies(c));
    UsedMeans(Bodies(c));
    AscendingRepeats(qs);
    AppendExactly(s, Control(c), None, qs, [], None);
    var bare, op := Operation(Control(c), [], [], None), Operation(Control(c), qs, [], None);
    VerifyLast(s.ops, bare, op, s.Handles(), Verifier.State({}, {}), Verifier.Placing(s.scopes != [], LoopScope in s.scopes));
    if forall k | 0 <= k < |Bodies(c)| :: Fits(Bodies(c)[k], s.qubits) {
      FitsUsed(c, s.qubits, qs);
    }
    var (s', e) := AppendControl(s, c);
    if e.None? {
      assert s'.ops == s.ops + [s'.ops[|s.ops|]];
      NothingInterned(s.(ops := s'.ops), s');
      UsedMeans(Bodies(c));
    }
  }

  lemma NothingInterned(s: Draft, s': Draft)
    requires Interns(s, [], s')
    ensures s' == s
  {
    hide Widens;
    forall x
      ensures !Brings(s, [], x)
    {
    }
    NothingWidened(s.params, s'.params);
    NothingWidened(s.symbols, s'.symbols);
  }

  lemma NothingWidened<T>(a: seq<T>, b: seq<T>)
    requires Widens(a, b) && forall x | x in b :: x in a
    ensures b == a
  {
    if |a| < |b| {
      NewIsNew(a, b);
    }
  }

  lemma NewIsNew<T>(a: seq<T>, b: seq<T>)
    requires Widens(a, b) && |a| < |b|
    ensures exists x | x in b :: x !in a
  {
    var x := b[|a|];
    assert forall k | 0 <= k < |a| :: a[k] == b[k] != x;
    assert x in b && x !in a;
  }

  // ---- the cases of a switch --------------------------------------------------------------------------

  /** The call under all the layers that ignore its error. */
  function Base(c: CaseCommand): (r: CaseCommand)
    ensures !r.SwallowCase?
  {
    if c.SwallowCase? then Base(c.command) else c
  }

  const InSwitch: seq<ScopeKind> := [SwitchScope]

  /** The circuit when the `k`-th case call is made: what the successful calls before it left. */
  function Before(s: Draft, build: seq<CaseCommand>, k: nat): Draft
    requires k <= |build|
    decreases k, 0
  {
    if k == 0 then s
    else
      var t := Before(s, build, k - 1);
      if Holds(s, build, k - 1) && !Base(build[k - 1]).RaiseCase? then Left(t, InSwitch, Base(build[k - 1]).body) else t
  }

  /** The `k`-th call succeeds: its callback does, and it is not a second default. */
  predicate Holds(s: Draft, build: seq<CaseCommand>, k: nat)
    requires k < |build|
    decreases k, 1
  {
    var c := Base(build[k]);
    && !c.RaiseCase? && Runs(Before(s, build, k), InSwitch, c.body)
    && (c.Default? ==> forall j | 0 <= j < k :: !(Base(build[j]).Default? && Holds(s, build, j)))
  }

  function BodyAt(s: Draft, build: seq<CaseCommand>, k: nat): seq<Operation>
    requires k < |build|
  {
    var c := Base(build[k]);
    if c.RaiseCase? then [] else Added(Before(s, build, k), InSwitch, c.body)
  }

  /** The successful cases among the first `k` calls, in order. */
  function CasesOf(s: Draft, build: seq<CaseCommand>, k: nat): seq<SwitchCase>
    requires k <= |build|
  {
    if k == 0 then []
    else
      var c := Base(build[k - 1]);
      CasesOf(s, build, k - 1) + if c.Case? && Holds(s, build, k - 1) then [SwitchCase(c.value, BodyAt(s, build, k - 1))] else []
  }

  /** The `k`-th call is the one that sets the default body. */
  predicate SetsDefault(s: Draft, build: seq<CaseCommand>, k: nat)
    requires k < |build|
  {
    Base(build[k]).Default? && Holds(s, build, k)
  }

  /** `d` is the body of the one successful default call among the first `k`, absent if there is none. */
  ghost predicate DefaultIs(s: Draft, build: seq<CaseCommand>, k: nat, d: MaybeBody)
    requires k <= |build|
  {
    && (forall j | 0 <= j < k && SetsDefault(s, build, j) :: d == Present(BodyAt(s, build, j)))
    && (d.Present? ==> exists j :: 0 <= j < k && SetsDefault(s, build, j))
  }

  /** One case call on a circuit, seen through the layers that ignore its error. */
  lemma {:induction false} CaseMeans(t: Draft, c: CaseCommand, cases: seq<SwitchCase>, default: MaybeBody)
    ensures var r := StepCase(t, c, cases, default);
            var b := Base(c);
            var ok := !b.RaiseCase? && Runs(t, InSwitch, b.body) && !(b.Default? && default.Present?);
            && (r.3.None? <==> ok || c.SwallowCase?)
            && r.0 == (if ok then Left(t, InSwitch, b.body) else t)
            && r.1 == (if ok && b.Case? then cases + [SwitchCase(b.value, Added(t, InSwitch, b.body))] else cases)
            && r.2 == (if ok && b.Default? then Present(Added(t, InSwitch, b.body)) else default)
    decreases c
  {
    hide Runs, Left, Added, BuildBody;
    if c.SwallowCase? {
      CaseMeans(t, c.command, cases, default);
    } else if !c.RaiseCase? {
      BodyMeans(t, Some(SwitchScope), c.body);
      assert Scopes(Some(SwitchScope)) == InSwitch;
    }
  }

  /** The calls from the `k`-th on, after all before it went well. */
  lemma {:induction false} CollectMeans(s: Draft, build: seq<CaseCommand>, k: nat, default: MaybeBody)
    requires k <= |build| && DefaultIs(s, build, k, default)
    ensures var r := Collect(Before(s, build, k), build[k..], CasesOf(s, build, k), default);
            && (r.3.None? <==> forall j | k <= j < |build| :: Holds(s, build, j) || build[j].SwallowCase?)
            && (r.3.None? ==> r.0 == Before(s, build, |build|) && r.1 == CasesOf(s, build, |build|) && DefaultIs(s, build, |build|, r.2))
    decreases |build| - k
  {
    hide Runs, Left, Added, StepCase, DefaultIs;
    if k < |build| {
      var t, c := Before(s, build, k), Base(build[k]);
      CaseMeans(t, build[k], CasesOf(s, build, k), default);
      DefaultNext(s, build, k, default);
      assert build[k..][0] == build[k] && build[k..][1..] == build[k + 1..];
      var r := StepCase(t, build[k], CasesOf(s, build, k), default);
      assert r.3.None? <==> Holds(s, build, k) || build[k].SwallowCase?;
      if r.3.None? {
        assert r.0 == Before(s, build, k + 1) && r.1 == CasesOf(s, build, k + 1);
        CollectMeans(s, build, k + 1, r.2);
      }
    }
  }

  lemma DefaultNext(s: Draft, build: seq<CaseCommand>, k: nat, default: MaybeBody)
    requires k < |build| && DefaultIs(s, build, k, default)
    ensures var c := Base(build[k]);
            && (Holds(s, build, k) <==> !c.RaiseCase? && Runs(Before(s, build, k), InSwitch, c.body) && !(c.Default? && default.Present?))
            && DefaultIs(s, build, k + 1, if c.Default? && Holds(s, build, k) then Present(BodyAt(s, build, k)) else default)
  {
    hide Runs, Left, Added, BodyAt;
    assert default.Present? <==> exists j :: 0 <= j < k && SetsDefault(s, build, j);
    assert SetsDefault(s, build, k) <==> Base(build[k]).Default? && Holds(s, build, k);
  }

  // ---- the main results ---------------------------------------------------------------------------------

  function BitMeasured(s: Draft): ClassicalValue {
    ClassicalValue(s.id, |s.values|, Bit)
  }

  function BitsMeasured(s: Draft, n: nat): ClassicalValue {
    ClassicalValue(s.id, |s.values|, BitVec(n))
  }

  function DataOperation(d: DataOp, qubits: seq<nat>): Operation {
    Operation(Data(d), qubits, [], None)
  }

  /** One new value and the operation that measures it. */
  function WithMeasurement(s: Draft, v: ClassicalValue, d: DataOp, qubits: seq<nat>): Draft {
    s.(values := s.values + [v.ty], ops := s.ops + [DataOperation(d, qubits)])
  }

  /** What a successful command does to the circuit. */
  ghost predicate Performs(s: Draft, c: Command, s': Draft) {
    match c
    case Append(instruction, _, qubits, args, tag) => Appended(s, instruction, qubits, args, tag, s')
    case NewVar(ty) => s' == s.(vars := s.vars + [ty])
    case Store(target, value) => s' == s.(ops := s.ops + [DataOperation(DataOp.Store(target, value), [])])
    case Measure(qubit) => s' == WithMeasurement(s, BitMeasured(s), DataOp.MeasureBit(BitMeasured(s)), [qubit])
    case MeasureBits(qubits) =>
      s' == WithMeasurement(s, BitsMeasured(s, |qubits|), DataOp.MeasureBits(BitsMeasured(s, |qubits|)), qubits)
    case MeasureInto(qubit, target) =>
      var v := BitMeasured(s);
      s' == s.(values := s.values + [Bit],
               ops := s.ops + [DataOperation(DataOp.MeasureBit(v), [qubit]), DataOperation(DataOp.Store(target, ValueRead(v)), [])])
    case MeasureBitsInto(qubits, target) =>
      var v := BitsMeasured(s, |qubits|);
      s' == s.(values := s.values + [BitVec(|qubits|)],
               ops := s.ops + [DataOperation(DataOp.MeasureBits(v), qubits), DataOperation(DataOp.Store(target, ValueRead(v)), [])])
    case If(condition, script) => Adds(Left(s, [], script), ControlOp.If(condition, Added(s, [], script), Absent), s')
    case IfElse(condition, thenScript, elseScript) =>
      var s1 := Left(s, [], thenScript);
      Adds(Left(s1, [], elseScript), ControlOp.If(condition, Added(s, [], thenScript), Present(Added(s1, [], elseScript))), s')
    case While(condition, script) => Adds(Left(s, [LoopScope], script), ControlOp.While(condition, Added(s, [LoopScope], script)), s')
    case ForUint(loopVar, start, stop, step, script) =>
      Adds(Left(s, [LoopScope], script), ControlOp.For(loopVar, start, stop, step, Added(s, [LoopScope], script)), s')
    case Switch(selector, build) =>
      exists d :: DefaultIs(s, build, |build|, d)
                  && Adds(Before(s, build, |build|), ControlOp.Switch(selector, CasesOf(s, build, |build|), d), s')
    case BreakLoop => Adds(s, Break, s')
    case ContinueLoop => Adds(s, Continue, s')
    case Swallow(command) => s' == Exec(s, [command]).0
    case Raise => false
  }

  /** Exactly when a command succeeds. */
  ghost predicate Possible(s: Draft, c: Command) {
    var h := s.Handles();
    match c
    case Append(instruction, arity, qubits, args, _) =>
      (instruction.Control? ==> Accepted(instruction.control)) && Appendable(s, instruction, arity, qubits, args)
    case NewVar(_) => true
    case Store(target, value) => CanStore(s, target, value)
    case Measure(qubit) => CanMeasure(s, BitMeasured(s), DataOp.MeasureBit(BitMeasured(s)), [qubit])
    case MeasureBits(qubits) => CanMeasureBits(s, qubits)
    case MeasureInto(qubit, target) =>
      var v := BitMeasured(s);
      && h.OwnsVar(target) && CanMeasure(s, v, DataOp.MeasureBit(v), [qubit])
      && CanStore(WithMeasurement(s, v, DataOp.MeasureBit(v), [qubit]), target, ValueRead(v))
    case MeasureBitsInto(qubits, target) =>
      var v := BitsMeasured(s, |qubits|);
      && h.OwnsVar(target) && CanMeasureBits(s, qubits)
      && CanStore(WithMeasurement(s, v, DataOp.MeasureBits(v), qubits), target, ValueRead(v))
    case If(condition, script) =>
      h.OwnsExpr(condition) && Runs(s, [], script) && Addable(Left(s, [], script), ControlOp.If(condition, Added(s, [], script), Absent))
    case IfElse(condition, thenScript, elseScript) =>
      var s1 := Left(s, [], thenScript);
      && h.OwnsExpr(condition) && Runs(s, [], thenScript) && Runs(s1, [], elseScript)
      && Addable(Left(s1, [], elseScript), ControlOp.If(condition, Added(s, [], thenScript), Present(Added(s1, [], elseScript))))
    case While(condition, script) =>
      && h.OwnsExpr(condition) && Runs(s, [LoopScope], script)
      && Addable(Left(s, [LoopScope], script), ControlOp.While(condition, Added(s, [LoopScope], script)))
    case ForUint(loopVar, start, stop, step, script) =>
      && h.OwnsVar(loopVar) && h.OwnsExpr(start) && h.OwnsExpr(stop) && h.OwnsExpr(step) && Runs(s, [LoopScope], script)
      && Addable(Left(s, [LoopScope], script), ControlOp.For(loopVar, start, stop, step, Added(s, [LoopScope], script)))
    case Switch(selector, build) =>
      && h.OwnsExpr(selector) && (forall k | 0 <= k < |build| :: Holds(s, build, k) || build[k].SwallowCase?)
      && exists d :: DefaultIs(s, build, |build|, d)
                     && Addable(Before(s, build, |build|), ControlOp.Switch(selector, CasesOf(s, build, |build|), d))
    case BreakLoop => Addable(s, Break)
    case ContinueLoop => Addable(s, Continue)
    case Swallow(_) => true
    case Raise => false
  }

  predicate CanStore(s: Draft, target: ClassicalVar, value: Expr) {
    VerifiesWith(s, DataOperation(DataOp.Store(target, value), []))
  }

  /** Distinct known qubits, and the measurement verifies with the value allocated. */
  predicate CanMeasure(s: Draft, v: ClassicalValue, d: DataOp, qubits: seq<nat>) {
    && NoRepeats(qubits) && (forall q | q in qubits :: q in s.qubits)
    && VerifiesWith(s.(values := s.values + [v.ty]), DataOperation(d, qubits))
  }

  predicate CanMeasureBits(s: Draft, qubits: seq<nat>) {
    qubits != [] && CanMeasure(s, BitsMeasured(s, |qubits|), DataOp.MeasureBits(BitsMeasured(s, |qubits|)), qubits)
  }

  lemma DataAdded(s: Draft, d: DataOp, qubits: seq<nat>)
    requires (d.Store? ==> qubits == []) && (d.MeasureBit? ==> |qubits| == 1) && (d.MeasureBits? ==> d.result.ty.BitVec?)
    ensures var (s', e) := AppendData(s, d, qubits);
            && (e.None? <==> NoRepeats(qubits) && (forall q | q in qubits :: q in s.qubits) && VerifiesWith(s, DataOperation(d, qubits)))
            && (e.None? ==> s' == s.(ops := s.ops + [DataOperation(d, qubits)]))
  {
    hide AppendOp, Verify, NoRepeats, Interns;
    AppendExactly(s, Data(d), DataArity(d), qubits, [], None);
    var (s', e) := AppendData(s, d, qubits);
    if e.None? {
      var op := s'.ops[|s.ops|];
      assert op == DataOperation(d, qubits);
      NothingInterned(s.(ops := s.ops + [op]), s');
    }
  }

  lemma StoreMeans(s: Draft, target: ClassicalVar, value: Expr)
    ensures var (s', e) := DoStore(s, target, value);
            && (e.None? <==> CanStore(s, target, value))
            && (e.None? ==> s' == s.(ops := s.ops + [DataOperation(DataOp.Store(target, value), [])]))
  {
    hide AppendData, Verify;
    var op := DataOperation(DataOp.Store(target, value), []);
    DataAdded(s, op.instruction.data, []);
    if VerifiesWith(s, op) {
      LastTyped(s.ops, op, s.Handles(), Verifier.State({}, {}), Verifier.Placing(s.scopes != [], LoopScope in s.scopes));
    }
  }

  lemma MeasureMeans(s: Draft, v: ClassicalValue, d: DataOp, qubits: seq<nat>)
    requires v == ClassicalValue(s.id, |s.values|, v.ty)
    requires (d == DataOp.MeasureBit(v) && |qubits| == 1) || (d == DataOp.MeasureBits(v) && v.ty.BitVec?)
    ensures var (s', e) := OrRollback(AppendData(AllocateValue(s, v.ty).0, d, qubits), Mark(s));
            && (e.None? <==> CanMeasure(s, v, d, qubits))
            && (e.None? ==> s' == WithMeasurement(s, v, d, qubits))
  {
    hide AppendData, Verify, NoRepeats, RollbackTo;
    DataAdded(s.(values := s.values + [v.ty]), d, qubits);
  }

  lemma MeasureIntoMeans(s: Draft, qubit: nat, target: ClassicalVar)
    ensures var o := DoMeasureInto(s, qubit, target);
            var c := MeasureInto(qubit, target);
            (o.1.None? <==> Possible(s, c)) && (o.1.None? ==> Performs(s, c, o.0))
  {
    hide AppendData, VerifiesWith, DoStore, NoRepeats, RollbackTo;
    var v := BitMeasured(s);
    var d := DataOp.MeasureBit(v);
    MeasureMeans(s, v, d, [qubit]);
    StoreMeans(WithMeasurement(s, v, d, [qubit]), target, ValueRead(v));
    TwoAdded(s.ops, DataOperation(d, [qubit]), DataOperation(DataOp.Store(target, ValueRead(v)), []));
  }

  lemma TwoAdded(ops: seq<Operation>, a: Operation, b: Operation)
    ensures ops + [a] + [b] == ops + [a, b]
  {
  }

  lemma MeasureBitsIntoMeans(s: Draft, qubits: seq<nat>, target: ClassicalVar)
    ensures var o := DoMeasureBitsInto(s, qubits, target);
            var c := MeasureBitsInto(qubits, target);
            (o.1.None? <==> Possible(s, c)) && (o.1.None? ==> Performs(s, c, o.0))
  {
    hide AppendData, VerifiesWith, DoStore, NoRepeats, RollbackTo;
    var v := BitsMeasured(s, |qubits|);
    var d := DataOp.MeasureBits(v);
    MeasureMeans(s, v, d, qubits);
    StoreMeans(WithMeasurement(s, v, d, qubits), target, ValueRead(v));
    TwoAdded(s.ops, DataOperation(d, qubits), DataOperation(DataOp.Store(target, ValueRead(v)), []));
  }

  lemma OneMeans(s: Draft, scope: Option<ScopeKind>, script: Script, make: seq<Operation> -> ControlOp)
    ensures var o := BuildOne(s, scope, script, make);
            var scopes := Scopes(scope);
            var s1, c := Left(s, scopes, script), make(Added(s, scopes, script));
            && (o.1.None? <==> Runs(s, scopes, script) && Addable(s1, c))
            && (o.1.None? ==> Adds(s1, c, o.0))
  {
    hide BuildBody, AppendControl, Runs, Left, Added, Addable, Adds, RollbackTo;
    BodyMeans(s, scope, script);
    ControlAdded(Left(s, Scopes(scope), script), make(Added(s, Scopes(scope), script)));
  }

  lemma TwoMeans(s: Draft, c: Command)
    requires c.IfElse? && s.Handles().OwnsExpr(c.condition)
    ensures var o := BuildTwo(s, c);
            (o.1.None? <==> Possible(s, c)) && (o.1.None? ==> Performs(s, c, o.0))
  {
    hide BuildBody, AppendControl, Runs, Left, Added, Addable, Adds, RollbackTo;
    var s1 := Left(s, [], c.thenScript);
    BodyMeans(s, None, c.thenScript);
    BodyMeans(s1, None, c.elseScript);
    ControlAdded(Left(s1, [], c.elseScript), ControlOp.If(c.condition, Added(s, [], c.thenScript), Present(Added(s1, [], c.elseScript))));
  }

  lemma SwitchMeans(s: Draft, c: Command)
    requires c.Switch?
    ensures var o := Step(s, c);
            (o.1.None? <==> Possible(s, c)) && (o.1.None? ==> Performs(s, c, o.0))
  {
    hide Collect, AppendControl, Before, CasesOf, Holds, Addable, Adds, RollbackTo;
    var build := c.build;
    assert Before(s, build, 0) == s && CasesOf(s, build, 0) == [] && build[0..] == build && DefaultIs(s, build, 0, Absent) by {
      SwitchStarts(s, build);
    }
    CollectMeans(s, build, 0, Absent);
    var (s1, cases, default, e) := Collect(s, build, [], Absent);
    if e.None? {
      ControlAdded(s1, ControlOp.Switch(c.selector, cases, default));
      forall d | DefaultIs(s, build, |build|, d)
        ensures d == default
      {
      }
    }
  }

  lemma SwitchStarts(s: Draft, build: seq<CaseCommand>)
    ensures Before(s, build, 0) == s && CasesOf(s, build, 0) == [] && build[0..] == build && DefaultIs(s, build, 0, Absent)
  {
  }

  lemma StepMeans(s: Draft, c: Command)
    ensures var o := Step(s, c);
            && (o.1.None? <==> Possible(s, c))
            && (o.1.None? ==> Performs(s, c, o.0))
  {
    hide BuildOne, BuildTwo, AppendOp, AppendControl, DoMeasureInto, DoMeasureBitsInto, DoStore, AppendData, Appendable, Appended,
         Addable, Adds, Runs, Left, Added, Collect, VerifiesWith, NoRepeats, RollbackTo;
    match c {
      case Append(instruction, arity, qubits, args, tag) => AppendExactly(s, instruction, arity, qubits, args, tag);
      case NewVar(_) =>
      case Store(target, value) => StoreMeans(s, target, value);
      case Measure(qubit) => MeasureMeans(s, BitMeasured(s), DataOp.MeasureBit(BitMeasured(s)), [qubit]);
      case MeasureBits(qubits) =>
        if qubits != [] {
          MeasureMeans(s, BitsMeasured(s, |qubits|), DataOp.MeasureBits(BitsMeasured(s, |qubits|)), qubits);
        }
      case MeasureInto(qubit, target) => MeasureIntoMeans(s, qubit, target);
      case MeasureBitsInto(qubits, target) => MeasureBitsIntoMeans(s, qubits, target);
      case If(condition, script) => OneMeans(s, None, script, body => ControlOp.If(condition, body, Absent));
      case IfElse(condition, _, _) =>
        if s.Handles().OwnsExpr(condition) {
          TwoMeans(s, c);
        }
      case While(condition, script) => OneMeans(s, Some(LoopScope), script, body => ControlOp.While(condition, body));
      case ForUint(loopVar, start, stop, step, script) =>
        OneMeans(s, Some(LoopScope), script, body => ControlOp.For(loopVar, start, stop, step, body));
      case Switch(_, _) => SwitchMeans(s, c);
      case BreakLoop => ControlAdded(s, Break);
      case ContinueLoop => ControlAdded(s, Continue);
      case Swallow(command) => ExecOne(s, command);
      case Raise =>
    }
  }

  lemma ExecOne(s: Draft, c: Command)
    ensures Exec(s, [c]) == Step(s, c)
  {
    hide Step;
    assert [c][1..] == [];
    assert Exec(Step(s, c).0, []) == (Step(s, c).0, None);
  }

  /**
   A command succeeds exactly when it is possible and then does to the circuit exactly what it says;
   no part of this mentions how bodies are split off, held and rolled back.
   */
  lemma CommandMeans(s: Draft, c: Command)
    ensures var (s', e) := Exec(s, [c]);
            && (e.None? <==> Possible(s, c))
            && (e.None? ==> Performs(s, c, s'))
  {
    ExecOne(s, c);
    StepMeans(s, c);
  }

  /** A callback runs its commands in order and stops at the first error. */
  lemma {:induction false} ExecConcat(s: Draft, a: Script, b: Script)
    ensures Exec(s, a + b) == if Exec(s, a).1.Some? then Exec(s, a) else Exec(Exec(s, a).0, b)
    decreases |a|
  {
    hide Step;
    if a == [] {
      assert [] + b == b;
    } else {
      assert (a + b)[1..] == a[1..] + b;
      var o := Step(s, a[0]);
      if o.1.None? {
        ExecConcat(o.0, a[1..], b);
      }
    }
  }

  /** The error of the first callback that fails, for commands with one or two callbacks. */
  function CallbackFailure(s: Draft, c: Command): Option<BuildError> {
    match c
    case If(_, script) => Ran(s, [], script).1
    case IfElse(_, t, e) => if Runs(s, [], t) then Ran(Left(s, [], t), [], e).1 else Ran(s, [], t).1
    case While(_, script) => Ran(s, [LoopScope], script).1
    case ForUint(_, _, _, _, script) => Ran(s, [LoopScope], script).1
    case _ => None
  }

  predicate OwnsHead(s: Draft, c: Command) {
    match c
    case If(condition, _) => s.Handles().OwnsExpr(condition)
    case IfElse(condition, _, _) => s.Handles().OwnsExpr(condition)
    case While(condition, _) => s.Handles().OwnsExpr(condition)
    case ForUint(v, start, stop, step, _) =>
      s.Handles().OwnsVar(v) && s.Handles().OwnsExpr(start) && s.Handles().OwnsExpr(stop) && s.Handles().OwnsExpr(step)
    case _ => true
  }

  /** An error in a callback is the error of the control command around it, which leaves the circuit as it was. */
  lemma CallbackErrorReturned(s: Draft, c: Command)
    requires OwnsHead(s, c) && CallbackFailure(s, c).Some?
    ensures Exec(s, [c]) == (s, CallbackFailure(s, c))
  {
    hide BuildBody, AppendControl, Ran, RollbackTo, Left, Added, Covers, Extends;
    ExecOne(s, c);
    CommandChecked(s, c);
    if c.If? {
      BodyMeans(s, None, c.thenScript);
    } else if c.IfElse? {
      BodyMeans(s, None, c.thenScript);
      BodyMeans(Left(s, [], c.thenScript), None, c.elseScript);
    } else {
      BodyMeans(s, Some(LoopScope), c.body);
    }
  }
}
