/**
 Soundness of the verifier: no run of an accepted circuit reads a value that was not
 measured earlier on that run. Runs are those of any machine, watched by a monitor that
 records the values measured and whether every read so far was of a recorded one.
 */
module Soundness {
  import opened Prelude
  import opened Ir
  import opened Verifier
  import opened CfgMeaning
  import opened CfgGraph
  import opened Placement

  datatype Watched<S> = Watched(s: S, measured: set<ClassicalValue>, safe: bool)

  /** The values an ordinary operation reads. */
  function Reads(op: Operation): set<ClassicalValue> {
    match op.instruction
    case Data(Store(_, e)) => e.Values()
    case _ => {}
  }

  function Note<S>(w: Watched<S>, s: S, read: set<ClassicalValue>, produced: set<ClassicalValue>): Watched<S> {
    Watched(s, w.measured + produced, w.safe && read <= w.measured)
  }

  /** The machine `m` with the monitor attached. */
  function Watch<S>(m: Machine<S>): Machine<Watched<S>> {
    Machine(
      (op: Operation, w: Watched<S>) => Note(w, m.exec(op, w.s), Reads(op), Produced(op)),
      (e: Expr, w: Watched<S>) => var (b, s) := m.decide(e, w.s); (b, Note(w, s, e.Values(), {})),
      (e: Expr, w: Watched<S>) => var (v, s) := m.choose(e, w.s); (v, Note(w, s, e.Values(), {})),
      (x: ClassicalVar, a: Expr, z: Expr, d: Expr, w: Watched<S>) =>
        var (b, s) := m.forEnter(x, a, z, d, w.s); (b, Note(w, s, a.Values() + z.Values() + d.Values(), {})),
      (x: ClassicalVar, a: Expr, z: Expr, d: Expr, w: Watched<S>) =>
        var (b, s) := m.forNext(x, a, z, d, w.s); (b, Note(w, s, a.Values() + z.Values() + d.Values(), {})))
  }

  function Plain<S>(o: Outcome<Watched<S>>): Outcome<S> {
    match o
    case Done(w) => Done(w.s)
    case Broke(w) => Broke(w.s)
    case Continued(w) => Continued(w.s)
    case Exhausted(w) => Exhausted(w.s)
  }

  // ---- the monitor only watches -----------------------------------------------------------

  lemma {:induction false} MonitorOnlyWatches<S>(m: Machine<S>, ops: seq<Operation>, w: Watched<S>, fuel: nat)
    ensures Plain(Run(Watch(m), ops, w, fuel)) == Run(m, ops, w.s, fuel)
    decreases fuel, ops
  {
    if ops != [] {
      MonitorOp(m, ops[0], w, fuel);
      var o := RunOp(Watch(m), ops[0], w, fuel);
      if o.Done? {
        MonitorOnlyWatches(m, ops[1..], o.s, fuel);
      }
    }
  }

  lemma {:induction false} MonitorOp<S>(m: Machine<S>, op: Operation, w: Watched<S>, fuel: nat)
    ensures Plain(RunOp(Watch(m), op, w, fuel)) == RunOp(m, op, w.s, fuel)
    decreases fuel, op
  {
    if op.instruction.Control? {
      MonitorControl(m, op.instruction.control, w, fuel);
    }
  }

  lemma {:induction false} MonitorControl<S>(m: Machine<S>, c: ControlOp, w: Watched<S>, fuel: nat)
    ensures Plain(RunControl(Watch(m), c, w, fuel)) == RunControl(m, c, w.s, fuel)
    decreases fuel, c, 1
  {
    match c
    case If(e, t, els) =>
      var (b, w1) := Watch(m).decide(e, w);
      if b {
        MonitorOnlyWatches(m, t, w1, fuel);
      } else {
        MonitorMaybe(m, els, w1, fuel);
      }
    case Switch(e, cases, d) =>
      var (v, w1) := Watch(m).choose(e, w);
      if HasCase(cases, v) {
        MonitorCases(m, cases, v, w1, fuel);
      } else {
        MonitorMaybe(m, d, w1, fuel);
      }
    case While(_, _) => MonitorLoop(m, c, true, w, fuel);
    case For(_, _, _, _, _) => MonitorLoop(m, c, true, w, fuel);
    case Break =>
    case Continue =>
  }

  lemma {:induction false} MonitorMaybe<S>(m: Machine<S>, body: MaybeBody, w: Watched<S>, fuel: nat)
    ensures Plain(RunMaybe(Watch(m), body, w, fuel)) == RunMaybe(m, body, w.s, fuel)
    decreases fuel, body
  {
    if body.Present? {
      MonitorOnlyWatches(m, body.ops, w, fuel);
    }
  }

  lemma {:induction false} MonitorCases<S>(m: Machine<S>, cases: seq<SwitchCase>, v: nat, w: Watched<S>, fuel: nat)
    requires HasCase(cases, v)
    ensures Plain(RunCases(Watch(m), cases, v, w, fuel)) == RunCases(m, cases, v, w.s, fuel)
    decreases fuel, cases
  {
    if cases[0].value == v {
      MonitorCase(m, cases[0], w, fuel);
    } else {
      assert forall k | 0 < k < |cases| :: cases[1..][k - 1] == cases[k];
      MonitorCases(m, cases[1..], v, w, fuel);
    }
  }

  lemma {:induction false} MonitorCase<S>(m: Machine<S>, c: SwitchCase, w: Watched<S>, fuel: nat)
    ensures Plain(RunCase(Watch(m), c, w, fuel)) == RunCase(m, c, w.s, fuel)
    decreases fuel, c
  {
    MonitorOnlyWatches(m, c.body, w, fuel);
  }

  lemma {:induction false} MonitorLoop<S>(m: Machine<S>, c: ControlOp, entering: bool, w: Watched<S>, fuel: nat)
    requires IsLoop(c)
    ensures Plain(RunLoop(Watch(m), c, entering, w, fuel)) == RunLoop(m, c, entering, w.s, fuel)
    decreases fuel, c, 0
  {
    if fuel > 0 {
      var (b, w1) := Head(Watch(m), c, entering, w);
      if b {
        MonitorOnlyWatches(m, c.body, w1, fuel - 1);
        var o := Run(Watch(m), c.body, w1, fuel - 1);
        if o.Done? || o.Continued? {
          MonitorLoop(m, c, false, o.s, fuel - 1);
        }
      }
    }
  }

  // ---- scoped trees read only measured values -----------------------------------------------

  /** The run ended safely and forgot no measurement; if it completed, `gained` is measured too. */
  ghost predicate Safe<S>(o: Outcome<Watched<S>>, w: Watched<S>, gained: set<ClassicalValue>) {
    o.s.safe && w.measured <= o.s.measured && (o.Done? ==> gained <= o.s.measured)
  }

  lemma {:induction false} ScopedRunsAreSafe<S>(m: Machine<S>, ops: seq<Operation>, available: set<ClassicalValue>, w: Watched<S>, fuel: nat)
    requires Scoped(ops, available) && available <= w.measured && w.safe
    ensures Safe(Run(Watch(m), ops, w, fuel), w, available + ProducedAll(ops))
    decreases fuel, ops
  {
    if ops != [] {
      ScopedOpIsSafe(m, ops[0], available, w, fuel);
      var o := RunOp(Watch(m), ops[0], w, fuel);
      if o.Done? {
        ScopedRunsAreSafe(m, ops[1..], available + Produced(ops[0]), o.s, fuel);
      }
    }
  }

  lemma {:induction false} ScopedOpIsSafe<S>(m: Machine<S>, op: Operation, available: set<ClassicalValue>, w: Watched<S>, fuel: nat)
    requires ScopedOp(op, available) && available <= w.measured && w.safe
    ensures Safe(RunOp(Watch(m), op, w, fuel), w, available + Produced(op))
    decreases fuel, op
  {
    if op.instruction.Control? {
      ScopedControlIsSafe(m, op.instruction.control, available, w, fuel);
    } else {
      assert Watch(m).exec(op, w) == Note(w, m.exec(op, w.s), Reads(op), Produced(op));
    }
  }

  ghost predicate ScopedControl(c: ControlOp, available: set<ClassicalValue>) {
    && (forall e | e in Heads(c) :: e.Values() <= available)
    && (forall k | 0 <= k < |Bodies(c)| :: Scoped(Bodies(c)[k], available))
  }

  lemma {:induction false} ScopedControlIsSafe<S>(m: Machine<S>, c: ControlOp, available: set<ClassicalValue>, w: Watched<S>, fuel: nat)
    requires ScopedControl(c, available) && available <= w.measured && w.safe
    ensures Safe(RunControl(Watch(m), c, w, fuel), w, available)
    decreases fuel, c, 1
  {
    match c
    case If(e, t, els) =>
      assert e in Heads(c) && Bodies(c)[0] == t;
      assert els.Present? ==> Bodies(c)[1] == els.ops;
      var (b, w1) := Watch(m).decide(e, w);
      assert w1 == Note(w, m.decide(e, w.s).1, e.Values(), {});
      if b {
        ScopedRunsAreSafe(m, t, available, w1, fuel);
      } else {
        ScopedMaybeIsSafe(m, els, available, w1, fuel);
      }
    case Switch(e, cases, d) =>
      assert e in Heads(c);
      var (v, w1) := Watch(m).choose(e, w);
      assert w1 == Note(w, m.choose(e, w.s).1, e.Values(), {});
      assert forall k | 0 <= k < |cases| :: Bodies(c)[k] == cases[k].body;
      assert d.Present? ==> Bodies(c)[|cases|] == d.ops;
      if HasCase(cases, v) {
        ScopedCasesAreSafe(m, cases, v, available, w1, fuel);
      } else {
        ScopedMaybeIsSafe(m, d, available, w1, fuel);
      }
    case While(_, _) => ScopedLoopIsSafe(m, c, true, available, w, fuel);
    case For(_, _, _, _, _) => ScopedLoopIsSafe(m, c, true, available, w, fuel);
    case Break =>
    case Continue =>
  }

  lemma {:induction false} ScopedMaybeIsSafe<S>(m: Machine<S>, body: MaybeBody, available: set<ClassicalValue>, w: Watched<S>, fuel: nat)
    requires body.Present? ==> Scoped(body.ops, available)
    requires available <= w.measured && w.safe
    ensures Safe(RunMaybe(Watch(m), body, w, fuel), w, available)
    decreases fuel, body
  {
    if body.Present? {
      ScopedRunsAreSafe(m, body.ops, available, w, fuel);
    }
  }

  lemma {:induction false} ScopedCasesAreSafe<S>(m: Machine<S>, cases: seq<SwitchCase>, v: nat, available: set<ClassicalValue>,
                                                 w: Watched<S>, fuel: nat)
    requires HasCase(cases, v) && forall k | 0 <= k < |cases| :: Scoped(cases[k].body, available)
    requires available <= w.measured && w.safe
    ensures Safe(RunCases(Watch(m), cases, v, w, fuel), w, available)
    decreases fuel, cases
  {
    if cases[0].value == v {
      ScopedCaseIsSafe(m, cases[0], available, w, fuel);
    } else {
      assert forall k | 0 < k < |cases| :: cases[1..][k - 1] == cases[k];
      ScopedCasesAreSafe(m, cases[1..], v, available, w, fuel);
    }
  }

  lemma {:induction false} ScopedCaseIsSafe<S>(m: Machine<S>, c: SwitchCase, available: set<ClassicalValue>, w: Watched<S>, fuel: nat)
    requires Scoped(c.body, available) && available <= w.measured && w.safe
    ensures Safe(RunCase(Watch(m), c, w, fuel), w, available)
    decreases fuel, c
  {
    ScopedRunsAreSafe(m, c.body, available, w, fuel);
  }

  lemma HeadIsSafe<S>(m: Machine<S>, c: ControlOp, entering: bool, available: set<ClassicalValue>, w: Watched<S>)
    requires IsLoop(c) && (forall e | e in Heads(c) :: e.Values() <= available) && available <= w.measured && w.safe
    ensures var w1 := Head(Watch(m), c, entering, w).1; w1.safe && w1.measured == w.measured
  {
    match c
    case While(e, _) =>
      assert e in Heads(c);
      assert Head(Watch(m), c, entering, w).1 == Note(w, m.decide(e, w.s).1, e.Values(), {});
    case For(v, x, y, z, _) =>
      assert x in Heads(c) && y in Heads(c) && z in Heads(c);
      var r := x.Values() + y.Values() + z.Values();
      if entering {
        assert Head(Watch(m), c, entering, w).1 == Note(w, m.forEnter(v, x, y, z, w.s).1, r, {});
      } else {
        assert Head(Watch(m), c, entering, w).1 == Note(w, m.forNext(v, x, y, z, w.s).1, r, {});
      }
  }

  lemma {:induction false} ScopedLoopIsSafe<S>(m: Machine<S>, c: ControlOp, entering: bool, available: set<ClassicalValue>,
                                               w: Watched<S>, fuel: nat)
    requires IsLoop(c) && ScopedControl(c, available) && available <= w.measured && w.safe
    ensures Safe(RunLoop(Watch(m), c, entering, w, fuel), w, available)
    decreases fuel, c, 0
  {
    if fuel > 0 {
      var (b, w1) := Head(Watch(m), c, entering, w);
      HeadIsSafe(m, c, entering, available, w);
      assert Bodies(c)[0] == c.body;
      if b {
        ScopedRunsAreSafe(m, c.body, available, w1, fuel - 1);
        var o := Run(Watch(m), c.body, w1, fuel - 1);
        if o.Done? || o.Continued? {
          ScopedLoopIsSafe(m, c, false, available, o.s, fuel - 1);
        }
      }
    }
  }

  // ---- main results -----------------------------------------------------------------------

  function Unwatched<S>(s: S): Watched<S> {
    Watched(s, {}, true)
  }

  /** No run of an accepted circuit, whatever its branches and however long it loops, reads a value it has not measured. */
  lemma AcceptedRunsAreSafe<S>(m: Machine<S>, ops: seq<Operation>, h: Handles, s: S, fuel: nat)
    requires Valid(ops, h)
    ensures Run(Watch(m), ops, Unwatched(s), fuel).s.safe
    ensures Plain(Run(Watch(m), ops, Unwatched(s), fuel)) == Run(m, ops, s, fuel)
  {
    VerifyCharacterised(ops, h, State({}, {}), Placing(false, false));
    ScopedRunsAreSafe(m, ops, {}, Unwatched(s), fuel);
    MonitorOnlyWatches(m, ops, Unwatched(s), fuel);
  }

  lemma UnsafeStep<S>(m: Machine<S>, f: Graph, c: Conf<Watched<S>>)
    requires !c.Stuck?
    ensures var d := Step(Watch(m), f, c); !d.Stuck? && d.s.safe ==> c.s.safe
  {
    if c.At? && c.block < |f| && c.index >= |f[c.block].ops| && f[c.block].term.Some? {
      var w := c.s;
      match f[c.block].term.value
      case Branch(e) => assert Watch(m).decide(e, w).1 == Note(w, m.decide(e, w.s).1, e.Values(), {});
      case SwitchOn(e) => assert Watch(m).choose(e, w).1 == Note(w, m.choose(e, w.s).1, e.Values(), {});
      case ForLoop(v, x, y, z) =>
        var r := x.Values() + y.Values() + z.Values();
        assert Watch(m).forEnter(v, x, y, z, w).1 == Note(w, m.forEnter(v, x, y, z, w.s).1, r, {});
        assert Watch(m).forNext(v, x, y, z, w).1 == Note(w, m.forNext(v, x, y, z, w.s).1, r, {});
      case Return =>
      case Jump(_) =>
      case BreakTo(_) =>
      case ContinueTo(_) =>
    } else if c.At? && c.block < |f| && c.index < |f[c.block].ops| {
      var op := f[c.block].ops[c.index];
      assert Watch(m).exec(op, c.s) == Note(c.s, m.exec(op, c.s.s), Reads(op), Produced(op));
    }
  }

  /** The monitor of a walk never turns safe again. */
  lemma {:induction false} UnsafeStays<S>(m: Machine<S>, f: Graph, c: Conf<Watched<S>>, k: nat)
    requires !c.Stuck?
    ensures var d := Steps(Watch(m), f, c, k); !d.Stuck? && d.s.safe ==> c.s.safe
    decreases k
  {
    if k > 0 {
      var c1 := Step(Watch(m), f, c);
      UnsafeStep(m, f, c);
      if c1.Stuck? {
        StuckStays(Watch(m), f, k - 1);
      } else {
        UnsafeStays(m, f, c1, k - 1);
      }
    }
  }

  lemma {:induction false} StuckStays<S>(m: Machine<S>, f: Graph, k: nat)
    ensures Steps(m, f, Stuck, k) == Stuck
    decreases k
  {
    if k > 0 {
      StuckStays(m, f, k - 1);
    }
  }

  /** An accepted circuit has no misplaced transfer, so it expands. */
  lemma AcceptedExpands(ops: seq<Operation>, h: Handles)
    requires Valid(ops, h)
    ensures FromOperations(ops).Ok?
  {
    VerifyCharacterised(ops, h, State({}, {}), Placing(false, false));
    ExpansionChecksPlacement(ops, [EMPTY_BLOCK], 0, Context(None, None));
  }

  /** After any number of steps, the walk of an accepted circuit's graph is not stuck and has read only measured values. */
  lemma AcceptedWalksAreSafe<S>(m: Machine<S>, ops: seq<Operation>, h: Handles, s: S, k: nat)
    requires Valid(ops, h)
    ensures FromOperations(ops).Ok?
    ensures var d := Steps(Watch(m), FromOperations(ops).value, Start(Unwatched(s)), k); !d.Stuck? && d.s.safe
  {
    AcceptedExpands(ops, h);
    var f := FromOperations(ops).value;
    var start := Start(Unwatched(s));
    AcceptedRunsAreSafe(m, ops, h, s, k);
    var j := ExpansionFollowsRun(Watch(m), ops, Unwatched(s), k);
    var d := Steps(Watch(m), f, start, k);
    if j <= k {
      StepsAdd(Watch(m), f, start, j, k - j);
      if Steps(Watch(m), f, start, j).Halted? {
        HaltedStays(Watch(m), f, Steps(Watch(m), f, start, j), k - j);
      }
    } else {
      StepsAdd(Watch(m), f, start, k, j - k);
      if d.Stuck? {
        StuckStays(Watch(m), f, j - k);
      } else {
        UnsafeStays(m, f, d, j - k);
      }
    }
  }
}
