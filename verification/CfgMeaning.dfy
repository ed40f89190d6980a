/**
 Meaning of the operation tree and of the graph, over any machine, and the proof that the
 expansion preserves it. A machine interprets ordinary operations and expressions on a
 state of any type: the state can hold the classical store, the quantum register, the
 outcomes measurements are going to have, and a trace of everything executed.
 */
module CfgMeaning {
  import opened Prelude
  import opened Ir
  import opened CfgGraph
  import opened CfgCode

  /**
   `decide` evaluates a condition and `choose` a switch target. `forEnter` initialises a
   range loop and says whether its body runs; `forNext` advances it and says the same.
   */
  datatype Machine<!S> = Machine(
    exec: (Operation, S) -> S,
    decide: (Expr, S) -> (bool, S),
    choose: (Expr, S) -> (nat, S),
    forEnter: (ClassicalVar, Expr, Expr, Expr, S) -> (bool, S),
    forNext: (ClassicalVar, Expr, Expr, Expr, S) -> (bool, S))

  // ---- the tree --------------------------------------------------------------------------

  /** How a run of a body ends; `Exhausted` holds the state in which the loop budget ran out. */
  datatype Outcome<S> = Done(s: S) | Broke(s: S) | Continued(s: S) | Exhausted(s: S)

  function Head<S>(m: Machine<S>, c: ControlOp, entering: bool, s: S): (bool, S)
    requires IsLoop(c)
  {
    match c
    case While(e, _) => m.decide(e, s)
    case For(v, a, b, d, _) => if entering then m.forEnter(v, a, b, d, s) else m.forNext(v, a, b, d, s)
  }

  function Run<S>(m: Machine<S>, ops: seq<Operation>, s: S, fuel: nat): Outcome<S>
    decreases fuel, ops
  {
    if ops == [] then Done(s)
    else
      match RunOp(m, ops[0], s, fuel)
      case Done(s1) => Run(m, ops[1..], s1, fuel)
      case o => o
  }

  function RunOp<S>(m: Machine<S>, op: Operation, s: S, fuel: nat): Outcome<S>
    decreases fuel, op
  {
    match op.instruction
    case Control(c) => RunControl(m, c, s, fuel)
    case _ => Done(m.exec(op, s))
  }

  function RunControl<S>(m: Machine<S>, c: ControlOp, s: S, fuel: nat): Outcome<S>
    decreases fuel, c
  {
    match c
    case If(e, t, els) =>
      var (b, s1) := m.decide(e, s);
      if b then Run(m, t, s1, fuel) else RunMaybe(m, els, s1, fuel)
    case While(_, _) => RunLoop(m, c, true, s, fuel)
    case For(_, _, _, _, _) => RunLoop(m, c, true, s, fuel)
    case Switch(e, cases, d) =>
      var (v, s1) := m.choose(e, s);
      var o := if HasCase(cases, v) then RunCases(m, cases, v, s1, fuel) else RunMaybe(m, d, s1, fuel);
      if o.Broke? then Done(o.s) else o
    case Break => Broke(s)
    case Continue => Continued(s)
  }

  function RunMaybe<S>(m: Machine<S>, body: MaybeBody, s: S, fuel: nat): Outcome<S>
    decreases fuel, body
  {
    match body
    case Absent => Done(s)
    case Present(ops) => Run(m, ops, s, fuel)
  }

  predicate HasCase(cases: seq<SwitchCase>, v: nat) {
    exists k | 0 <= k < |cases| :: cases[k].value == v
  }

  /** Runs the first case whose value was chosen. */
  function RunCases<S>(m: Machine<S>, cases: seq<SwitchCase>, v: nat, s: S, fuel: nat): Outcome<S>
    requires HasCase(cases, v)
    decreases fuel, cases
  {
    if cases[0].value == v then RunCase(m, cases[0], s, fuel)
    else
      assert forall k | 0 < k < |cases| :: cases[1..][k - 1] == cases[k];
      RunCases(m, cases[1..], v, s, fuel)
  }

  function RunCase<S>(m: Machine<S>, c: SwitchCase, s: S, fuel: nat): Outcome<S>
    decreases fuel, c
  {
    Run(m, c.body, s, fuel)
  }

  /** `fuel` bounds the iterations; `break` leaves the loop and `continue` starts the next one. */
  function RunLoop<S>(m: Machine<S>, c: ControlOp, entering: bool, s: S, fuel: nat): Outcome<S>
    requires IsLoop(c)
    decreases fuel, c, 0
  {
    if fuel == 0 then Exhausted(s)
    else
      var (b, s1) := Head(m, c, entering, s);
      if !b then Done(s1)
      else
        match Run(m, c.body, s1, fuel - 1)
        case Done(s2) => RunLoop(m, c, false, s2, fuel - 1)
        case Continued(s2) => RunLoop(m, c, false, s2, fuel - 1)
        case Broke(s2) => Done(s2)
        case Exhausted(s2) => Exhausted(s2)
  }

  // ---- the graph -------------------------------------------------------------------------

  /**
   A walk stands before operation `index` of `block`, which it entered from block `from`,
   or has returned. `Stuck` is reached only in graphs that are not well formed.
   */
  datatype Conf<S> = At(block: nat, index: nat, from: nat, s: S) | Halted(s: S) | Stuck

  function EdgeTarget(out: seq<Edge>, kind: FlowEdge): Option<nat> {
    if out == [] then None
    else if out[0].kind == kind then Some(out[0].target)
    else EdgeTarget(out[1..], kind)
  }

  function Follow<S>(out: seq<Edge>, kind: FlowEdge, from: nat, s: S): Conf<S> {
    match EdgeTarget(out, kind)
    case Some(t) => At(t, 0, from, s)
    case None => Stuck
  }

  /**
   Blocks are numbered in creation order and every block of a loop body is created after
   the loop's header, so a header is entered from inside its body exactly along an edge
   from a later block.
   */
  predicate BackEdge(from: nat, header: nat) {
    header < from
  }

  function Step<S>(m: Machine<S>, f: Graph, c: Conf<S>): Conf<S> {
    match c
    case At(n, i, from, s) =>
      if n >= |f| then Stuck
      else if i < |f[n].ops| then At(n, i + 1, from, m.exec(f[n].ops[i], s))
      else
        (match f[n].term
         case None => Stuck
         case Some(Return) => Halted(s)
         case Some(Jump(t)) => At(t, 0, n, s)
         case Some(BreakTo(t)) => At(t, 0, n, s)
         case Some(ContinueTo(t)) => At(t, 0, n, s)
         case Some(Branch(e)) =>
           var (b, s1) := m.decide(e, s);
           Follow(f[n].out, if b then TrueBranch else FalseBranch, n, s1)
         case Some(ForLoop(v, a, z, d)) =>
           var (b, s1) := if BackEdge(from, n) then m.forNext(v, a, z, d, s) else m.forEnter(v, a, z, d, s);
           Follow(f[n].out, if b then TrueBranch else FalseBranch, n, s1)
         case Some(SwitchOn(e)) =>
           var (v, s1) := m.choose(e, s);
           Follow(f[n].out, if EdgeTarget(f[n].out, CaseEdge(v)).Some? then CaseEdge(v) else DefaultCase, n, s1))
    case _ => c
  }

  function Steps<S>(m: Machine<S>, f: Graph, c: Conf<S>, k: nat): Conf<S>
    decreases k
  {
    if k == 0 then c else Steps(m, f, Step(m, f, c), k - 1)
  }

  function Start<S>(s: S): Conf<S> {
    At(0, 0, 0, s)
  }

  lemma {:induction false} StepsAdd<S>(m: Machine<S>, f: Graph, c: Conf<S>, j: nat, k: nat)
    ensures Steps(m, f, c, j + k) == Steps(m, f, Steps(m, f, c, j), k)
    decreases j
  {
    if j > 0 {
      StepsAdd(m, f, Step(m, f, c), j - 1, k);
    }
  }

  lemma {:induction false} HaltedStays<S>(m: Machine<S>, f: Graph, c: Conf<S>, k: nat)
    requires c.Halted?
    ensures Steps(m, f, c, k) == c
    decreases k
  {
    if k > 0 {
      HaltedStays(m, f, c, k - 1);
    }
  }

  // ---- simulation ------------------------------------------------------------------------

  /** Walk position `d` is where outcome `o` of the code at block `n` leads. */
  ghost predicate Lands<S>(o: Outcome<S>, d: Conf<S>, n: nat, ctx: Context, fall: Option<nat>) {
    match o
    case Done(s) => if fall.None? then d == Halted(s) else Arrives(d, fall.value, n, s)
    case Broke(s) => ctx.breakTarget.Some? && Arrives(d, ctx.breakTarget.value, n, s)
    case Continued(s) => ctx.continueTarget.Some? && Arrives(d, ctx.continueTarget.value, n, s)
    case Exhausted(s) => d.At? && d.s == s
  }

  /** The walk has just entered `block` with state `s`, coming from block `n` or a later one. */
  ghost predicate Arrives<S>(d: Conf<S>, block: nat, n: nat, s: S) {
    d.At? && d.block == block && d.index == 0 && n <= d.from && d.s == s
  }

  lemma TwoEdges(a: nat, b: nat)
    ensures EdgeTarget([Edge(TrueBranch, a), Edge(FalseBranch, b)], TrueBranch) == Some(a)
    ensures EdgeTarget([Edge(TrueBranch, a), Edge(FalseBranch, b)], FalseBranch) == Some(b)
  {
    assert [Edge(TrueBranch, a), Edge(FalseBranch, b)][1..] == [Edge(FalseBranch, b)];
  }

  /** The walk follows a run of `ops`: it lands where the run ends, after `fuel` steps or more if the run is cut off. */
  lemma {:induction false} WalkOps<S>(m: Machine<S>, f: Graph, n: nat, i: nat, from: nat, ops: seq<Operation>, ctx: Context,
                                      fall: Option<nat>, lo: nat, s: S, fuel: nat) returns (k: nat, d: Conf<S>)
    requires CodeAt(f, n, i, ops, ctx, fall, lo)
    ensures Steps(m, f, At(n, i, from, s), k) == d && Lands(Run(m, ops, s, fuel), d, n, ctx, fall)
    ensures Run(m, ops, s, fuel).Exhausted? ==> fuel <= k
    decreases fuel, ops, 1
  {
    if ops == [] {
      k, d := 1, Step(m, f, At(n, i, from, s));
      assert Steps(m, f, At(n, i, from, s), 1) == d;
    } else if ops[0].instruction.Control? && !Structured(ops[0]) {
      assert Run(m, ops, s, fuel) == RunOp(m, ops[0], s, fuel) == RunControl(m, ops[0].instruction.control, s, fuel);
      k, d := 1, Step(m, f, At(n, i, from, s));
      assert Steps(m, f, At(n, i, from, s), 1) == d;
    } else if !ops[0].instruction.Control? {
      var s1 := m.exec(ops[0], s);
      assert RunOp(m, ops[0], s, fuel) == Done(s1);
      assert Run(m, ops, s, fuel) == Run(m, ops[1..], s1, fuel);
      var k1, d1 := WalkOps(m, f, n, i + 1, from, ops[1..], ctx, fall, lo, s1, fuel);
      assert Step(m, f, At(n, i, from, s)) == At(n, i + 1, from, s1);
      k, d := k1 + 1, d1;
    } else {
      k, d := WalkStructured(m, f, n, i, from, ops, ctx, fall, lo, s, fuel);
    }
  }

  lemma {:induction false} WalkStructured<S>(m: Machine<S>, f: Graph, n: nat, i: nat, from: nat, ops: seq<Operation>, ctx: Context,
                                             fall: Option<nat>, lo: nat, s: S, fuel: nat) returns (k: nat, d: Conf<S>)
    requires CodeAt(f, n, i, ops, ctx, fall, lo) && ops != [] && Structured(ops[0])
    ensures Steps(m, f, At(n, i, from, s), k) == d && Lands(Run(m, ops, s, fuel), d, n, ctx, fall)
    ensures Run(m, ops, s, fuel).Exhausted? ==> fuel <= k
    decreases fuel, ops, 0
  {
    var next := After(ops[0].instruction.control, lo);
    var k1, d1 := WalkControl(m, f, n, from, ops[0], ctx, lo, s, fuel);
    var o := RunOp(m, ops[0], s, fuel);
    if o.Done? {
      var k2, d2 := WalkOps(m, f, next, 0, d1.from, ops[1..], ctx, fall, lo + NumOp(ops[0]), o.s, fuel);
      StepsAdd(m, f, At(n, i, from, s), k1, k2);
      k, d := k1 + k2, d2;
    } else {
      k, d := k1, d1;
    }
  }

  lemma {:induction false} WalkControl<S>(m: Machine<S>, f: Graph, n: nat, from: nat, op: Operation, ctx: Context,
                                          lo: nat, s: S, fuel: nat) returns (k: nat, d: Conf<S>)
    requires n < |f| && n < lo && Structured(op) && ControlAt(f, n, op, ctx, lo)
    ensures Steps(m, f, At(n, |f[n].ops|, from, s), k) == d
    ensures Lands(RunOp(m, op, s, fuel), d, n, ctx, Some(After(op.instruction.control, lo)))
    ensures RunOp(m, op, s, fuel).Exhausted? ==> fuel <= k
    decreases fuel, op, 1
  {
    var c := op.instruction.control;
    assert RunOp(m, op, s, fuel) == RunControl(m, c, s, fuel);
    if c.If? {
      TwoEdges(lo, lo + 1);
      var (b, s1) := m.decide(c.condition, s);
      assert RunControl(m, c, s, fuel) == if b then Run(m, c.thenBody, s1, fuel) else RunMaybe(m, c.elseBody, s1, fuel);
      var k1, d1;
      if b {
        k1, d1 := WalkOps(m, f, lo, 0, n, c.thenBody, ctx, Some(lo + 2), lo + 3, s1, fuel);
      } else {
        k1, d1 := WalkMaybe(m, f, lo + 1, n, c.elseBody, ctx, Some(lo + 2), lo + 3 + NumOps(c.thenBody), s1, fuel);
      }
      assert Step(m, f, At(n, |f[n].ops|, from, s)) == At(if b then lo else lo + 1, 0, n, s1);
      k, d := k1 + 1, d1;
    } else if c.Switch? {
      k, d := WalkSwitch(m, f, n, from, op, ctx, lo, s, fuel);
    } else {
      var k1, d1 := WalkLoop(m, f, n, op, lo, n, s, fuel);
      assert RunControl(m, c, s, fuel) == RunLoop(m, c, !BackEdge(n, lo), s, fuel);
      assert Step(m, f, At(n, |f[n].ops|, from, s)) == At(lo, 0, n, s);
      k, d := k1 + 1, d1;
    }
  }

  lemma {:induction false} WalkMaybe<S>(m: Machine<S>, f: Graph, n: nat, from: nat, body: MaybeBody, ctx: Context,
                                        fall: Option<nat>, lo: nat, s: S, fuel: nat) returns (k: nat, d: Conf<S>)
    requires MaybeAt(f, n, body, ctx, fall, lo)
    ensures Steps(m, f, At(n, 0, from, s), k) == d && Lands(RunMaybe(m, body, s, fuel), d, n, ctx, fall)
    ensures RunMaybe(m, body, s, fuel).Exhausted? ==> fuel <= k
    decreases fuel, body
  {
    match body
    case Absent =>
      k, d := 1, Step(m, f, At(n, 0, from, s));
      assert Steps(m, f, At(n, 0, from, s), 1) == d;
    case Present(ops) =>
      k, d := WalkOps(m, f, n, 0, from, ops, ctx, fall, lo, s, fuel);
  }

  /** From the header, an entering walk comes from an earlier block and a repeating one from a later block. */
  lemma {:induction false} WalkLoop<S>(m: Machine<S>, f: Graph, n: nat, op: Operation, lo: nat, from: nat, s: S, fuel: nat)
    returns (k: nat, d: Conf<S>)
    requires n < |f| && n < lo && Structured(op) && IsLoop(op.instruction.control)
    requires LoopAt(f, n, op, lo) && from != lo
    requires CodeAt(f, lo + 1, 0, op.instruction.control.body, LoopContext(lo, lo + 2), Some(lo), lo + 3)
    ensures Steps(m, f, At(lo, 0, from, s), k) == d
    ensures var o := RunLoop(m, op.instruction.control, !BackEdge(from, lo), s, fuel);
            && (o.Done? ==> Arrives(d, lo + 2, lo, o.s))
            && (o.Exhausted? ==> d.At? && d.s == o.s && fuel <= k)
            && !o.Broke? && !o.Continued?
    decreases fuel, op, 0
  {
    var c := op.instruction.control;
    if fuel == 0 {
      k, d := 0, At(lo, 0, from, s);
    } else {
      TwoEdges(lo + 1, lo + 2);
      var (b, s1) := Head(m, c, !BackEdge(from, lo), s);
      assert Step(m, f, At(lo, 0, from, s)) == At(if b then lo + 1 else lo + 2, 0, lo, s1);
      if !b {
        k, d := 1, At(lo + 2, 0, lo, s1);
        assert Steps(m, f, At(lo, 0, from, s), 1) == d;
      } else {
        var k1, d1 := WalkOps(m, f, lo + 1, 0, lo, c.body, LoopContext(lo, lo + 2), Some(lo), lo + 3, s1, fuel - 1);
        var o := Run(m, c.body, s1, fuel - 1);
        if o.Done? || o.Continued? {
          var k2, d2 := WalkLoop(m, f, n, op, lo, d1.from, o.s, fuel - 1);
          StepsAdd(m, f, At(lo + 1, 0, lo, s1), k1, k2);
          k, d := 1 + k1 + k2, d2;
        } else {
          k, d := 1 + k1, d1;
        }
      }
    }
  }

  lemma {:induction false} WalkSwitch<S>(m: Machine<S>, f: Graph, n: nat, from: nat, op: Operation, ctx: Context,
                                         lo: nat, s: S, fuel: nat) returns (k: nat, d: Conf<S>)
    requires n < |f| && n < lo && Structured(op) && op.instruction.control.Switch? && ControlAt(f, n, op, ctx, lo)
    ensures Steps(m, f, At(n, |f[n].ops|, from, s), k) == d
    ensures Lands(RunOp(m, op, s, fuel), d, n, ctx, Some(lo))
    ensures RunOp(m, op, s, fuel).Exhausted? ==> fuel <= k
    decreases fuel, op, 0
  {
    var Switch(e, cases, default) := op.instruction.control;
    var (v, s1) := m.choose(e, s);
    var entry := lo + 1 + NumCases(cases);
    var inner := SwitchContext(ctx, lo);
    assert RunOp(m, op, s, fuel) == RunControl(m, op.instruction.control, s, fuel);
    ghost var o := if HasCase(cases, v) then RunCases(m, cases, v, s1, fuel) else RunMaybe(m, default, s1, fuel);
    assert RunControl(m, op.instruction.control, s, fuel) == if o.Broke? then Done(o.s) else o;
    var k1, d1;
    if HasCase(cases, v) {
      var target;
      target, k1, d1 := WalkCases(m, f, n, cases, inner, lo, lo + 1, v, [Edge(DefaultCase, entry)], s1, fuel);
      assert Step(m, f, At(n, |f[n].ops|, from, s)) == At(target, 0, n, s1);
    } else {
      NoCase(cases, lo + 1, v, [Edge(DefaultCase, entry)]);
      k1, d1 := WalkMaybe(m, f, entry, n, default, inner, Some(lo), entry + 1, s1, fuel);
      assert Step(m, f, At(n, |f[n].ops|, from, s)) == At(entry, 0, n, s1);
    }
    k, d := k1 + 1, d1;
  }

  lemma {:induction false} NoCase(cases: seq<SwitchCase>, lo: nat, v: nat, rest: seq<Edge>)
    requires !HasCase(cases, v)
    ensures EdgeTarget(CaseEdges(cases, lo) + rest, CaseEdge(v)) == EdgeTarget(rest, CaseEdge(v))
    ensures EdgeTarget(CaseEdges(cases, lo) + rest, DefaultCase) == EdgeTarget(rest, DefaultCase)
    decreases |cases|
  {
    if cases == [] {
      assert CaseEdges(cases, lo) + rest == rest;
    } else {
      var next := CaseEdges(cases[1..], lo + NumCase(cases[0]));
      assert (CaseEdges(cases, lo) + rest)[1..] == next + rest;
      NoCase(cases[1..], lo + NumCase(cases[0]), v, rest);
    }
  }

  lemma {:induction false} WalkCases<S>(m: Machine<S>, f: Graph, n: nat, cases: seq<SwitchCase>, ctx: Context, merge: nat, lo: nat,
                                        v: nat, rest: seq<Edge>, s: S, fuel: nat) returns (target: nat, k: nat, d: Conf<S>)
    requires CasesAt(f, cases, ctx, merge, lo) && HasCase(cases, v) && n < lo
    ensures EdgeTarget(CaseEdges(cases, lo) + rest, CaseEdge(v)) == Some(target) && lo <= target
    ensures Steps(m, f, At(target, 0, n, s), k) == d
    ensures Lands(RunCases(m, cases, v, s, fuel), d, target, ctx, Some(merge))
    ensures RunCases(m, cases, v, s, fuel).Exhausted? ==> fuel <= k
    decreases fuel, cases
  {
    var next := CaseEdges(cases[1..], lo + NumCase(cases[0]));
    assert (CaseEdges(cases, lo) + rest)[1..] == next + rest;
    if cases[0].value == v {
      target := lo;
      k, d := WalkCase(m, f, n, cases[0], ctx, merge, lo, s, fuel);
    } else {
      assert forall k | 0 < k < |cases| :: cases[1..][k - 1] == cases[k];
      target, k, d := WalkCases(m, f, n, cases[1..], ctx, merge, lo + NumCase(cases[0]), v, rest, s, fuel);
    }
  }

  lemma {:induction false} WalkCase<S>(m: Machine<S>, f: Graph, n: nat, c: SwitchCase, ctx: Context, merge: nat, lo: nat,
                                       s: S, fuel: nat) returns (k: nat, d: Conf<S>)
    requires CaseAt(f, c, ctx, merge, lo)
    ensures Steps(m, f, At(lo, 0, n, s), k) == d && Lands(RunCase(m, c, s, fuel), d, lo, ctx, Some(merge))
    ensures RunCase(m, c, s, fuel).Exhausted? ==> fuel <= k
    decreases fuel, c
  {
    k, d := WalkOps(m, f, lo, 0, n, c.body, ctx, Some(merge), lo + 1, s, fuel);
  }

  // ---- main results ----------------------------------------------------------------------

  /**
   The walk of the expanded graph matches every run of the tree: it halts in the same
   state when the run completes, and it passes through the run's last state, after at
   least as many steps as the loop budget, when the run is cut off.
   */
  lemma ExpansionFollowsRun<S>(m: Machine<S>, ops: seq<Operation>, s: S, fuel: nat) returns (k: nat)
    requires FromOperations(ops).Ok?
    ensures var d := Steps(m, FromOperations(ops).value, Start(s), k);
            match Run(m, ops, s, fuel)
            case Done(s1) => d == Halted(s1)
            case Exhausted(s1) => d.At? && d.s == s1 && fuel <= k
            case _ => false
  {
    FromOperationsCode(ops);
    var d;
    k, d := WalkOps(m, FromOperations(ops).value, 0, 0, 0, ops, Context(None, None), None, 1, s, fuel);
  }

  /** For every machine and every pair of states, the tree can run from one to the other exactly if the graph can. */
  lemma ExpansionPreservesMeaning<S>(m: Machine<S>, ops: seq<Operation>, s: S, s1: S)
    requires FromOperations(ops).Ok?
    ensures (exists fuel: nat :: Run(m, ops, s, fuel) == Done(s1)) <==>
            (exists k: nat :: Steps(m, FromOperations(ops).value, Start(s), k) == Halted(s1))
  {
    var f := FromOperations(ops).value;
    if fuel: nat :| Run(m, ops, s, fuel) == Done(s1) {
      var k := ExpansionFollowsRun(m, ops, s, fuel);
      assert Steps(m, f, Start(s), k) == Halted(s1);
    }
    if k: nat :| Steps(m, f, Start(s), k) == Halted(s1) {
      var j := ExpansionFollowsRun(m, ops, s, k);
      var c := Steps(m, f, Start(s), if j < k then j else k);
      if j < k {
        StepsAdd(m, f, Start(s), j, k - j);
        HaltedStays(m, f, c, k - j);
      } else {
        StepsAdd(m, f, Start(s), k, j - k);
        HaltedStays(m, f, c, j - k);
      }
      assert Run(m, ops, s, k) == Done(s1);
    }
  }
}
