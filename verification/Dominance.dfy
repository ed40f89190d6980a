/**
 Availability is dominance: in the graph of an accepted circuit every value that is read has
 one defining operation, and every path from the entry to the read passes through it. That
 each path measures what it reads is proved by driving the watched walk along the path with
 a machine that only answers branch questions; that the measurement is always the same
 operation is proved by counting (`Measurements`).
 */
module Dominance {
  import opened Prelude
  import opened Ir
  import opened CfgGraph
  import opened CfgCode
  import opened CfgMeaning
  import opened Measurements
  import opened Verifier
  import opened Soundness

  /** Control can pass from block `b` to block `c` along the edge its terminator selects. */
  ghost predicate Successor(f: Graph, b: nat, c: nat) {
    && b < |f| && f[b].term.Some?
    && match f[b].term.value
       case Jump(d) => c == d
       case BreakTo(d) => c == d
       case ContinueTo(d) => c == d
       case Return => false
       case SwitchOn(_) =>
         EdgeTarget(f[b].out, DefaultCase) == Some(c) || exists v: nat :: EdgeTarget(f[b].out, CaseEdge(v)) == Some(c)
       case _ => EdgeTarget(f[b].out, TrueBranch) == Some(c) || EdgeTarget(f[b].out, FalseBranch) == Some(c)
  }

  ghost predicate IsPath(f: Graph, p: seq<nat>) {
    p != [] && p[|p| - 1] < |f| && forall i | 0 <= i < |p| - 1 :: Successor(f, p[i], p[i + 1])
  }

  /** The values measured in the blocks of a path. */
  function MeasuredOn(f: Graph, p: seq<nat>): set<ClassicalValue> {
    if p == [] then {} else (if p[0] < |f| then ProducedAll(f[p[0]].ops) else {}) + MeasuredOn(f, p[1..])
  }

  /** The values a terminator's expressions read. */
  function TermReads(t: Terminator): set<ClassicalValue> {
    match t
    case Branch(e) => e.Values()
    case SwitchOn(e) => e.Values()
    case ForLoop(_, a, z, d) => a.Values() + z.Values() + d.Values()
    case _ => {}
  }

  // ---- a machine that answers from a list ---------------------------------------------------

  function Rest(s: seq<nat>): seq<nat> {
    if s == [] then [] else s[1..]
  }

  function Answer(s: seq<nat>): nat {
    if s == [] then 0 else s[0]
  }

  function Chooser(): Machine<seq<nat>> {
    Machine(
      (op: Operation, s: seq<nat>) => s,
      (e: Expr, s: seq<nat>) => (Answer(s) == 1, Rest(s)),
      (e: Expr, s: seq<nat>) => (Answer(s), Rest(s)),
      (x: ClassicalVar, a: Expr, z: Expr, d: Expr, s: seq<nat>) => (Answer(s) == 1, Rest(s)),
      (x: ClassicalVar, a: Expr, z: Expr, d: Expr, s: seq<nat>) => (Answer(s) == 1, Rest(s)))
  }

  /** What the monitor records over straight-line operations. */
  function Scan(ops: seq<Operation>, w: Watched<seq<nat>>): Watched<seq<nat>> {
    if ops == [] then w else Scan(ops[1..], Note(w, w.s, Reads(ops[0]), Produced(ops[0])))
  }

  lemma {:induction false} ScanFacts(ops: seq<Operation>, w: Watched<seq<nat>>, s: seq<nat>)
    ensures Scan(ops, w).s == w.s && Scan(ops, w).measured == w.measured + ProducedAll(ops)
    ensures Scan(ops, w.(s := s)) == Scan(ops, w).(s := s)
    decreases |ops|
  {
    if ops != [] {
      ScanFacts(ops[1..], Note(w, w.s, Reads(ops[0]), Produced(ops[0])), s);
      assert Note(w.(s := s), s, Reads(ops[0]), Produced(ops[0])) == Note(w, w.s, Reads(ops[0]), Produced(ops[0])).(s := s);
    }
  }

  /** Walking through the next `j` operations of a block records exactly their scan. */
  lemma {:induction false} WalkBlock(f: Graph, n: nat, i: nat, from: nat, w: Watched<seq<nat>>, j: nat)
    requires n < |f| && i + j <= |f[n].ops|
    ensures Steps(Watch(Chooser()), f, At(n, i, from, w), j) == At(n, i + j, from, Scan(f[n].ops[i..i + j], w))
    decreases j
  {
    if j > 0 {
      var op := f[n].ops[i];
      var w1 := Note(w, w.s, Reads(op), Produced(op));
      assert Watch(Chooser()).exec(op, w) == w1;
      WalkBlock(f, n, i + 1, from, w1, j - 1);
      assert f[n].ops[i..i + j][1..] == f[n].ops[i + 1..i + j];
    }
  }

  lemma {:induction false} UnusedCase(out: seq<Edge>, bound: nat) returns (v: nat)
    ensures bound <= v && EdgeTarget(out, CaseEdge(v)).None?
    decreases |out|
  {
    if out == [] {
      v := bound;
    } else {
      v := UnusedCase(out[1..], if out[0].kind.CaseEdge? && bound <= out[0].kind.value then out[0].kind.value + 1 else bound);
    }
  }

  /** The answers that make a terminator take the edge to `c`. */
  lemma TakeEdge(f: Graph, b: nat, c: nat, from: nat, measured: set<ClassicalValue>, safe: bool)
    returns (a: seq<nat>)
    requires Successor(f, b, c)
    ensures forall rest: seq<nat> ::
      (Step(Watch(Chooser()), f, At(b, |f[b].ops|, from, Watched(a + rest, measured, safe)))
       == At(c, 0, b, Watched(rest, measured, safe && TermReads(f[b].term.value) <= measured)))
  {
    var out := f[b].out;
    var t := f[b].term.value;
    if t.Jump? || t.BreakTo? || t.ContinueTo? {
      a := [];
      assert forall rest: seq<nat> :: a + rest == rest;
    } else if t.SwitchOn? {
      if v: nat :| EdgeTarget(out, CaseEdge(v)) == Some(c) {
        a := [v];
      } else {
        var v := UnusedCase(out, 0);
        a := [v];
      }
      forall rest: seq<nat>
        ensures Step(Watch(Chooser()), f, At(b, |f[b].ops|, from, Watched(a + rest, measured, safe)))
             == At(c, 0, b, Watched(rest, measured, safe && TermReads(t) <= measured))
      {
        var w := Watched(a + rest, measured, safe);
        assert Rest(a + rest) == rest && Answer(a + rest) == a[0];
        assert Chooser().choose(t.target, w.s) == (a[0], rest);
        assert Watch(Chooser()).choose(t.target, w) == (a[0], Note(w, rest, t.target.Values(), {}));
        assert measured + {} == measured;
      }
    } else {
      a := if EdgeTarget(out, TrueBranch) == Some(c) then [1] else [0];
      forall rest: seq<nat>
        ensures Step(Watch(Chooser()), f, At(b, |f[b].ops|, from, Watched(a + rest, measured, safe)))
             == At(c, 0, b, Watched(rest, measured, safe && TermReads(t) <= measured))
      {
        var w := Watched(a + rest, measured, safe);
        assert Rest(a + rest) == rest && Answer(a + rest) == a[0];
        assert measured + {} == measured;
        match t
        case Branch(e) =>
          assert Watch(Chooser()).decide(e, w) == (a[0] == 1, Note(w, rest, e.Values(), {}));
        case ForLoop(v, x, z, d) =>
          var r := x.Values() + z.Values() + d.Values();
          assert Watch(Chooser()).forEnter(v, x, z, d, w) == (a[0] == 1, Note(w, rest, r, {}));
          assert Watch(Chooser()).forNext(v, x, z, d, w) == (a[0] == 1, Note(w, rest, r, {}));
      }
    }
  }

  /** The answers that drive the walk along `p`; it arrives having measured exactly what the blocks before the last measure. */
  lemma {:induction false} FollowPath(f: Graph, p: seq<nat>, from: nat, measured: set<ClassicalValue>, safe: bool)
    returns (a: seq<nat>, k: nat, d: Conf<Watched<seq<nat>>>)
    requires IsPath(f, p)
    ensures Steps(Watch(Chooser()), f, At(p[0], 0, from, Watched(a, measured, safe)), k) == d
    ensures d.At? && d.block == p[|p| - 1] && d.index == 0 && d.s.measured == measured + MeasuredOn(f, p[..|p| - 1])
    decreases |p|
  {
    hide Watch, Scan;
    if |p| == 1 {
      a, k, d := [], 0, At(p[0], 0, from, Watched([], measured, safe));
      assert p[..0] == [];
    } else {
      var b, c := p[0], p[1];
      assert Successor(f, b, c);
      var n := |f[b].ops|;
      assert f[b].ops[0..n] == f[b].ops;
      var w := Scan(f[b].ops, Watched([], measured, safe));
      var a0 := TakeEdge(f, b, c, from, w.measured, w.safe);
      var safe1 := w.safe && TermReads(f[b].term.value) <= w.measured;
      assert IsPath(f, p[1..]) by {
        forall i | 0 <= i < |p[1..]| - 1
          ensures Successor(f, p[1..][i], p[1..][i + 1])
        {
          assert Successor(f, p[i + 1], p[i + 2]);
        }
      }
      var a1, k1, d1 := FollowPath(f, p[1..], b, w.measured, safe1);
      a, d := a0 + a1, d1;
      var start := At(b, 0, from, Watched(a, measured, safe));
      WalkBlock(f, b, 0, from, Watched(a, measured, safe), n);
      ScanFacts(f[b].ops, Watched([], measured, safe), a);
      var atEnd := At(b, n, from, Watched(a, w.measured, w.safe));
      assert Steps(Watch(Chooser()), f, start, n) == atEnd;
      var next := At(c, 0, b, Watched(a1, w.measured, safe1));
      assert Step(Watch(Chooser()), f, atEnd) == next;
      assert Steps(Watch(Chooser()), f, atEnd, 1 + k1) == d1;
      StepsAdd(Watch(Chooser()), f, start, n, 1 + k1);
      k := n + (1 + k1);
      assert p[..|p| - 1][1..] == p[1..][..|p[1..]| - 1];
    }
  }

  // ---- every path measures what it reads --------------------------------------------------

  /**
   On every path from the entry of an accepted circuit's graph, each operation of the last
   block reads only values measured in earlier blocks of the path or earlier in the block,
   and the last block's terminator reads only values measured on the path.
   */
  lemma PathMeasuresItsReads(ops: seq<Operation>, h: Handles, f: Graph, p: seq<nat>)
    requires Valid(ops, h) && FromOperations(ops) == Ok(f)
    requires IsPath(f, p) && p[0] == 0
    ensures var b := f[p[|p| - 1]];
            var before := MeasuredOn(f, p[..|p| - 1]);
            && (forall j | 0 <= j < |b.ops| :: Reads(b.ops[j]) <= before + ProducedAll(b.ops[..j]))
            && b.term.Some? && TermReads(b.term.value) <= before + ProducedAll(b.ops)
  {
    var b := f[p[|p| - 1]];
    var before := MeasuredOn(f, p[..|p| - 1]);
    var a, k, d := FollowPath(f, p, 0, {}, true);
    forall j | 0 <= j < |b.ops|
      ensures Reads(b.ops[j]) <= before + ProducedAll(b.ops[..j])
    {
      ArrivesSafely(ops, h, a, k, d, j);
    }
    ArrivesSafely(ops, h, a, k, d, |b.ops|);
    assert b.ops[..|b.ops|] == b.ops;
  }

  /** After arriving in a block and taking `j` more steps, the next read is of measured values. */
  lemma ArrivesSafely(ops: seq<Operation>, h: Handles, a: seq<nat>, k: nat, d: Conf<Watched<seq<nat>>>, j: nat)
    requires Valid(ops, h) && FromOperations(ops).Ok?
    requires var f := FromOperations(ops).value;
             && Steps(Watch(Chooser()), f, Start(Unwatched(a)), k) == d
             && d.At? && d.index == 0 && d.block < |f| && j <= |f[d.block].ops|
    ensures var b := FromOperations(ops).value[d.block];
            var measured := d.s.measured + ProducedAll(b.ops[..j]);
            if j < |b.ops| then Reads(b.ops[j]) <= measured else b.term.Some? && TermReads(b.term.value) <= measured
  {
    var f := FromOperations(ops).value;
    var b := f[d.block];
    var w := Scan(b.ops[0..j], d.s);
    WalkBlock(f, d.block, 0, d.from, d.s, j);
    ScanFacts(b.ops[0..j], d.s, []);
    assert b.ops[..j] == b.ops[0..j];
    var here := At(d.block, j, d.from, w);
    assert Steps(Watch(Chooser()), f, here, 1) == Step(Watch(Chooser()), f, here);
    StepsAdd(Watch(Chooser()), f, d, j, 1);
    StepsAdd(Watch(Chooser()), f, Start(Unwatched(a)), k, j + 1);
    AcceptedWalksAreSafe(Chooser(), ops, h, a, k + (j + 1));
    var next := Step(Watch(Chooser()), f, here);
    assert !next.Stuck? && next.s.safe;
    NextRead(f, d.block, j, d.from, w);
  }

  /** A step that stays safe read only measured values. */
  lemma NextRead(f: Graph, n: nat, j: nat, from: nat, w: Watched<seq<nat>>)
    requires n < |f| && j <= |f[n].ops|
    requires var next := Step(Watch(Chooser()), f, At(n, j, from, w)); !next.Stuck? && next.s.safe
    ensures if j < |f[n].ops| then Reads(f[n].ops[j]) <= w.measured
            else f[n].term.Some? && TermReads(f[n].term.value) <= w.measured
  {
    var m := Chooser();
    if j < |f[n].ops| {
      var op := f[n].ops[j];
      assert Watch(m).exec(op, w) == Note(w, m.exec(op, w.s), Reads(op), Produced(op));
    } else {
      match f[n].term
      case None =>
      case Some(Branch(e)) => assert Watch(m).decide(e, w).1 == Note(w, m.decide(e, w.s).1, e.Values(), {});
      case Some(SwitchOn(e)) => assert Watch(m).choose(e, w).1 == Note(w, m.choose(e, w.s).1, e.Values(), {});
      case Some(ForLoop(v, x, y, z)) =>
        var r := x.Values() + y.Values() + z.Values();
        assert Watch(m).forEnter(v, x, y, z, w).1 == Note(w, m.forEnter(v, x, y, z, w.s).1, r, {});
        assert Watch(m).forNext(v, x, y, z, w).1 == Note(w, m.forNext(v, x, y, z, w.s).1, r, {});
      case Some(Return) =>
      case Some(Jump(_)) =>
      case Some(BreakTo(_)) =>
      case Some(ContinueTo(_)) =>
    }
  }

  lemma {:induction false} MeasuredByOne(f: Graph, p: seq<nat>, v: ClassicalValue) returns (b: nat, k: nat)
    requires v in MeasuredOn(f, p)
    ensures b in p && Defines(f, b, k, v)
    decreases |p|
  {
    if p[0] < |f| && v in ProducedAll(f[p[0]].ops) {
      b := p[0];
      k := ProducedByOne(f[b].ops, v);
    } else {
      b, k := MeasuredByOne(f, p[1..], v);
    }
  }

  lemma {:induction false} ProducedByOne(ops: seq<Operation>, v: ClassicalValue) returns (k: nat)
    requires v in ProducedAll(ops)
    ensures k < |ops| && v in Produced(ops[k])
    decreases |ops|
  {
    if v in Produced(ops[0]) {
      k := 0;
    } else {
      k := ProducedByOne(ops[1..], v);
      k := k + 1;
    }
  }

  // ---- every value that is read is defined, and earlier if in the same block ----------------

  /** Block `c` reads `v` in its operation `j`, or in its terminator when `j` is past the last operation. */
  predicate ReadsAt(f: Graph, c: nat, j: nat, v: ClassicalValue) {
    && c < |f| && j <= |f[c].ops|
    && if j < |f[c].ops| then v in Reads(f[c].ops[j]) else f[c].term.Some? && v in TermReads(f[c].term.value)
  }

  /** The operation at `b`, `k` defines `v`, and stands before position `j` if `b` is the reading block. */
  predicate DefinesBefore(f: Graph, b: nat, k: nat, c: nat, j: nat, v: ClassicalValue) {
    Defines(f, b, k, v) && (b == c ==> k < j)
  }

  lemma {:induction false} ReadIsDefined(f: Graph, n: nat, i: nat, ops: seq<Operation>, ctx: Context, fall: Option<nat>, lo: nat,
                                         available: set<ClassicalValue>, c: nat, j: nat, v: ClassicalValue)
    returns (b: nat, k: nat)
    requires CodeAt(f, n, i, ops, ctx, fall, lo) && Scoped(ops, available)
    requires ReadsAt(f, c, j, v) && v !in available
    requires (c == n && i <= j) || lo <= c < lo + NumOps(ops)
    ensures DefinesBefore(f, b, k, c, j, v)
    decreases ops, 2
  {
    var ends := ops == [] || (ops[0].instruction.Control? && !Structured(ops[0]));
    if ends {
      CodeEndReadsNothing(f, n, i, ops, ctx, fall, lo);
      assert false;
    } else if Structured(ops[0]) {
      b, k := StructuredRead(f, n, i, ops, ctx, fall, lo, available, c, j, v);
    } else if v in Produced(ops[0]) {
      b, k := n, i;
    } else {
      b, k := ReadIsDefined(f, n, i + 1, ops[1..], ctx, fall, lo, available + Produced(ops[0]), c, j, v);
    }
  }

  /** Falling through, breaking and continuing read nothing and add no blocks. */
  lemma CodeEndReadsNothing(f: Graph, n: nat, i: nat, ops: seq<Operation>, ctx: Context, fall: Option<nat>, lo: nat)
    requires CodeAt(f, n, i, ops, ctx, fall, lo)
    requires ops == [] || (ops[0].instruction.Control? && !Structured(ops[0]))
    ensures NumOps(ops) == 0 && i == |f[n].ops| && f[n].term.Some? && TermReads(f[n].term.value) == {}
  {
    if ops != [] {
      assert ops[1..] == [] && NumOp(ops[0]) == 0;
    }
  }

  lemma {:induction false} StructuredRead(f: Graph, n: nat, i: nat, ops: seq<Operation>, ctx: Context, fall: Option<nat>, lo: nat,
                                          available: set<ClassicalValue>, c: nat, j: nat, v: ClassicalValue)
    returns (b: nat, k: nat)
    requires CodeAt(f, n, i, ops, ctx, fall, lo) && Scoped(ops, available) && ops != [] && Structured(ops[0])
    requires ReadsAt(f, c, j, v) && v !in available
    requires (c == n && i <= j) || lo <= c < lo + NumOps(ops)
    ensures DefinesBefore(f, b, k, c, j, v)
    decreases ops, 1
  {
    hide ControlAt, ScopedOp, NumOp;
    var op := ops[0];
    var next := After(op.instruction.control, lo);
    if c == n {
      BranchReads(f, n, op, ctx, lo, available);
      assert false;
    } else if c != next && c < lo + NumOp(op) {
      b, k := ControlRead(f, n, op, ctx, lo, available, c, j, v);
    } else {
      assert available + Produced(op) == available;
      b, k := ReadIsDefined(f, next, 0, ops[1..], ctx, fall, lo + NumOp(op), available, c, j, v);
    }
  }

  /** The block that ends in a structured operation reads only available values there. */
  lemma BranchReads(f: Graph, n: nat, op: Operation, ctx: Context, lo: nat, available: set<ClassicalValue>)
    requires n < |f| && Structured(op) && ControlAt(f, n, op, ctx, lo) && ScopedOp(op, available)
    ensures f[n].term.Some? && TermReads(f[n].term.value) <= available
  {
    var c := op.instruction.control;
    if c.If? {
      assert c.condition in Heads(c);
    } else if c.Switch? {
      assert c.target in Heads(c);
    }
  }

  lemma LoopReads(f: Graph, n: nat, op: Operation, lo: nat, available: set<ClassicalValue>)
    requires n < |f| && Structured(op) && IsLoop(op.instruction.control) && LoopAt(f, n, op, lo) && ScopedOp(op, available)
    ensures lo < |f| && f[lo].ops == [] && f[lo].term.Some? && TermReads(f[lo].term.value) <= available
  {
    var c := op.instruction.control;
    if c.While? {
      assert c.condition in Heads(c);
    } else {
      assert c.start in Heads(c) && c.stop in Heads(c) && c.step in Heads(c);
    }
  }

  lemma {:induction false} ControlRead(f: Graph, n: nat, op: Operation, ctx: Context, lo: nat, available: set<ClassicalValue>,
                                       c: nat, j: nat, v: ClassicalValue)
    returns (b: nat, k: nat)
    requires n < |f| && Structured(op) && ControlAt(f, n, op, ctx, lo) && ScopedOp(op, available)
    requires ReadsAt(f, c, j, v) && v !in available
    requires lo <= c < lo + NumOp(op) && c != After(op.instruction.control, lo)
    ensures DefinesBefore(f, b, k, c, j, v)
    decreases op, 1
  {
    hide CodeAt, Scoped;
    var t := op.instruction.control;
    if t.If? {
      assert Bodies(t)[0] == t.thenBody && (t.elseBody.Present? ==> Bodies(t)[1] == t.elseBody.ops);
      if c == lo || lo + 3 <= c < lo + 3 + NumOps(t.thenBody) {
        b, k := ReadIsDefined(f, lo, 0, t.thenBody, ctx, Some(lo + 2), lo + 3, available, c, j, v);
      } else {
        b, k := MaybeRead(f, lo + 1, t.elseBody, ctx, Some(lo + 2), lo + 3 + NumOps(t.thenBody), available, c, j, v);
      }
    } else if t.Switch? {
      b, k := SwitchRead(f, n, op, ctx, lo, available, c, j, v);
    } else {
      assert Bodies(t)[0] == t.body;
      LoopReads(f, n, op, lo, available);
      b, k := ReadIsDefined(f, lo + 1, 0, t.body, LoopContext(lo, lo + 2), Some(lo), lo + 3, available, c, j, v);
    }
  }

  lemma {:induction false} SwitchRead(f: Graph, n: nat, op: Operation, ctx: Context, lo: nat, available: set<ClassicalValue>,
                                      c: nat, j: nat, v: ClassicalValue)
    returns (b: nat, k: nat)
    requires n < |f| && Structured(op) && op.instruction.control.Switch? && ControlAt(f, n, op, ctx, lo) && ScopedOp(op, available)
    requires ReadsAt(f, c, j, v) && v !in available
    requires lo < c < lo + NumOp(op)
    ensures DefinesBefore(f, b, k, c, j, v)
    decreases op, 0
  {
    hide CodeAt, Scoped;
    var t := op.instruction.control;
    var entry := lo + 1 + NumCases(t.cases);
    assert NumOp(op) == NumControl(t);
    assert forall k | 0 <= k < |t.cases| :: t.cases[k].body == Bodies(t)[k];
    assert t.default.Present? ==> t.default.ops == Bodies(t)[|t.cases|];
    if c < entry {
      b, k := CasesRead(f, t.cases, SwitchContext(ctx, lo), lo, lo + 1, available, c, j, v);
    } else {
      b, k := MaybeRead(f, entry, t.default, SwitchContext(ctx, lo), Some(lo), entry + 1, available, c, j, v);
    }
  }

  lemma {:induction false} MaybeRead(f: Graph, n: nat, body: MaybeBody, ctx: Context, fall: Option<nat>, lo: nat,
                                     available: set<ClassicalValue>, c: nat, j: nat, v: ClassicalValue)
    returns (b: nat, k: nat)
    requires MaybeAt(f, n, body, ctx, fall, lo) && (body.Present? ==> Scoped(body.ops, available))
    requires ReadsAt(f, c, j, v) && v !in available
    requires c == n || lo <= c < lo + NumMaybe(body)
    ensures DefinesBefore(f, b, k, c, j, v)
    decreases body
  {
    if body.Present? {
      b, k := ReadIsDefined(f, n, 0, body.ops, ctx, fall, lo, available, c, j, v);
    } else {
      assert false;
    }
  }

  lemma {:induction false} CasesRead(f: Graph, cases: seq<SwitchCase>, ctx: Context, merge: nat, lo: nat,
                                     available: set<ClassicalValue>, c: nat, j: nat, v: ClassicalValue)
    returns (b: nat, k: nat)
    requires CasesAt(f, cases, ctx, merge, lo) && forall k | 0 <= k < |cases| :: Scoped(cases[k].body, available)
    requires ReadsAt(f, c, j, v) && v !in available
    requires lo <= c < lo + NumCases(cases)
    ensures DefinesBefore(f, b, k, c, j, v)
    decreases cases
  {
    hide Scoped;
    if c < lo + NumCase(cases[0]) {
      b, k := CaseRead(f, cases[0], ctx, merge, lo, available, c, j, v);
    } else {
      assert forall k | 0 < k < |cases| :: cases[1..][k - 1] == cases[k];
      b, k := CasesRead(f, cases[1..], ctx, merge, lo + NumCase(cases[0]), available, c, j, v);
    }
  }

  lemma {:induction false} CaseRead(f: Graph, s: SwitchCase, ctx: Context, merge: nat, lo: nat,
                                    available: set<ClassicalValue>, c: nat, j: nat, v: ClassicalValue)
    returns (b: nat, k: nat)
    requires CaseAt(f, s, ctx, merge, lo) && Scoped(s.body, available)
    requires ReadsAt(f, c, j, v) && v !in available
    requires lo <= c < lo + NumCase(s)
    ensures DefinesBefore(f, b, k, c, j, v)
    decreases s
  {
    b, k := ReadIsDefined(f, lo, 0, s.body, ctx, Some(merge), lo + 1, available, c, j, v);
  }

  // ---- main result ------------------------------------------------------------------------

  /** Every path from the entry to block `c` contains block `b`. */
  ghost predicate Dominates(f: Graph, b: nat, c: nat) {
    forall p :: IsPath(f, p) && p[0] == 0 && p[|p| - 1] == c ==> b in p
  }

  /** `b`, `k` is the only operation that defines `v`. */
  ghost predicate UniqueDefinition(f: Graph, b: nat, k: nat, v: ClassicalValue) {
    Defines(f, b, k, v) && forall c, j :: Defines(f, c, j, v) ==> c == b && j == k
  }

  /**
   In the graph of an accepted circuit, whatever a block reads has exactly one defining
   operation, which dominates the block, and stands before the read if it is in that block.
   */
  lemma AvailabilityIsDominance(ops: seq<Operation>, h: Handles)
    requires Valid(ops, h)
    ensures FromOperations(ops).Ok?
    ensures var f := FromOperations(ops).value;
            forall c, j, v | ReadsAt(f, c, j, v) ::
              exists b, k :: UniqueDefinition(f, b, k, v) && Dominates(f, b, c) && (b == c ==> k < j)
  {
    AcceptedExpands(ops, h);
    var f := FromOperations(ops).value;
    forall c, j, v | ReadsAt(f, c, j, v)
      ensures exists b, k :: UniqueDefinition(f, b, k, v) && Dominates(f, b, c) && (b == c ==> k < j)
    {
      var b, k := DefinitionDominates(ops, h, f, c, j, v);
    }
  }

  lemma DefinitionDominates(ops: seq<Operation>, h: Handles, f: Graph, c: nat, j: nat, v: ClassicalValue) returns (b: nat, k: nat)
    requires Valid(ops, h) && FromOperations(ops) == Ok(f) && ReadsAt(f, c, j, v)
    ensures UniqueDefinition(f, b, k, v) && Dominates(f, b, c) && (b == c ==> k < j)
  {
    VerifyCharacterised(ops, h, State({}, {}), Placing(false, false));
    FromOperationsCode(ops);
    b, k := ReadIsDefined(f, 0, 0, ops, Context(None, None), None, 1, {}, c, j, v);
    DefinitionsAreUnique(ops, h);
    assert UniqueDefinition(f, b, k, v);
    forall p | IsPath(f, p) && p[0] == 0 && p[|p| - 1] == c
      ensures b in p
    {
      PathMeasuresItsReads(ops, h, f, p);
      if v in MeasuredOn(f, p[..|p| - 1]) {
        var d, i := MeasuredByOne(f, p[..|p| - 1], v);
        assert d in p;
      } else {
        assert j == |f[c].ops| ==> f[c].ops[..j] == f[c].ops;
        var i := ProducedByOne(f[c].ops[..j], v);
        assert Defines(f, c, i, v);
      }
    }
  }
}
