/**
 What it means for a finished graph to contain the expansion of an operation tree at a
 given position, and the proof that the expansion always produces it. Blocks are numbered
 in creation order, so the position of every part of the tree is determined.
 */
module CfgCode {
  import opened Prelude
  import opened Ir
  import opened CfgGraph

  function Fall(fall: Option<nat>): Terminator {
    match fall
    case None => Return
    case Some(t) => Jump(t)
  }

  function FallEdges(fall: Option<nat>): seq<Edge> {
    match fall
    case None => []
    case Some(t) => [Edge(Unconditional, t)]
  }

  /** The block that execution reaches after a structured operation. */
  function After(c: ControlOp, lo: nat): nat {
    if c.Switch? then lo else lo + 2
  }

  function RegionCases(cases: seq<SwitchCase>, lo: nat): seq<RegionCase>
    decreases |cases|
  {
    if cases == [] then [] else [RegionCase(cases[0].value, lo)] + RegionCases(cases[1..], lo + NumCase(cases[0]))
  }

  function CaseEdges(cases: seq<SwitchCase>, lo: nat): seq<Edge>
    decreases |cases|
  {
    if cases == [] then [] else [Edge(CaseEdge(cases[0].value), lo)] + CaseEdges(cases[1..], lo + NumCase(cases[0]))
  }

  /**
   Graph `f`, at operation `i` of block `n`, runs `ops` and then falls through to `fall`;
   the blocks allocated for `ops` are exactly `lo .. lo + NumOps(ops)`.
   */
  ghost predicate CodeAt(f: Graph, n: nat, i: nat, ops: seq<Operation>, ctx: Context, fall: Option<nat>, lo: nat)
    decreases ops
  {
    && n < |f| && n < lo && i <= |f[n].ops|
    && var b := f[n];
       if ops == [] then i == |b.ops| && b.term == Some(Fall(fall)) && b.out == FallEdges(fall)
       else
         match ops[0].instruction
         case Control(Break) =>
           && |ops| == 1 && ctx.breakTarget.Some? && i == |b.ops|
           && b.term == Some(BreakTo(ctx.breakTarget.value)) && b.out == [Edge(BreakEdge, ctx.breakTarget.value)]
         case Control(Continue) =>
           && |ops| == 1 && ctx.continueTarget.Some? && i == |b.ops|
           && b.term == Some(ContinueTo(ctx.continueTarget.value)) && b.out == [Edge(ContinueEdge, ctx.continueTarget.value)]
         case Control(c) =>
           && i == |b.ops| && ControlAt(f, n, ops[0], ctx, lo)
           && CodeAt(f, After(c, lo), 0, ops[1..], ctx, fall, lo + NumOp(ops[0]))
         case _ => i < |b.ops| && b.ops[i] == ops[0] && CodeAt(f, n, i + 1, ops[1..], ctx, fall, lo)
  }

  /** Block `n` of `f` ends in structured operation `op`, expanded into the blocks from `lo` on. */
  ghost predicate ControlAt(f: Graph, n: nat, op: Operation, ctx: Context, lo: nat)
    requires n < |f|
    requires Structured(op)
    decreases op
  {
    match op.instruction.control
    case If(e, t, els) =>
      && HeaderAt(f, n, f[n].ops, Branch(e), [Edge(TrueBranch, lo), Edge(FalseBranch, lo + 1)])
      && RegionAt(f, n, IfRegion(lo, lo + 1, lo + 2, els.Present?, Meta(op)))
      && CodeAt(f, lo, 0, t, ctx, Some(lo + 2), lo + 3)
      && MaybeAt(f, lo + 1, els, ctx, Some(lo + 2), lo + 3 + NumOps(t))
    case Switch(e, cases, d) =>
      var entry := lo + 1 + NumCases(cases);
      && HeaderAt(f, n, f[n].ops, SwitchOn(e), CaseEdges(cases, lo + 1) + [Edge(DefaultCase, entry)])
      && RegionAt(f, n, SwitchRegion(RegionCases(cases, lo + 1), entry, lo, d.Present?, Meta(op)))
      && CasesAt(f, cases, SwitchContext(ctx, lo), lo, lo + 1)
      && MaybeAt(f, entry, d, SwitchContext(ctx, lo), Some(lo), entry + 1)
    case While(_, body) => LoopAt(f, n, op, lo) && CodeAt(f, lo + 1, 0, body, LoopContext(lo, lo + 2), Some(lo), lo + 3)
    case For(_, _, _, _, body) => LoopAt(f, n, op, lo) && CodeAt(f, lo + 1, 0, body, LoopContext(lo, lo + 2), Some(lo), lo + 3)
  }

  ghost predicate LoopAt(f: Graph, n: nat, op: Operation, lo: nat)
    requires n < |f|
    requires op.instruction.Control? && IsLoop(op.instruction.control)
  {
    && HeaderAt(f, n, f[n].ops, Jump(lo), [Edge(Unconditional, lo)])
    && HeaderAt(f, lo, [], LoopTerm(op.instruction.control), [Edge(TrueBranch, lo + 1), Edge(FalseBranch, lo + 2)])
    && RegionAt(f, lo, LoopRegion(op.instruction.control, lo + 1, lo + 2, Meta(op)))
  }

  ghost predicate HeaderAt(f: Graph, n: nat, ops: seq<Operation>, term: Terminator, out: seq<Edge>) {
    n < |f| && f[n] == Block(ops, Some(term), out, f[n].region)
  }

  ghost predicate RegionAt(f: Graph, n: nat, r: Region) {
    n < |f| && f[n].region == Some(r)
  }

  ghost predicate MaybeAt(f: Graph, n: nat, body: MaybeBody, ctx: Context, fall: Option<nat>, lo: nat)
    decreases body
  {
    match body
    case Absent => n < lo && HeaderAt(f, n, [], Fall(fall), FallEdges(fall))
    case Present(ops) => CodeAt(f, n, 0, ops, ctx, fall, lo)
  }

  ghost predicate CasesAt(f: Graph, cases: seq<SwitchCase>, ctx: Context, merge: nat, lo: nat)
    decreases cases
  {
    cases != [] ==> CaseAt(f, cases[0], ctx, merge, lo) && CasesAt(f, cases[1..], ctx, merge, lo + NumCase(cases[0]))
  }

  ghost predicate CaseAt(f: Graph, c: SwitchCase, ctx: Context, merge: nat, lo: nat)
    decreases c
  {
    CodeAt(f, lo, 0, c.body, ctx, Some(merge), lo + 1)
  }

  // ---- frames -----------------------------------------------------------------------------

  /** `h` extends `g`, changing none of its blocks but `cur`. */
  ghost predicate Keeps(g: Graph, h: Graph, cur: nat) {
    |g| <= |h| && forall b: nat | b < |g| && b != cur :: h[b] == g[b]
  }

  predicate Open(g: Graph, n: nat) {
    n < |g| && g[n].term.None? && g[n].out == [] && g[n].region.None?
  }

  /** What the expansion of a body leaves behind, from `g` to `h` with exit `x`. */
  ghost predicate Framed(g: Graph, cur: nat, h: Graph, x: Exit) {
    && cur < |g| && Keeps(g, h, cur)
    && g[cur].ops <= h[cur].ops
    && (x.Reachable? ==> Open(h, x.block) && (x.block == cur || |g| <= x.block))
  }

  lemma {:induction false} ProcessFrame(ops: seq<Operation>, g: Graph, cur: nat, ctx: Context)
    requires Open(g, cur)
    requires Process(ops, g, cur, ctx).Ok?
    ensures var (h, x) := Process(ops, g, cur, ctx).value; Framed(g, cur, h, x)
    decreases ops
  {
    if ops == [] {
    } else if Structured(ops[0]) {
      ControlFrame(ops[0], g, cur, ctx);
      var (g1, next) := ProcessControl(ops[0], g, cur, ctx).value;
      assert Process(ops, g, cur, ctx) == Process(ops[1..], g1, next, ctx);
      ProcessFrame(ops[1..], g1, next, ctx);
    } else if !ops[0].instruction.Control? {
      var g1 := Push(g, cur, ops[0]);
      assert Process(ops, g, cur, ctx) == Process(ops[1..], g1, cur, ctx);
      ProcessFrame(ops[1..], g1, cur, ctx);
      assert g[cur].ops <= g1[cur].ops;
    }
  }

  /** What one structured operation leaves behind, from `g` to `h`, continuing in `next`. */
  ghost predicate ControlFramed(g: Graph, cur: nat, c: ControlOp, h: Graph, next: nat) {
    && cur < |g| && Keeps(g, h, cur) && h[cur].ops == g[cur].ops
    && next == After(c, |g|) && next < |h| && h[next] == EMPTY_BLOCK
  }

  lemma {:induction false} ControlFrame(op: Operation, g: Graph, cur: nat, ctx: Context)
    requires Open(g, cur) && Structured(op)
    requires ProcessControl(op, g, cur, ctx).Ok?
    ensures var (h, next) := ProcessControl(op, g, cur, ctx).value;
            ControlFramed(g, cur, op.instruction.control, h, next)
    decreases op, 1
  {
    if op.instruction.control.If? {
      IfFrame(op, g, cur, ctx);
    } else if op.instruction.control.Switch? {
      SwitchFrame(op, g, cur, ctx);
    } else {
      var body := op.instruction.control.body;
      ProcessFrame(body, OpenLoop(g, cur, op.instruction.control), |g| + 1, LoopContext(|g|, |g| + 2));
    }
  }

  lemma {:induction false} IfFrame(op: Operation, g: Graph, cur: nat, ctx: Context)
    requires Open(g, cur) && Structured(op) && op.instruction.control.If?
    requires ProcessControl(op, g, cur, ctx).Ok?
    ensures var (h, next) := ProcessControl(op, g, cur, ctx).value;
            ControlFramed(g, cur, op.instruction.control, h, next)
    decreases op, 0
  {
    var k := |g|;
    var If(e, thenBody, elseBody) := op.instruction.control;
    var g0 := OpenIf(g, cur, e);
    ProcessFrame(thenBody, g0, k, ctx);
    var (g1, thenExit) := Process(thenBody, g0, k, ctx).value;
    MaybeFrame(elseBody, g1, k + 1, ctx);
  }

  lemma {:induction false} SwitchFrame(op: Operation, g: Graph, cur: nat, ctx: Context)
    requires Open(g, cur) && Structured(op) && op.instruction.control.Switch?
    requires ProcessControl(op, g, cur, ctx).Ok?
    ensures var (h, next) := ProcessControl(op, g, cur, ctx).value;
            ControlFramed(g, cur, op.instruction.control, h, next)
    decreases op, 0
  {
    var k := |g|;
    var Switch(e, cases, default) := op.instruction.control;
    var inner := SwitchContext(ctx, k);
    CasesFrame(cases, OpenSwitch(g, cur, e), cur, k, inner);
    var (g1, _) := ProcessCases(cases, OpenSwitch(g, cur, e), cur, k, inner).value;
    MaybeFrame(default, OpenCase(g1, cur, DefaultCase), |g1|, inner);
  }

  lemma {:induction false} MaybeFrame(body: MaybeBody, g: Graph, cur: nat, ctx: Context)
    requires Open(g, cur)
    requires ProcessMaybe(body, g, cur, ctx).Ok?
    ensures var (h, x) := ProcessMaybe(body, g, cur, ctx).value; Framed(g, cur, h, x)
    decreases body
  {
    if body.Present? {
      ProcessFrame(body.ops, g, cur, ctx);
    }
  }

  /** Case bodies change the switch block `cur` only by adding one edge per case. */
  lemma {:induction false} CasesFrame(cases: seq<SwitchCase>, g: Graph, cur: nat, merge: nat, ctx: Context)
    requires cur < |g| && merge < |g| && g[cur].region.None?
    requires ProcessCases(cases, g, cur, merge, ctx).Ok?
    ensures var (h, rs) := ProcessCases(cases, g, cur, merge, ctx).value;
            && Keeps(g, h, cur) && rs == RegionCases(cases, |g|)
            && h[cur] == g[cur].(out := g[cur].out + CaseEdges(cases, |g|))
    decreases cases
  {
    if cases != [] {
      CaseFrame(cases[0], g, cur, merge, ctx);
      var (g1, _) := ProcessCase(cases[0], g, cur, merge, ctx).value;
      CasesFrame(cases[1..], g1, cur, merge, ctx);
    }
  }

  lemma {:induction false} CaseFrame(c: SwitchCase, g: Graph, cur: nat, merge: nat, ctx: Context)
    requires cur < |g| && merge < |g| && g[cur].region.None?
    requires ProcessCase(c, g, cur, merge, ctx).Ok?
    ensures var (h, r) := ProcessCase(c, g, cur, merge, ctx).value;
            && Keeps(g, h, cur) && r == RegionCase(c.value, |g|)
            && h[cur] == g[cur].(out := g[cur].out + [Edge(CaseEdge(c.value), |g|)])
    decreases c
  {
    var entry := |g|;
    var g0 := OpenCase(g, cur, CaseEdge(c.value));
    ProcessFrame(c.body, g0, entry, ctx);
  }

  // ---- the expansion produces the code ------------------------------------------------------

  /** Block `x` closed by falling through to `fall`. */
  function Close(b: Block, fall: Option<nat>): Block {
    b.(term := Some(Fall(fall)), out := FallEdges(fall))
  }

  /** `f` is a finished graph around the part `h` that was expanded from `g` in block `cur`. */
  ghost predicate Finished(g: Graph, cur: nat, h: Graph, x: Exit, f: Graph, fall: Option<nat>) {
    && |h| <= |f|
    && cur < |g| <= |h|
    && (forall b: nat | (b == cur || |g| <= b < |h|) && x != Reachable(b) :: h[b] == f[b])
    && (x.Reachable? ==> x.block < |h| && f[x.block] == Close(h[x.block], fall))
  }

  /** `f` keeps every block of `h` that was created from `g` on, and `cur`, except `next`. */
  ghost predicate Contains(g: Graph, cur: nat, h: Graph, next: nat, f: Graph) {
    && cur < |g| <= |h| <= |f|
    && forall b: nat | (b == cur || |g| <= b < |h|) && b != next :: h[b] == f[b]
  }

  lemma {:induction false} ProcessCode(ops: seq<Operation>, g: Graph, cur: nat, ctx: Context, f: Graph, fall: Option<nat>)
    requires Open(g, cur)
    requires Process(ops, g, cur, ctx).Ok?
    requires var (h, x) := Process(ops, g, cur, ctx).value; Finished(g, cur, h, x, f, fall)
    ensures CodeAt(f, cur, |g[cur].ops|, ops, ctx, fall, |g|)
    decreases ops, 1
  {
    if ops != [] && Structured(ops[0]) {
      StructuredCode(ops, g, cur, ctx, f, fall);
    } else if ops != [] && !ops[0].instruction.Control? {
      PlainCode(ops, g, cur, ctx, f, fall);
    }
  }

  lemma {:induction false} PlainCode(ops: seq<Operation>, g: Graph, cur: nat, ctx: Context, f: Graph, fall: Option<nat>)
    requires Open(g, cur) && ops != [] && !ops[0].instruction.Control?
    requires Process(ops, g, cur, ctx).Ok?
    requires var (h, x) := Process(ops, g, cur, ctx).value; Finished(g, cur, h, x, f, fall)
    ensures CodeAt(f, cur, |g[cur].ops|, ops, ctx, fall, |g|)
    decreases ops, 0
  {
    var g1 := Push(g, cur, ops[0]);
    assert Process(ops, g, cur, ctx) == Process(ops[1..], g1, cur, ctx);
    ProcessFrame(ops[1..], g1, cur, ctx);
    ProcessCode(ops[1..], g1, cur, ctx, f, fall);
    assert g1[cur].ops[|g[cur].ops|] == ops[0];
  }

  lemma {:induction false} StructuredCode(ops: seq<Operation>, g: Graph, cur: nat, ctx: Context, f: Graph, fall: Option<nat>)
    requires Open(g, cur) && ops != [] && Structured(ops[0])
    requires Process(ops, g, cur, ctx).Ok?
    requires var (h, x) := Process(ops, g, cur, ctx).value; Finished(g, cur, h, x, f, fall)
    ensures CodeAt(f, cur, |g[cur].ops|, ops, ctx, fall, |g|)
    decreases ops, 0
  {
    hide ControlAt;
    ControlFrame(ops[0], g, cur, ctx);
    var (g1, next) := ProcessControl(ops[0], g, cur, ctx).value;
    assert Process(ops, g, cur, ctx) == Process(ops[1..], g1, next, ctx);
    ProcessFrame(ops[1..], g1, next, ctx);
    ProcessCode(ops[1..], g1, next, ctx, f, fall);
    ControlCode(ops[0], g, cur, ctx, f);
  }

  lemma {:induction false} ControlCode(op: Operation, g: Graph, cur: nat, ctx: Context, f: Graph)
    requires Open(g, cur) && Structured(op)
    requires ProcessControl(op, g, cur, ctx).Ok?
    requires var (h, next) := ProcessControl(op, g, cur, ctx).value; Contains(g, cur, h, next, f)
    ensures ControlAt(f, cur, op, ctx, |g|)
    decreases op, 1
  {
    if op.instruction.control.If? {
      IfCode(op, g, cur, ctx, f);
    } else if op.instruction.control.Switch? {
      SwitchCode(op, g, cur, ctx, f);
    } else {
      LoopCode(op, g, cur, ctx, f);
    }
  }

  lemma {:induction false} LoopCode(op: Operation, g: Graph, cur: nat, ctx: Context, f: Graph)
    requires Open(g, cur) && Structured(op) && IsLoop(op.instruction.control)
    requires ProcessControl(op, g, cur, ctx).Ok?
    requires var (h, next) := ProcessControl(op, g, cur, ctx).value; Contains(g, cur, h, next, f)
    ensures ControlAt(f, cur, op, ctx, |g|)
    decreases op, 0
  {
    hide CodeAt, Process, NumOps;
    var k := |g|;
    var body := op.instruction.control.body;
    var g0 := OpenLoop(g, cur, op.instruction.control);
    ProcessFrame(body, g0, k + 1, LoopContext(k, k + 2));
    var (g1, exit) := Process(body, g0, k + 1, LoopContext(k, k + 2)).value;
    ProcessCode(body, g0, k + 1, LoopContext(k, k + 2), f, Some(k));
  }

  /** The two halves of an `if` are finished by `f`. */
  lemma IfFinished(g: Graph, cur: nat, e: Expr, g1: Graph, thenExit: Exit, g2: Graph, elseExit: Exit, r: Region, f: Graph)
    requires cur < |g|
    requires var k := |g|;
             && Framed(OpenIf(g, cur, e), k, g1, thenExit) && Framed(g1, k + 1, g2, elseExit)
             && Contains(g, cur, SetRegion(Connect(Connect(g2, thenExit, k + 2), elseExit, k + 2), cur, r), k + 2, f)
    ensures var k := |g|;
            && Finished(OpenIf(g, cur, e), k, g1, thenExit, f, Some(k + 2))
            && Finished(g1, k + 1, g2, elseExit, f, Some(k + 2))
            && f[cur] == OpenIf(g, cur, e)[cur].(region := Some(r))
  {
    var k := |g|;
    var h := SetRegion(Connect(Connect(g2, thenExit, k + 2), elseExit, k + 2), cur, r);
    forall b: nat | (b == cur || |g| <= b < |h|) && b != k + 2 && thenExit != Reachable(b) && elseExit != Reachable(b)
      ensures f[b] == if b == cur then g2[b].(region := Some(r)) else g2[b]
    {
      assert h[b] == f[b];
    }
    if thenExit.Reachable? {
      assert h[thenExit.block] == f[thenExit.block];
    }
    if elseExit.Reachable? {
      assert h[elseExit.block] == f[elseExit.block];
    }
  }

  lemma {:induction false} IfCode(op: Operation, g: Graph, cur: nat, ctx: Context, f: Graph)
    requires Open(g, cur) && Structured(op) && op.instruction.control.If?
    requires ProcessControl(op, g, cur, ctx).Ok?
    requires var (h, next) := ProcessControl(op, g, cur, ctx).value; Contains(g, cur, h, next, f)
    ensures ControlAt(f, cur, op, ctx, |g|)
    decreases op, 0
  {
    hide CodeAt, MaybeAt;
    var k := |g|;
    var If(e, thenBody, elseBody) := op.instruction.control;
    var g0 := OpenIf(g, cur, e);
    ProcessFrame(thenBody, g0, k, ctx);
    var (g1, thenExit) := Process(thenBody, g0, k, ctx).value;
    MaybeFrame(elseBody, g1, k + 1, ctx);
    var (g2, elseExit) := ProcessMaybe(elseBody, g1, k + 1, ctx).value;
    IfFinished(g, cur, e, g1, thenExit, g2, elseExit, IfRegion(k, k + 1, k + 2, elseBody.Present?, Meta(op)), f);
    ProcessCode(thenBody, g0, k, ctx, f, Some(k + 2));
    MaybeCode(elseBody, g1, k + 1, ctx, f, Some(k + 2));
  }

  /** The default body and the case bodies of a `switch` are finished by `f`. */
  lemma SwitchFinished(g: Graph, cur: nat, g1: Graph, g2: Graph, exit: Exit, r: Region, f: Graph)
    requires cur < |g|
    requires |g| < |g1| && Framed(OpenCase(g1, cur, DefaultCase), |g1|, g2, exit)
    requires Contains(g, cur, SetRegion(Connect(g2, exit, |g|), cur, r), |g|, f)
    ensures Finished(OpenCase(g1, cur, DefaultCase), |g1|, g2, exit, f, Some(|g|))
    ensures forall b: nat | |g| + 1 <= b < |g1| :: g1[b] == f[b]
    ensures f[cur] == OpenCase(g1, cur, DefaultCase)[cur].(region := Some(r))
  {
    var h := SetRegion(Connect(g2, exit, |g|), cur, r);
    forall b: nat | (b == cur || |g| < b < |h|) && exit != Reachable(b)
      ensures f[b] == if b == cur then g2[b].(region := Some(r)) else g2[b]
    {
      assert h[b] == f[b];
    }
    if exit.Reachable? {
      assert h[exit.block] == f[exit.block];
    }
  }

  lemma {:induction false} SwitchCode(op: Operation, g: Graph, cur: nat, ctx: Context, f: Graph)
    requires Open(g, cur) && Structured(op) && op.instruction.control.Switch?
    requires ProcessControl(op, g, cur, ctx).Ok?
    requires var (h, next) := ProcessControl(op, g, cur, ctx).value; Contains(g, cur, h, next, f)
    ensures ControlAt(f, cur, op, ctx, |g|)
    decreases op, 0
  {
    hide CodeAt, CasesAt, MaybeAt;
    var k := |g|;
    var Switch(e, cases, default) := op.instruction.control;
    var inner := SwitchContext(ctx, k);
    var g0 := OpenSwitch(g, cur, e);
    CasesFrame(cases, g0, cur, k, inner);
    var (g1, rs) := ProcessCases(cases, g0, cur, k, inner).value;
    var d := |g1|;
    var g1' := OpenCase(g1, cur, DefaultCase);
    MaybeFrame(default, g1', d, inner);
    var (g2, exit) := ProcessMaybe(default, g1', d, inner).value;
    SwitchFinished(g, cur, g1, g2, exit, SwitchRegion(rs, d, k, default.Present?, Meta(op)), f);
    CasesCode(cases, g0, cur, k, inner, f);
    MaybeCode(default, g1', d, inner, f, Some(k));
  }

  lemma {:induction false} MaybeCode(body: MaybeBody, g: Graph, cur: nat, ctx: Context, f: Graph, fall: Option<nat>)
    requires Open(g, cur) && g[cur].ops == []
    requires ProcessMaybe(body, g, cur, ctx).Ok?
    requires var (h, x) := ProcessMaybe(body, g, cur, ctx).value; Finished(g, cur, h, x, f, fall)
    ensures MaybeAt(f, cur, body, ctx, fall, |g|)
    decreases body
  {
    if body.Present? {
      ProcessCode(body.ops, g, cur, ctx, f, fall);
    }
  }

  lemma {:induction false} CasesCode(cases: seq<SwitchCase>, g: Graph, cur: nat, merge: nat, ctx: Context, f: Graph)
    requires cur < |g| && merge < |g| && g[cur].region.None?
    requires ProcessCases(cases, g, cur, merge, ctx).Ok?
    requires var (h, _) := ProcessCases(cases, g, cur, merge, ctx).value;
             |h| <= |f| && forall b: nat | |g| <= b < |h| :: h[b] == f[b]
    ensures CasesAt(f, cases, ctx, merge, |g|)
    decreases cases
  {
    if cases != [] {
      CaseFrame(cases[0], g, cur, merge, ctx);
      var (g1, _) := ProcessCase(cases[0], g, cur, merge, ctx).value;
      CasesFrame(cases[1..], g1, cur, merge, ctx);
      var (h, _) := ProcessCases(cases[1..], g1, cur, merge, ctx).value;
      CasesCode(cases[1..], g1, cur, merge, ctx, f);
      forall b: nat | |g| <= b < |g1|
        ensures g1[b] == f[b]
      {
        assert g1[b] == h[b];
      }
      CaseCode(cases[0], g, cur, merge, ctx, f);
    }
  }

  lemma {:induction false} CaseCode(c: SwitchCase, g: Graph, cur: nat, merge: nat, ctx: Context, f: Graph)
    requires cur < |g| && merge < |g| && g[cur].region.None?
    requires ProcessCase(c, g, cur, merge, ctx).Ok?
    requires var (h, _) := ProcessCase(c, g, cur, merge, ctx).value;
             |h| <= |f| && forall b: nat | |g| <= b < |h| :: h[b] == f[b]
    ensures CaseAt(f, c, ctx, merge, |g|)
    decreases c
  {
    var entry := |g|;
    var g0 := OpenCase(g, cur, CaseEdge(c.value));
    ProcessFrame(c.body, g0, entry, ctx);
    var (g1, exit) := Process(c.body, g0, entry, ctx).value;
    var (h, _) := ProcessCase(c, g, cur, merge, ctx).value;
    assert Finished(g0, entry, g1, exit, f, Some(merge)) by {
      forall b: nat | (b == entry || |g0| <= b < |g1|) && exit != Reachable(b)
        ensures g1[b] == f[b]
      {
        assert g1[b] == h[b] && h[b] == f[b];
      }
    }
    ProcessCode(c.body, g0, entry, ctx, f, Some(merge));
  }

  /** The expansion of a whole circuit is the code of its operations, starting in block 0. */
  lemma FromOperationsCode(ops: seq<Operation>)
    requires FromOperations(ops).Ok?
    ensures var f := FromOperations(ops).value;
            && CodeAt(f, 0, 0, ops, Context(None, None), None, 1)
            && |f| == 1 + NumOps(ops)
  {
    var g := [EMPTY_BLOCK];
    var ctx := Context(None, None);
    ProcessFrame(ops, g, 0, ctx);
    ProcessCode(ops, g, 0, ctx, FromOperations(ops).value, None);
  }
}
