/** Every graph the expansion builds passes the graph's own checks and rebuilds to the tree it came from. */
module CfgRoundTrip {
  import opened Prelude
  import opened Ir
  import opened CfgGraph
  import opened CfgCode
  import opened CfgParse
  import opened Placement

  predicate TargetsExist(f: Graph, ctx: Context, fall: Option<nat>) {
    && (ctx.breakTarget.Some? ==> ctx.breakTarget.value < |f|)
    && (ctx.continueTarget.Some? ==> ctx.continueTarget.value < |f|)
    && (fall.Some? ==> fall.value < |f|)
  }

  ghost predicate ValidSpan(f: Graph, t: Tables, lo: nat, hi: nat) {
    hi <= |f| && forall b {:trigger ValidBlock(f, t, b)} | lo <= b < hi :: ValidBlock(f, t, b)
  }

  predicate ValidPrefix(b: Block, i: nat, t: Tables) {
    i <= |b.ops| && forall j | 0 <= j < i :: ValidPlain(b.ops[j], t)
  }

  lemma {:induction false} CodeValid(f: Graph, t: Tables, n: nat, i: nat, ops: seq<Operation>, ctx: Context, fall: Option<nat>, lo: nat)
    requires CodeAt(f, n, i, ops, ctx, fall, lo) && Built(ops, t) && TargetsExist(f, ctx, fall)
    requires lo + NumOps(ops) <= |f| && ValidPrefix(f[n], i, t)
    ensures ValidBlock(f, t, n) && ValidSpan(f, t, lo, lo + NumOps(ops))
    decreases ops, 1
  {
    hide ControlAt, BuiltOp;
    if ops == [] {
    } else if !ops[0].instruction.Control? {
      BuiltTail(ops, t);
      CodeValid(f, t, n, i + 1, ops[1..], ctx, fall, lo);
      assert NumOp(ops[0]) == 0;
    } else if Structured(ops[0]) {
      BuiltTail(ops, t);
      var next := After(ops[0].instruction.control, lo);
      CodeValid(f, t, next, 0, ops[1..], ctx, fall, lo + NumOp(ops[0]));
      ControlValid(f, t, n, ops[0], ctx, lo, ops[1..], fall);
    } else {
      assert ops == [ops[0]];
      NormalizeSingle(ops[0]);
      assert NumOp(ops[0]) == NumControl(ops[0].instruction.control) == 0;
    }
  }

  /** All blocks of a structured operation but the one it continues in. */
  lemma {:induction false} ControlValid(f: Graph, t: Tables, n: nat, op: Operation, ctx: Context, lo: nat,
                                        rest: seq<Operation>, fall: Option<nat>)
    requires n < |f| && Structured(op) && ControlAt(f, n, op, ctx, lo) && BuiltOp(op, t) && TargetsExist(f, ctx, None)
    requires lo + NumOp(op) <= |f| && ValidPrefix(f[n], |f[n].ops|, t)
    ensures ValidBlock(f, t, n)
    ensures After(op.instruction.control, lo) < lo + NumOp(op)
    ensures ValidSpan(f, t, lo, After(op.instruction.control, lo)) && ValidSpan(f, t, After(op.instruction.control, lo) + 1, lo + NumOp(op))
    decreases op, 1
  {
    assert NumOp(op) == NumControl(op.instruction.control);
    if op.instruction.control.If? {
      IfValid(f, t, n, op, ctx, lo);
    } else if op.instruction.control.Switch? {
      SwitchValid(f, t, n, op, ctx, lo);
    } else {
      LoopValid(f, t, n, op, ctx, lo);
    }
  }

  lemma {:induction false} IfValid(f: Graph, t: Tables, n: nat, op: Operation, ctx: Context, lo: nat)
    requires n < |f| && Structured(op) && op.instruction.control.If? && ControlAt(f, n, op, ctx, lo)
    requires BuiltOp(op, t) && TargetsExist(f, ctx, None)
    requires lo + NumOp(op) <= |f| && ValidPrefix(f[n], |f[n].ops|, t) && NumOp(op) == NumControl(op.instruction.control)
    ensures ValidBlock(f, t, n) && ValidSpan(f, t, lo, lo + 2) && ValidSpan(f, t, lo + 3, lo + NumOp(op))
    decreases op, 0
  {
    hide ControlAt, CodeAt, Built;
    IfHeader(f, n, op, ctx, lo);
    IfParts(f, n, op, ctx, lo);
    BuiltIf(op, t);
    var If(e, a, b) := op.instruction.control;
    CodeValid(f, t, lo, 0, a, ctx, Some(lo + 2), lo + 3);
    MaybeValid(f, t, lo + 1, b, ctx, Some(lo + 2), lo + 3 + NumOps(a));
    assert t.HasHead(op.instruction.control) && e in Heads(op.instruction.control);
  }

  lemma IfHeader(f: Graph, n: nat, op: Operation, ctx: Context, lo: nat)
    requires n < |f| && Structured(op) && op.instruction.control.If? && ControlAt(f, n, op, ctx, lo)
    ensures f[n].out == [Edge(TrueBranch, lo), Edge(FalseBranch, lo + 1)]
  {
  }

  lemma {:induction false} LoopValid(f: Graph, t: Tables, n: nat, op: Operation, ctx: Context, lo: nat)
    requires n < |f| && Structured(op) && IsLoop(op.instruction.control) && ControlAt(f, n, op, ctx, lo)
    requires BuiltOp(op, t) && TargetsExist(f, ctx, None)
    requires lo + NumOp(op) <= |f| && ValidPrefix(f[n], |f[n].ops|, t) && NumOp(op) == NumControl(op.instruction.control)
    ensures ValidBlock(f, t, n) && ValidSpan(f, t, lo, lo + 2) && ValidSpan(f, t, lo + 3, lo + NumOp(op))
    decreases op, 0
  {
    hide ControlAt, CodeAt, Built, NumOps;
    LoopParts(f, n, op, ctx, lo);
    BuiltLoop(op, t);
    var c := op.instruction.control;
    CodeValid(f, t, lo + 1, 0, c.body, LoopContext(lo, lo + 2), Some(lo), lo + 3);
    assert ValidBlock(f, t, lo) by {
      assert t.HasHead(c);
      match c
      case While(e, _) => assert e in Heads(c);
      case For(_, x, y, z, _) => assert x in Heads(c) && y in Heads(c) && z in Heads(c);
    }
  }

  lemma CaseEdgesMatch(cases: seq<SwitchCase>, lo: nat)
    ensures |CaseEdges(cases, lo)| == |RegionCases(cases, lo)| == |cases|
    ensures forall k | 0 <= k < |cases| :: CaseEdges(cases, lo)[k] == Edge(CaseEdge(RegionCases(cases, lo)[k].value), RegionCases(cases, lo)[k].entry)
    ensures forall k | 0 <= k < |cases| :: RegionCases(cases, lo)[k].entry < lo + NumCases(cases)
    decreases |cases|
  {
    if cases != [] {
      CaseEdgesMatch(cases[1..], lo + NumCase(cases[0]));
    }
  }

  lemma {:induction false} SwitchValid(f: Graph, t: Tables, n: nat, op: Operation, ctx: Context, lo: nat)
    requires n < |f| && Structured(op) && op.instruction.control.Switch? && ControlAt(f, n, op, ctx, lo)
    requires BuiltOp(op, t) && TargetsExist(f, ctx, None)
    requires lo + NumOp(op) <= |f| && ValidPrefix(f[n], |f[n].ops|, t) && NumOp(op) == NumControl(op.instruction.control)
    ensures ValidBlock(f, t, n) && ValidSpan(f, t, lo + 1, lo + NumOp(op))
    decreases op, 0
  {
    hide ControlAt, CodeAt, Built;
    SwitchHeader(f, n, op, ctx, lo);
    SwitchParts(f, n, op, ctx, lo);
    BuiltSwitch(op, t);
    var c := op.instruction.control;
    var Switch(e, cases, d) := c;
    var entry := lo + 1 + NumCases(cases);
    CasesValid(f, t, cases, SwitchContext(ctx, lo), lo, lo + 1);
    MaybeValid(f, t, entry, d, SwitchContext(ctx, lo), Some(lo), entry + 1);
    assert t.HasHead(c) && e in Heads(c);
    SwitchBlockValid(f, t, n, e, cases, entry, lo, d.Present?, Meta(op));
  }

  lemma SwitchHeader(f: Graph, n: nat, op: Operation, ctx: Context, lo: nat)
    requires n < |f| && Structured(op) && op.instruction.control.Switch? && ControlAt(f, n, op, ctx, lo)
    ensures var Switch(_, cases, _) := op.instruction.control;
            f[n].out == CaseEdges(cases, lo + 1) + [Edge(DefaultCase, lo + 1 + NumCases(cases))]
  {
  }

  lemma SwitchBlockValid(f: Graph, t: Tables, n: nat, e: Expr, cases: seq<SwitchCase>, entry: nat, merge: nat, has: bool, m: Metadata)
    requires n < |f| && entry < |f| && merge < |f| && entry == merge + 1 + NumCases(cases)
    requires f[n].term == Some(SwitchOn(e)) && f[n].region == Some(SwitchRegion(RegionCases(cases, merge + 1), entry, merge, has, m))
    requires f[n].out == CaseEdges(cases, merge + 1) + [Edge(DefaultCase, entry)]
    requires e.Ty().UInt? && t.HasExpr(e) && t.HasFields(m.qubits, m.params) && ValidPrefix(f[n], |f[n].ops|, t)
    ensures ValidBlock(f, t, n)
  {
    CaseEdgesMatch(cases, merge + 1);
    var edges := CaseEdges(cases, merge + 1);
    var rs := RegionCases(cases, merge + 1);
    forall k | 0 <= k < |rs|
      ensures rs[k].entry < |f| && Edge(CaseEdge(rs[k].value), rs[k].entry) in f[n].out
    {
      assert f[n].out[k] == edges[k];
    }
    assert f[n].out[|edges|] == Edge(DefaultCase, entry);
    forall x | x in f[n].out
      ensures x.target < |f|
    {
      var k :| 0 <= k < |f[n].out| && f[n].out[k] == x;
      assert k < |edges| ==> x == edges[k];
    }
  }

  lemma {:induction false} MaybeValid(f: Graph, t: Tables, n: nat, body: MaybeBody, ctx: Context, fall: Option<nat>, lo: nat)
    requires MaybeAt(f, n, body, ctx, fall, lo) && Built(body.Ops(), t) && TargetsExist(f, ctx, fall)
    requires lo + NumMaybe(body) <= |f|
    ensures n < |f| && ValidBlock(f, t, n) && ValidSpan(f, t, lo, lo + NumMaybe(body))
    decreases body
  {
    if body.Present? {
      CodeValid(f, t, n, 0, body.ops, ctx, fall, lo);
    }
  }

  lemma {:induction false} CasesValid(f: Graph, t: Tables, cases: seq<SwitchCase>, ctx: Context, merge: nat, lo: nat)
    requires CasesAt(f, cases, ctx, merge, lo) && BuiltCases(cases, t) && TargetsExist(f, ctx, Some(merge))
    requires lo + NumCases(cases) <= |f|
    ensures ValidSpan(f, t, lo, lo + NumCases(cases))
    decreases cases
  {
    if cases != [] {
      assert BuiltCases(cases[1..], t) by {
        assert forall k | 0 <= k < |cases[1..]| :: cases[1..][k] == cases[k + 1];
      }
      CaseValid(f, t, cases[0], ctx, merge, lo);
      CasesValid(f, t, cases[1..], ctx, merge, lo + NumCase(cases[0]));
    }
  }

  lemma {:induction false} CaseValid(f: Graph, t: Tables, c: SwitchCase, ctx: Context, merge: nat, lo: nat)
    requires CaseAt(f, c, ctx, merge, lo) && Built(c.body, t) && TargetsExist(f, ctx, Some(merge)) && lo + NumCase(c) <= |f|
    ensures ValidSpan(f, t, lo, lo + NumCase(c))
    decreases c
  {
    CodeValid(f, t, lo, 0, c.body, ctx, Some(merge), lo + 1);
  }

  // ---- main results -----------------------------------------------------------------------

  /** Checks a graph and rebuilds its operations. */
  function ToOperations(f: Graph, t: Tables, phase: Param): Result<seq<Operation>, GraphError> {
    if |f| == 0 then Err(BadEntry)
    else if !t.HasParam(phase) then Err(BadParam)
    else if !ValidBlocks(f, t) then Err(BadBlock)
    else
      var (ops, visited) :- Parse(f, 0, None, {});
      if visited != Nodes(f) then Err(Unvisited) else Ok(ops)
  }

  /**
   The expansion of a well-built tree succeeds exactly if its transfers are well placed, and
   then its graph passes every check, is rebuilt by visiting each of its blocks exactly
   once, and rebuilds to the tree itself.
   */
  lemma DecompilingUndoesCompiling(ops: seq<Operation>, t: Tables, phase: Param)
    requires Built(ops, t) && t.HasParam(phase)
    ensures FromOperations(ops).Ok? <==> Placed(ops, false, false)
    ensures FromOperations(ops).Ok? ==> ToOperations(FromOperations(ops).value, t, phase) == Ok(Normalize(ops))
  {
    ExpansionChecksPlacement(ops, [EMPTY_BLOCK], 0, Context(None, None));
    if FromOperations(ops).Ok? {
      FromOperationsCode(ops);
      var f := FromOperations(ops).value;
      CodeValid(f, t, 0, 0, ops, Context(None, None), None, 1);
      assert ValidBlocks(f, t);
      var v := ParseEntry(f, t, 0, ops, Context(None, None), None, 1, {});
      assert v == Nodes(f);
    }
  }

  /** Rebuilding changes nothing but the dropped fields of `break` and `continue`: a second round trip is the identity. */
  lemma {:induction false} NormalizeTwice(ops: seq<Operation>)
    ensures Normalize(Normalize(ops)) == Normalize(ops)
    decreases ops
  {
    if ops != [] {
      NormalizeOpTwice(ops[0]);
      NormalizeTwice(ops[1..]);
      assert Normalize(ops)[1..] == Normalize(ops[1..]);
    }
  }

  lemma {:induction false} NormalizeOpTwice(op: Operation)
    ensures NormalizeOp(NormalizeOp(op)) == NormalizeOp(op)
    decreases op
  {
    match op.instruction
    case Control(If(e, t, els)) =>
      NormalizeTwice(t);
      NormalizeMaybeTwice(els);
    case Control(While(e, b)) => NormalizeTwice(b);
    case Control(For(_, _, _, _, b)) => NormalizeTwice(b);
    case Control(Switch(e, cases, d)) =>
      NormalizeCasesTwice(cases);
      NormalizeMaybeTwice(d);
    case Control(Break) =>
    case Control(Continue) =>
    case Gate(_) =>
    case Data(_) =>
  }

  lemma {:induction false} NormalizeMaybeTwice(b: MaybeBody)
    ensures NormalizeMaybe(NormalizeMaybe(b)) == NormalizeMaybe(b)
    decreases b
  {
    if b.Present? {
      NormalizeTwice(b.ops);
    }
  }

  lemma {:induction false} NormalizeCasesTwice(cases: seq<SwitchCase>)
    ensures NormalizeCases(NormalizeCases(cases)) == NormalizeCases(cases)
    decreases cases
  {
    if cases != [] {
      NormalizeCaseTwice(cases[0]);
      NormalizeCasesTwice(cases[1..]);
      assert NormalizeCases(cases)[1..] == NormalizeCases(cases[1..]);
    }
  }

  lemma {:induction false} NormalizeCaseTwice(c: SwitchCase)
    ensures NormalizeCase(NormalizeCase(c)) == NormalizeCase(c)
    decreases c
  {
    NormalizeTwice(c.body);
  }
}
