/**
 Where `break` and `continue` may stand: the rules the verifier applies, stated on the
 tree, and the proof that the expansion enforces exactly the same rules.
 */
module Placement {
  import opened Prelude
  import opened Ir
  import opened CfgGraph

  /** A loop or switch body may break. */
  predicate BreakInside(c: ControlOp, breakAllowed: bool) {
    IsLoop(c) || c.Switch? || breakAllowed
  }

  /** A loop body may continue; a switch or branch body only if it is inside a loop. */
  predicate ContinueInside(c: ControlOp, continueAllowed: bool) {
    IsLoop(c) || continueAllowed
  }

  predicate Placed(ops: seq<Operation>, breakAllowed: bool, continueAllowed: bool)
    decreases ops
  {
    forall k | 0 <= k < |ops| :: PlacedOp(ops[k], breakAllowed, continueAllowed, k + 1 == |ops|)
  }

  predicate PlacedOp(op: Operation, breakAllowed: bool, continueAllowed: bool, last: bool)
    decreases op
  {
    match op.instruction
    case Control(Break) => breakAllowed && last
    case Control(Continue) => continueAllowed && last
    case Control(c) =>
      forall k | 0 <= k < |Bodies(c)| ::
        Placed(Bodies(c)[k], BreakInside(c, breakAllowed), ContinueInside(c, continueAllowed))
    case _ => true
  }

  lemma PlacedHead(ops: seq<Operation>, b: bool, c: bool)
    requires ops != []
    ensures Placed(ops, b, c) <==> PlacedOp(ops[0], b, c, |ops| == 1) && Placed(ops[1..], b, c)
  {
    if Placed(ops, b, c) {
      forall k | 0 <= k < |ops[1..]|
        ensures PlacedOp(ops[1..][k], b, c, k + 1 == |ops[1..]|)
      {
        assert PlacedOp(ops[k + 1], b, c, k + 2 == |ops|);
      }
    }
    if PlacedOp(ops[0], b, c, |ops| == 1) && Placed(ops[1..], b, c) {
      forall k | 0 <= k < |ops|
        ensures PlacedOp(ops[k], b, c, k + 1 == |ops|)
      {
        if k > 0 {
          assert PlacedOp(ops[1..][k - 1], b, c, k == |ops[1..]|);
        }
      }
    }
  }

  /** For every tree and every enclosing context, the expansion fails exactly if a `break` or `continue` is misplaced. */
  lemma {:induction false} ExpansionChecksPlacement(ops: seq<Operation>, g: Graph, cur: nat, ctx: Context)
    requires cur < |g|
    ensures Process(ops, g, cur, ctx).Ok? <==> Placed(ops, ctx.breakTarget.Some?, ctx.continueTarget.Some?)
    decreases ops
  {
    var b, c := ctx.breakTarget.Some?, ctx.continueTarget.Some?;
    if ops != [] {
      PlacedHead(ops, b, c);
      if !ops[0].instruction.Control? {
        ExpansionChecksPlacement(ops[1..], Push(g, cur, ops[0]), cur, ctx);
      } else if ops[0].instruction.control.Break? || ops[0].instruction.control.Continue? {
        assert |ops| == 1 ==> ops[1..] == [];
      } else {
        ControlPlaced(ops[0], g, cur, ctx, |ops| == 1);
        var r := ProcessControl(ops[0], g, cur, ctx);
        if r.Ok? {
          ExpansionChecksPlacement(ops[1..], r.value.0, r.value.1, ctx);
        }
      }
    }
  }

  lemma {:induction false} ControlPlaced(op: Operation, g: Graph, cur: nat, ctx: Context, last: bool)
    requires cur < |g| && Structured(op)
    ensures ProcessControl(op, g, cur, ctx).Ok? <==> PlacedOp(op, ctx.breakTarget.Some?, ctx.continueTarget.Some?, last)
    decreases op, 1
  {
    var c := op.instruction.control;
    if c.If? {
      IfPlaced(op, g, cur, ctx, last);
    } else if c.Switch? {
      SwitchPlaced(op, g, cur, ctx, last);
    } else {
      ExpansionChecksPlacement(c.body, OpenLoop(g, cur, c), |g| + 1, LoopContext(|g|, |g| + 2));
      assert c.body == Bodies(c)[0];
    }
  }

  lemma {:induction false} IfPlaced(op: Operation, g: Graph, cur: nat, ctx: Context, last: bool)
    requires cur < |g| && Structured(op) && op.instruction.control.If?
    ensures ProcessControl(op, g, cur, ctx).Ok? <==> PlacedOp(op, ctx.breakTarget.Some?, ctx.continueTarget.Some?, last)
    decreases op, 0
  {
    hide Process, Placed;
    var c := op.instruction.control;
    var r1 := Process(c.thenBody, OpenIf(g, cur, c.condition), |g|, ctx);
    ExpansionChecksPlacement(c.thenBody, OpenIf(g, cur, c.condition), |g|, ctx);
    assert c.thenBody == Bodies(c)[0];
    if r1.Ok? {
      MaybePlaced(c.elseBody, r1.value.0, |g| + 1, ctx);
      assert c.elseBody.Present? ==> c.elseBody.ops == Bodies(c)[1];
    }
  }

  lemma {:induction false} SwitchPlaced(op: Operation, g: Graph, cur: nat, ctx: Context, last: bool)
    requires cur < |g| && Structured(op) && op.instruction.control.Switch?
    ensures ProcessControl(op, g, cur, ctx).Ok? <==> PlacedOp(op, ctx.breakTarget.Some?, ctx.continueTarget.Some?, last)
    decreases op, 0
  {
    var c := op.instruction.control;
    var inner := SwitchContext(ctx, |g|);
    var g0 := OpenSwitch(g, cur, c.target);
    CasesPlaced(c.cases, g0, cur, |g|, inner);
    var r1 := ProcessCases(c.cases, g0, cur, |g|, inner);
    if r1.Ok? {
      MaybePlaced(c.default, OpenCase(r1.value.0, cur, DefaultCase), |r1.value.0|, inner);
    }
    SwitchBodiesPlaced(c, true, ctx.continueTarget.Some?);
  }

  lemma SwitchBodiesPlaced(c: ControlOp, b: bool, k: bool)
    requires c.Switch?
    ensures (forall j | 0 <= j < |Bodies(c)| :: Placed(Bodies(c)[j], b, k)) <==>
            (forall j | 0 <= j < |c.cases| :: Placed(c.cases[j].body, b, k)) && (c.default.Present? ==> Placed(c.default.ops, b, k))
  {
    assert forall j | 0 <= j < |c.cases| :: c.cases[j].body == Bodies(c)[j];
    assert c.default.Present? ==> c.default.ops == Bodies(c)[|c.cases|];
  }

  lemma {:induction false} MaybePlaced(body: MaybeBody, g: Graph, cur: nat, ctx: Context)
    requires cur < |g|
    ensures ProcessMaybe(body, g, cur, ctx).Ok? <==>
            (body.Present? ==> Placed(body.ops, ctx.breakTarget.Some?, ctx.continueTarget.Some?))
    decreases body
  {
    if body.Present? {
      ExpansionChecksPlacement(body.ops, g, cur, ctx);
    }
  }

  lemma {:induction false} CasesPlaced(cases: seq<SwitchCase>, g: Graph, cur: nat, merge: nat, ctx: Context)
    requires cur < |g|
    ensures ProcessCases(cases, g, cur, merge, ctx).Ok? <==>
            forall k | 0 <= k < |cases| :: Placed(cases[k].body, ctx.breakTarget.Some?, ctx.continueTarget.Some?)
    decreases cases
  {
    if cases != [] {
      CasePlaced(cases[0], g, cur, merge, ctx);
      var r := ProcessCase(cases[0], g, cur, merge, ctx);
      if r.Ok? {
        CasesPlaced(cases[1..], r.value.0, cur, merge, ctx);
        assert forall k | 0 < k < |cases| :: cases[k] == cases[1..][k - 1];
      }
    }
  }

  lemma {:induction false} CasePlaced(c: SwitchCase, g: Graph, cur: nat, merge: nat, ctx: Context)
    requires cur < |g|
    ensures ProcessCase(c, g, cur, merge, ctx).Ok? <==> Placed(c.body, ctx.breakTarget.Some?, ctx.continueTarget.Some?)
    decreases c
  {
    ExpansionChecksPlacement(c.body, OpenCase(g, cur, CaseEdge(c.value)), |g|, ctx);
  }
}
