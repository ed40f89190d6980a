/**
 The verifier cannot tell a tree from its renaming: every judgement it makes holds of the renamed
 tree exactly when it holds of the original.
 */
module RenamingInvariance {
  import opened Prelude
  import opened Ir
  import opened Placement
  import opened Verifier
  import opened Renaming

  // ---- the shape of a renamed control operation -----------------------------------------------------

  lemma {:induction false} RenameExprsAt(es: seq<Expr>, r: Renaming, k: nat)
    requires k < |es|
    ensures RenameExprs(es, r)[k] == RenameExpr(es[k], r)
    decreases |es|
  {
    if k > 0 {
      RenameExprsAt(es[1..], r, k - 1);
    }
  }

  lemma {:induction false} RenameOpsAt(ops: seq<Operation>, r: Renaming, k: nat)
    requires k < |ops|
    ensures RenameOps(ops, r)[k] == RenameOp(ops[k], r)
    decreases |ops|
  {
    if k > 0 {
      RenameOpsAt(ops[1..], r, k - 1);
    }
  }

  lemma {:induction false} RenameCasesAt(cases: seq<SwitchCase>, r: Renaming, k: nat)
    requires k < |cases|
    ensures RenameCases(cases, r)[k] == RenameCase(cases[k], r)
    decreases |cases|
  {
    if k > 0 {
      RenameCasesAt(cases[1..], r, k - 1);
    }
  }

  /** Heads and bodies are renamed one by one, and the kind of operation stays. */
  lemma ControlShape(c: ControlOp, r: Renaming)
    ensures var c' := RenameControl(c, r);
            && |Bodies(c')| == |Bodies(c)| && Heads(c') == RenameExprs(Heads(c), r)
            && (IsLoop(c') <==> IsLoop(c)) && (c'.Switch? <==> c.Switch?) && (c'.For? <==> c.For?)
            && (c'.Break? <==> c.Break?) && (c'.Continue? <==> c.Continue?)
            && (c.For? ==> c'.loopVar == r.Var(c.loopVar))
    ensures forall k | 0 <= k < |Bodies(c)| :: Bodies(RenameControl(c, r))[k] == RenameOps(Bodies(c)[k], r)
  {
    hide RenameOps, RenameExpr;
    var c' := RenameControl(c, r);
    match c {
      case If(e, t, els) => assert RenameExprs([e], r) == [RenameExpr(e, r)] by { One(e, r); }
      case While(e, b) => One(e, r);
      case For(v, a, z, s, b) => Three(a, z, s, r);
      case Switch(e, cases, d) =>
        One(e, r);
        SwitchShape(e, cases, d, r);
      case Break =>
      case Continue =>
    }
  }

  lemma SwitchShape(e: Expr, cases: seq<SwitchCase>, d: MaybeBody, r: Renaming)
    ensures var (bs, bs') := (Bodies(Switch(e, cases, d)), Bodies(Switch(RenameExpr(e, r), RenameCases(cases, r), RenameMaybe(d, r))));
            |bs'| == |bs| && forall k | 0 <= k < |bs| :: bs'[k] == RenameOps(bs[k], r)
  {
    hide RenameOps, RenameExpr, RenameCases;
    var bs, bs' := Bodies(Switch(e, cases, d)), Bodies(Switch(RenameExpr(e, r), RenameCases(cases, r), RenameMaybe(d, r)));
    assert |bs'| == |bs|;
    forall k | 0 <= k < |bs|
      ensures bs'[k] == RenameOps(bs[k], r)
    {
      if k < |cases| {
        RenameCasesAt(cases, r, k);
        assert bs[k] == cases[k].body && bs'[k] == RenameCases(cases, r)[k].body;
      }
    }
  }

  lemma One(e: Expr, r: Renaming)
    ensures RenameExprs([e], r) == [RenameExpr(e, r)]
  {
    hide RenameExpr;
    assert [e][1..] == [];
    assert RenameExprs([e][1..], r) == [];
  }

  lemma Three(a: Expr, z: Expr, s: Expr, r: Renaming)
    ensures RenameExprs([a, z, s], r) == [RenameExpr(a, r), RenameExpr(z, r), RenameExpr(s, r)]
  {
    hide RenameExpr;
    assert [a, z, s][1..] == [z, s] && [z, s][1..] == [s];
    One(s, r);
    assert RenameExprs([z, s], r) == [RenameExpr(z, r)] + RenameExprs([s], r);
  }

  // ---- expressions --------------------------------------------------------------------------------------

  function Image(s: set<ClassicalValue>, r: Renaming): set<ClassicalValue> {
    set v | v in s :: r.Value(v)
  }

  lemma {:induction false} ValuesRenamed(e: Expr, r: Renaming)
    ensures RenameExpr(e, r).Values() == Image(e.Values(), r)
    ensures RenameExpr(e, r).Vars() == VarImage(e.Vars(), r)
    decreases e
  {
    if e.Apply? {
      var args' := RenameExprs(e.args, r);
      forall k | 0 <= k < |e.args|
        ensures args'[k].Values() == Image(e.args[k].Values(), r)
        ensures args'[k].Vars() == VarImage(e.args[k].Vars(), r)
      {
        RenameExprsAt(e.args, r, k);
        ValuesRenamed(e.args[k], r);
      }
      ArgsImage(e, r);
      ArgsVarImage(e, r);
    }
  }

  lemma ArgsImage(e: Expr, r: Renaming)
    requires e.Apply?
    requires forall k | 0 <= k < |e.args| :: RenameExprs(e.args, r)[k].Values() == Image(e.args[k].Values(), r)
    ensures RenameExpr(e, r).Values() == Image(e.Values(), r)
  {
    hide RenameExprs;
    var e' := RenameExpr(e, r);
    forall w
      ensures w in e'.Values() <==> w in Image(e.Values(), r)
    {
      if w in e'.Values() {
        var a :| a in e'.args && w in a.Values();
        var k :| 0 <= k < |e'.args| && e'.args[k] == a;
        assert w in Image(e.args[k].Values(), r);
      }
      if w in Image(e.Values(), r) {
        var v :| v in e.Values() && r.Value(v) == w;
        var a :| a in e.args && v in a.Values();
        var k :| 0 <= k < |e.args| && e.args[k] == a;
        assert e'.args[k] in e'.args && w in e'.args[k].Values();
      }
    }
  }

  function VarImage(s: set<ClassicalVar>, r: Renaming): set<ClassicalVar> {
    set v | v in s :: r.Var(v)
  }

  lemma ArgsVarImage(e: Expr, r: Renaming)
    requires e.Apply?
    requires forall k | 0 <= k < |e.args| :: RenameExprs(e.args, r)[k].Vars() == VarImage(e.args[k].Vars(), r)
    ensures RenameExpr(e, r).Vars() == VarImage(e.Vars(), r)
  {
    hide RenameExprs;
    var e' := RenameExpr(e, r);
    forall w
      ensures w in e'.Vars() <==> w in VarImage(e.Vars(), r)
    {
      if w in e'.Vars() {
        var a :| a in e'.args && w in a.Vars();
        var k :| 0 <= k < |e'.args| && e'.args[k] == a;
        assert w in VarImage(e.args[k].Vars(), r);
      }
      if w in VarImage(e.Vars(), r) {
        var v :| v in e.Vars() && r.Var(v) == w;
        var a :| a in e.args && v in a.Vars();
        var k :| 0 <= k < |e.args| && e.args[k] == a;
        assert e'.args[k] in e'.args && w in e'.args[k].Vars();
      }
    }
  }

  /** A read is in scope exactly if its renaming is in the renamed scope. */
  lemma InScopeRenamed(e: Expr, r: Renaming, available: set<ClassicalValue>)
    requires r.Safe() && ReadyExpr(e, r) && available <= r.values.Keys
    ensures RenameExpr(e, r).Values() <= Image(available, r) <==> e.Values() <= available
  {
    ValuesRenamed(e, r);
    if RenameExpr(e, r).Values() <= Image(available, r) {
      forall v | v in e.Values()
        ensures v in available
      {
        assert r.Value(v) in Image(e.Values(), r);
        var w :| w in available && r.Value(w) == r.Value(v);
      }
    }
  }

  lemma OwnedRenamed(e: Expr, r: Renaming, h: Handles, h': Handles)
    requires r.Between(h, h') && ReadyExpr(e, r)
    ensures h.OwnsExpr(e) && h'.OwnsExpr(RenameExpr(e, r))
  {
    ValuesRenamed(e, r);
  }

  // ---- types ----------------------------------------------------------------------------------------------

  lemma {:induction false} TypedRenamed(ops: seq<Operation>, r: Renaming, h: Handles, h': Handles)
    requires r.Safe() && r.Between(h, h') && Ready(ops, r)
    ensures Typed(RenameOps(ops, r), h') <==> Typed(ops, h)
    decreases ops
  {
    hide r.Safe, r.Between, ReadyOp, TypedOp, RenameOps;
    forall k | 0 <= k < |ops|
      ensures TypedOp(RenameOps(ops, r)[k], h') <==> TypedOp(ops[k], h)
    {
      RenameOpsAt(ops, r, k);
      TypedOpRenamed(ops[k], r, h, h');
    }
  }

  lemma {:induction false} TypedOpRenamed(op: Operation, r: Renaming, h: Handles, h': Handles)
    requires r.Safe() && r.Between(h, h') && ReadyOp(op, r)
    ensures TypedOp(RenameOp(op, r), h') <==> TypedOp(op, h)
    decreases op
  {
    hide RenameQubits, RenameParams;
    match op.instruction {
      case Gate(_) =>
      case Data(d) => TypedDataRenamed(op, r, h, h');
      case Control(c) =>
        TypedHeads(c, r, h, h');
        forall k | 0 <= k < |Bodies(c)|
          ensures Typed(Bodies(RenameControl(c, r))[k], h') <==> Typed(Bodies(c)[k], h)
        {
          ControlShape(c, r);
          TypedRenamed(Bodies(c)[k], r, h, h');
        }
        hide Bodies, Heads, RenameControl, Typed, h.OwnsExpr, h'.OwnsExpr, h.OwnsVar, h'.OwnsVar;
        assert RenameOp(op, r).instruction == Control(RenameControl(c, r));
    }
  }

  lemma TypedHeads(c: ControlOp, r: Renaming, h: Handles, h': Handles)
    requires r.Safe() && r.Between(h, h')
    requires (c.For? ==> c.loopVar in r.vars) && forall e | e in Heads(c) :: ReadyExpr(e, r)
    ensures var c' := RenameControl(c, r);
            && |Bodies(c')| == |Bodies(c)| && (c'.For? <==> c.For?)
            && (c.For? ==> h.OwnsVar(c.loopVar) && h'.OwnsVar(c'.loopVar))
            && (forall e | e in Heads(c) :: h.OwnsExpr(e)) && (forall e | e in Heads(c') :: h'.OwnsExpr(e))
  {
    hide RenameControl, RenameExpr, ReadyExpr, h.OwnsExpr, h'.OwnsExpr, Heads, Bodies;
    ControlShape(c, r);
    forall e | e in Heads(c)
      ensures h.OwnsExpr(e)
    {
      OwnedRenamed(e, r, h, h');
    }
    forall e | e in Heads(RenameControl(c, r))
      ensures h'.OwnsExpr(e)
    {
      var k :| 0 <= k < |Heads(c)| && Heads(RenameControl(c, r))[k] == e;
      RenameExprsAt(Heads(c), r, k);
      assert Heads(c)[k] in Heads(c);
      OwnedRenamed(Heads(c)[k], r, h, h');
    }
  }

  lemma TypedDataRenamed(op: Operation, r: Renaming, h: Handles, h': Handles)
    requires op.instruction.Data? && r.Safe() && r.Between(h, h') && ReadyOp(op, r)
    ensures TypedOp(RenameOp(op, r), h') <==> TypedOp(op, h)
  {
    hide RenameParams;
    if op.instruction.data.Store? {
      OwnedRenamed(op.instruction.data.value, r, h, h');
      TyRenamed(op.instruction.data.value, r);
    }
  }

  // ---- placement --------------------------------------------------------------------------------------------

  lemma {:induction false} PlacedRenamed(ops: seq<Operation>, r: Renaming, b: bool, c: bool)
    ensures Placed(RenameOps(ops, r), b, c) <==> Placed(ops, b, c)
    decreases ops
  {
    hide PlacedOp, RenameOps;
    forall k | 0 <= k < |ops|
      ensures PlacedOp(RenameOps(ops, r)[k], b, c, k + 1 == |ops|) <==> PlacedOp(ops[k], b, c, k + 1 == |ops|)
    {
      RenameOpsAt(ops, r, k);
      PlacedOpRenamed(ops[k], r, b, c, k + 1 == |ops|);
    }
  }

  lemma {:induction false} PlacedOpRenamed(op: Operation, r: Renaming, b: bool, c: bool, last: bool)
    ensures PlacedOp(RenameOp(op, r), b, c, last) <==> PlacedOp(op, b, c, last)
    decreases op
  {
    hide RenameQubits, RenameParams, RenameControl;
    if op.instruction.Control? {
      var x := op.instruction.control;
      ControlShape(x, r);
      assert RenameOp(op, r).instruction == Control(RenameControl(x, r));
      PlacedBodiesRenamed(x, r, BreakInside(x, b), ContinueInside(x, c));
      hide Bodies, Placed;
    }
  }

  lemma {:induction false} PlacedBodiesRenamed(x: ControlOp, r: Renaming, b: bool, c: bool)
    ensures |Bodies(RenameControl(x, r))| == |Bodies(x)|
    ensures forall k | 0 <= k < |Bodies(x)| :: Placed(Bodies(RenameControl(x, r))[k], b, c) <==> Placed(Bodies(x)[k], b, c)
    decreases x, 0
  {
    hide Placed, RenameControl, RenameOps;
    ControlShape(x, r);
    forall k | 0 <= k < |Bodies(x)|
      ensures Placed(Bodies(RenameControl(x, r))[k], b, c) <==> Placed(Bodies(x)[k], b, c)
    {
      PlacedRenamed(Bodies(x)[k], r, b, c);
    }
  }

  // ---- results ------------------------------------------------------------------------------------------------

  function RenameValues(vs: seq<ClassicalValue>, r: Renaming): (s: seq<ClassicalValue>)
    ensures |s| == |vs|
  {
    seq(|vs|, i requires 0 <= i < |vs| => r.Value(vs[i]))
  }

  lemma {:induction false} ResultsRenamed(ops: seq<Operation>, r: Renaming)
    ensures Results(RenameOps(ops, r)) == RenameValues(Results(ops), r)
    decreases ops
  {
    hide RenameOp, ResultsOp;
    if ops != [] {
      ResultsOpRenamed(ops[0], r);
      ResultsRenamed(ops[1..], r);
      assert RenameOps(ops, r)[1..] == RenameOps(ops[1..], r);
    }
  }

  lemma {:induction false} ResultsOpRenamed(op: Operation, r: Renaming)
    ensures ResultsOp(RenameOp(op, r)) == RenameValues(ResultsOp(op), r)
    decreases op
  {
    hide RenameQubits, RenameParams, ResultsBodies, RenameControl;
    if op.instruction.Control? {
      ControlShape(op.instruction.control, r);
      ResultsBodiesRenamed(op.instruction.control, 0, r);
    }
  }

  lemma {:induction false} ResultsBodiesRenamed(c: ControlOp, k: nat, r: Renaming)
    requires k <= |Bodies(c)|
    ensures |Bodies(RenameControl(c, r))| == |Bodies(c)|
    ensures ResultsBodies(RenameControl(c, r), k) == RenameValues(ResultsBodies(c, k), r)
    decreases c, |Bodies(c)| - k
  {
    hide RenameControl, Results, RenameOps;
    ControlShape(c, r);
    if k < |Bodies(c)| {
      ResultsRenamed(Bodies(c)[k], r);
      ResultsBodiesRenamed(c, k + 1, r);
    }
  }

  /** Every result of a ready tree has an entry. */
  lemma {:induction false} ResultsReady(ops: seq<Operation>, r: Renaming, v: ClassicalValue)
    requires Ready(ops, r) && v in Results(ops)
    ensures v in r.values
    decreases ops
  {
    if ops != [] {
      ReadyHead(ops, r);
      if v in ResultsOp(ops[0]) {
        if ops[0].instruction.Control? {
          ResultsReadyBodies(ops[0].instruction.control, 0, r, v);
        }
      } else {
        ResultsReady(ops[1..], r, v);
      }
    }
  }

  lemma {:induction false} ResultsReadyBodies(c: ControlOp, k: nat, r: Renaming, v: ClassicalValue)
    requires k <= |Bodies(c)| && (forall j | 0 <= j < |Bodies(c)| :: Ready(Bodies(c)[j], r)) && v in ResultsBodies(c, k)
    ensures v in r.values
    decreases c, |Bodies(c)| - k
  {
    hide Ready, Results;
    if k < |Bodies(c)| {
      if v in Results(Bodies(c)[k]) {
        ResultsReady(Bodies(c)[k], r, v);
      } else {
        ResultsReadyBodies(c, k + 1, r, v);
      }
    }
  }

  lemma FreshRenamed(vs: seq<ClassicalValue>, r: Renaming, defined: set<ClassicalValue>)
    requires r.Safe() && defined <= r.values.Keys && forall v | v in vs :: v in r.values
    ensures Fresh(RenameValues(vs, r), Image(defined, r)) <==> Fresh(vs, defined)
  {
    var ws := RenameValues(vs, r);
    assert forall i | 0 <= i < |vs| :: vs[i] in vs && vs[i] in r.values && ws[i] == r.values[vs[i]];
    assert forall i, j | 0 <= i < j < |vs| :: ws[i] == ws[j] <==> vs[i] == vs[j];
    forall i | 0 <= i < |vs|
      ensures ws[i] in Image(defined, r) <==> vs[i] in defined
    {
      if ws[i] in Image(defined, r) {
        var v :| v in defined && r.Value(v) == ws[i];
      }
    }
    if Fresh(ws, Image(defined, r)) {
      forall i | 0 <= i < |vs|
        ensures vs[i] !in defined
      {
        assert ws[i] !in Image(defined, r);
      }
    }
  }

  // ---- scope ----------------------------------------------------------------------------------------------------

  lemma ProducedRenamed(op: Operation, r: Renaming)
    ensures Produced(RenameOp(op, r)) == Image(Produced(op), r)
  {
    hide RenameQubits, RenameParams;
  }

  lemma {:induction false} ProducedAllRenamed(ops: seq<Operation>, r: Renaming)
    ensures ProducedAll(RenameOps(ops, r)) == Image(ProducedAll(ops), r)
    decreases |ops|
  {
    hide Produced, RenameOp;
    if ops != [] {
      ProducedRenamed(ops[0], r);
      ProducedAllRenamed(ops[1..], r);
      assert RenameOps(ops, r)[1..] == RenameOps(ops[1..], r);
      assert Image(Produced(ops[0]) + ProducedAll(ops[1..]), r) == Image(Produced(ops[0]), r) + Image(ProducedAll(ops[1..]), r);
    }
  }

  lemma {:induction false} ScopedRenamed(ops: seq<Operation>, r: Renaming, available: set<ClassicalValue>)
    requires r.Safe() && Ready(ops, r) && available <= r.values.Keys
    ensures Scoped(RenameOps(ops, r), Image(available, r)) <==> Scoped(ops, available)
    decreases ops
  {
    hide r.Safe, ReadyOp, ScopedOp, RenameOp, Produced;
    if ops != [] {
      ReadyHead(ops, r);
      ScopedOpRenamed(ops[0], r, available);
      ProducedReady(ops[0], r);
      ScopedRenamed(ops[1..], r, available + Produced(ops[0]));
      ProducedRenamed(ops[0], r);
      assert Image(available + Produced(ops[0]), r) == Image(available, r) + Image(Produced(ops[0]), r);
      assert RenameOps(ops, r)[1..] == RenameOps(ops[1..], r) && RenameOps(ops, r)[0] == RenameOp(ops[0], r);
    }
  }

  lemma ProducedReady(op: Operation, r: Renaming)
    requires ReadyOp(op, r)
    ensures Produced(op) <= r.values.Keys
  {
  }

  lemma {:induction false} ScopedOpRenamed(op: Operation, r: Renaming, available: set<ClassicalValue>)
    requires r.Safe() && ReadyOp(op, r) && available <= r.values.Keys
    ensures ScopedOp(RenameOp(op, r), Image(available, r)) <==> ScopedOp(op, available)
    decreases op
  {
    hide RenameQubits, RenameParams, r.Safe;
    if op.instruction.Control? {
      var c := op.instruction.control;
      ScopedHeads(c, r, available);
      ControlShape(c, r);
      forall k | 0 <= k < |Bodies(c)|
        ensures Scoped(Bodies(RenameControl(c, r))[k], Image(available, r)) <==> Scoped(Bodies(c)[k], available)
      {
        ScopedRenamed(Bodies(c)[k], r, available);
      }
      hide Bodies, Heads, RenameControl, Scoped;
      assert RenameOp(op, r).instruction == Control(RenameControl(c, r));
    } else if op.instruction.Data? && op.instruction.data.Store? {
      InScopeRenamed(op.instruction.data.value, r, available);
    }
  }

  lemma ScopedHeads(c: ControlOp, r: Renaming, available: set<ClassicalValue>)
    requires r.Safe() && available <= r.values.Keys && forall e | e in Heads(c) :: ReadyExpr(e, r)
    ensures (forall e | e in Heads(RenameControl(c, r)) :: e.Values() <= Image(available, r))
       <==> (forall e | e in Heads(c) :: e.Values() <= available)
  {
    hide RenameControl, RenameExpr, ReadyExpr, r.Safe, Image, Heads;
    ControlShape(c, r);
    var hs, hs' := Heads(c), Heads(RenameControl(c, r));
    forall k | 0 <= k < |hs|
      ensures hs'[k].Values() <= Image(available, r) <==> hs[k].Values() <= available
    {
      RenameExprsAt(hs, r, k);
      assert hs[k] in hs;
      InScopeRenamed(hs[k], r, available);
    }
    if forall e | e in hs' :: e.Values() <= Image(available, r) {
      forall e | e in hs
        ensures e.Values() <= available
      {
        var k :| 0 <= k < |hs| && hs[k] == e;
        assert hs'[k] in hs';
      }
    }
    if forall e | e in hs :: e.Values() <= available {
      forall e | e in hs'
        ensures e.Values() <= Image(available, r)
      {
        var k :| 0 <= k < |hs'| && hs'[k] == e;
        assert hs[k] in hs;
      }
    }
  }

  // ---- the theorem ------------------------------------------------------------------------------------------------

  function ImageState(st: State, r: Renaming): State {
    State(Image(st.defined, r), Image(st.available, r))
  }

  /**
   Under a type-preserving renaming that keeps distinct values distinct, the verifier accepts the
   renamed tree exactly when it accepts the tree, and its result is the renamed result.
   */
  lemma VerificationIsInvariant(ops: seq<Operation>, r: Renaming, h: Handles, h': Handles, st: State, p: Placing)
    requires r.Safe() && r.Between(h, h') && Ready(ops, r)
    requires st.defined <= r.values.Keys && st.available <= r.values.Keys
    ensures Verify(RenameOps(ops, r), h', ImageState(st, r), p).Ok? <==> Verify(ops, h, st, p).Ok?
    ensures Verify(ops, h, st, p).Ok? ==>
              Verify(RenameOps(ops, r), h', ImageState(st, r), p) == Ok(ImageState(Verify(ops, h, st, p).value, r))
  {
    hide Verify, Typed, Placed, Scoped, Fresh, RenameOps, Ready, Results, r.Safe, r.Between;
    VerifyCharacterised(ops, h, st, p);
    VerifyCharacterised(RenameOps(ops, r), h', ImageState(st, r), p);
    TypedRenamed(ops, r, h, h');
    PlacedRenamed(ops, r, p.breakAllowed, p.continueAllowed);
    ScopedRenamed(ops, r, st.available);
    ResultsRenamed(ops, r);
    forall v | v in Results(ops)
      ensures v in r.values
    {
      ResultsReady(ops, r, v);
    }
    FreshRenamed(Results(ops), r, st.defined);
    ResultSet(Results(ops), r);
    assert Image(st.defined + ToSet(Results(ops)), r) == Image(st.defined, r) + Image(ToSet(Results(ops)), r);
    ProducedAllRenamed(ops, r);
    assert Image(st.available + ProducedAll(ops), r) == Image(st.available, r) + Image(ProducedAll(ops), r);
  }

  lemma ResultSet(vs: seq<ClassicalValue>, r: Renaming)
    ensures ToSet(RenameValues(vs, r)) == Image(ToSet(vs), r)
  {
    forall w
      ensures w in ToSet(RenameValues(vs, r)) <==> w in Image(ToSet(vs), r)
    {
      if w in RenameValues(vs, r) {
        var k :| 0 <= k < |vs| && RenameValues(vs, r)[k] == w;
        assert vs[k] in ToSet(vs);
      }
      if w in Image(ToSet(vs), r) {
        var v :| v in ToSet(vs) && r.Value(v) == w;
        var k :| 0 <= k < |vs| && vs[k] == v;
        assert RenameValues(vs, r)[k] == w;
      }
    }
  }
}
