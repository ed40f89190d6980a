/**
 Two deletions in a row are one deletion: when both succeed, deleting the union of their positions
 succeeds and gives the same circuit.
 */
module DeletionBatch {
  import opened Prelude
  import opened Ir
  import opened Verifier
  import opened Builder
  import opened BuilderReach
  import opened Renaming
  import opened RenamingInvariance
  import opened Composition
  import opened Deletion
  import BuilderSafety

  /** The original positions deleted by deleting `first` and then `second` from what remains. */
  function Both(first: set<nat>, second: set<nat>, n: nat): (both: set<nat>)
    ensures forall k: nat {:trigger k in both} :: k in both <==> k in first || (k < n && Rank(first, k) in second)
  {
    first + set k: nat | 0 <= k < n && Rank(first, k) in second
  }

  lemma RankStep(gone: set<nat>, k: nat)
    ensures Rank(gone, k + 1) == Rank(gone, k) + if k in gone then 0 else 1
  {
  }

  lemma {:induction false} RankTwice(first: set<nat>, second: set<nat>, n: nat, k: nat)
    requires k <= n
    ensures Rank(second, Rank(first, k)) == Rank(Both(first, second, n), k)
    decreases k
  {
    if k == 0 {
      RankZero(first, second, n);
    } else {
      hide Rank, Both;
      var j: nat := k - 1;
      RankTwice(first, second, n, j);
      RankStep(first, j);
      var both := Both(first, second, n);
      RankStep(both, j);
      assert j in both <==> j in first || Rank(first, j) in second;
      if j !in first {
        RankStep(second, Rank(first, j));
      }
    }
  }

  lemma RankZero(first: set<nat>, second: set<nat>, n: nat)
    ensures Rank(first, 0) == 0 && Rank(second, 0) == 0 && Rank(Both(first, second, n), 0) == 0
  {
  }

  lemma KeepStep<T>(s: seq<T>, gone: set<nat>, i: nat)
    requires i < |s|
    ensures KeepFrom(s, gone, i) == (if i in gone then [] else [s[i]]) + KeepFrom(s, gone, i + 1)
  {
  }

  lemma {:induction false} KeepTwiceFrom<T>(s: seq<T>, first: set<nat>, second: set<nat>, i: nat)
    requires i <= |s|
    ensures Rank(first, i) <= |Keep(s, first)|
    ensures KeepFrom(Keep(s, first), second, Rank(first, i)) == KeepFrom(s, Both(first, second, |s|), i)
    decreases |s| - i
  {
    hide Keep, Rank, KeepFrom, Both;
    var kept := Keep(s, first);
    KeptAll(s, first);
    RankGrows(first, i, |s|);
    if i < |s| {
      KeepTwiceFrom(s, first, second, i + 1);
      RankStep(first, i);
      KeepStep(s, Both(first, second, |s|), i);
      if i !in first {
        Kept(s, first, i);
        KeepStep(kept, second, Rank(first, i));
      } else {
        assert [] + KeepFrom(s, Both(first, second, |s|), i + 1) == KeepFrom(s, Both(first, second, |s|), i + 1);
      }
    } else {
      KeepEnd(kept, second);
      KeepEnd(s, Both(first, second, |s|));
    }
  }

  lemma KeepEnd<T>(s: seq<T>, gone: set<nat>)
    ensures KeepFrom(s, gone, |s|) == []
  {
  }

  lemma KeptAll<T>(s: seq<T>, gone: set<nat>)
    ensures |Keep(s, gone)| == Rank(gone, |s|)
  {
    KeptLength(s, gone, 0);
  }

  lemma KeepTwice<T>(s: seq<T>, first: set<nat>, second: set<nat>)
    ensures Keep(Keep(s, first), second) == Keep(s, Both(first, second, |s|))
  {
    KeepTwiceFrom(s, first, second, 0);
    RankZero(first, second, |s|);
    hide KeepFrom, Rank, Both;
  }

  lemma {:induction false} PickedAt<T>(s: seq<T>, gone: set<nat>, i: nat, k: nat)
    requires i <= k < |s| && k in gone
    ensures s[k] in PickFrom(s, gone, i)
    decreases |s| - i
  {
    if i < k {
      PickedAt(s, gone, i + 1, k);
    }
  }

  lemma {:induction false} PickedFrom<T>(s: seq<T>, gone: set<nat>, i: nat, x: T) returns (k: nat)
    requires i <= |s| && x in PickFrom(s, gone, i)
    ensures i <= k < |s| && k in gone && s[k] == x
    decreases |s| - i
  {
    if i in gone && s[i] == x {
      k := i;
    } else {
      k := PickedFrom(s, gone, i + 1, x);
    }
  }

  /** What is removed in two steps is what is removed at once. */
  lemma PickTwice<T>(s: seq<T>, first: set<nat>, second: set<nat>, x: T)
    ensures x in Pick(s, Both(first, second, |s|)) <==> x in Pick(s, first) || x in Pick(Keep(s, first), second)
  {
    hide Keep, PickFrom, Rank, Both;
    var both, kept := Both(first, second, |s|), Keep(s, first);
    if x in Pick(s, both) {
      var k := PickedFrom(s, both, 0, x);
      if k in first {
        PickedAt(s, first, 0, k);
      } else {
        Kept(s, first, k);
        PickedAt(kept, second, 0, Rank(first, k));
      }
    }
    if x in Pick(s, first) {
      var k := PickedFrom(s, first, 0, x);
      PickedAt(s, both, 0, k);
    }
    if x in Pick(kept, second) {
      var j := PickedFrom(kept, second, 0, x);
      var k := KeptPosition(s, first, j);
      PickedAt(s, both, 0, k);
    }
  }

  lemma KeptPosition<T>(s: seq<T>, gone: set<nat>, j: nat) returns (k: nat)
    requires j < |Keep(s, gone)|
    ensures k < |s| && k !in gone && Rank(gone, k) == j && Keep(s, gone)[j] == s[k]
  {
    k := KeptFrom(s, gone, 0, j);
  }

  lemma {:induction false} ResultsMember(ops: seq<Operation>, v: ClassicalValue)
    ensures v in Results(ops) <==> exists op | op in ops :: v in ResultsOp(op)
    decreases |ops|
  {
    hide ResultsOp;
    if ops != [] {
      ResultsMember(ops[1..], v);
      if v in ResultsOp(ops[0]) {
        assert ops[0] in ops;
      }
      if op :| op in ops && v in ResultsOp(op) {
        assert op == ops[0] || op in ops[1..];
      }
    }
  }

  lemma ResultsTwice(ops: seq<Operation>, first: set<nat>, second: set<nat>, v: ClassicalValue)
    ensures v in Results(Pick(ops, Both(first, second, |ops|))) <==>
            v in Results(Pick(ops, first)) || v in Results(Pick(Keep(ops, first), second))
  {
    hide Keep, Pick, ResultsOp, Both;
    var a, b, c := Pick(ops, Both(first, second, |ops|)), Pick(ops, first), Pick(Keep(ops, first), second);
    ResultsMember(a, v);
    ResultsMember(b, v);
    ResultsMember(c, v);
    forall op
      ensures op in a <==> op in b || op in c
    {
      PickTwice(ops, first, second, op);
    }
  }

  // ---- renaming commutes with keeping -------------------------------------------------------------------

  lemma {:induction false} KeepRenamed(ops: seq<Operation>, r: Renaming, gone: set<nat>, i: nat)
    requires i <= |ops|
    ensures KeepFrom(RenameOps(ops, r), gone, i) == RenameOps(KeepFrom(ops, gone, i), r)
    ensures PickFrom(RenameOps(ops, r), gone, i) == RenameOps(PickFrom(ops, gone, i), r)
    decreases |ops| - i
  {
    hide RenameOp;
    if i < |ops| {
      KeepRenamed(ops, r, gone, i + 1);
      RenameOpsAt(ops, r, i);
      ConsRenamed(ops[i], KeepFrom(ops, gone, i + 1), r);
      ConsRenamed(ops[i], PickFrom(ops, gone, i + 1), r);
    }
  }

  lemma ConsRenamed(op: Operation, rest: seq<Operation>, r: Renaming)
    ensures RenameOps([op] + rest, r) == [RenameOp(op, r)] + RenameOps(rest, r)
    ensures RenameOps([] + rest, r) == RenameOps(rest, r)
  {
    hide RenameOp;
    assert ([op] + rest)[1..] == rest;
    assert [] + rest == rest;
  }

  // ---- renaming twice ---------------------------------------------------------------------------------------

  /** `r` does in one step what `a` and then `b` do, on everything `r` has entries for. */
  ghost predicate Combines(a: Renaming, b: Renaming, r: Renaming) {
    && KeepsFields(a) && KeepsFields(b) && KeepsFields(r)
    && (forall v | v in r.vars :: b.Var(a.Var(v)) == r.Var(v)) && (forall v | v in r.values :: b.Value(a.Value(v)) == r.Value(v))
  }

  lemma {:induction false} ExprTwice(e: Expr, a: Renaming, b: Renaming, r: Renaming)
    requires Combines(a, b, r) && ReadyExpr(e, r)
    ensures RenameExpr(RenameExpr(e, a), b) == RenameExpr(e, r)
    decreases e, 0
  {
    hide KeepsFields;
    match e {
      case VarRead(v) => assert v in e.Vars();
      case ValueRead(v) => assert v in e.Values();
      case Apply(_, _, args) =>
        forall x | x in args
          ensures ReadyExpr(x, r)
        {
          assert forall v | v in x.Vars() :: v in e.Vars();
          assert forall v | v in x.Values() :: v in e.Values();
        }
        ExprsTwice(args, a, b, r);
    }
  }

  lemma {:induction false} ExprsTwice(es: seq<Expr>, a: Renaming, b: Renaming, r: Renaming)
    requires Combines(a, b, r) && forall e | e in es :: ReadyExpr(e, r)
    ensures RenameExprs(RenameExprs(es, a), b) == RenameExprs(es, r)
    decreases es, 1
  {
    hide Combines, ReadyExpr;
    if es != [] {
      ExprTwice(es[0], a, b, r);
      ExprsTwice(es[1..], a, b, r);
      assert RenameExprs(es, a)[1..] == RenameExprs(es[1..], a);
    }
  }

  lemma {:induction false} RenameTwice(ops: seq<Operation>, a: Renaming, b: Renaming, r: Renaming)
    requires Combines(a, b, r) && Ready(ops, r)
    ensures RenameOps(RenameOps(ops, a), b) == RenameOps(ops, r)
    decreases ops
  {
    hide Combines, ReadyOp, RenameOp;
    if ops != [] {
      ReadyHead(ops, r);
      OpTwice(ops[0], a, b, r);
      RenameTwice(ops[1..], a, b, r);
      assert RenameOps(ops, a)[1..] == RenameOps(ops[1..], a);
    }
  }

  lemma {:induction false} OpTwice(op: Operation, a: Renaming, b: Renaming, r: Renaming)
    requires Combines(a, b, r) && ReadyOp(op, r)
    ensures RenameOp(RenameOp(op, a), b) == RenameOp(op, r)
    decreases op
  {
    FieldsTwice(op, a, b, r);
    match op.instruction {
      case Gate(_) =>
      case Data(d) => DataTwice(d, a, b, r);
      case Control(c) => ControlTwice(c, a, b, r);
    }
  }

  lemma FieldsTwice(op: Operation, a: Renaming, b: Renaming, r: Renaming)
    requires Combines(a, b, r)
    ensures RenameQubits(RenameQubits(op.qubits, a), b) == RenameQubits(op.qubits, r)
    ensures RenameParams(RenameParams(op.params, a), b) == RenameParams(op.params, r)
  {
  }

  lemma DataTwice(d: DataOp, a: Renaming, b: Renaming, r: Renaming)
    requires Combines(a, b, r) && ReadyData(d, r)
    ensures RenameData(RenameData(d, a), b) == RenameData(d, r)
  {
    if d.Store? {
      ExprTwice(d.value, a, b, r);
    }
  }

  lemma {:induction false} ControlTwice(c: ControlOp, a: Renaming, b: Renaming, r: Renaming)
    requires Combines(a, b, r) && (c.For? ==> c.loopVar in r.vars)
    requires (forall e | e in Heads(c) :: ReadyExpr(e, r)) && forall k | 0 <= k < |Bodies(c)| :: Ready(Bodies(c)[k], r)
    ensures RenameControl(RenameControl(c, a), b) == RenameControl(c, r)
    decreases c
  {
    hide RenameOps, RenameExpr, Ready, ReadyExpr, KeepsFields;
    match c {
      case If(e, t, els) =>
        assert Heads(c)[0] == e && Bodies(c)[0] == t && (els.Present? ==> |Bodies(c)| == 2 && Bodies(c)[1] == els.ops);
        ExprTwice(e, a, b, r);
        RenameTwice(t, a, b, r);
        MaybeTwice(els, a, b, r);
      case While(e, x) =>
        assert Heads(c)[0] == e && Bodies(c)[0] == x;
        ExprTwice(e, a, b, r);
        RenameTwice(x, a, b, r);
      case For(v, s, z, d, x) =>
        assert Heads(c)[0] == s && Heads(c)[1] == z && Heads(c)[2] == d && Bodies(c)[0] == x;
        ExprTwice(s, a, b, r);
        ExprTwice(z, a, b, r);
        ExprTwice(d, a, b, r);
        RenameTwice(x, a, b, r);
      case Switch(e, cases, d) =>
        assert Heads(c)[0] == e && (d.Present? ==> Bodies(c)[|cases|] == d.ops);
        assert forall k | 0 <= k < |cases| :: Bodies(c)[k] == cases[k].body;
        ExprTwice(e, a, b, r);
        CasesTwice(cases, a, b, r);
        MaybeTwice(d, a, b, r);
      case Break =>
      case Continue =>
    }
  }

  lemma {:induction false} MaybeTwice(m: MaybeBody, a: Renaming, b: Renaming, r: Renaming)
    requires Combines(a, b, r) && (m.Present? ==> Ready(m.ops, r))
    ensures RenameMaybe(RenameMaybe(m, a), b) == RenameMaybe(m, r)
    decreases m
  {
    hide Combines;
    if m.Present? {
      RenameTwice(m.ops, a, b, r);
    }
  }

  lemma {:induction false} CasesTwice(cases: seq<SwitchCase>, a: Renaming, b: Renaming, r: Renaming)
    requires Combines(a, b, r) && forall k | 0 <= k < |cases| :: Ready(cases[k].body, r)
    ensures RenameCases(RenameCases(cases, a), b) == RenameCases(cases, r)
    decreases cases
  {
    hide Combines, Ready;
    if cases != [] {
      CaseTwice(cases[0], a, b, r);
      CasesTwice(cases[1..], a, b, r);
      assert RenameCases(cases, a)[1..] == RenameCases(cases[1..], a);
    }
  }

  lemma {:induction false} CaseTwice(c: SwitchCase, a: Renaming, b: Renaming, r: Renaming)
    requires Combines(a, b, r) && Ready(c.body, r)
    ensures RenameCase(RenameCase(c, a), b) == RenameCase(c, r)
    decreases c
  {
    RenameTwice(c.body, a, b, r);
  }

  // ---- reads and fields of a renamed tree ---------------------------------------------------------------------

  lemma {:induction false} ReadsRenamed(ops: seq<Operation>, r: Renaming, v: ClassicalValue)
    requires SomeReads(ops, v)
    ensures SomeReads(RenameOps(ops, r), r.Value(v))
    decreases ops
  {
    hide ReadsValue, RenameOps;
    var k :| 0 <= k < |ops| && ReadsValue(ops[k], v);
    RenameOpsAt(ops, r, k);
    ReadsOpRenamed(ops[k], r, v);
    assert ReadsValue(RenameOps(ops, r)[k], r.Value(v));
  }

  lemma {:induction false} ReadsOpRenamed(op: Operation, r: Renaming, v: ClassicalValue)
    requires ReadsValue(op, v)
    ensures ReadsValue(RenameOp(op, r), r.Value(v))
    decreases op
  {
    hide RenameQubits, RenameParams;
    if op.instruction.Data? {
      ValuesRenamed(op.instruction.data.value, r);
    } else {
      var c := op.instruction.control;
      ControlShape(c, r);
      hide RenameControl;
      assert RenameOp(op, r).instruction == Control(RenameControl(c, r));
      if e :| e in Heads(c) && v in e.Values() {
        HeadReadRenamed(c, r, v, e);
      } else {
        var k :| 0 <= k < |Bodies(c)| && SomeReads(Bodies(c)[k], v);
        ReadsRenamed(Bodies(c)[k], r, v);
        assert SomeReads(Bodies(RenameControl(c, r))[k], r.Value(v));
      }
    }
  }

  lemma HeadReadRenamed(c: ControlOp, r: Renaming, v: ClassicalValue, e: Expr)
    requires e in Heads(c) && v in e.Values()
    ensures exists f | f in Heads(RenameControl(c, r)) :: r.Value(v) in f.Values()
  {
    hide RenameControl, Heads, Bodies;
    ControlShape(c, r);
    var k :| 0 <= k < |Heads(c)| && Heads(c)[k] == e;
    RenameExprsAt(Heads(c), r, k);
    ValuesRenamed(e, r);
    var f := Heads(RenameControl(c, r))[k];
    assert f in Heads(RenameControl(c, r)) && r.Value(v) in f.Values();
  }

  lemma KeepWellMade(ops: seq<Operation>, gone: set<nat>, qubits: set<nat>, n: nat)
    requires WellMade(ops, qubits, n)
    ensures WellMade(Keep(ops, gone), qubits, n)
  {
    hide WellMadeOp;
    KeptMembers(ops, gone, 0);
    var kept := Keep(ops, gone);
    forall k | 0 <= k < |kept|
      ensures WellMadeOp(kept[k], qubits, n)
    {
      assert kept[k] in kept;
      var j :| 0 <= j < |ops| && ops[j] == kept[k];
    }
  }

  // ---- two deletions as one -------------------------------------------------------------------------------------

  lemma {:induction false} SameKeep<T>(s: seq<T>, a: set<nat>, b: set<nat>, i: nat)
    requires i <= |s| && forall k: nat | k < |s| :: k in a <==> k in b
    ensures KeepFrom(s, a, i) == KeepFrom(s, b, i)
    decreases |s| - i
  {
    if i < |s| {
      SameKeep(s, a, b, i + 1);
    }
  }

  lemma {:induction false} SameRank(a: set<nat>, b: set<nat>, n: nat, k: nat)
    requires k <= n && forall j: nat | j < n :: j in a <==> j in b
    ensures Rank(a, k) == Rank(b, k)
    decreases k
  {
    if k > 0 {
      SameRank(a, b, n, k - 1);
    }
  }

  lemma RankInjective(gone: set<nat>, a: nat, b: nat)
    requires a !in gone && b !in gone && Rank(gone, a) == Rank(gone, b)
    ensures a == b
  {
    if a < b {
      RankGrows(gone, a, b);
    } else if b < a {
      RankGrows(gone, b, a);
    }
  }

  /** The first deletion, with what it guarantees. */
  lemma FirstDeletion(s: Draft, first: set<nat>)
    requires TopValid(s) && OwnFields(s) && Remove(s, first).1.Ok?
    ensures var r1 := CompactMap(s, GoneValues(Pick(s.ops, first)));
            && Remove(s, first).0 == Deleted(s, first) && TopValid(Deleted(s, first)) && OwnFields(Deleted(s, first))
            && Ready(Keep(s.ops, first), r1) && r1.Safe() && KeepsFields(r1)
            && Unused(Keep(s.ops, first), Pick(s.ops, first)) && Typed(s.ops, s.Handles())
  {
    hide Keep, Pick, WellMade, Ready, RenameOps, CompactMap, Typed, Results, SomeReads, TopValid, KeepsFields;
    var values := GoneValues(Pick(s.ops, first));
    var r1, qubits := CompactMap(s, values), set q | q in s.qubits;
    DeletionIsExact(s, first);
    RenumberedIsValid(s, first);
    CompactIsSafe(s, values);
    CompactKeepsFields(s, values);
    KeepWellMade(s.ops, first, qubits, |s.params|);
    WellMadeRenamed(Keep(s.ops, first), r1, qubits, |s.params|, qubits, |s.params|);
    KeptVerified(s, first);
  }

  /** The second deletion is unused exactly as the union is. */
  lemma BothUnused(s: Draft, first: set<nat>, second: set<nat>)
    requires Unused(Keep(s.ops, first), Pick(s.ops, first))
    requires Unused(Keep(Deleted(s, first).ops, second), Pick(Deleted(s, first).ops, second))
    ensures Unused(Keep(s.ops, Both(first, second, |s.ops|)), Pick(s.ops, Both(first, second, |s.ops|)))
  {
    hide SomeReads, Results, RenameOps, KeepFrom, PickFrom, CompactMap, Both;
    var both := Both(first, second, |s.ops|);
    var r1 := CompactMap(s, GoneValues(Pick(s.ops, first)));
    var kept1 := Keep(s.ops, first);
    var kept := Keep(s.ops, both);
    KeepTwice(s.ops, first, second);
    KeepRenamed(kept1, r1, second, 0);
    forall v | v in Results(Pick(s.ops, both))
      ensures !SomeReads(kept, v)
    {
      ResultsTwice(s.ops, first, second, v);
      if v in Results(Pick(s.ops, first)) {
        assert !SomeReads(kept1, v);
        FewerReads(kept1, second, v);
      } else {
        RenamedResult(Pick(kept1, second), r1, v);
        assert !SomeReads(RenameOps(kept, r1), r1.Value(v));
        if SomeReads(kept, v) {
          ReadsRenamed(kept, r1, v);
        }
      }
    }
  }

  lemma FewerReads(ops: seq<Operation>, gone: set<nat>, v: ClassicalValue)
    requires !SomeReads(ops, v)
    ensures !SomeReads(Keep(ops, gone), v)
  {
    hide ReadsValue;
    KeptMembers(ops, gone, 0);
    var kept := Keep(ops, gone);
    forall k | 0 <= k < |kept|
      ensures !ReadsValue(kept[k], v)
    {
      assert kept[k] in kept;
      var j :| 0 <= j < |ops| && ops[j] == kept[k];
    }
  }

  /** The table positions lost in two steps are those lost at once. */
  lemma GoneTwice(s: Draft, first: set<nat>, second: set<nat>, k: nat)
    requires Typed(s.ops, s.Handles()) && k < |s.values|
    requires Ready(Keep(s.ops, first), CompactMap(s, GoneValues(Pick(s.ops, first))))
    ensures var (g1, g2) := (GoneValues(Pick(s.ops, first)), GoneValues(Pick(Deleted(s, first).ops, second)));
            k in GoneValues(Pick(s.ops, Both(first, second, |s.ops|))) <==> k in Both(g1, g2, |s.values|)
  {
    hide Results, RenameOps, Keep, Pick, Both, Typed, Ready, CompactMap;
    var both := Both(first, second, |s.ops|);
    var g1 := GoneValues(Pick(s.ops, first));
    var r1, kept1 := CompactMap(s, g1), Keep(s.ops, first);
    var g2 := GoneValues(Pick(Deleted(s, first).ops, second));
    var v, out := s.Value(k), Pick(kept1, second);
    PickTyped(s.ops, both, s.Handles());
    PickTyped(s.ops, first, s.Handles());
    GoneIsMeasured(s, Pick(s.ops, both), v);
    GoneIsMeasured(s, Pick(s.ops, first), v);
    ResultsTwice(s.ops, first, second, v);
    assert Pick(Deleted(s, first).ops, second) == RenameOps(out, r1) by { PickRenamed(kept1, r1, second); }
    if k !in g1 {
      SecondGone(s, g1, kept1, second, k);
    }
  }

  lemma PickRenamed(ops: seq<Operation>, r: Renaming, gone: set<nat>)
    ensures Pick(RenameOps(ops, r), gone) == RenameOps(Pick(ops, gone), r)
    ensures Keep(RenameOps(ops, r), gone) == RenameOps(Keep(ops, gone), r)
  {
    hide RenameOps;
    KeepRenamed(ops, r, gone, 0);
  }

  /** A surviving value is measured by a removed operation exactly if its new position is lost in the second step. */
  lemma SecondGone(s: Draft, g1: set<nat>, kept1: seq<Operation>, second: set<nat>, k: nat)
    requires k < |s.values| && k !in g1 && Ready(kept1, CompactMap(s, g1))
    ensures s.Value(k) in Results(Pick(kept1, second)) <==> Rank(g1, k) in GoneValues(RenameOps(Pick(kept1, second), CompactMap(s, g1)))
  {
    hide Results, RenameOps, Pick, Ready, Rank;
    var r1, out, v := CompactMap(s, g1), Pick(kept1, second), s.Value(k);
    assert s.Handles().OwnsValue(v) && v in r1.values && r1.Value(v).index == Rank(g1, k);
    if v in Results(out) {
      RenamedResult(out, r1, v);
    }
    if Rank(g1, k) in GoneValues(RenameOps(out, r1)) {
      var w' :| w' in Results(RenameOps(out, r1)) && w'.index == Rank(g1, k);
      ResultsRenamed(out, r1);
      var j :| 0 <= j < |Results(out)| && RenameValues(Results(out), r1)[j] == w';
      var w := Results(out)[j];
      assert w in Results(out);
      PickReady(kept1, second, r1);
      ResultsReady(out, r1, w);
      RankInjective(g1, w.index, k);
    }
  }

  lemma PickReady(ops: seq<Operation>, gone: set<nat>, r: Renaming)
    requires Ready(ops, r)
    ensures Ready(Pick(ops, gone), r)
  {
    hide ReadyOp;
    KeptMembers(ops, gone, 0);
    var out := Pick(ops, gone);
    forall k | 0 <= k < |out|
      ensures ReadyOp(out[k], r)
    {
      assert out[k] in out;
      var j :| 0 <= j < |ops| && ops[j] == out[k];
    }
  }

  /** Renumbering twice is renumbering once. */
  lemma CompactTwice(s: Draft, s1: Draft, g1: set<nat>, g2: set<nat>, g: set<nat>)
    requires s1.id == s.id && s1.qubits == s.qubits && s1.params == s.params && s1.vars == s.vars && s1.values == Keep(s.values, g1)
    requires forall k: nat | k < |s.values| :: k in g <==> k in Both(g1, g2, |s.values|)
    ensures Combines(CompactMap(s, g1), CompactMap(s1, g2), CompactMap(s, g))
    ensures Keep(s1.values, g2) == Keep(s.values, g)
  {
    hide Keep, Rank, Both, KeepsFields;
    var a, b, r := CompactMap(s, g1), CompactMap(s1, g2), CompactMap(s, g);
    CompactKeepsFields(s, g1);
    CompactKeepsFields(s1, g2);
    CompactKeepsFields(s, g);
    forall v | v in r.values
      ensures b.Value(a.Value(v)) == r.Value(v)
    {
      var k := v.index;
      Kept(s.values, g1, k);
      RankTwice(g1, g2, |s.values|, k);
      SameRank(g, Both(g1, g2, |s.values|), |s.values|, k);
      assert a.Value(v) in b.values;
    }
    KeepTwice(s.values, g1, g2);
    SameKeepAll(s.values, g, Both(g1, g2, |s.values|));
  }

  lemma SameKeepAll<T>(s: seq<T>, a: set<nat>, b: set<nat>)
    requires forall k: nat | k < |s| :: k in a <==> k in b
    ensures Keep(s, a) == Keep(s, b)
  {
    SameKeep(s, a, b, 0);
  }

  /** If two successive deletions succeed, the batch deletion of the union succeeds and gives the same circuit. */
  lemma SuccessiveIsBatch(s: Draft, first: set<nat>, second: set<nat>)
    requires TopValid(s) && OwnFields(s) && Remove(s, first).1.Ok? && Remove(Remove(s, first).0, second).1.Ok?
    ensures var both := Both(first, second, |s.ops|);
            Remove(s, both) == (Remove(Remove(s, first).0, second).0, Ok(Pick(s.ops, both)))
  {
    hide Results, RenameOps, Keep, Pick, Both, Typed, Ready, CompactMap, SomeReads, Unused, TopValid, OwnFields, Remove, Combines, KeepsFields;
    FirstDeletion(s, first);
    var s1 := Deleted(s, first);
    DeletionIsExact(s1, second);
    var both := Both(first, second, |s.ops|);
    BothUnused(s, first, second);
    assert forall i | i in both :: i < |s.ops| by {
      DeletionIsExact(s, first);
    }
    DeletionIsExact(s, both);
    RenumberedIsValid(s, both);
    var g1, g2, g := GoneValues(Pick(s.ops, first)), GoneValues(Pick(s1.ops, second)), GoneValues(Pick(s.ops, both));
    forall k: nat | k < |s.values|
      ensures k in g <==> k in Both(g1, g2, |s.values|)
    {
      GoneTwice(s, first, second, k);
    }
    CompactTwice(s, s1, g1, g2, g);
    KeepTwice(s.ops, first, second);
    PickRenamed(Keep(s.ops, first), CompactMap(s, g1), second);
    RenameTwice(Keep(s.ops, both), CompactMap(s, g1), CompactMap(s1, g2), CompactMap(s, g));
  }
}
