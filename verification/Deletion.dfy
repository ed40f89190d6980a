/**
 Deleting top-level operations: the values they measured disappear and the remaining ones are
 renumbered in order. Deletion succeeds exactly when no kept operation reads a deleted value.
 */
module Deletion {
  import opened Prelude
  import opened Ir
  import opened Placement
  import opened Verifier
  import opened Builder
  import opened BuilderReach
  import opened Renaming
  import opened RenamingInvariance
  import opened Composition
  import BuilderSafety

  // ---- subsequences ---------------------------------------------------------------------------------

  /** The elements from position `i` on whose positions are not in `gone`. */
  function KeepFrom<T>(s: seq<T>, gone: set<nat>, i: nat): seq<T>
    requires i <= |s|
    decreases |s| - i
  {
    if i == |s| then [] else (if i in gone then [] else [s[i]]) + KeepFrom(s, gone, i + 1)
  }

  function Keep<T>(s: seq<T>, gone: set<nat>): seq<T> {
    KeepFrom(s, gone, 0)
  }

  /** The elements from position `i` on whose positions are in `gone`. */
  function PickFrom<T>(s: seq<T>, gone: set<nat>, i: nat): seq<T>
    requires i <= |s|
    decreases |s| - i
  {
    if i == |s| then [] else (if i in gone then [s[i]] else []) + PickFrom(s, gone, i + 1)
  }

  function Pick<T>(s: seq<T>, gone: set<nat>): seq<T> {
    PickFrom(s, gone, 0)
  }

  /** How many positions before `k` are kept: the new position of a kept `k`. */
  function Rank(gone: set<nat>, k: nat): nat {
    if k == 0 then 0 else Rank(gone, k - 1) + if k - 1 in gone then 0 else 1
  }

  lemma {:induction false} RankGrows(gone: set<nat>, a: nat, b: nat)
    requires a <= b
    ensures Rank(gone, a) <= Rank(gone, b)
    ensures a < b && a !in gone ==> Rank(gone, a) < Rank(gone, b)
    decreases b - a
  {
    if a < b {
      RankGrows(gone, a, b - 1);
    }
  }

  lemma {:induction false} KeptAt<T>(s: seq<T>, gone: set<nat>, i: nat, k: nat)
    requires i <= k < |s| && k !in gone
    ensures Rank(gone, i) <= Rank(gone, k) && Rank(gone, k) - Rank(gone, i) < |KeepFrom(s, gone, i)|
    ensures KeepFrom(s, gone, i)[Rank(gone, k) - Rank(gone, i)] == s[k]
    decreases |s| - i
  {
    if i < k {
      RankGrows(gone, i, k);
      RankGrows(gone, i + 1, k);
      KeptAt(s, gone, i + 1, k);
    }
  }

  lemma {:induction false} KeptFrom<T>(s: seq<T>, gone: set<nat>, i: nat, j: nat) returns (k: nat)
    requires i <= |s| && j < |KeepFrom(s, gone, i)|
    ensures i <= k < |s| && k !in gone && Rank(gone, k) == Rank(gone, i) + j && KeepFrom(s, gone, i)[j] == s[k]
    decreases |s| - i
  {
    if i !in gone && j == 0 {
      k := i;
    } else {
      k := KeptFrom(s, gone, i + 1, if i in gone then j else j - 1);
    }
  }

  lemma {:induction false} KeptLength<T>(s: seq<T>, gone: set<nat>, i: nat)
    requires i <= |s|
    ensures |KeepFrom(s, gone, i)| == Rank(gone, |s|) - Rank(gone, i)
    decreases |s| - i
  {
    if i < |s| {
      KeptLength(s, gone, i + 1);
    }
  }

  /** The kept element of position `k` is at position `Rank(k)`. */
  lemma Kept<T>(s: seq<T>, gone: set<nat>, k: nat)
    requires k < |s| && k !in gone
    ensures Rank(gone, k) < |Keep(s, gone)| && Keep(s, gone)[Rank(gone, k)] == s[k]
  {
    KeptAt(s, gone, 0, k);
  }

  /** `Rank` is the only order-preserving renumbering of the kept positions without gaps. */
  lemma RankIsUnique(gone: set<nat>, n: nat, f: nat -> nat, k: nat)
    requires forall a: nat, b: nat | a < b < n && a !in gone && b !in gone :: f(a) < f(b)
    requires forall a: nat | a < n && a !in gone :: f(a) < Rank(gone, n)
    requires k < n && k !in gone
    ensures f(k) == Rank(gone, k)
  {
    RankBelow(gone, n, f, k);
    RankAbove(gone, n, f, k);
  }

  lemma {:induction false} RankBelow(gone: set<nat>, n: nat, f: nat -> nat, k: nat)
    requires forall a: nat, b: nat | a < b < n && a !in gone && b !in gone :: f(a) < f(b)
    requires k < n && k !in gone
    ensures Rank(gone, k) <= f(k)
    decreases k
  {
    var j := k;
    while j > 0 && j - 1 in gone
      invariant 0 <= j <= k && Rank(gone, j) == Rank(gone, k)
    {
      j := j - 1;
    }
    if j > 0 {
      RankBelow(gone, n, f, j - 1);
    }
  }

  lemma {:induction false} RankAbove(gone: set<nat>, n: nat, f: nat -> nat, k: nat)
    requires forall a: nat, b: nat | a < b < n && a !in gone && b !in gone :: f(a) < f(b)
    requires forall a: nat | a < n && a !in gone :: f(a) < Rank(gone, n)
    requires k < n && k !in gone
    ensures f(k) <= Rank(gone, k)
    decreases n - k
  {
    var j := k + 1;
    while j < n && j in gone
      invariant k < j <= n && Rank(gone, j) == Rank(gone, k) + 1
    {
      j := j + 1;
    }
    if j < n {
      RankAbove(gone, n, f, j);
    }
  }

  // ---- deletion -----------------------------------------------------------------------------------------

  datatype RemoveError =
    | IndexOutOfBounds
    | ValueStillInUse
    | Remapping(remapping: RemapError)
    | Invalid

  /** Whether an operation reads `v`, at any depth. */
  predicate ReadsValue(op: Operation, v: ClassicalValue)
    decreases op
  {
    match op.instruction
    case Data(Store(_, e)) => v in e.Values()
    case Control(c) =>
      || (exists e | e in Heads(c) :: v in e.Values())
      || exists k | 0 <= k < |Bodies(c)| :: SomeReads(Bodies(c)[k], v)
    case _ => false
  }

  predicate SomeReads(ops: seq<Operation>, v: ClassicalValue)
    decreases ops
  {
    exists k | 0 <= k < |ops| :: ReadsValue(ops[k], v)
  }

  /** The table positions of the values that the removed operations measure. */
  function GoneValues(removed: seq<Operation>): set<nat> {
    set v | v in Results(removed) :: v.index
  }

  /** The surviving values of `s`, renumbered in order. */
  function CompactValues(s: Draft, gone: set<nat>): (m: map<ClassicalValue, ClassicalValue>)
    ensures forall v :: v in m <==> s.Handles().OwnsValue(v) && v.index !in gone
    ensures forall v | v in m :: m[v] == ClassicalValue(s.id, Rank(gone, v.index), v.ty)
  {
    map k | 0 <= k < |s.values| && k !in gone :: ClassicalValue(s.id, k, s.values[k]) := ClassicalValue(s.id, Rank(gone, k), s.values[k])
  }

  /** Everything stays but the values. */
  function CompactMap(s: Draft, gone: set<nat>): Renaming {
    HandleMap(Some(map q | q in s.qubits :: q := q), Some(seq(|s.params|, i requires 0 <= i < |s.params| => Index(i))), VarMap(s, s.id, 0), CompactValues(s, gone))
  }

  /** The operations that remain read none of the deleted values. */
  predicate Unused(kept: seq<Operation>, removed: seq<Operation>) {
    forall v | v in Results(removed) :: !SomeReads(kept, v)
  }

  /** Deletes the operations at the given top-level positions; any failure leaves the circuit as it was. */
  function Remove(s: Draft, gone: set<nat>): (Draft, Result<seq<Operation>, RemoveError>) {
    if gone == {} then (s, Ok([]))
    else if exists i | i in gone :: i >= |s.ops| then (s, Err(IndexOutOfBounds))
    else
      var removed, kept := Pick(s.ops, gone), Keep(s.ops, gone);
      if !Unused(kept, removed) then (s, Err(ValueStillInUse))
      else
        var values := GoneValues(removed);
        var ops := if values == {} then Ok(kept) else RemapOps(kept, CompactMap(s, values));
        if ops.Err? then (s, Err(Remapping(ops.error)))
        else
          var s' := s.(ops := ops.value, values := Keep(s.values, values));
          if Valid(s'.ops, s'.Handles()) then (s', Ok(removed)) else (s, Err(Invalid))
  }

  // ---- kept operations -------------------------------------------------------------------------------------

  lemma {:induction false} ResultsSplit(ops: seq<Operation>, gone: set<nat>, i: nat, v: ClassicalValue)
    requires i <= |ops|
    ensures v in Results(ops[i..]) <==> v in Results(KeepFrom(ops, gone, i)) || v in Results(PickFrom(ops, gone, i))
    decreases |ops| - i
  {
    hide ResultsOp;
    if i < |ops| {
      ResultsSplit(ops, gone, i + 1, v);
      assert ops[i..][0] == ops[i] && ops[i..][1..] == ops[i + 1..];
      var rest, out := KeepFrom(ops, gone, i + 1), PickFrom(ops, gone, i + 1);
      if i in gone {
        assert [ops[i]] + out == PickFrom(ops, gone, i) && PickFrom(ops, gone, i)[1..] == out;
        assert KeepFrom(ops, gone, i) == rest;
      } else {
        assert [ops[i]] + rest == KeepFrom(ops, gone, i) && KeepFrom(ops, gone, i)[1..] == rest;
        assert PickFrom(ops, gone, i) == out;
      }
    }
  }

  /** What the kept and removed operations measure stays distinct. */
  lemma {:induction false} FreshSplit(ops: seq<Operation>, gone: set<nat>, i: nat, defined: set<ClassicalValue>)
    requires i <= |ops| && Fresh(Results(ops[i..]), defined)
    ensures Fresh(Results(KeepFrom(ops, gone, i)), defined)
    ensures forall v | v in Results(KeepFrom(ops, gone, i)) :: v !in Results(PickFrom(ops, gone, i)) && v !in defined
    decreases |ops| - i
  {
    hide ResultsOp, Fresh;
    if i < |ops| {
      var rest, out := KeepFrom(ops, gone, i + 1), PickFrom(ops, gone, i + 1);
      var first := ResultsOp(ops[i]);
      assert ops[i..][0] == ops[i] && ops[i..][1..] == ops[i + 1..];
      FreshAppend(first, Results(ops[i + 1..]), defined);
      FreshSplit(ops, gone, i + 1, defined + ToSet(first));
      forall v | v in Results(rest) || v in Results(out)
        ensures v in Results(ops[i + 1..])
      {
        ResultsSplit(ops, gone, i + 1, v);
      }
      if i in gone {
        assert PickFrom(ops, gone, i) == [ops[i]] + out && PickFrom(ops, gone, i)[1..] == out && KeepFrom(ops, gone, i) == rest;
        FreshLess(Results(rest), defined, defined + ToSet(first));
      } else {
        assert KeepFrom(ops, gone, i) == [ops[i]] + rest && KeepFrom(ops, gone, i)[1..] == rest && PickFrom(ops, gone, i) == out;
        FreshAppend(first, Results(rest), defined);
        FreshOut(first, Results(ops[i + 1..]), defined);
      }
    } else {
      NothingFresh(defined);
    }
  }

  lemma NothingFresh(defined: set<ClassicalValue>)
    ensures Fresh([], defined) && Results([]) == []
  {
  }

  lemma FreshLess(vs: seq<ClassicalValue>, a: set<ClassicalValue>, b: set<ClassicalValue>)
    requires Fresh(vs, b) && a <= b
    ensures Fresh(vs, a)
  {
  }

  lemma FreshOut(first: seq<ClassicalValue>, rest: seq<ClassicalValue>, defined: set<ClassicalValue>)
    requires Fresh(first, defined) && Fresh(rest, defined + ToSet(first))
    ensures forall v | v in first :: v !in rest && v !in defined
  {
    assert forall k | 0 <= k < |rest| :: rest[k] !in ToSet(first);
    assert forall k | 0 <= k < |first| :: first[k] in ToSet(first) && first[k] !in defined;
  }

  /** A tree in scope stays in scope when values it does not read are taken away. */
  lemma {:induction false} ScopedLess(ops: seq<Operation>, a: set<ClassicalValue>, b: set<ClassicalValue>)
    requires Scoped(ops, a) && forall v | v in a && v !in b :: !SomeReads(ops, v)
    ensures Scoped(ops, b)
    decreases ops
  {
    hide ReadsValue;
    if ops != [] {
      forall v | v in a && v !in b
        ensures !ReadsValue(ops[0], v) && !SomeReads(ops[1..], v)
      {
        assert !SomeReads(ops, v);
        TailReads(ops, v);
      }
      ScopedLessOp(ops[0], a, b);
      ScopedLess(ops[1..], a + Produced(ops[0]), b + Produced(ops[0]));
    }
  }

  lemma TailReads(ops: seq<Operation>, v: ClassicalValue)
    requires ops != []
    ensures SomeReads(ops, v) <==> ReadsValue(ops[0], v) || SomeReads(ops[1..], v)
  {
    hide ReadsValue;
    if SomeReads(ops, v) {
      var k :| 0 <= k < |ops| && ReadsValue(ops[k], v);
      assert k > 0 ==> ops[1..][k - 1] == ops[k];
    }
    if SomeReads(ops[1..], v) {
      var k :| 0 <= k < |ops[1..]| && ReadsValue(ops[1..][k], v);
      assert ops[k + 1] == ops[1..][k];
    }
  }

  lemma {:induction false} ScopedLessOp(op: Operation, a: set<ClassicalValue>, b: set<ClassicalValue>)
    requires ScopedOp(op, a) && forall v | v in a && v !in b :: !ReadsValue(op, v)
    ensures ScopedOp(op, b)
    decreases op
  {
    if op.instruction.Control? {
      var c := op.instruction.control;
      forall k | 0 <= k < |Bodies(c)|
        ensures Scoped(Bodies(c)[k], b)
      {
        ScopedLess(Bodies(c)[k], a, b);
      }
      forall e | e in Heads(c)
        ensures e.Values() <= b
      {
        forall v | v in e.Values()
          ensures v in b
        {
          assert v !in b ==> !ReadsValue(op, v);
        }
      }
    } else if op.instruction.Data? && op.instruction.data.Store? {
      forall v | v in op.instruction.data.value.Values()
        ensures v in b
      {
        assert v !in b ==> !ReadsValue(op, v);
      }
    }
  }

  /** Kept operations are in scope without what the removed ones made available. */
  lemma {:induction false} KeptScoped(ops: seq<Operation>, gone: set<nat>, i: nat, a: set<ClassicalValue>, b: set<ClassicalValue>, removed: set<ClassicalValue>)
    requires i <= |ops| && Scoped(ops[i..], a) && (forall v | v in a && v !in b :: v in removed)
    requires forall v | v in removed :: !SomeReads(KeepFrom(ops, gone, i), v)
    requires forall v | v in Results(PickFrom(ops, gone, i)) :: v in removed
    ensures Scoped(KeepFrom(ops, gone, i), b)
    decreases |ops| - i
  {
    hide ReadsValue, ScopedOp, SomeReads, ResultsOp;
    if i < |ops| {
      var rest := KeepFrom(ops, gone, i + 1);
      assert ops[i..][0] == ops[i] && ops[i..][1..] == ops[i + 1..];
      if i in gone {
        assert PickFrom(ops, gone, i) == [ops[i]] + PickFrom(ops, gone, i + 1) && PickFrom(ops, gone, i)[1..] == PickFrom(ops, gone, i + 1);
        assert KeepFrom(ops, gone, i) == rest;
        ProducedMeasured(ops[i]);
        KeptScoped(ops, gone, i + 1, a + Produced(ops[i]), b, removed);
      } else {
        assert KeepFrom(ops, gone, i) == [ops[i]] + rest && KeepFrom(ops, gone, i)[1..] == rest;
        assert PickFrom(ops, gone, i) == PickFrom(ops, gone, i + 1);
        forall v | v in removed
          ensures !ReadsValue(ops[i], v) && !SomeReads(rest, v)
        {
          TailReads(KeepFrom(ops, gone, i), v);
        }
        ScopedLessOp(ops[i], a, b);
        KeptScoped(ops, gone, i + 1, a + Produced(ops[i]), b + Produced(ops[i]), removed);
      }
    }
  }

  lemma ProducedMeasured(op: Operation)
    ensures forall v | v in Produced(op) :: v in ResultsOp(op)
  {
  }

  lemma {:induction false} KeptMembers<T>(s: seq<T>, gone: set<nat>, i: nat)
    requires i <= |s|
    ensures forall x | x in KeepFrom(s, gone, i) :: x in s
    ensures forall x | x in PickFrom(s, gone, i) :: x in s
    decreases |s| - i
  {
    if i < |s| {
      KeptMembers(s, gone, i + 1);
    }
  }

  lemma KeptPlaced(ops: seq<Operation>, gone: set<nat>)
    requires Placed(ops, false, false)
    ensures Placed(Keep(ops, gone), false, false)
  {
    hide Keep;
    var kept := Keep(ops, gone);
    forall k | 0 <= k < |kept|
      ensures PlacedOp(kept[k], false, false, k + 1 == |kept|)
    {
      MembersOfKeep(ops, gone, kept[k]);
      var j :| 0 <= j < |ops| && ops[j] == kept[k];
      assert PlacedOp(ops[j], false, false, j + 1 == |ops|);
    }
  }

  lemma MembersOfKeep<T>(s: seq<T>, gone: set<nat>, x: T)
    requires x in Keep(s, gone)
    ensures x in s
  {
    KeptMembers(s, gone, 0);
  }

  /** Kept operations are accepted on their own. */
  lemma KeptVerified(s: Draft, gone: set<nat>)
    requires TopValid(s) && Unused(Keep(s.ops, gone), Pick(s.ops, gone))
    ensures Verify(Keep(s.ops, gone), s.Handles(), Verifier.State({}, {}), Verifier.Placing(false, false)).Ok?
    ensures Typed(s.ops, s.Handles()) && Typed(Keep(s.ops, gone), s.Handles())
    ensures forall v | v in Results(Keep(s.ops, gone)) :: v !in Results(Pick(s.ops, gone))
  {
    hide Verify, Results, Scoped, Placed, SomeReads, Fresh, KeepFrom, PickFrom;
    var h, st, p := s.Handles(), Verifier.State({}, {}), Verifier.Placing(false, false);
    ValidMeans(s);
    var kept := Keep(s.ops, gone);
    VerifyCharacterised(s.ops, h, st, p);
    VerifyCharacterised(kept, h, st, p);
    assert s.ops[0..] == s.ops;
    FreshSplit(s.ops, gone, 0, {});
    KeptScoped(s.ops, gone, 0, {}, {}, ToSet(Results(Pick(s.ops, gone))));
    KeptPlaced(s.ops, gone);
    forall k | 0 <= k < |kept|
      ensures TypedOp(kept[k], h)
    {
      MembersOfKeep(s.ops, gone, kept[k]);
      var j :| 0 <= j < |s.ops| && s.ops[j] == kept[k];
    }
  }

  /** Operations that neither read nor measure a deleted value have entries for everything they mention. */
  lemma {:induction false} SurvivorReady(ops: seq<Operation>, h: Handles, r: Renaming)
    requires Typed(ops, h) && Constructible(ops) && FieldsReady(ops, r) && forall v | h.OwnsVar(v) :: v in r.vars
    requires forall v | h.OwnsValue(v) && v !in r.values :: !SomeReads(ops, v) && v !in Results(ops)
    ensures Ready(ops, r)
    decreases ops
  {
    hide ReadsValue, ResultsOp, TypedOp, ConstructibleOp, FieldsReadyOp, ReadyOp;
    if ops != [] {
      assert TypedOp(ops[0], h) && ConstructibleOp(ops[0]) && FieldsReadyOp(ops[0], r);
      TypedHead(ops, h);
      forall v | h.OwnsValue(v) && v !in r.values
        ensures !ReadsValue(ops[0], v) && v !in ResultsOp(ops[0]) && !SomeReads(ops[1..], v) && v !in Results(ops[1..])
      {
        TailReads(ops, v);
      }
      SurvivorReadyOp(ops[0], h, r);
      SurvivorReady(ops[1..], h, r);
      ReadyHead(ops, r);
    }
  }

  lemma {:induction false} SurvivorReadyOp(op: Operation, h: Handles, r: Renaming)
    requires TypedOp(op, h) && ConstructibleOp(op) && FieldsReadyOp(op, r) && forall v | h.OwnsVar(v) :: v in r.vars
    requires forall v | h.OwnsValue(v) && v !in r.values :: !ReadsValue(op, v) && v !in ResultsOp(op)
    ensures ReadyOp(op, r)
    decreases op
  {
    if op.instruction.Control? {
      var c := op.instruction.control;
      forall k | 0 <= k < |Bodies(c)|
        ensures Ready(Bodies(c)[k], r)
      {
        forall v | h.OwnsValue(v) && v !in r.values
          ensures !SomeReads(Bodies(c)[k], v) && v !in Results(Bodies(c)[k])
        {
          assert !ReadsValue(op, v);
          if v in Results(Bodies(c)[k]) {
            BuilderSafety.BodyInResults(c, 0, k, v);
          }
        }
        SurvivorReady(Bodies(c)[k], h, r);
      }
      forall e | e in Heads(c)
        ensures ReadyExpr(e, r)
      {
        forall v | v in e.Values()
          ensures v in r.values
        {
          assert h.OwnsExpr(e);
          assert v !in r.values ==> !ReadsValue(op, v);
        }
      }
    } else if op.instruction.Data? && op.instruction.data.Store? {
      forall v | v in op.instruction.data.value.Values()
        ensures v in r.values
      {
        assert h.OwnsExpr(op.instruction.data.value);
        assert v !in r.values ==> !ReadsValue(op, v);
      }
    }
  }

  lemma CompactIsSafe(s: Draft, gone: set<nat>)
    ensures CompactMap(s, gone).Safe()
    ensures CompactMap(s, gone).Between(s.Handles(), s.(values := Keep(s.values, gone)).Handles())
  {
    hide Keep;
    var r, h' := CompactMap(s, gone), s.(values := Keep(s.values, gone)).Handles();
    forall v, w | v in r.values && w in r.values && r.values[v] == r.values[w]
      ensures v == w
    {
      if v.index < w.index {
        RankGrows(gone, v.index, w.index);
      } else if w.index < v.index {
        RankGrows(gone, w.index, v.index);
      }
    }
    forall v | v in r.values
      ensures h'.OwnsValue(r.values[v])
    {
      Kept(s.values, gone, v.index);
    }
  }

  /** A deleted table position belongs to a value that a removed operation measured. */
  lemma GoneIsMeasured(s: Draft, removed: seq<Operation>, v: ClassicalValue)
    requires Typed(removed, s.Handles()) && s.Handles().OwnsValue(v)
    ensures v.index in GoneValues(removed) <==> v in Results(removed)
  {
    hide Results, Typed;
    if v.index in GoneValues(removed) {
      var w :| w in Results(removed) && w.index == v.index;
      ResultsOwned(removed, s.Handles(), w);
    }
  }

  lemma PickTyped(ops: seq<Operation>, gone: set<nat>, h: Handles)
    requires Typed(ops, h)
    ensures Typed(Pick(ops, gone), h)
  {
    hide TypedOp;
    KeptMembers(ops, gone, 0);
    var out := Pick(ops, gone);
    forall k | 0 <= k < |out|
      ensures TypedOp(out[k], h)
    {
      assert out[k] in out;
      var j :| 0 <= j < |ops| && ops[j] == out[k];
    }
  }

  lemma KeepFields(ops: seq<Operation>, gone: set<nat>, r: Renaming)
    requires Constructible(ops) && FieldsReady(ops, r)
    ensures Constructible(Keep(ops, gone)) && FieldsReady(Keep(ops, gone), r)
  {
    hide ConstructibleOp, FieldsReadyOp;
    KeptMembers(ops, gone, 0);
    var kept := Keep(ops, gone);
    forall k | 0 <= k < |kept|
      ensures ConstructibleOp(kept[k]) && FieldsReadyOp(kept[k], r)
    {
      assert kept[k] in kept;
      var j :| 0 <= j < |ops| && ops[j] == kept[k];
    }
  }

  /** The kept operations, renumbered, form a valid circuit. */
  lemma RenumberedIsValid(s: Draft, gone: set<nat>)
    requires TopValid(s) && OwnFields(s)
    requires Unused(Keep(s.ops, gone), Pick(s.ops, gone))
    ensures var (kept, values) := (Keep(s.ops, gone), GoneValues(Pick(s.ops, gone)));
            && Ready(kept, CompactMap(s, values)) && RemapOps(kept, CompactMap(s, values)) == Ok(RenameOps(kept, CompactMap(s, values)))
            && TopValid(s.(ops := RenameOps(kept, CompactMap(s, values)), values := Keep(s.values, values)))
  {
    hide Verify, Results, SomeReads, Keep, Pick, WellMade, Typed, RemapOps, RenameOps, Ready, Constructible, FieldsReady;
    var kept, removed := Keep(s.ops, gone), Pick(s.ops, gone);
    var values := GoneValues(removed);
    var r, h := CompactMap(s, values), s.Handles();
    var s' := s.(ops := RenameOps(kept, r), values := Keep(s.values, values));
    var st, p := Verifier.State({}, {}), Verifier.Placing(false, false);
    KeptVerified(s, gone);
    PickTyped(s.ops, gone, h);
    WellMadeIsReady(s.ops, set q | q in s.qubits, |s.params|, r);
    KeepFields(s.ops, gone, r);
    CompactIsSafe(s, values);
    forall v | h.OwnsValue(v) && v !in r.values
      ensures !SomeReads(kept, v) && v !in Results(kept)
    {
      GoneIsMeasured(s, removed, v);
    }
    SurvivorReady(kept, h, r);
    RemapIsRename(kept, r);
    VerificationIsInvariant(kept, r, h, s'.Handles(), st, p);
    assert ImageState(st, r) == st;
    RenumberedCovers(s, gone);
    TopScopes(s);
    ValidMeans(s');
  }

  /** Every surviving table entry is still measured. */
  lemma RenumberedCovers(s: Draft, gone: set<nat>)
    requires TopValid(s) && Typed(s.ops, s.Handles())
    ensures var values := GoneValues(Pick(s.ops, gone));
            AllMeasured(s.(ops := RenameOps(Keep(s.ops, gone), CompactMap(s, values)), values := Keep(s.values, values)))
  {
    hide Verify, Results, Typed, RenameOps;
    var kept, removed := Keep(s.ops, gone), Pick(s.ops, gone);
    var values := GoneValues(removed);
    var r := CompactMap(s, values);
    var s' := s.(ops := RenameOps(kept, r), values := Keep(s.values, values));
    PickTyped(s.ops, gone, s.Handles());
    TopScopes(s);
    ValidMeans(s);
    assert s.ops[0..] == s.ops;
    forall j | 0 <= j < |s'.values|
      ensures s'.Value(j) in Results(s'.ops)
    {
      var k := KeptFrom(s.values, values, 0, j);
      var v := s.Value(k);
      GoneIsMeasured(s, removed, v);
      ResultsSplit(s.ops, gone, 0, v);
      RenamedResult(kept, r, v);
      assert s.Handles().OwnsValue(v) && r.Value(v) == s'.Value(j);
    }
  }

  /** With nothing to delete from the value table, renumbering changes nothing. */
  lemma NothingGone(s: Draft, ops: seq<Operation>)
    requires Typed(ops, s.Handles())
    ensures RenameOps(ops, CompactMap(s, {})) == ops && Keep(s.values, {}) == s.values
  {
    hide RenameOps, Typed, CompactMap, Fixes, KeepsFields;
    CompactKeepsFields(s, {});
    CompactFixes(s);
    NothingToRename(ops, s.Handles(), CompactMap(s, {}));
    KeepAll(s.values, 0);
  }

  lemma CompactKeepsFields(s: Draft, gone: set<nat>)
    ensures KeepsFields(CompactMap(s, gone))
  {
  }

  lemma CompactFixes(s: Draft)
    ensures Fixes(CompactMap(s, {}), s.Handles())
  {
    var r := CompactMap(s, {});
    forall k | 0 <= k < |s.values|
      ensures r.Value(ClassicalValue(s.id, k, s.values[k])) == ClassicalValue(s.id, k, s.values[k])
    {
      RankOfAll(k);
      assert s.Handles().OwnsValue(ClassicalValue(s.id, k, s.values[k]));
    }
    forall k | 0 <= k < |s.vars|
      ensures r.Var(ClassicalVar(s.id, k, s.vars[k])) == ClassicalVar(s.id, k, s.vars[k])
    {
      assert s.Handles().OwnsVar(ClassicalVar(s.id, k, s.vars[k]));
    }
  }

  lemma {:induction false} RankOfAll(k: nat)
    ensures Rank({}, k) == k
    decreases k
  {
    if k > 0 {
      RankOfAll(k - 1);
    }
  }

  lemma {:induction false} KeepAll<T>(s: seq<T>, i: nat)
    requires i <= |s|
    ensures KeepFrom(s, {}, i) == s[i..] && PickFrom(s, {}, i) == []
    decreases |s| - i
  {
    if i < |s| {
      KeepAll(s, i + 1);
    }
  }

  /** The circuit after a deletion. */
  function Deleted(s: Draft, gone: set<nat>): Draft {
    var values := GoneValues(Pick(s.ops, gone));
    s.(ops := RenameOps(Keep(s.ops, gone), CompactMap(s, values)), values := Keep(s.values, values))
  }

  /**
   Deletion from a valid circuit succeeds exactly if every position exists and no kept operation reads
   a value that a removed one measures. It then returns the removed operations, keeps the others in
   order under the renumbering, and the circuit is still valid; a failure changes nothing.
   */
  lemma DeletionIsExact(s: Draft, gone: set<nat>)
    requires TopValid(s) && OwnFields(s)
    ensures Remove(s, gone).1.Ok? <==> (forall i | i in gone :: i < |s.ops|) && Unused(Keep(s.ops, gone), Pick(s.ops, gone))
    ensures Remove(s, gone).1.Ok? ==> Remove(s, gone) == (Deleted(s, gone), Ok(Pick(s.ops, gone))) && TopValid(Deleted(s, gone))
    ensures Remove(s, gone).1.Err? ==> Remove(s, gone).0 == s
  {
    hide Verify, Results, SomeReads, Keep, Pick, WellMade, Typed, RemapOps, RenameOps, CompactMap;
    var kept, removed := Keep(s.ops, gone), Pick(s.ops, gone);
    if gone == {} {
      EmptyDeletion(s);
    } else if Unused(kept, removed) {
      RenumberedIsValid(s, gone);
      KeptVerified(s, gone);
      if GoneValues(removed) == {} {
        NothingGone(s, kept);
      }
    }
  }

  lemma EmptyDeletion(s: Draft)
    requires TopValid(s)
    ensures Deleted(s, {}) == s && Pick(s.ops, {}) == [] && Unused(Keep(s.ops, {}), [])
  {
    hide Verify, RenameOps, Typed;
    KeepAll(s.ops, 0);
    TopScopes(s);
    ValidMeans(s);
    VerifyCharacterised(s.ops, s.Handles(), Verifier.State({}, {}), Verifier.Placing(false, false));
    NothingGone(s, s.ops);
    assert GoneValues([]) == {};
  }
}
