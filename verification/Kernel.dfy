/**
 The in-place gate kernels: each iteration reads and overwrites the rows of one index, and the
 whole sweep leaves the embedded gate applied to the old matrix. The one- and two-qubit kernels
 compute the same result with their own index arithmetic.
 */
module Kernel {
  import opened Prelude
  import opened Bits
  import opened Linear
  import opened Embedding

  /** The contents of a matrix in memory, row by row. */
  ghost function Rows(a: array2<C>): (m: Mat)
    reads a
    ensures |m| == a.Length0 && Shape(m, a.Length1)
    ensures forall r, c | 0 <= r < a.Length0 && 0 <= c < a.Length1 :: m[r][c] == a[r, c]
  {
    seq(a.Length0, r requires 0 <= r < a.Length0 reads a =>
      seq(a.Length1, c requires 0 <= c < a.Length1 reads a => a[r, c]))
  }

  /** The column `k` of the rows listed in `rows`. */
  ghost function Picked(m: Mat, rows: seq<nat>, k: nat): (v: Vec)
    requires forall x | 0 <= x < |rows| :: rows[x] < |m| && k < |m[rows[x]]|
    ensures |v| == |rows|
  {
    seq(|rows|, x requires 0 <= x < |rows| => m[rows[x]][k])
  }

  /** The rows that iteration `i` touches, by gate index. */
  function RowsOf(i: nat, bits: seq<nat>, n: nat): (rows: seq<nat>)
    requires Targets(bits, n) && |bits| <= n && i < Pow2(n - |bits|)
    ensures |rows| == Pow2(|bits|)
    ensures forall g | 0 <= g < |rows| :: rows[g] == Row(i, g, bits) && rows[g] < Pow2(n)
  {
    assert forall g: nat :: Row(i, g, bits) < Pow2(n) by {
      forall g: nat
        ensures Row(i, g, bits) < Pow2(n)
      {
        RowBelow(i, g, bits, n);
      }
    }
    seq(Pow2(|bits|), g requires 0 <= g < Pow2(|bits|) => Row(i, g, bits))
  }

  /** On a row of iteration `i` the embedded gate is the product of the gate with that iteration's rows. */
  lemma EmbeddedAtRow(gate: Mat, bits: seq<nat>, m: Mat, n: nat, q: nat, i: nat, g: nat, c: nat)
    requires Fits(gate, bits, m, n, q) && |bits| <= n && i < Pow2(n - |bits|) && g < Pow2(|bits|) && c < q
    ensures Row(i, g, bits) < Pow2(n)
    ensures Embedded(gate, bits, m, n, q)[Row(i, g, bits)][c] == Dot(gate[g], Picked(m, RowsOf(i, bits, n), c), |gate|)
  {
    hide Plus, Times, Combine, GateIndex, SetBits, Pow2, Row, Dot;
    var r := Row(i, g, bits);
    RowBelow(i, g, bits, n);
    RowIndex(i, g, g, bits, n);
    var rows := Gather(m, bits, n, r);
    CombineAt(gate[g], rows, q, c);
    forall h | 0 <= h < Pow2(|bits|)
      ensures Column(rows, c)[h] == Picked(m, RowsOf(i, bits, n), c)[h]
    {
      RowIndex(i, g, h, bits, n);
    }
    assert Column(rows, c) == Picked(m, RowsOf(i, bits, n), c);
  }

  /** An iteration touches exactly the rows it owns. */
  lemma OwnRows(i: nat, bits: seq<nat>, n: nat, r: nat)
    requires Targets(bits, n) && |bits| <= n && i < Pow2(n - |bits|) && r < Pow2(n)
    ensures r in RowsOf(i, bits, n) <==> Iteration(r, bits) == i
    ensures r in RowsOf(i, bits, n) ==> GateIndex(r, bits) < Pow2(|bits|) && RowsOf(i, bits, n)[GateIndex(r, bits)] == r
  {
    hide GateIndex, Row, Iteration, Pow2;
    RowsCover(r, bits, n);
    var j, g := Iteration(r, bits), GateIndex(r, bits);
    if j == i {
      assert RowsOf(i, bits, n)[g] == r;
    }
    if r in RowsOf(i, bits, n) {
      var h :| 0 <= h < Pow2(|bits|) && RowsOf(i, bits, n)[h] == r;
      RowsAreDisjoint(i, h, j, g, bits, n);
    }
  }

  lemma RowsDistinct(i: nat, bits: seq<nat>, n: nat)
    requires Targets(bits, n) && |bits| <= n && i < Pow2(n - |bits|)
    ensures Distinct(RowsOf(i, bits, n)) && Below(RowsOf(i, bits, n), Pow2(n))
  {
    hide GateIndex, Row, Iteration, Pow2;
    var rows := RowsOf(i, bits, n);
    forall g, h | 0 <= g < h < |rows|
      ensures rows[g] != rows[h]
    {
      if rows[g] == rows[h] {
        RowsAreDisjoint(i, g, i, h, bits, n);
      }
    }
  }

  // ---- one column of one iteration ------------------------------------------------------------------

  /** Column `k` of the listed rows was replaced by the gate applied to it; nothing else changed. */
  ghost predicate ColumnDone(before: Mat, after: Mat, gate: Mat, rows: seq<nat>, k: nat, q: nat)
    requires |before| == |after| && Shape(before, q) && Shape(after, q) && k < q && Below(rows, |before|)
    requires |gate| == |rows| && Shape(gate, |gate|)
  {
    && (forall x | 0 <= x < |rows| :: after[rows[x]][k] == Dot(gate[x], Picked(before, rows, k), |gate|))
    && (forall r, c | 0 <= r < |after| && 0 <= c < q && (c != k || r !in rows) :: after[r][c] == before[r][c])
  }

  /**
   The state of a sweep over a matrix that started as `m`: the iterations in `done` are finished,
   iteration `current` has finished the columns before `k`, and every other row is untouched.
   */
  ghost predicate Swept(now: Mat, gate: Mat, bits: seq<nat>, m: Mat, n: nat, q: nat, done: set<nat>, current: nat, k: nat)
    requires Fits(gate, bits, m, n, q) && |now| == Pow2(n) && Shape(now, q)
  {
    forall r: nat, c: nat | r < |now| && c < q ::
      now[r][c] == if Iteration(r, bits) in done || (Iteration(r, bits) == current && c < k)
                   then Embedded(gate, bits, m, n, q)[r][c] else m[r][c]
  }

  /** The first `k` iterations. */
  ghost function Before(k: nat): (s: set<nat>)
    ensures forall x: nat :: x in s <==> x < k
  {
    if k == 0 then {} else Before(k - 1) + {k - 1}
  }

  /** One more column of the current iteration. */
  lemma SweepStep(before: Mat, after: Mat, gate: Mat, bits: seq<nat>, m: Mat, n: nat, q: nat, done: set<nat>, i: nat, k: nat)
    requires Fits(gate, bits, m, n, q) && |bits| <= n && i < Pow2(n - |bits|) && k < q && i !in done
    requires |before| == |after| == Pow2(n) && Shape(before, q) && Shape(after, q)
    requires Swept(before, gate, bits, m, n, q, done, i, k)
    requires ColumnDone(before, after, gate, RowsOf(i, bits, n), k, q)
    ensures Swept(after, gate, bits, m, n, q, done, i, k + 1)
  {
    hide Plus, Times, Combine, GateIndex, Pow2, Row, Dot, Iteration, Embedded;
    var rows := RowsOf(i, bits, n);
    assert Picked(before, rows, k) == Picked(m, rows, k) by {
      forall x | 0 <= x < |rows|
        ensures before[rows[x]][k] == m[rows[x]][k]
      {
        OwnRows(i, bits, n, rows[x]);
      }
    }
    forall r: nat, c: nat | r < |after| && c < q
      ensures after[r][c] == if Iteration(r, bits) in done || (Iteration(r, bits) == i && c < k + 1)
                             then Embedded(gate, bits, m, n, q)[r][c] else m[r][c]
    {
      OwnRows(i, bits, n, r);
      if r in rows && c == k {
        EmbeddedAtRow(gate, bits, m, n, q, i, GateIndex(r, bits), c);
      }
    }
  }

  /** When every iteration is done, the matrix is the embedded gate applied to the old one. */
  lemma SweepComplete(now: Mat, gate: Mat, bits: seq<nat>, m: Mat, n: nat, q: nat, done: set<nat>, i: nat)
    requires Fits(gate, bits, m, n, q) && |now| == Pow2(n) && Shape(now, q)
    requires |bits| <= n && forall j: nat | j < Pow2(n - |bits|) :: j in done
    requires Swept(now, gate, bits, m, n, q, done, i, 0)
    ensures now == Embedded(gate, bits, m, n, q)
  {
    hide Iteration, Embedded, Pow2, GateIndex, Row;
    var e := Embedded(gate, bits, m, n, q);
    forall r: nat | r < |now|
      ensures now[r] == e[r]
    {
      RowsCover(r, bits, n);
    }
    assert now == e;
  }

  /** Distinct bits below `n` are at most `n` many. */
  lemma FewTargets(bits: seq<nat>, n: nat)
    requires Targets(bits, n)
    ensures |bits| <= n
  {
    RowsCover(0, bits, n);
  }

  lemma {:induction false} ShrPow2(n: nat, k: nat)
    requires k <= n
    ensures Shr(Pow2(n), k) == Pow2(n - k)
    decreases k
  {
    if k > 0 {
      ShrPow2(n - 1, k - 1);
    }
  }

  // ---- the general kernel -----------------------------------------------------------------------

  /** The inner loop: a row of the gate times the gathered column. */
  method Accumulate(row: Vec, input: array<C>) returns (sum: C)
    requires |row| == input.Length
    ensures sum == Dot(row, input[..], |row|)
  {
    hide Plus, Times;
    sum := ZERO;
    for c := 0 to |row|
      invariant sum == Dot(row, input[..], c)
    {
      sum := Plus(sum, Times(row[c], input[c]));
    }
  }

  /** The rows are read first, then overwritten with the gate's combinations. */
  method ProcessColumn(a: array2<C>, gate: Mat, rows: seq<nat>, input: array<C>, k: nat)
    requires k < a.Length1 && Distinct(rows) && Below(rows, a.Length0)
    requires |gate| == |rows| == input.Length && Shape(gate, |gate|)
    modifies a, input
    ensures ColumnDone(old(Rows(a)), Rows(a), gate, rows, k, a.Length1)
  {
    hide Plus, Times, Dot;
    ghost var m := Rows(a);
    ghost var v := Picked(m, rows, k);
    for g := 0 to |rows|
      invariant input[..g] == v[..g]
      invariant forall r, c | 0 <= r < a.Length0 && 0 <= c < a.Length1 :: a[r, c] == m[r][c]
    {
      input[g] := a[rows[g], k];
    }
    assert input[..] == v;
    for x := 0 to |rows|
      invariant input[..] == v
      invariant forall y | 0 <= y < x :: a[rows[y], k] == Dot(gate[y], v, |gate|)
      invariant forall r, c | 0 <= r < a.Length0 && 0 <= c < a.Length1 && (c != k || r !in rows) :: a[r, c] == m[r][c]
    {
      var sum := Accumulate(gate[x], input);
      a[rows[x], k] := sum;
    }
  }

  /** The row offset of every gate index. */
  method GateOffsets(bits: seq<nat>) returns (offsets: seq<nat>)
    ensures |offsets| == Pow2(|bits|)
    ensures forall g | 0 <= g < |offsets| :: offsets[g] == Offset(g, bits)
  {
    offsets := [];
    var gateDim := Shl(1, |bits|);
    ShlPow2(|bits|);
    for g := 0 to gateDim
      invariant |offsets| == g
      invariant forall h | 0 <= h < g :: offsets[h] == Offset(h, bits)
    {
      var offset: nat := 0;
      for j := 0 to |bits|
        invariant offset == Offset(g, bits[..j])
      {
        assert bits[..j + 1][..j] == bits[..j];
        ShiftedBit(g, j);
        if And(Shr(g, j), 1) == 1 {
          offset := Or(offset, Shl(1, bits[j]));
        }
      }
      assert bits[..|bits|] == bits;
      offsets := offsets + [offset];
    }
  }

  /** One iteration: expand the index, then process every column. The iterations before it may be any set. */
  method ProcessIndex(a: array2<C>, gate: Mat, bits: seq<nat>, sorted: seq<nat>, offsets: seq<nat>, input: array<C>,
                      i: nat, ghost m: Mat, ghost n: nat, ghost done: set<nat>)
    requires Fits(gate, bits, m, n, a.Length1) && a.Length0 == Pow2(n) && |bits| <= n && i < Pow2(n - |bits|)
    requires sorted == Sorted(bits) && |offsets| == Pow2(|bits|) == input.Length && i !in done
    requires forall g | 0 <= g < |offsets| :: offsets[g] == Offset(g, bits)
    requires Swept(Rows(a), gate, bits, m, n, a.Length1, done, i, 0)
    modifies a, input
    ensures Swept(Rows(a), gate, bits, m, n, a.Length1, done + {i}, i, 0)
  {
    hide Plus, Times, Combine, GateIndex, Pow2, Iteration, Embedded, Sorted, Offset, Or, And, AndNot, Shl;
    var base := i;
    for s := 0 to |sorted|
      invariant base == InsertZeros(i, sorted[..s])
    {
      assert sorted[..s + 1][..s] == sorted[..s];
      var mask := Mask(sorted[s]);
      var left := Shl(AndNot(base, mask), 1);
      var right := And(base, mask);
      base := Or(left, right);
    }
    assert sorted[..|sorted|] == sorted;
    var rows: seq<nat> := [];
    for g := 0 to |offsets|
      invariant rows == RowsOf(i, bits, n)[..g]
    {
      rows := rows + [Or(base, offsets[g])];
    }
    assert rows == RowsOf(i, bits, n);
    RowsDistinct(i, bits, n);
    for k := 0 to a.Length1
      invariant Swept(Rows(a), gate, bits, m, n, a.Length1, done, i, k)
    {
      ghost var before := Rows(a);
      ProcessColumn(a, gate, rows, input, k);
      SweepStep(before, Rows(a), gate, bits, m, n, a.Length1, done, i, k);
    }
  }

  method ApplyGeneralGate(a: array2<C>, gate: Mat, bits: seq<nat>, ghost n: nat)
    requires a.Length0 == Pow2(n) && Targets(bits, n) && |gate| == Pow2(|bits|) && Shape(gate, Pow2(|bits|))
    modifies a
    ensures Rows(a) == Embedded(gate, bits, old(Rows(a)), n, a.Length1)
  {
    hide Plus, Times, Combine, GateIndex, Pow2, Iteration, Embedded, Sorted, Offset, Shr;
    ghost var m := Rows(a);
    FewTargets(bits, n);
    var sorted := Sorted(bits);
    var offsets := GateOffsets(bits);
    var input := new C[|offsets|](_ => ZERO);
    ShrPow2(n, |bits|);
    var limit := Shr(a.Length0, |bits|);
    for i := 0 to limit
      invariant Swept(Rows(a), gate, bits, m, n, a.Length1, Before(i), i, 0)
    {
      ProcessIndex(a, gate, bits, sorted, offsets, input, i, m, n, Before(i));
    }
    SweepComplete(Rows(a), gate, bits, m, n, a.Length1, Before(limit), limit);
  }

  // ---- the one-qubit kernel -----------------------------------------------------------------------

  lemma DotTwo(row: Vec, v: Vec)
    requires |row| == |v| == 2
    ensures Dot(row, v, 2) == Plus(Times(row[0], v[0]), Times(row[1], v[1]))
  {
    hide Plus, Times;
    Units(Times(row[0], v[0]));
    assert Dot(row, v, 2) == Plus(Plus(Dot(row, v, 0), Times(row[0], v[0])), Times(row[1], v[1]));
  }

  /** One column of a pair of rows. */
  method MixColumn(a: array2<C>, gate: Mat, r0: nat, r1: nat, k: nat)
    requires r0 < a.Length0 && r1 < a.Length0 && r0 != r1 && k < a.Length1 && |gate| == 2 && Shape(gate, 2)
    modifies a
    ensures ColumnDone(old(Rows(a)), Rows(a), gate, [r0, r1], k, a.Length1)
  {
    hide Plus, Times, Dot;
    ghost var v := Picked(Rows(a), [r0, r1], k);
    var v0, v1 := a[r0, k], a[r1, k];
    a[r0, k] := Plus(Times(gate[0][0], v0), Times(gate[0][1], v1));
    a[r1, k] := Plus(Times(gate[1][0], v0), Times(gate[1][1], v1));
    DotTwo(gate[0], v);
    DotTwo(gate[1], v);
  }

  lemma PairRowsOfBlock(b: nat, j: nat, bit: nat, n: nat)
    requires bit < n && j < Pow2(bit) && 2 * (Pow2(bit) * b) < Pow2(n)
    ensures Pow2(bit) * b + j < Pow2(n - 1) && Targets([bit], n)
    ensures var x := 2 * (Pow2(bit) * b) + j;
            RowsOf(Pow2(bit) * b + j, [bit], n) == [x, x + Pow2(bit)]
    ensures 2 * (Pow2(bit) * (b + 1)) <= Pow2(n)
  {
    BlocksFit(b, bit, n);
    assert Pow2(n) == 2 * Pow2(n - 1);
    BlockRows(b, j, bit);
    assert Pow2(1) == 2;
  }

  lemma Doubled(s: nat, b: nat)
    ensures (2 * s) * b == 2 * (s * b) && s * (b + 1) == s * b + s
  {
  }

  /** A block of `2 * 2^bit` rows that starts inside the matrix ends inside it. */
  lemma {:induction false} BlocksFit(b: nat, bit: nat, n: nat)
    requires bit < n && 2 * (Pow2(bit) * b) < Pow2(n)
    ensures 2 * (Pow2(bit) * b) + 2 * Pow2(bit) <= Pow2(n)
    ensures Pow2(bit) * (b + 1) == Pow2(bit) * b + Pow2(bit)
    decreases bit
  {
    Doubled(Pow2(bit), b);
    assert Pow2(n) == 2 * Pow2(n - 1);
    if bit > 0 {
      assert Pow2(bit) == 2 * Pow2(bit - 1);
      Doubled(Pow2(bit - 1), b);
      hide Pow2;
      BlocksFit(b, bit - 1, n - 1);
    }
  }

  /** All columns of one pair of rows. */
  method MixRows(a: array2<C>, gate: Mat, bits: seq<nat>, r0: nat, r1: nat, ghost i: nat, ghost m: Mat, ghost n: nat, ghost done: set<nat>)
    requires Fits(gate, bits, m, n, a.Length1) && a.Length0 == Pow2(n) && |bits| <= n && i < Pow2(n - |bits|)
    requires |gate| == 2 && i !in done && RowsOf(i, bits, n) == [r0, r1]
    requires Swept(Rows(a), gate, bits, m, n, a.Length1, done, i, 0)
    modifies a
    ensures Swept(Rows(a), gate, bits, m, n, a.Length1, done + {i}, i + 1, 0)
  {
    hide Plus, Times, Combine, GateIndex, Pow2, Iteration, Embedded, Row, ColumnDone;
    RowsDistinct(i, bits, n);
    assert [r0, r1][0] != [r0, r1][1];
    assert [r0, r1][0] < Pow2(n) && [r0, r1][1] < Pow2(n);
    for k := 0 to a.Length1
      invariant Swept(Rows(a), gate, bits, m, n, a.Length1, done, i, k)
    {
      ghost var before := Rows(a);
      MixColumn(a, gate, r0, r1, k);
      SweepStep(before, Rows(a), gate, bits, m, n, a.Length1, done, i, k);
    }
  }

  /** One block: `step` pairs of rows, each pair `step` apart. */
  method ProcessBlock(a: array2<C>, gate: Mat, bit: nat, step: nat, i: nat, ghost b: nat, ghost m: Mat, ghost n: nat)
    requires a.Length0 == Pow2(n) && bit < n && step == Pow2(bit) && i == 2 * (step * b) && i < Pow2(n)
    requires Fits(gate, [bit], m, n, a.Length1) && |gate| == 2
    requires Swept(Rows(a), gate, [bit], m, n, a.Length1, Before(step * b), step * b, 0)
    modifies a
    ensures Swept(Rows(a), gate, [bit], m, n, a.Length1, Before(step * b + step), step * b + step, 0)
  {
    hide Plus, Times, Combine, GateIndex, Pow2, Iteration, Embedded, Row;
    ghost var first := step * b;
    for j := 0 to step
      invariant Swept(Rows(a), gate, [bit], m, n, a.Length1, Before(first + j), first + j, 0)
    {
      PairRowsOfBlock(b, j, bit, n);
      MixRows(a, gate, [bit], i + j, i + j + step, first + j, m, n, Before(first + j));
    }
  }

  method ApplySingleQubitGate(a: array2<C>, gate: Mat, bit: nat, ghost n: nat)
    requires a.Length0 == Pow2(n) && bit < n && |gate| == Pow2(|[bit]|) && Shape(gate, Pow2(|[bit]|))
    modifies a
    ensures Targets([bit], n) && Rows(a) == Embedded(gate, [bit], old(Rows(a)), n, a.Length1)
  {
    hide Plus, Times, Combine, GateIndex, Pow2, Iteration, Embedded, Shl, Row;
    assert Pow2(|[bit]|) == 2 by { Pow2One(); }
    ghost var m := Rows(a);
    var step := Shl(1, bit);
    ShlPow2(bit);
    var i: nat := 0;
    ghost var b: nat := 0;
    while i < a.Length0
      invariant i == 2 * (step * b)
      invariant Swept(Rows(a), gate, [bit], m, n, a.Length1, Before(step * b), step * b, 0)
      decreases a.Length0 - i
    {
      ProcessBlock(a, gate, bit, step, i, b, m, n);
      BlocksFit(b, bit, n);
      b := b + 1;
      i := i + step * 2;
    }
    HalfDone(bit, b, n);
    SweepComplete(Rows(a), gate, [bit], m, n, a.Length1, Before(step * b), step * b);
  }

  lemma Pow2One()
    ensures Pow2(1) == 2
  {
  }

  lemma HalfDone(bit: nat, b: nat, n: nat)
    requires bit < n && Pow2(n) <= 2 * (Pow2(bit) * b)
    ensures Pow2(n - 1) <= Pow2(bit) * b
  {
  }

  // ---- the two-qubit kernel -----------------------------------------------------------------------

  lemma DotFour(row: Vec, v: Vec)
    requires |row| == |v| == 4
    ensures Dot(row, v, 4) == Plus(ZERO, Plus(Plus(Plus(Times(row[0], v[0]), Times(row[1], v[1])), Times(row[2], v[2])), Times(row[3], v[3])))
  {
    hide Plus, Times;
    assert Dot(row, v, 1) == Plus(Dot(row, v, 0), Times(row[0], v[0]));
    Units(Times(row[0], v[0]));
    assert Dot(row, v, 3) == Plus(Dot(row, v, 2), Times(row[2], v[2]));
    Units(Dot(row, v, 4));
  }

  /** `0 + (u0 v0 + u1 v1 + u2 v2 + u3 v3)`, as the kernel accumulates it. */
  function SumFour(row: Vec, v0: C, v1: C, v2: C, v3: C): C
    requires |row| == 4
  {
    Plus(ZERO, Plus(Plus(Plus(Times(row[0], v0), Times(row[1], v1)), Times(row[2], v2)), Times(row[3], v3)))
  }

  method MixFour(a: array2<C>, gate: Mat, p0: nat, p1: nat, p2: nat, p3: nat, k: nat)
    requires p0 < a.Length0 && p1 < a.Length0 && p2 < a.Length0 && p3 < a.Length0
    requires p0 != p1 && p0 != p2 && p0 != p3 && p1 != p2 && p1 != p3 && p2 != p3
    requires k < a.Length1 && |gate| == 4 && Shape(gate, 4)
    modifies a
    ensures ColumnDone(old(Rows(a)), Rows(a), gate, [p0, p1, p2, p3], k, a.Length1)
  {
    hide Plus, Times, Dot, SumFour, ColumnDone;
    ghost var m := Rows(a);
    var v0, v1, v2, v3 := a[p0, k], a[p1, k], a[p2, k], a[p3, k];
    a[p0, k] := SumFour(gate[0], v0, v1, v2, v3);
    a[p1, k] := SumFour(gate[1], v0, v1, v2, v3);
    a[p2, k] := SumFour(gate[2], v0, v1, v2, v3);
    a[p3, k] := SumFour(gate[3], v0, v1, v2, v3);
    FourDone(m, Rows(a), gate, p0, p1, p2, p3, k, a.Length1);
  }

  lemma FourDone(before: Mat, after: Mat, gate: Mat, p0: nat, p1: nat, p2: nat, p3: nat, k: nat, q: nat)
    requires |before| == |after| && Shape(before, q) && Shape(after, q) && k < q && |gate| == 4 && Shape(gate, 4)
    requires p0 < |before| && p1 < |before| && p2 < |before| && p3 < |before|
    requires after[p0][k] == SumFour(gate[0], before[p0][k], before[p1][k], before[p2][k], before[p3][k])
    requires after[p1][k] == SumFour(gate[1], before[p0][k], before[p1][k], before[p2][k], before[p3][k])
    requires after[p2][k] == SumFour(gate[2], before[p0][k], before[p1][k], before[p2][k], before[p3][k])
    requires after[p3][k] == SumFour(gate[3], before[p0][k], before[p1][k], before[p2][k], before[p3][k])
    requires forall r, c | 0 <= r < |after| && 0 <= c < q && (c != k || (r != p0 && r != p1 && r != p2 && r != p3)) ::
               after[r][c] == before[r][c]
    ensures ColumnDone(before, after, gate, [p0, p1, p2, p3], k, q)
  {
    hide Plus, Times, Dot;
    var rows := [p0, p1, p2, p3];
    assert rows[0] == p0 && rows[1] == p1 && rows[2] == p2 && rows[3] == p3;
    var v := Picked(before, rows, k);
    forall x | 0 <= x < 4
      ensures after[rows[x]][k] == Dot(gate[x], v, 4)
    {
      DotFour(gate[x], v);
    }
  }

  /** The four row indices the kernel computes are the rows of the iteration, in gate order. */
  lemma FourRows(i: nat, b0: nat, b1: nat, n: nat)
    requires Targets([b0, b1], n) && 2 <= n && i < Pow2(n - 2)
    ensures var low, high := if b0 < b1 then b0 else b1, if b0 < b1 then b1 else b0;
            var base := InsertZero(InsertZero(i, low), high);
            RowsOf(i, [b0, b1], n) == [base, Or(base, Shl(1, b0)), Or(base, Shl(1, b1)), Or(Or(base, Shl(1, b0)), Shl(1, b1))]
  {
    assert Pow2(2) == 4 by { Pow2Two(); }
    assert [b0, b1][0] != [b0, b1][1];
    hide InsertZero, Or, Shl, Sorted, Row, InsertZeros, Offset, Pow2;
    InsertTwo(i, b0, b1);
    PairRows(i, b0, b1);
  }

  lemma Pow2Two()
    ensures Pow2(2) == 4
  {
    Pow2One();
  }

  /** One iteration of the two-qubit kernel, for either order of the targets. */
  method ProcessPair(a: array2<C>, gate: Mat, b0: nat, b1: nat, i: nat, ghost m: Mat, ghost n: nat, ghost done: set<nat>)
    requires Fits(gate, [b0, b1], m, n, a.Length1) && a.Length0 == Pow2(n) && 2 <= n && i < Pow2(n - 2)
    requires |gate| == 4 && i !in done
    requires Swept(Rows(a), gate, [b0, b1], m, n, a.Length1, done, i, 0)
    modifies a
    ensures Swept(Rows(a), gate, [b0, b1], m, n, a.Length1, done + {i}, i + 1, 0)
  {
    hide Plus, Times, Combine, GateIndex, Pow2, Iteration, Embedded, Row, ColumnDone, Or, And, AndNot, Shl;
    ghost var bits := [b0, b1];
    var low, high := if b0 < b1 then b0 else b1, if b0 < b1 then b1 else b0;
    var maskLow, maskHigh := Mask(low), Mask(high);
    var off0, off1 := Shl(1, b0), Shl(1, b1);
    var leftPart := Shl(AndNot(i, maskLow), 1);
    var rightPart := And(i, maskLow);
    var tmp := Or(leftPart, rightPart);
    var leftFinal := Shl(AndNot(tmp, maskHigh), 1);
    var rightFinal := And(tmp, maskHigh);
    var base := Or(leftFinal, rightFinal);
    var r0, r1, r2, r3 := base, Or(base, off0), Or(base, off1), Or(Or(base, off0), off1);
    FourRows(i, b0, b1, n);
    assert RowsOf(i, bits, n) == [r0, r1, r2, r3];
    RowsDistinct(i, bits, n);
    ghost var rows := [r0, r1, r2, r3];
    assert rows[0] != rows[1] && rows[0] != rows[2] && rows[0] != rows[3];
    assert rows[1] != rows[2] && rows[1] != rows[3] && rows[2] != rows[3];
    for k := 0 to a.Length1
      invariant Swept(Rows(a), gate, bits, m, n, a.Length1, done, i, k)
    {
      ghost var before := Rows(a);
      MixFour(a, gate, r0, r1, r2, r3, k);
      SweepStep(before, Rows(a), gate, bits, m, n, a.Length1, done, i, k);
    }
  }

  method ApplyTwoQubitGate(a: array2<C>, gate: Mat, b0: nat, b1: nat, ghost n: nat)
    requires a.Length0 == Pow2(n) && Targets([b0, b1], n) && |gate| == Pow2(|[b0, b1]|) && Shape(gate, Pow2(|[b0, b1]|))
    modifies a
    ensures Rows(a) == Embedded(gate, [b0, b1], old(Rows(a)), n, a.Length1)
  {
    hide Plus, Times, Combine, GateIndex, Pow2, Iteration, Embedded, Shl, Row;
    assert Pow2(|[b0, b1]|) == 4 by { Pow2Two(); }
    ghost var m := Rows(a);
    FewTargets([b0, b1], n);
    ShrPow2(n, 2);
    var limit := Shr(a.Length0, 2);
    for i := 0 to limit
      invariant Swept(Rows(a), gate, [b0, b1], m, n, a.Length1, Before(i), i, 0)
    {
      ProcessPair(a, gate, b0, b1, i, m, n, Before(i));
    }
    SweepComplete(Rows(a), gate, [b0, b1], m, n, a.Length1, Before(limit), limit);
  }

  // ---- validation and dispatch -----------------------------------------------------------------

  datatype KernelError =
    | NotPowerOfTwo(dim: nat)
    | BitOutOfRange(bit: nat)
    | DuplicateQubits
    | QubitCountMismatch(expected: nat, actual: nat)

  /** The number of trailing zero bits of a 64-bit word. */
  function TrailingZeros(x: nat): nat {
    if x == 0 then 64 else if x % 2 == 1 then 0 else 1 + TrailingZeros(x / 2)
  }

  predicate PowerOfTwo(x: nat) {
    x == Pow2(TrailingZeros(x))
  }

  lemma {:induction false} PowerOfTwoExactly(n: nat)
    ensures TrailingZeros(Pow2(n)) == n && PowerOfTwo(Pow2(n))
    decreases n
  {
    if n > 0 {
      PowerOfTwoExactly(n - 1);
      assert Pow2(n) / 2 == Pow2(n - 1);
    }
  }

  method ValidateTargetBits(dim: nat, bits: seq<nat>) returns (r: Result<(), KernelError>)
    ensures r.Ok? <==> PowerOfTwo(dim) && Targets(bits, TrailingZeros(dim))
    ensures r == Err(NotPowerOfTwo(dim)) <==> !PowerOfTwo(dim)
    ensures r.Err? && PowerOfTwo(dim) ==>
              exists k | 0 <= k < |bits| :: Targets(bits[..k], TrailingZeros(dim)) &&
                if bits[k] >= TrailingZeros(dim) then r.error == BitOutOfRange(bits[k])
                else bits[k] in bits[..k] && r.error == DuplicateQubits
  {
    if !PowerOfTwo(dim) {
      return Err(NotPowerOfTwo(dim));
    }
    var numQubits := TrailingZeros(dim);
    var seen: set<nat> := {};
    for k := 0 to |bits|
      invariant Targets(bits[..k], numQubits)
      invariant forall b :: b in seen <==> b in bits[..k]
    {
      if bits[k] >= numQubits {
        assert !Below(bits, numQubits);
        return Err(BitOutOfRange(bits[k]));
      }
      if bits[k] in seen {
        var j :| 0 <= j < k && bits[..k][j] == bits[k];
        assert bits[j] == bits[k];
        assert !Distinct(bits);
        return Err(DuplicateQubits);
      }
      seen := seen + {bits[k]};
      assert bits[..k + 1] == bits[..k] + [bits[k]];
    }
    assert bits[..|bits|] == bits;
    r := Ok(());
  }

  /** Validates, then dispatches on the number of targets; a rejected gate leaves the matrix alone. */
  method ApplyGateToMatrix(a: array2<C>, gate: Mat, gateCols: nat, bits: seq<nat>) returns (r: Result<(), KernelError>)
    requires Shape(gate, gateCols)
    modifies a
    ensures r.Ok? <==> PowerOfTwo(a.Length0) && Targets(bits, TrailingZeros(a.Length0)) && |gate| == gateCols == Pow2(|bits|)
    ensures r.Ok? ==> Rows(a) == Embedded(gate, bits, old(Rows(a)), TrailingZeros(a.Length0), a.Length1)
    ensures r.Err? ==> Rows(a) == old(Rows(a))
  {
    hide Plus, Times, Combine, GateIndex, Embedded, Shl;
    var valid := ValidateTargetBits(a.Length0, bits);
    if valid.Err? {
      return valid;
    }
    var expectedDim := Shl(1, |bits|);
    ShlPow2(|bits|);
    if |gate| != expectedDim || gateCols != expectedDim {
      return Err(QubitCountMismatch(TrailingZeros(|gate|), |bits|));
    }
    ghost var n := TrailingZeros(a.Length0);
    if |bits| == 1 {
      assert [bits[0]] == bits;
      ApplySingleQubitGate(a, gate, bits[0], n);
    } else if |bits| == 2 {
      assert [bits[0], bits[1]] == bits;
      ApplyTwoQubitGate(a, gate, bits[0], bits[1], n);
    } else {
      ApplyGeneralGate(a, gate, bits, n);
    }
    r := Ok(());
  }
}
