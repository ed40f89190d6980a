/**
 Machine-word bit operations on naturals, read one bit at a time, and the index arithmetic
 of the matrix kernels: inserting zero bits and scattering a gate index onto target bits.
 */
module Bits {

  predicate Bit(x: nat, j: nat)
    decreases j
  {
    if j == 0 then x % 2 == 1 else Bit(x / 2, j - 1)
  }

  function Shl(x: nat, k: nat): nat {
    if k == 0 then x else 2 * Shl(x, k - 1)
  }

  function Shr(x: nat, k: nat): nat {
    if k == 0 then x else Shr(x / 2, k - 1)
  }

  function Pow2(k: nat): (r: nat)
    ensures r > 0
  {
    if k == 0 then 1 else 2 * Pow2(k - 1)
  }

  function Or(a: nat, b: nat): nat {
    if a == 0 && b == 0 then 0
    else (if a % 2 == 1 || b % 2 == 1 then 1 else 0) + 2 * Or(a / 2, b / 2)
  }

  function And(a: nat, b: nat): nat {
    if a == 0 && b == 0 then 0
    else (if a % 2 == 1 && b % 2 == 1 then 1 else 0) + 2 * And(a / 2, b / 2)
  }

  /** `a & !b` */
  function AndNot(a: nat, b: nat): nat {
    if a == 0 && b == 0 then 0
    else (if a % 2 == 1 && b % 2 == 0 then 1 else 0) + 2 * AndNot(a / 2, b / 2)
  }

  // ---- one bit at a time --------------------------------------------------------------------

  lemma {:induction false} ZeroBits(j: nat)
    ensures !Bit(0, j)
    decreases j
  {
    if j > 0 {
      ZeroBits(j - 1);
    }
  }

  /** Numbers are equal exactly when their bits are. */
  lemma {:induction false} SameBits(a: nat, b: nat)
    requires forall j: nat :: Bit(a, j) == Bit(b, j)
    ensures a == b
    decreases a + b
  {
    assert Bit(a, 0) == Bit(b, 0);
    if a != 0 || b != 0 {
      forall j: nat
        ensures Bit(a / 2, j) == Bit(b / 2, j)
      {
        assert Bit(a, j + 1) == Bit(b, j + 1);
      }
      SameBits(a / 2, b / 2);
    }
  }

  lemma {:induction false} OrBit(a: nat, b: nat, j: nat)
    ensures Bit(Or(a, b), j) == (Bit(a, j) || Bit(b, j))
    decreases j
  {
    if a == 0 && b == 0 {
      ZeroBits(j);
    } else if j > 0 {
      OrBit(a / 2, b / 2, j - 1);
      assert Or(a, b) / 2 == Or(a / 2, b / 2);
    }
  }

  lemma {:induction false} AndBit(a: nat, b: nat, j: nat)
    ensures Bit(And(a, b), j) == (Bit(a, j) && Bit(b, j))
    decreases j
  {
    if a == 0 && b == 0 {
      ZeroBits(j);
    } else if j > 0 {
      AndBit(a / 2, b / 2, j - 1);
      assert And(a, b) / 2 == And(a / 2, b / 2);
    }
  }

  lemma {:induction false} AndNotBit(a: nat, b: nat, j: nat)
    ensures Bit(AndNot(a, b), j) == (Bit(a, j) && !Bit(b, j))
    decreases j
  {
    if a == 0 && b == 0 {
      ZeroBits(j);
    } else if j > 0 {
      AndNotBit(a / 2, b / 2, j - 1);
      assert AndNot(a, b) / 2 == AndNot(a / 2, b / 2);
    }
  }

  lemma {:induction false} ShlBit(x: nat, k: nat, j: nat)
    ensures Bit(Shl(x, k), j) == (k <= j && Bit(x, j - k))
    decreases k
  {
    if k > 0 && j > 0 {
      ShlBit(x, k - 1, j - 1);
    }
  }

  lemma {:induction false} ShrBit(x: nat, k: nat, j: nat)
    ensures Bit(Shr(x, k), j) == Bit(x, j + k)
    decreases k
  {
    if k > 0 {
      ShrBit(x / 2, k - 1, j);
    }
  }

  /** A number is below `2^k` exactly when it has no bit from `k` on. */
  lemma {:induction false} BelowPow2(x: nat, k: nat)
    ensures x < Pow2(k) <==> Shr(x, k) == 0
    decreases k
  {
    if k > 0 {
      BelowPow2(x / 2, k - 1);
    }
  }

  lemma {:induction false} NoHighBit(x: nat, k: nat, j: nat)
    requires x < Pow2(k) && k <= j
    ensures !Bit(x, j)
  {
    BelowPow2(x, k);
    ShrBit(x, k, j - k);
    ZeroBits(j - k);
  }

  lemma {:induction false} FewBits(x: nat, k: nat)
    requires forall j: nat | k <= j :: !Bit(x, j)
    ensures x < Pow2(k)
  {
    forall j: nat
      ensures Bit(Shr(x, k), j) == Bit(0, j)
    {
      ShrBit(x, k, j);
      ZeroBits(j);
    }
    SameBits(Shr(x, k), 0);
    BelowPow2(x, k);
  }

  lemma {:induction false} ShlPow2(k: nat)
    ensures Shl(1, k) == Pow2(k)
    decreases k
  {
    if k > 0 {
      ShlPow2(k - 1);
    }
  }

  lemma {:induction false} OneBit(k: nat, j: nat)
    ensures Bit(Shl(1, k), j) == (j == k)
  {
    ShlBit(1, k, j);
    if j > k {
      assert Bit(1, j - k) == Bit(0, j - k - 1);
      ZeroBits(j - k - 1);
    }
  }

  /** The bits of `(1 << q) - 1`. */
  lemma {:induction false} MaskBit(q: nat, j: nat)
    requires Shl(1, q) > 0
    ensures Bit(Shl(1, q) - 1, j) == (j < q)
    decreases q
  {
    ShlPow2(q);
    if q == 0 {
      ZeroBits(j);
    } else if j > 0 {
      ShlPow2(q - 1);
      MaskBit(q - 1, j - 1);
      assert (Shl(1, q) - 1) / 2 == Shl(1, q - 1) - 1;
    }
  }

  // ---- inserting and removing one bit -----------------------------------------------------------

  function Mask(q: nat): nat {
    ShlPow2(q);
    Shl(1, q) - 1
  }

  /** One step of the kernels' index expansion: a zero bit at position `q`. */
  function InsertZero(base: nat, q: nat): nat {
    Or(Shl(AndNot(base, Mask(q)), 1), And(base, Mask(q)))
  }

  lemma {:induction false} InsertZeroBit(base: nat, q: nat, j: nat)
    ensures Bit(InsertZero(base, q), j) == if j < q then Bit(base, j) else j > q && Bit(base, j - 1)
  {
    ShlPow2(q);
    OrBit(Shl(AndNot(base, Mask(q)), 1), And(base, Mask(q)), j);
    ShlBit(AndNot(base, Mask(q)), 1, j);
    AndBit(base, Mask(q), j);
    MaskBit(q, j);
    if j > 0 {
      AndNotBit(base, Mask(q), j - 1);
      MaskBit(q, j - 1);
    }
  }

  /** The inverse: drops the bit at position `q`. */
  function RemoveBit(x: nat, q: nat): nat
    decreases q
  {
    if q == 0 then x / 2 else x % 2 + 2 * RemoveBit(x / 2, q - 1)
  }

  lemma {:induction false} RemoveBitBit(x: nat, q: nat, j: nat)
    ensures Bit(RemoveBit(x, q), j) == if j < q then Bit(x, j) else Bit(x, j + 1)
    decreases q
  {
    if q > 0 && j > 0 {
      RemoveBitBit(x / 2, q - 1, j - 1);
    }
  }

  lemma RemoveInserted(base: nat, q: nat)
    ensures RemoveBit(InsertZero(base, q), q) == base
  {
    forall j: nat
      ensures Bit(RemoveBit(InsertZero(base, q), q), j) == Bit(base, j)
    {
      RemoveBitBit(InsertZero(base, q), q, j);
      InsertZeroBit(base, q, j);
      InsertZeroBit(base, q, j + 1);
    }
    SameBits(RemoveBit(InsertZero(base, q), q), base);
  }

  lemma InsertRemoved(x: nat, q: nat)
    requires !Bit(x, q)
    ensures InsertZero(RemoveBit(x, q), q) == x
  {
    forall j: nat
      ensures Bit(InsertZero(RemoveBit(x, q), q), j) == Bit(x, j)
    {
      InsertZeroBit(RemoveBit(x, q), q, j);
      RemoveBitBit(x, q, j);
      if j > 0 {
        RemoveBitBit(x, q, j - 1);
      }
    }
    SameBits(InsertZero(RemoveBit(x, q), q), x);
  }

  // ---- several target bits ----------------------------------------------------------------------

  predicate Distinct(bits: seq<nat>) {
    forall i, j | 0 <= i < j < |bits| :: bits[i] != bits[j]
  }

  predicate Ascending(bits: seq<nat>) {
    forall i, j | 0 <= i < j < |bits| :: bits[i] < bits[j]
  }

  predicate Below(bits: seq<nat>, n: nat) {
    forall i | 0 <= i < |bits| :: bits[i] < n
  }

  function InsertSorted(x: nat, s: seq<nat>): seq<nat> {
    if s == [] || x <= s[0] then [x] + s else [s[0]] + InsertSorted(x, s[1..])
  }

  function Sorted(bits: seq<nat>): seq<nat> {
    if bits == [] then [] else InsertSorted(bits[0], Sorted(bits[1..]))
  }

  lemma {:induction false} InsertSortedFacts(x: nat, s: seq<nat>)
    requires Ascending(s) && x !in s
    ensures Ascending(InsertSorted(x, s)) && |InsertSorted(x, s)| == |s| + 1
    ensures forall y :: y in InsertSorted(x, s) <==> y == x || y in s
    decreases |s|
  {
    if s == [] || x <= s[0] {
    } else {
      InsertSortedFacts(x, s[1..]);
      var r := InsertSorted(x, s[1..]);
      assert forall y :: y in s <==> y == s[0] || y in s[1..];
      forall i, j | 0 <= i < j < |[s[0]] + r|
        ensures ([s[0]] + r)[i] < ([s[0]] + r)[j]
      {
        if i == 0 {
          assert r[j - 1] in r;
          if r[j - 1] != x {
            assert r[j - 1] in s[1..];
          }
        }
      }
    }
  }

  /** Sorting distinct bits puts the same bits in ascending order. */
  lemma {:induction false} SortedFacts(bits: seq<nat>)
    requires Distinct(bits)
    ensures Ascending(Sorted(bits)) && |Sorted(bits)| == |bits|
    ensures forall y :: y in Sorted(bits) <==> y in bits
    decreases |bits|
  {
    if bits != [] {
      SortedFacts(bits[1..]);
      assert bits[0] !in bits[1..];
      InsertSortedFacts(bits[0], Sorted(bits[1..]));
      assert forall y :: y in bits <==> y == bits[0] || y in bits[1..];
    }
  }

  /** Zero bits inserted at every position of `s`, in order. */
  function InsertZeros(base: nat, s: seq<nat>): nat
    decreases |s|
  {
    if s == [] then base else InsertZero(InsertZeros(base, s[..|s| - 1]), s[|s| - 1])
  }

  function RemoveBits(x: nat, s: seq<nat>): nat
    decreases |s|
  {
    if s == [] then x else RemoveBits(RemoveBit(x, s[|s| - 1]), s[..|s| - 1])
  }

  /** The inserted positions are zero. */
  lemma {:induction false} InsertZerosClear(base: nat, s: seq<nat>, k: nat)
    requires Ascending(s) && k < |s|
    ensures !Bit(InsertZeros(base, s), s[k])
    decreases |s|
  {
    var init := s[..|s| - 1];
    InsertZeroBit(InsertZeros(base, init), s[|s| - 1], s[k]);
    if k < |s| - 1 {
      assert init[k] == s[k];
      InsertZerosClear(base, init, k);
    }
  }

  lemma {:induction false} InsertZerosBelow(base: nat, s: seq<nat>, n: nat)
    requires Ascending(s) && Below(s, n) && |s| <= n && base < Pow2(n - |s|)
    ensures InsertZeros(base, s) < Pow2(n)
    decreases |s|
  {
    if s != [] {
      var init, q := s[..|s| - 1], s[|s| - 1];
      InsertZerosBelow(base, init, n - 1);
      forall j: nat | n <= j
        ensures !Bit(InsertZeros(base, s), j)
      {
        InsertZeroBit(InsertZeros(base, init), q, j);
        NoHighBit(InsertZeros(base, init), n - 1, j - 1);
      }
      FewBits(InsertZeros(base, s), n);
    }
  }

  lemma {:induction false} RemoveInsertedBits(base: nat, s: seq<nat>)
    ensures RemoveBits(InsertZeros(base, s), s) == base
    decreases |s|
  {
    if s != [] {
      RemoveInserted(InsertZeros(base, s[..|s| - 1]), s[|s| - 1]);
      RemoveInsertedBits(base, s[..|s| - 1]);
    }
  }

  lemma {:induction false} InsertRemovedBits(x: nat, s: seq<nat>, n: nat)
    requires Ascending(s) && Below(s, n) && x < Pow2(n) && forall k | 0 <= k < |s| :: !Bit(x, s[k])
    ensures InsertZeros(RemoveBits(x, s), s) == x
    ensures |s| <= n && RemoveBits(x, s) < Pow2(n - |s|)
    decreases |s|
  {
    if s != [] {
      var init, q := s[..|s| - 1], s[|s| - 1];
      var y := RemoveBit(x, q);
      InsertRemoved(x, q);
      forall k | 0 <= k < |init|
        ensures !Bit(y, init[k])
      {
        assert init[k] == s[k];
        RemoveBitBit(x, q, init[k]);
      }
      forall j: nat | n - 1 <= j
        ensures !Bit(y, j)
      {
        RemoveBitBit(x, q, j);
        NoHighBit(x, n, j + 1);
      }
      FewBits(y, n - 1);
      assert Below(init, n - 1) by {
        forall i | 0 <= i < |init|
          ensures init[i] < n - 1
        {
          assert s[i] < s[|s| - 1] < n;
        }
      }
      InsertRemovedBits(y, init, n - 1);
    }
  }

  // ---- gate index and row index -------------------------------------------------------------------

  /** The row offset of gate index `g`: its `j`-th bit moved to position `bits[j]`. */
  function Offset(g: nat, bits: seq<nat>): nat
    decreases |bits|
  {
    if bits == [] then 0
    else
      var init := Offset(g, bits[..|bits| - 1]);
      if Bit(g, |bits| - 1) then Or(init, Shl(1, bits[|bits| - 1])) else init
  }

  lemma {:induction false} OffsetBit(g: nat, bits: seq<nat>, x: nat)
    ensures Bit(Offset(g, bits), x) <==> exists j | 0 <= j < |bits| :: bits[j] == x && Bit(g, j)
    decreases |bits|
  {
    if bits == [] {
      ZeroBits(x);
    } else {
      var m := |bits| - 1;
      var init := bits[..m];
      OffsetBit(g, init, x);
      if Bit(g, m) {
        OrBit(Offset(g, init), Shl(1, bits[m]), x);
        OneBit(bits[m], x);
      }
      if Bit(Offset(g, init), x) {
        var j :| 0 <= j < |init| && init[j] == x && Bit(g, j);
        assert bits[j] == x;
      }
      if j :| 0 <= j < |bits| && bits[j] == x && Bit(g, j) {
        assert j < m ==> init[j] == x;
      }
    }
  }

  /** The row of iteration `i` and gate index `g`. */
  function Row(i: nat, g: nat, bits: seq<nat>): nat {
    Or(InsertZeros(i, Sorted(bits)), Offset(g, bits))
  }

  /** The target bits of row `r`, read as a gate index. */
  function GateIndex(r: nat, bits: seq<nat>): nat {
    if bits == [] then 0 else (if Bit(r, bits[0]) then 1 else 0) + 2 * GateIndex(r, bits[1..])
  }

  lemma {:induction false} GateIndexBit(r: nat, bits: seq<nat>, j: nat)
    ensures Bit(GateIndex(r, bits), j) == (j < |bits| && Bit(r, bits[j]))
    ensures GateIndex(r, bits) < Pow2(|bits|)
    decreases |bits|
  {
    if bits == [] {
      ZeroBits(j);
    } else {
      GateIndexBit(r, bits[1..], if j > 0 then j - 1 else 0);
    }
  }

  /** Row `r` with the bit at `q` set to `b`. */
  function With(r: nat, q: nat, b: bool): nat
    decreases q
  {
    if q == 0 then r - r % 2 + (if b then 1 else 0) else r % 2 + 2 * With(r / 2, q - 1, b)
  }

  lemma {:induction false} WithBit(r: nat, q: nat, b: bool, j: nat)
    ensures Bit(With(r, q, b), j) == if j == q then b else Bit(r, j)
    decreases q
  {
    if q == 0 {
      if j > 0 {
        assert With(r, q, b) / 2 == r / 2;
      }
    } else if j > 0 {
      WithBit(r / 2, q - 1, b, j - 1);
      assert With(r, q, b) / 2 == With(r / 2, q - 1, b);
    }
  }

  /** Row `r` with its target bits set to gate index `g`. */
  function SetBits(r: nat, bits: seq<nat>, g: nat): nat
    decreases |bits|
  {
    if bits == [] then r else With(SetBits(r, bits[..|bits| - 1], g), bits[|bits| - 1], Bit(g, |bits| - 1))
  }

  lemma {:induction false} SetBitsOff(r: nat, bits: seq<nat>, g: nat, x: nat)
    requires x !in bits
    ensures Bit(SetBits(r, bits, g), x) == Bit(r, x)
    decreases |bits|
  {
    if bits != [] {
      SetBitsOff(r, bits[..|bits| - 1], g, x);
      WithBit(SetBits(r, bits[..|bits| - 1], g), bits[|bits| - 1], Bit(g, |bits| - 1), x);
    }
  }

  lemma {:induction false} SetBitsOn(r: nat, bits: seq<nat>, g: nat, j: nat)
    requires Distinct(bits) && j < |bits|
    ensures Bit(SetBits(r, bits, g), bits[j]) == Bit(g, j)
    decreases |bits|
  {
    var m := |bits| - 1;
    WithBit(SetBits(r, bits[..m], g), bits[m], Bit(g, m), bits[j]);
    if j < m {
      assert bits[..m][j] == bits[j];
      SetBitsOn(r, bits[..m], g, j);
    }
  }

  lemma SetBitsBelow(r: nat, bits: seq<nat>, g: nat, n: nat)
    requires Below(bits, n) && r < Pow2(n)
    ensures SetBits(r, bits, g) < Pow2(n)
  {
    forall x: nat | n <= x
      ensures !Bit(SetBits(r, bits, g), x)
    {
      SetBitsOff(r, bits, g, x);
      NoHighBit(r, n, x);
    }
    FewBits(SetBits(r, bits, g), n);
  }

  // ---- the rows of the iterations partition the matrix ----------------------------------------------

  predicate Targets(bits: seq<nat>, n: nat) {
    Distinct(bits) && Below(bits, n)
  }

  lemma SortedTargets(bits: seq<nat>, n: nat)
    requires Targets(bits, n)
    ensures Ascending(Sorted(bits)) && Below(Sorted(bits), n) && |Sorted(bits)| == |bits|
    ensures forall y :: y in Sorted(bits) <==> y in bits
  {
    SortedFacts(bits);
    forall i | 0 <= i < |Sorted(bits)|
      ensures Sorted(bits)[i] < n
    {
      assert Sorted(bits)[i] in bits;
      var k :| 0 <= k < |bits| && bits[k] == Sorted(bits)[i];
    }
  }

  /** The bits of a row: the gate index on the targets, the expanded iteration elsewhere. */
  lemma RowBits(i: nat, g: nat, bits: seq<nat>, n: nat, x: nat)
    requires Targets(bits, n)
    ensures x !in bits ==> Bit(Row(i, g, bits), x) == Bit(InsertZeros(i, Sorted(bits)), x)
    ensures forall j | 0 <= j < |bits| && bits[j] == x :: Bit(Row(i, g, bits), x) == Bit(g, j)
  {
    SortedTargets(bits, n);
    OrBit(InsertZeros(i, Sorted(bits)), Offset(g, bits), x);
    OffsetBit(g, bits, x);
    if j :| 0 <= j < |bits| && bits[j] == x {
      assert x in Sorted(bits);
      var k :| 0 <= k < |Sorted(bits)| && Sorted(bits)[k] == x;
      InsertZerosClear(i, Sorted(bits), k);
    }
  }

  lemma RowBelow(i: nat, g: nat, bits: seq<nat>, n: nat)
    requires Targets(bits, n) && |bits| <= n && i < Pow2(n - |bits|)
    ensures Row(i, g, bits) < Pow2(n)
  {
    SortedTargets(bits, n);
    InsertZerosBelow(i, Sorted(bits), n);
    forall x: nat | n <= x
      ensures !Bit(Row(i, g, bits), x)
    {
      OrBit(InsertZeros(i, Sorted(bits)), Offset(g, bits), x);
      NoHighBit(InsertZeros(i, Sorted(bits)), n, x);
      OffsetBit(g, bits, x);
    }
    FewBits(Row(i, g, bits), n);
  }

  /** The gate index can be read back from a row, and setting the target bits moves within an iteration's rows. */
  lemma RowIndex(i: nat, g: nat, g': nat, bits: seq<nat>, n: nat)
    requires Targets(bits, n) && g < Pow2(|bits|)
    ensures GateIndex(Row(i, g, bits), bits) == g
    ensures SetBits(Row(i, g, bits), bits, g') == Row(i, g', bits)
  {
    var r := Row(i, g, bits);
    forall j: nat
      ensures Bit(GateIndex(r, bits), j) == Bit(g, j)
    {
      GateIndexBit(r, bits, j);
      if j < |bits| {
        RowBits(i, g, bits, n, bits[j]);
      } else {
        NoHighBit(g, |bits|, j);
      }
    }
    SameBits(GateIndex(r, bits), g);
    forall x: nat
      ensures Bit(SetBits(r, bits, g'), x) == Bit(Row(i, g', bits), x)
    {
      RowBits(i, g, bits, n, x);
      RowBits(i, g', bits, n, x);
      if x in bits {
        var j :| 0 <= j < |bits| && bits[j] == x;
        SetBitsOn(r, bits, g', j);
      } else {
        SetBitsOff(r, bits, g', x);
      }
    }
    SameBits(SetBits(r, bits, g'), Row(i, g', bits));
  }

  /** Different iterations touch different rows, and one iteration's rows differ by gate index. */
  lemma RowsAreDisjoint(i: nat, g: nat, i': nat, g': nat, bits: seq<nat>, n: nat)
    requires Targets(bits, n) && g < Pow2(|bits|) && g' < Pow2(|bits|)
    requires Row(i, g, bits) == Row(i', g', bits)
    ensures i == i' && g == g'
  {
    RowIndex(i, g, g, bits, n);
    RowIndex(i', g', g', bits, n);
    var s := Sorted(bits);
    SortedTargets(bits, n);
    forall x: nat
      ensures Bit(InsertZeros(i, s), x) == Bit(InsertZeros(i', s), x)
    {
      RowBits(i, g, bits, n, x);
      RowBits(i', g', bits, n, x);
      if x in bits {
        assert x in s;
        var k :| 0 <= k < |s| && s[k] == x;
        InsertZerosClear(i, s, k);
        InsertZerosClear(i', s, k);
      }
    }
    SameBits(InsertZeros(i, s), InsertZeros(i', s));
    RemoveInsertedBits(i, s);
    RemoveInsertedBits(i', s);
  }

  /** The iteration that owns row `r`. */
  function Iteration(r: nat, bits: seq<nat>): nat {
    RemoveBits(SetBits(r, bits, 0), Sorted(bits))
  }

  /** Every row of the matrix belongs to some iteration. */
  lemma RowsCover(r: nat, bits: seq<nat>, n: nat)
    requires Targets(bits, n) && r < Pow2(n)
    ensures |bits| <= n && Iteration(r, bits) < Pow2(n - |bits|) && GateIndex(r, bits) < Pow2(|bits|)
    ensures Row(Iteration(r, bits), GateIndex(r, bits), bits) == r
  {
    var s := Sorted(bits);
    SortedTargets(bits, n);
    var cleared := SetBits(r, bits, 0);
    SetBitsBelow(r, bits, 0, n);
    forall k | 0 <= k < |s|
      ensures !Bit(cleared, s[k])
    {
      assert s[k] in bits;
      var j :| 0 <= j < |bits| && bits[j] == s[k];
      SetBitsOn(r, bits, 0, j);
      ZeroBits(j);
    }
    InsertRemovedBits(cleared, s, n);
    GateIndexBit(r, bits, 0);
    var i, g := Iteration(r, bits), GateIndex(r, bits);
    forall x: nat
      ensures Bit(Row(i, g, bits), x) == Bit(r, x)
    {
      RowBits(i, g, bits, n, x);
      if x in bits {
        var j :| 0 <= j < |bits| && bits[j] == x;
        GateIndexBit(r, bits, j);
      } else {
        SetBitsOff(r, bits, 0, x);
      }
    }
    SameBits(Row(i, g, bits), r);
  }

  // ---- the kernels' own forms of the same indices ---------------------------------------------------

  lemma {:induction false} AndZero(x: nat)
    ensures And(x, 0) == 0
    decreases x
  {
    if x > 0 {
      AndZero(x / 2);
    }
  }

  /** The test `(k >> j) & 1 == 1`. */
  lemma ShiftedBit(k: nat, j: nat)
    ensures And(Shr(k, j), 1) == 1 <==> Bit(k, j)
  {
    ShrBit(k, j, 0);
    AndZero(Shr(k, j) / 2);
  }

  lemma OrZero(x: nat)
    ensures Or(0, x) == x && Or(x, 0) == x
  {
    forall j: nat
      ensures Bit(Or(0, x), j) == Bit(x, j) && Bit(Or(x, 0), j) == Bit(x, j)
    {
      OrBit(0, x, j);
      OrBit(x, 0, j);
      ZeroBits(j);
    }
    SameBits(Or(0, x), x);
    SameBits(Or(x, 0), x);
  }

  lemma OrAssociates(a: nat, b: nat, c: nat)
    ensures Or(Or(a, b), c) == Or(a, Or(b, c))
  {
    forall j: nat
      ensures Bit(Or(Or(a, b), c), j) == Bit(Or(a, Or(b, c)), j)
    {
      OrBit(Or(a, b), c, j);
      OrBit(a, b, j);
      OrBit(a, Or(b, c), j);
      OrBit(b, c, j);
    }
    SameBits(Or(Or(a, b), c), Or(a, Or(b, c)));
  }

  /** Setting a clear bit adds its weight. */
  lemma {:induction false} OrIsPlus(x: nat, q: nat)
    requires !Bit(x, q)
    ensures Or(x, Shl(1, q)) == x + Pow2(q)
    decreases q
  {
    if q == 0 {
      OrZero(x / 2);
    } else {
      OrIsPlus(x / 2, q - 1);
    }
  }

  /** Inside a block of `2 * 2^q` rows, the lower half is an index with a zero bit inserted at `q`. */
  lemma {:induction false} RemoveFromBlock(b: nat, j: nat, q: nat)
    requires j < Pow2(q)
    ensures !Bit(2 * (Pow2(q) * b) + j, q) && RemoveBit(2 * (Pow2(q) * b) + j, q) == Pow2(q) * b + j
    decreases q
  {
    if q > 0 {
      var half := Pow2(q - 1) * b;
      assert Pow2(q) * b == 2 * half;
      var x := 2 * (Pow2(q) * b) + j;
      assert x / 2 == 2 * half + j / 2 && x % 2 == j % 2;
      RemoveFromBlock(b, j / 2, q - 1);
    }
  }

  lemma BlockRows(b: nat, j: nat, q: nat)
    requires j < Pow2(q)
    ensures Row(Pow2(q) * b + j, 0, [q]) == 2 * (Pow2(q) * b) + j
    ensures Row(Pow2(q) * b + j, 1, [q]) == 2 * (Pow2(q) * b) + j + Pow2(q)
  {
    assert !Bit(0, 0) && Bit(1, 0);
    hide Or, Shl, Pow2, Offset, InsertZeros, InsertZero, Sorted, Bit, RemoveBit;
    var x := 2 * (Pow2(q) * b) + j;
    var i := Pow2(q) * b + j;
    RemoveFromBlock(b, j, q);
    InsertRemoved(x, q);
    InsertOne(i, q);
    OrZero(x);
    OrIsPlus(x, q);
    OffsetOfOne(0, q);
    OffsetOfOne(1, q);
  }

  lemma InsertOne(i: nat, q: nat)
    ensures Sorted([q]) == [q] && InsertZeros(i, [q]) == InsertZero(i, q)
  {
    assert [q][1..] == [] && [q][..0] == [];
    assert Sorted([q][1..]) == [];
  }

  lemma InsertTwo(i: nat, b0: nat, b1: nat)
    requires b0 != b1
    ensures var low, high := if b0 < b1 then b0 else b1, if b0 < b1 then b1 else b0;
            InsertZeros(i, Sorted([b0, b1])) == InsertZero(InsertZero(i, low), high)
  {
    var low, high := if b0 < b1 then b0 else b1, if b0 < b1 then b1 else b0;
    InsertOne(i, b1);
    assert [b0, b1][1..] == [b1];
    assert Sorted([b0, b1]) == InsertSorted(b0, [b1]);
    assert [b1][1..] == [];
    assert InsertSorted(b0, []) == [b0];
    assert Sorted([b0, b1]) == [low, high];
    assert [low, high][..1] == [low];
    InsertOne(i, low);
  }

  lemma OffsetSnoc(g: nat, bits: seq<nat>, b: nat)
    ensures Offset(g, bits + [b]) == if Bit(g, |bits|) then Or(Offset(g, bits), Shl(1, b)) else Offset(g, bits)
  {
    assert (bits + [b])[..|bits + [b]| - 1] == bits;
  }

  lemma OffsetOfOne(g: nat, b: nat)
    ensures Offset(g, [b]) == if Bit(g, 0) then Shl(1, b) else 0
  {
    OffsetSnoc(g, [], b);
    assert [] + [b] == [b];
    OrZero(Shl(1, b));
  }

  lemma OffsetsOfTwo(b0: nat, b1: nat)
    ensures Offset(0, [b0, b1]) == 0 && Offset(1, [b0, b1]) == Shl(1, b0)
    ensures Offset(2, [b0, b1]) == Shl(1, b1) && Offset(3, [b0, b1]) == Or(Shl(1, b0), Shl(1, b1))
  {
    assert !Bit(0, 0) && !Bit(0, 1) && Bit(1, 0) && !Bit(1, 1) && !Bit(2, 0) && Bit(2, 1) && Bit(3, 0) && Bit(3, 1);
    assert [b0] + [b1] == [b0, b1];
    hide Offset, Or, Bit;
    OrZero(Shl(1, b1));
    OffsetSnoc(0, [b0], b1);
    OffsetSnoc(1, [b0], b1);
    OffsetSnoc(2, [b0], b1);
    OffsetSnoc(3, [b0], b1);
    OffsetOfOne(0, b0);
    OffsetOfOne(1, b0);
    OffsetOfOne(2, b0);
    OffsetOfOne(3, b0);
  }

  /** The four rows of a two-bit iteration, as the two-qubit kernel writes them. */
  lemma PairRows(i: nat, b0: nat, b1: nat)
    requires b0 != b1
    ensures var base := InsertZeros(i, Sorted([b0, b1]));
            && Row(i, 0, [b0, b1]) == base
            && Row(i, 1, [b0, b1]) == Or(base, Shl(1, b0))
            && Row(i, 2, [b0, b1]) == Or(base, Shl(1, b1))
            && Row(i, 3, [b0, b1]) == Or(Or(base, Shl(1, b0)), Shl(1, b1))
  {
    OffsetsOfTwo(b0, b1);
    OrZero(InsertZeros(i, Sorted([b0, b1])));
    OrAssociates(InsertZeros(i, Sorted([b0, b1])), Shl(1, b0), Shl(1, b1));
  }
}
