/**
 What applying a gate to target bits of a matrix means: every row becomes the combination, with
 the gate's coefficients, of the rows that differ from it only on the target bits. The algebra of
 that operation: products, identities, scalars, and gates inside gates.
 */
module Embedding {
  import opened Bits
  import opened Linear

  /** `gate` is a square matrix for `|bits|` target bits of a matrix with `2^n` rows of length `q`. */
  predicate Fits(gate: Mat, bits: seq<nat>, m: Mat, n: nat, q: nat) {
    && Targets(bits, n)
    && |gate| == Pow2(|bits|) && Shape(gate, Pow2(|bits|))
    && |m| == Pow2(n) && Shape(m, q)
  }

  /** The rows of `m` reached from row `r` by setting the target bits to each gate index. */
  function Gather(m: Mat, bits: seq<nat>, n: nat, r: nat): (rows: Mat)
    requires Targets(bits, n) && |m| == Pow2(n) && r < Pow2(n)
    ensures |rows| == Pow2(|bits|)
    ensures forall g | 0 <= g < |rows| :: SetBits(r, bits, g) < Pow2(n) && rows[g] == m[SetBits(r, bits, g)]
  {
    assert forall g: nat :: SetBits(r, bits, g) < Pow2(n) by {
      forall g: nat
        ensures SetBits(r, bits, g) < Pow2(n)
      {
        SetBitsBelow(r, bits, g, n);
      }
    }
    seq(Pow2(|bits|), g requires 0 <= g < Pow2(|bits|) => m[SetBits(r, bits, g)])
  }

  function EmbeddedRow(gate: Mat, bits: seq<nat>, m: Mat, n: nat, q: nat, r: nat): (row: Vec)
    requires Fits(gate, bits, m, n, q) && r < Pow2(n)
    ensures |row| == q
  {
    GateIndexBit(r, bits, 0);
    Combine(gate[GateIndex(r, bits)], Gather(m, bits, n, r), q)
  }

  /** The gate applied to the target bits of every row. */
  function Embedded(gate: Mat, bits: seq<nat>, m: Mat, n: nat, q: nat): (e: Mat)
    requires Fits(gate, bits, m, n, q)
    ensures |e| == Pow2(n) && Shape(e, q)
  {
    seq(Pow2(n), r requires 0 <= r < Pow2(n) => EmbeddedRow(gate, bits, m, n, q, r))
  }

  // ---- bit lemmas ------------------------------------------------------------------------------

  lemma BitsDetermine(a: nat, b: nat, n: nat)
    requires a < Pow2(n) && b < Pow2(n)
    requires forall j: nat | j < n :: Bit(a, j) == Bit(b, j)
    ensures a == b
  {
    forall j: nat
      ensures Bit(a, j) == Bit(b, j)
    {
      if j >= n {
        NoHighBit(a, n, j);
        NoHighBit(b, n, j);
      }
    }
    SameBits(a, b);
  }

  /** Reading back what was written. */
  lemma IndexOfSet(r: nat, bits: seq<nat>, g: nat)
    requires Distinct(bits) && g < Pow2(|bits|)
    ensures GateIndex(SetBits(r, bits, g), bits) == g
  {
    var x := SetBits(r, bits, g);
    GateIndexBit(x, bits, 0);
    forall j: nat | j < |bits|
      ensures Bit(GateIndex(x, bits), j) == Bit(g, j)
    {
      GateIndexBit(x, bits, j);
      SetBitsOn(r, bits, g, j);
    }
    BitsDetermine(GateIndex(x, bits), g, |bits|);
  }

  lemma SetTwice(r: nat, bits: seq<nat>, g: nat, h: nat)
    requires Distinct(bits)
    ensures SetBits(SetBits(r, bits, g), bits, h) == SetBits(r, bits, h)
  {
    var x := SetBits(r, bits, g);
    forall p: nat
      ensures Bit(SetBits(x, bits, h), p) == Bit(SetBits(r, bits, h), p)
    {
      if p in bits {
        var j :| 0 <= j < |bits| && bits[j] == p;
        SetBitsOn(x, bits, h, j);
        SetBitsOn(r, bits, h, j);
      } else {
        SetBitsOff(x, bits, h, p);
        SetBitsOff(r, bits, h, p);
        SetBitsOff(r, bits, g, p);
      }
    }
    SameBits(SetBits(x, bits, h), SetBits(r, bits, h));
  }

  lemma SetOwnIndex(r: nat, bits: seq<nat>)
    requires Distinct(bits)
    ensures SetBits(r, bits, GateIndex(r, bits)) == r
  {
    var g := GateIndex(r, bits);
    forall p: nat
      ensures Bit(SetBits(r, bits, g), p) == Bit(r, p)
    {
      if p in bits {
        var j :| 0 <= j < |bits| && bits[j] == p;
        SetBitsOn(r, bits, g, j);
        GateIndexBit(r, bits, j);
      } else {
        SetBitsOff(r, bits, g, p);
      }
    }
    SameBits(SetBits(r, bits, g), r);
  }

  /** Position `inner[j]` of the positions `outer`. */
  function Through(outer: seq<nat>, inner: seq<nat>): (r: seq<nat>)
    requires Below(inner, |outer|)
    ensures |r| == |inner|
  {
    seq(|inner|, j requires 0 <= j < |inner| => outer[inner[j]])
  }

  lemma ThroughTargets(outer: seq<nat>, inner: seq<nat>, n: nat)
    requires Targets(outer, n) && Targets(inner, |outer|)
    ensures Targets(Through(outer, inner), n)
  {
    forall i, j | 0 <= i < j < |inner|
      ensures Through(outer, inner)[i] != Through(outer, inner)[j]
    {
      assert inner[i] != inner[j];
    }
  }

  /** Selecting bits in two stages. */
  lemma IndexThrough(r: nat, outer: seq<nat>, inner: seq<nat>)
    requires Below(inner, |outer|)
    ensures GateIndex(GateIndex(r, outer), inner) == GateIndex(r, Through(outer, inner))
  {
    var x, bits := GateIndex(r, outer), Through(outer, inner);
    forall j: nat
      ensures Bit(GateIndex(x, inner), j) == Bit(GateIndex(r, bits), j)
    {
      GateIndexBit(x, inner, j);
      GateIndexBit(r, bits, j);
      if j < |inner| {
        GateIndexBit(r, outer, inner[j]);
      }
    }
    SameBits(GateIndex(x, inner), GateIndex(r, bits));
  }

  /** Setting the nested bits of a row sets the inner bits of its outer index. */
  lemma SetThrough(r: nat, outer: seq<nat>, inner: seq<nat>, g: nat, n: nat)
    requires Targets(outer, n) && Targets(inner, |outer|)
    ensures GateIndex(SetBits(r, Through(outer, inner), g), outer) == SetBits(GateIndex(r, outer), inner, g)
  {
    var bits := Through(outer, inner);
    ThroughTargets(outer, inner, n);
    var x := SetBits(r, bits, g);
    var y := GateIndex(r, outer);
    GateIndexBit(x, outer, 0);
    GateIndexBit(r, outer, 0);
    SetBitsBelow(y, inner, g, |outer|);
    forall p: nat | p < |outer|
      ensures Bit(GateIndex(x, outer), p) == Bit(SetBits(y, inner, g), p)
    {
      GateIndexBit(x, outer, p);
      GateIndexBit(r, outer, p);
      if p in inner {
        var j :| 0 <= j < |inner| && inner[j] == p;
        assert bits[j] == outer[p];
        SetBitsOn(r, bits, g, j);
        SetBitsOn(y, inner, g, j);
      } else {
        SetBitsOff(y, inner, g, p);
        assert outer[p] !in bits;
        SetBitsOff(r, bits, g, outer[p]);
      }
    }
    BitsDetermine(GateIndex(x, outer), SetBits(y, inner, g), |outer|);
  }

  /** Bits set inside the outer targets are overwritten when the outer targets are set. */
  lemma SetInsideSet(r: nat, outer: seq<nat>, inner: seq<nat>, g: nat, h: nat, n: nat)
    requires Targets(outer, n) && Targets(inner, |outer|)
    ensures SetBits(SetBits(r, Through(outer, inner), g), outer, h) == SetBits(r, outer, h)
  {
    var bits := Through(outer, inner);
    var x := SetBits(r, bits, g);
    forall p: nat
      ensures Bit(SetBits(x, outer, h), p) == Bit(SetBits(r, outer, h), p)
    {
      if p in outer {
        var j :| 0 <= j < |outer| && outer[j] == p;
        SetBitsOn(x, outer, h, j);
        SetBitsOn(r, outer, h, j);
      } else {
        SetBitsOff(x, outer, h, p);
        SetBitsOff(r, outer, h, p);
        assert p !in bits;
        SetBitsOff(r, bits, g, p);
      }
    }
    SameBits(SetBits(x, outer, h), SetBits(r, outer, h));
  }

  // ---- algebra -----------------------------------------------------------------------------------

  /** Applying a gate to a product applies it to the left factor. */
  lemma EmbeddedMul(gate: Mat, bits: seq<nat>, a: Mat, w: Mat, n: nat, q: nat)
    requires Fits(gate, bits, a, n, |w|) && Shape(w, q)
    ensures Embedded(gate, bits, Mul(a, w, q), n, q) == Mul(Embedded(gate, bits, a, n, |w|), w, q)
  {
    hide Plus, Times, Combine, GateIndex, SetBits, Pow2;
    var left, right := Embedded(gate, bits, Mul(a, w, q), n, q), Mul(Embedded(gate, bits, a, n, |w|), w, q);
    forall r | 0 <= r < Pow2(n)
      ensures left[r] == right[r]
    {
      GateIndexBit(r, bits, 0);
      assert Gather(Mul(a, w, q), bits, n, r) == Mul(Gather(a, bits, n, r), w, q);
      CombineAssoc(gate[GateIndex(r, bits)], Gather(a, bits, n, r), w, q);
    }
    assert left == right;
  }

  /** A product of gates on the same bits acts one factor after the other. */
  lemma EmbeddedProduct(a: Mat, b: Mat, bits: seq<nat>, m: Mat, n: nat, q: nat)
    requires Fits(a, bits, m, n, q) && Fits(b, bits, m, n, q)
    ensures Embedded(Mul(a, b, Pow2(|bits|)), bits, m, n, q) == Embedded(a, bits, Embedded(b, bits, m, n, q), n, q)
  {
    hide Plus, Times, Combine, GateIndex, SetBits, Pow2;
    var ab, bm := Mul(a, b, Pow2(|bits|)), Embedded(b, bits, m, n, q);
    var left, right := Embedded(ab, bits, m, n, q), Embedded(a, bits, bm, n, q);
    forall r | 0 <= r < Pow2(n)
      ensures left[r] == right[r]
    {
      GateIndexBit(r, bits, 0);
      var rows := Gather(m, bits, n, r);
      CombineAssoc(a[GateIndex(r, bits)], b, rows, q);
      GatherEmbedded(b, bits, m, n, q, r);
    }
    assert left == right;
  }

  lemma GatherEmbedded(b: Mat, bits: seq<nat>, m: Mat, n: nat, q: nat, r: nat)
    requires Fits(b, bits, m, n, q) && r < Pow2(n)
    ensures Gather(Embedded(b, bits, m, n, q), bits, n, r) == Mul(b, Gather(m, bits, n, r), q)
  {
    hide Plus, Times, Combine, GateIndex, SetBits, Pow2;
    var left, right := Gather(Embedded(b, bits, m, n, q), bits, n, r), Mul(b, Gather(m, bits, n, r), q);
    forall g | 0 <= g < Pow2(|bits|)
      ensures left[g] == right[g]
    {
      IndexOfSet(r, bits, g);
      var x := SetBits(r, bits, g);
      forall h | 0 <= h < Pow2(|bits|)
        ensures Gather(m, bits, n, x)[h] == Gather(m, bits, n, r)[h]
      {
        SetTwice(r, bits, g, h);
      }
      assert Gather(m, bits, n, x) == Gather(m, bits, n, r);
    }
    assert left == right;
  }

  /** The identity gate changes nothing, whatever its targets. */
  lemma EmbeddedIdentity(bits: seq<nat>, m: Mat, n: nat, q: nat)
    requires Targets(bits, n) && |m| == Pow2(n) && Shape(m, q)
    ensures Embedded(Identity(Pow2(|bits|)), bits, m, n, q) == m
  {
    hide Plus, Times, Combine, GateIndex, SetBits, Pow2;
    var e := Embedded(Identity(Pow2(|bits|)), bits, m, n, q);
    forall r | 0 <= r < Pow2(n)
      ensures e[r] == m[r]
    {
      GateIndexBit(r, bits, 0);
      CombineUnit(Gather(m, bits, n, r), q, GateIndex(r, bits));
      SetOwnIndex(r, bits);
    }
    assert e == m;
  }

  /** A scalar on the matrix comes out of the gate. */
  lemma EmbeddedScaled(gate: Mat, bits: seq<nat>, x: C, m: Mat, n: nat, q: nat)
    requires Fits(gate, bits, m, n, q)
    ensures Shape(ScaleAll(x, m), q)
    ensures Embedded(gate, bits, ScaleAll(x, m), n, q) == ScaleAll(x, Embedded(gate, bits, m, n, q))
  {
    hide Plus, Times, Combine, GateIndex, SetBits, Pow2;
    var left, right := Embedded(gate, bits, ScaleAll(x, m), n, q), ScaleAll(x, Embedded(gate, bits, m, n, q));
    forall r | 0 <= r < Pow2(n)
      ensures left[r] == right[r]
    {
      GateIndexBit(r, bits, 0);
      var rows := Gather(m, bits, n, r);
      assert Gather(ScaleAll(x, m), bits, n, r) == ScaleAll(x, rows);
      CombineScaledRows(x, gate[GateIndex(r, bits)], rows, q);
    }
    assert left == right;
  }

  /** So does a scalar on the gate. */
  lemma ScaledGate(gate: Mat, bits: seq<nat>, x: C, m: Mat, n: nat, q: nat)
    requires Fits(gate, bits, m, n, q)
    ensures Fits(ScaleAll(x, gate), bits, m, n, q)
    ensures Embedded(ScaleAll(x, gate), bits, m, n, q) == ScaleAll(x, Embedded(gate, bits, m, n, q))
  {
    hide Plus, Times, Combine, GateIndex, SetBits, Pow2;
    var left, right := Embedded(ScaleAll(x, gate), bits, m, n, q), ScaleAll(x, Embedded(gate, bits, m, n, q));
    forall r | 0 <= r < Pow2(n)
      ensures left[r] == right[r]
    {
      GateIndexBit(r, bits, 0);
      CombineScale(x, gate[GateIndex(r, bits)], Gather(m, bits, n, r), q);
    }
    assert left == right;
  }

  /**
   A gate inside a gate: embedding a matrix that was itself built by embedding `gate` is embedding
   `gate` directly on the selected positions.
   */
  lemma EmbeddedNested(gate: Mat, inner: seq<nat>, b: Mat, outer: seq<nat>, m: Mat, n: nat, q: nat)
    requires Fits(gate, inner, b, |outer|, Pow2(|outer|)) && Fits(b, outer, m, n, q)
    ensures Targets(Through(outer, inner), n)
    ensures Embedded(Embedded(gate, inner, b, |outer|, Pow2(|outer|)), outer, m, n, q)
         == Embedded(gate, Through(outer, inner), Embedded(b, outer, m, n, q), n, q)
  {
    hide Plus, Times, Combine, GateIndex, SetBits, Pow2;
    var k, bits := Pow2(|outer|), Through(outer, inner);
    ThroughTargets(outer, inner, n);
    var gb, bm := Embedded(gate, inner, b, |outer|, k), Embedded(b, outer, m, n, q);
    var left, right := Embedded(gb, outer, m, n, q), Embedded(gate, bits, bm, n, q);
    forall r | 0 <= r < Pow2(n)
      ensures left[r] == right[r]
    {
      var x := GateIndex(r, outer);
      GateIndexBit(r, outer, 0);
      GateIndexBit(r, bits, 0);
      IndexThrough(r, outer, inner);
      var rows := Gather(m, outer, n, r);
      CombineAssoc(gate[GateIndex(r, bits)], Gather(b, inner, |outer|, x), rows, q);
      GatherNested(inner, b, outer, m, n, q, r);
    }
    assert left == right;
  }

  lemma GatherNested(inner: seq<nat>, b: Mat, outer: seq<nat>, m: Mat, n: nat, q: nat, r: nat)
    requires Targets(inner, |outer|) && Fits(b, outer, m, n, q) && r < Pow2(n)
    ensures Targets(Through(outer, inner), n) && GateIndex(r, outer) < Pow2(|outer|)
    ensures Gather(Embedded(b, outer, m, n, q), Through(outer, inner), n, r)
         == Mul(Gather(b, inner, |outer|, GateIndex(r, outer)), Gather(m, outer, n, r), q)
  {
    hide Plus, Times, Combine, GateIndex, SetBits, Pow2;
    var bits := Through(outer, inner);
    ThroughTargets(outer, inner, n);
    var x := GateIndex(r, outer);
    GateIndexBit(r, outer, 0);
    var left := Gather(Embedded(b, outer, m, n, q), bits, n, r);
    var right := Mul(Gather(b, inner, |outer|, x), Gather(m, outer, n, r), q);
    forall g | 0 <= g < Pow2(|inner|)
      ensures left[g] == right[g]
    {
      var y := SetBits(r, bits, g);
      SetThrough(r, outer, inner, g, n);
      forall h | 0 <= h < Pow2(|outer|)
        ensures Gather(m, outer, n, y)[h] == Gather(m, outer, n, r)[h]
      {
        SetInsideSet(r, outer, inner, g, h, n);
      }
      assert Gather(m, outer, n, y) == Gather(m, outer, n, r);
    }
    assert left == right;
  }

  // ---- the embedded gate as a matrix -----------------------------------------------------------

  /** Rows `r` and `c` differ at most on the target bits. */
  ghost predicate AgreeOff(r: nat, c: nat, bits: seq<nat>) {
    forall p: nat | p !in bits :: Bit(r, p) == Bit(c, p)
  }

  lemma AgreeOffSet(r: nat, c: nat, bits: seq<nat>)
    requires Distinct(bits) && AgreeOff(r, c, bits)
    ensures SetBits(r, bits, GateIndex(c, bits)) == c
  {
    var g := GateIndex(c, bits);
    forall p: nat
      ensures Bit(SetBits(r, bits, g), p) == Bit(c, p)
    {
      if p in bits {
        var j :| 0 <= j < |bits| && bits[j] == p;
        SetBitsOn(r, bits, g, j);
        GateIndexBit(c, bits, j);
      } else {
        SetBitsOff(r, bits, g, p);
      }
    }
    SameBits(SetBits(r, bits, g), c);
  }

  lemma {:induction false} DotPick(a: Vec, v: Vec, n: nat, t: nat)
    requires n <= |a| && n <= |v| && forall g | 0 <= g < n :: v[g] == if g == t then ONE else ZERO
    ensures Dot(a, v, n) == if t < n then a[t] else ZERO
    decreases n
  {
    hide Plus, Times;
    if n > 0 {
      DotPick(a, v, n - 1, t);
      Units(a[n - 1]);
      Units(Dot(a, v, n - 1));
    }
  }

  /** The gate embedded on its bits: the gate's entry where the other bits agree, zero elsewhere. */
  lemma UnitaryEntry(gate: Mat, bits: seq<nat>, n: nat, r: nat, c: nat)
    requires Fits(gate, bits, Identity(Pow2(n)), n, Pow2(n)) && r < Pow2(n) && c < Pow2(n)
    ensures GateIndex(r, bits) < |gate| && GateIndex(c, bits) < |gate|
    ensures Embedded(gate, bits, Identity(Pow2(n)), n, Pow2(n))[r][c]
         == if AgreeOff(r, c, bits) then gate[GateIndex(r, bits)][GateIndex(c, bits)] else ZERO
  {
    hide Plus, Times, Combine, GateIndex, SetBits, Pow2, Dot;
    GateIndexBit(r, bits, 0);
    GateIndexBit(c, bits, 0);
    var a := gate[GateIndex(r, bits)];
    var rows := Gather(Identity(Pow2(n)), bits, n, r);
    CombineAt(a, rows, Pow2(n), c);
    var t := if AgreeOff(r, c, bits) then GateIndex(c, bits) else |a|;
    forall g | 0 <= g < |a|
      ensures Column(rows, c)[g] == if g == t then ONE else ZERO
    {
      if AgreeOff(r, c, bits) {
        AgreeOffSet(r, c, bits);
        if SetBits(r, bits, g) == c {
          IndexOfSet(r, bits, g);
        }
      } else if SetBits(r, bits, g) == c {
        forall p: nat | p !in bits
          ensures Bit(r, p) == Bit(c, p)
        {
          SetBitsOff(r, bits, g, p);
        }
        assert false;
      }
    }
    DotPick(a, Column(rows, c), |a|, t);
  }

  /** Applying a gate is multiplying by the embedded gate. */
  lemma EmbeddedIsProduct(gate: Mat, bits: seq<nat>, m: Mat, n: nat, q: nat)
    requires Fits(gate, bits, m, n, q)
    ensures Embedded(gate, bits, m, n, q) == Mul(Embedded(gate, bits, Identity(Pow2(n)), n, Pow2(n)), m, q)
  {
    EmbeddedMul(gate, bits, Identity(Pow2(n)), m, n, q);
    MulIdentity(m, q);
  }
}
