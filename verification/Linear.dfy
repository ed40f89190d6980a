/**
 Rows and matrices of exact complex numbers. A matrix is a sequence of rows; `Combine` is the
 linear combination of rows from which the matrix product is built.
 */
module Linear {

  /** A complex number without rounding. */
  datatype C = C(re: real, im: real)

  const ZERO := C(0.0, 0.0)

  const ONE := C(1.0, 0.0)

  function Plus(a: C, b: C): C {
    C(a.re + b.re, a.im + b.im)
  }

  function Times(a: C, b: C): C {
    C(a.re * b.re - a.im * b.im, a.re * b.im + a.im * b.re)
  }

  type Vec = seq<C>

  type Mat = seq<seq<C>>

  /** All rows have length `q`. */
  predicate Shape(m: Mat, q: nat) {
    forall i | 0 <= i < |m| :: |m[i]| == q
  }

  function Zeros(q: nat): Vec {
    seq(q, _ => ZERO)
  }

  function VAdd(u: Vec, v: Vec): Vec
    requires |u| == |v|
  {
    seq(|u|, i requires 0 <= i < |u| => Plus(u[i], v[i]))
  }

  function Scale(x: C, v: Vec): Vec {
    seq(|v|, i requires 0 <= i < |v| => Times(x, v[i]))
  }

  /** The linear combination of the rows of `m` with coefficients `a`. */
  function Combine(a: Vec, m: Mat, q: nat): (r: Vec)
    requires |a| == |m| && Shape(m, q)
    ensures |r| == q
    decreases |a|
  {
    if a == [] then Zeros(q)
    else VAdd(Combine(a[..|a| - 1], m[..|m| - 1], q), Scale(a[|a| - 1], m[|m| - 1]))
  }

  /** The matrix product: row `r` combines the rows of `m` with the coefficients of row `r` of `a`. */
  function Mul(a: Mat, m: Mat, q: nat): (r: Mat)
    requires Shape(a, |m|) && Shape(m, q)
    ensures |r| == |a| && Shape(r, q)
  {
    seq(|a|, r requires 0 <= r < |a| => Combine(a[r], m, q))
  }

  function UnitRow(n: nat, r: nat): Vec {
    seq(n, c => if c == r then ONE else ZERO)
  }

  function Identity(n: nat): (r: Mat)
    ensures |r| == n && Shape(r, n)
  {
    seq(n, r requires 0 <= r < n => UnitRow(n, r))
  }

  function ScaleAll(x: C, m: Mat): Mat {
    seq(|m|, r requires 0 <= r < |m| => Scale(x, m[r]))
  }

  /** The accumulation of the kernels' inner loops: `0 + a[0]*v[0] + ... + a[n-1]*v[n-1]`, from the left. */
  function Dot(a: Vec, v: Vec, n: nat): C
    requires n <= |a| && n <= |v|
  {
    if n == 0 then ZERO else Plus(Dot(a, v, n - 1), Times(a[n - 1], v[n - 1]))
  }

  // ---- laws at points -----------------------------------------------------------------------

  lemma AddMoves(a: C, b: C, c: C, d: C)
    ensures Plus(Plus(a, b), Plus(c, d)) == Plus(Plus(a, c), Plus(b, d))
  {
  }

  lemma MulAdds(a: C, b: C, x: C)
    ensures Times(Plus(a, b), x) == Plus(Times(a, x), Times(b, x))
    ensures Times(x, Plus(a, b)) == Plus(Times(x, a), Times(x, b))
  {
  }

  lemma MulCommutes(a: C, b: C)
    ensures Times(a, b) == Times(b, a)
  {
  }

  lemma MulAssociates(a: C, b: C, c: C)
    ensures Times(Times(a, b), c) == Times(a, Times(b, c))
  {
    assert (a.re * b.re - a.im * b.im) * c.re == a.re * (b.re * c.re) - a.im * (b.im * c.re);
    assert (a.re * b.im + a.im * b.re) * c.im == a.re * (b.im * c.im) + a.im * (b.re * c.im);
    assert (a.re * b.re - a.im * b.im) * c.im == a.re * (b.re * c.im) - a.im * (b.im * c.im);
    assert (a.re * b.im + a.im * b.re) * c.re == a.re * (b.im * c.re) + a.im * (b.re * c.re);
    assert a.re * (b.re * c.re - b.im * c.im) == a.re * (b.re * c.re) - a.re * (b.im * c.im);
    assert a.im * (b.re * c.im + b.im * c.re) == a.im * (b.re * c.im) + a.im * (b.im * c.re);
    assert a.re * (b.re * c.im + b.im * c.re) == a.re * (b.re * c.im) + a.re * (b.im * c.re);
    assert a.im * (b.re * c.re - b.im * c.im) == a.im * (b.re * c.re) - a.im * (b.im * c.im);
  }

  lemma MulMoves(a: C, b: C, c: C)
    ensures Times(Times(a, b), c) == Times(a, Times(b, c)) == Times(b, Times(a, c))
  {
    MulAssociates(a, b, c);
    MulAssociates(b, a, c);
    MulCommutes(a, b);
    hide Times;
  }

  lemma Units(a: C)
    ensures Plus(ZERO, a) == a && Plus(a, ZERO) == a
    ensures Times(ONE, a) == a && Times(a, ONE) == a
    ensures Times(ZERO, a) == ZERO && Times(a, ZERO) == ZERO
  {
  }

  // ---- combinations are linear in the coefficients and in the rows -----------------------------

  lemma {:induction false} CombineZeros(m: Mat, q: nat)
    requires Shape(m, q)
    ensures Combine(Zeros(|m|), m, q) == Zeros(q)
    decreases |m|
  {
    hide Plus, Times;
    if m != [] {
      var m' := m[..|m| - 1];
      assert Zeros(|m|)[..|m| - 1] == Zeros(|m'|);
      CombineZeros(m', q);
      var last := Scale(ZERO, m[|m| - 1]);
      forall i | 0 <= i < q
        ensures Plus(Zeros(q)[i], last[i]) == ZERO
      {
        Units(m[|m| - 1][i]);
        Units(ZERO);
      }
      assert VAdd(Zeros(q), last) == Zeros(q);
    }
  }

  lemma {:induction false} CombineAdd(a: Vec, b: Vec, m: Mat, q: nat)
    requires Shape(m, q) && |a| == |b| == |m|
    ensures Combine(VAdd(a, b), m, q) == VAdd(Combine(a, m, q), Combine(b, m, q))
    decreases |m|
  {
    hide Plus, Times;
    var sum := VAdd(a, b);
    if m == [] {
      Units(ZERO);
      assert VAdd(Zeros(q), Zeros(q)) == Zeros(q);
    } else {
      var n := |m| - 1;
      var a', b', m' := a[..n], b[..n], m[..n];
      assert sum[..n] == VAdd(a', b');
      CombineAdd(a', b', m', q);
      var ca, cb := Combine(a', m', q), Combine(b', m', q);
      forall i | 0 <= i < q
        ensures Combine(sum, m, q)[i] == VAdd(Combine(a, m, q), Combine(b, m, q))[i]
      {
        var x := m[n][i];
        MulAdds(a[n], b[n], x);
        AddMoves(ca[i], cb[i], Times(a[n], x), Times(b[n], x));
      }
    }
  }

  lemma {:induction false} CombineScale(x: C, a: Vec, m: Mat, q: nat)
    requires Shape(m, q) && |a| == |m|
    ensures Combine(Scale(x, a), m, q) == Scale(x, Combine(a, m, q))
    decreases |m|
  {
    hide Plus, Times;
    var xa := Scale(x, a);
    if m == [] {
      Units(x);
      assert Scale(x, Zeros(q)) == Zeros(q);
    } else {
      var n := |m| - 1;
      assert xa[..n] == Scale(x, a[..n]);
      CombineScale(x, a[..n], m[..n], q);
      var c := Combine(a[..n], m[..n], q);
      forall i | 0 <= i < q
        ensures Combine(xa, m, q)[i] == Scale(x, Combine(a, m, q))[i]
      {
        MulMoves(x, a[n], m[n][i]);
        MulAdds(c[i], Times(a[n], m[n][i]), x);
      }
    }
  }

  /** Scaling every row scales the combination. */
  lemma {:induction false} CombineScaledRows(x: C, a: Vec, m: Mat, q: nat)
    requires Shape(m, q) && |a| == |m|
    ensures Shape(ScaleAll(x, m), q)
    ensures Combine(a, ScaleAll(x, m), q) == Scale(x, Combine(a, m, q))
    decreases |m|
  {
    hide Plus, Times;
    var xm := ScaleAll(x, m);
    if m == [] {
      Units(x);
      assert Scale(x, Zeros(q)) == Zeros(q);
    } else {
      var n := |m| - 1;
      assert xm[..n] == ScaleAll(x, m[..n]);
      CombineScaledRows(x, a[..n], m[..n], q);
      var c := Combine(a[..n], m[..n], q);
      forall i | 0 <= i < q
        ensures Combine(a, xm, q)[i] == Scale(x, Combine(a, m, q))[i]
      {
        MulMoves(a[n], x, m[n][i]);
        MulAdds(c[i], Times(a[n], m[n][i]), x);
      }
    }
  }

  /** Combining combinations is combining with the product of the coefficients. */
  lemma {:induction false} CombineAssoc(a: Vec, b: Mat, m: Mat, q: nat)
    requires |a| == |b| && Shape(b, |m|) && Shape(m, q)
    ensures Combine(Combine(a, b, |m|), m, q) == Combine(a, Mul(b, m, q), q)
    decreases |a|
  {
    hide Plus, Times;
    if a == [] {
      CombineZeros(m, q);
    } else {
      var n := |a| - 1;
      var a', b' := a[..n], b[..n];
      CombineAssoc(a', b', m, q);
      assert Mul(b, m, q)[..n] == Mul(b', m, q);
      CombineAdd(Combine(a', b', |m|), Scale(a[n], b[n]), m, q);
      CombineScale(a[n], b[n], m, q);
    }
  }

  lemma {:induction false} CombineUnit(m: Mat, q: nat, r: nat)
    requires Shape(m, q)
    ensures Combine(UnitRow(|m|, r), m, q) == if r < |m| then m[r] else Zeros(q)
    decreases |m|
  {
    hide Plus, Times;
    if m != [] {
      var n := |m| - 1;
      assert UnitRow(|m|, r)[..n] == UnitRow(n, r);
      CombineUnit(m[..n], q, r);
      var prev := Combine(UnitRow(n, r), m[..n], q);
      forall i | 0 <= i < q
        ensures Combine(UnitRow(|m|, r), m, q)[i] == (if r < |m| then m[r] else Zeros(q))[i]
      {
        Units(m[n][i]);
        Units(prev[i]);
      }
    }
  }

  lemma MulIdentity(m: Mat, q: nat)
    requires Shape(m, q)
    ensures Mul(Identity(|m|), m, q) == m
  {
    hide Plus, Times;
    forall r | 0 <= r < |m|
      ensures Mul(Identity(|m|), m, q)[r] == m[r]
    {
      CombineUnit(m, q, r);
    }
  }

  function Column(m: Mat, c: nat): Vec
    requires forall i | 0 <= i < |m| :: c < |m[i]|
  {
    seq(|m|, i requires 0 <= i < |m| => m[i][c])
  }

  lemma {:induction false} DotPrefix(a: Vec, v: Vec, n: nat, p: nat)
    requires n <= p <= |a| && p <= |v|
    ensures Dot(a, v, n) == Dot(a[..p], v[..p], n)
    decreases n
  {
    if n > 0 {
      DotPrefix(a, v, n - 1, p);
    }
  }

  /** Entry `c` of a combination is what the inner loop accumulates over column `c`. */
  lemma {:induction false} CombineAt(a: Vec, m: Mat, q: nat, c: nat)
    requires |a| == |m| && Shape(m, q) && c < q
    ensures Combine(a, m, q)[c] == Dot(a, Column(m, c), |a|)
    decreases |a|
  {
    if a != [] {
      var n := |a| - 1;
      CombineAt(a[..n], m[..n], q, c);
      DotPrefix(a, Column(m, c), n, n);
      assert Column(m, c)[..n] == Column(m[..n], c);
    }
  }
}
