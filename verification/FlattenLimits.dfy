/**
 Where flattening stops preserving the matrix: exactly when the dropped nested phases multiply to
 something other than one, and for bodies that do not declare their qubits in ascending order.
 */
module FlattenLimits {
  import opened Prelude
  import opened Bits
  import opened Linear
  import opened Embedding
  import opened CircuitMatrix
  import opened Flatten

  predicate AllZero(m: Mat) {
    forall r, c | 0 <= r < |m| && 0 <= c < |m[r]| :: m[r][c] == ZERO
  }

  lemma NoZeroDivisors(x: C, v: C)
    requires Times(x, v) == v && v != ZERO
    ensures x == ONE
  {
    var a, b := x.re - 1.0, x.im;
    assert a * v.re - b * v.im == 0.0 && a * v.im + b * v.re == 0.0;
    assert v == C(v.re, v.im);
    Cancel(a, b, v.re, v.im);
  }

  function Product(x: real, y: real): real {
    x * y
  }

  function Square(x: real): real {
    Product(x, x)
  }

  lemma ProductPositive(x: real, y: real)
    requires x > 0.0 && y > 0.0
    ensures Product(x, y) > 0.0
  {
  }

  lemma SquareSign(x: real)
    ensures Square(x) >= 0.0
    ensures x != 0.0 ==> Square(x) > 0.0
  {
    assert (-x) * (-x) == x * x;
    hide Product;
    if x < 0.0 {
      ProductPositive(-x, -x);
      assert Square(-x) == Square(x) by { SquareEven(x); }
    } else if x > 0.0 {
      ProductPositive(x, x);
    } else {
      SquareZero();
    }
  }

  lemma SquareEven(x: real)
    ensures Square(-x) == Square(x)
  {
    assert (-x) * (-x) == x * x;
  }

  lemma SquareZero()
    ensures Square(0.0) == 0.0
  {
  }

  lemma Eliminate(a: real, b: real, p: real, q: real)
    requires a * p - b * q == 0.0 && a * q + b * p == 0.0
    ensures a * Square(p) + a * Square(q) == 0.0
    ensures b * Square(p) + b * Square(q) == 0.0
  {
    assert (a * p - b * q) * p == 0.0 && (a * q + b * p) * q == 0.0;
    assert (a * p - b * q) * q == 0.0 && (a * q + b * p) * p == 0.0;
    assert (a * p - b * q) * p == a * (p * p) - b * q * p;
    assert (a * q + b * p) * q == a * (q * q) + b * p * q;
    assert (a * p - b * q) * q == a * p * q - b * (q * q);
    assert (a * q + b * p) * p == a * q * p + b * (p * p);
  }

  lemma OnlyZero(a: real, n: real, m: real)
    requires a * n + a * m == 0.0 && n + m > 0.0
    ensures a == 0.0
  {
    assert a * (n + m) == a * n + a * m;
  }

  lemma Cancel(a: real, b: real, p: real, q: real)
    requires a * p - b * q == 0.0 && a * q + b * p == 0.0
    requires p != 0.0 || q != 0.0
    ensures a == 0.0 && b == 0.0
  {
    Eliminate(a, b, p, q);
    SquareSign(p);
    SquareSign(q);
    hide Square;
    OnlyZero(a, Square(p), Square(q));
    OnlyZero(b, Square(p), Square(q));
  }

  /** A scalar fixes a matrix exactly when it is one or the matrix is zero. */
  lemma ScaleFixes(x: C, m: Mat)
    ensures ScaleAll(x, m) == m <==> x == ONE || AllZero(m)
  {
    hide Times;
    if ScaleAll(x, m) == m && !AllZero(m) {
      var r, c :| 0 <= r < |m| && 0 <= c < |m[r]| && m[r][c] != ZERO;
      assert ScaleAll(x, m)[r][c] == Times(x, m[r][c]);
      NoZeroDivisors(x, m[r][c]);
    }
    if x == ONE {
      ScaleOne(m);
    } else if AllZero(m) {
      Units(x);
      assert forall r | 0 <= r < |m| :: ScaleAll(x, m)[r] == m[r];
    }
  }

  /** For ascending bodies the flattened matrix is the original one exactly when the dropped phases multiply to one. */
  lemma FlatteningIsExactWhen(lib: Library, c: Circuit, order: Option<seq<nat>>) returns (flat: Circuit)
    requires WellFormed(lib, c) && AscendingBodies(c.ops) && CircuitToMatrix(lib, c, order).Ok?
    ensures Decompose(lib, c) == Ok(flat) && CircuitToMatrix(lib, flat, order).Ok?
    ensures CircuitToMatrix(lib, flat, order) == CircuitToMatrix(lib, c, order)
       <==> NestedPhases(lib, c.ops, None) == ONE || AllZero(CircuitToMatrix(lib, flat, order).value)
  {
    assert Distinct(c.qubits);
    hide CircuitToMatrix, Decompose, NestedPhases, WellFormed, AscendingBodies, AllZero, ScaleAll;
    flat := FlatteningPreservesMatrix(lib, c, order);
    ScaleFixes(NestedPhases(lib, c.ops, None), CircuitToMatrix(lib, flat, order).value);
  }

  /** Decomposing gives a circuit with the same matrix. */
  predicate KeepsMatrix(lib: Library, c: Circuit)
    requires Distinct(c.qubits)
  {
    && Decompose(lib, c).Ok?
    && Decompose(lib, c).value.qubits == c.qubits
    && CircuitToMatrix(lib, c, None).Ok?
    && CircuitToMatrix(lib, Decompose(lib, c).value, None) == CircuitToMatrix(lib, c, None)
  }

  // ---- a body with a phase --------------------------------------------------------------------------

  /** A gate made of a circuit that has no operations, only a global phase. */
  function PhasedCall(phase: real): Circuit {
    Circuit([0], [Op(Nested(Circuit([0], [], Num(phase)), []), [0], [])], Num(0.0))
  }

  lemma IdentityNotZero(n: nat)
    ensures !AllZero(Identity(Pow2(n)))
  {
    assert Identity(Pow2(n))[0][0] == ONE;
  }

  lemma PhasedCallWellFormed(lib: Library, phase: real)
    ensures WellFormed(lib, PhasedCall(phase)) && AscendingBodies(PhasedCall(phase).ops)
  {
    var call := PhasedCall(phase).ops[0];
    assert OpsWellFormed(lib, [], [0]) && AscendingBodies([]);
    assert WellFormed(lib, call.inst.body);
    assert OpWellFormed(lib, call, [0]) && AscendingBody(call);
  }

  /** The call of the phased body puts the phase on the identity, and decomposing it leaves nothing. */
  lemma PhasedCallMatrix(lib: Library, phase: real)
    requires phase != 0.0
    ensures CircuitToMatrix(lib, PhasedCall(phase), None).Ok?
    ensures NestedPhases(lib, PhasedCall(phase).ops, None) == lib.cis(phase)
  {
    hide Times, Plus, Embedded, Combine;
    var c := PhasedCall(phase);
    var call, body := c.ops[0], c.ops[0].inst.body;
    var env := Some(Zip<string, real>([], []));
    assert Pow2(1) == 2 && [0][1..] == [] && Sorted([0]) == [0];
    var start := Identity(Pow2(1));
    assert SquareOf(start, 1) && SquareOf(ScaleAll(lib.cis(phase), start), 1);
    assert MatrixOf(lib, body, [0], env, true) == Ok(ScaleAll(lib.cis(phase), start));
    assert BitsOf([0], [0]) == [0];
    RunSingle(lib, call, [0], start, None);
    Units(lib.cis(phase));
    assert c.ops[..|c.ops| - 1] == [];
    assert NestedPhases(lib, [], env) == ONE;
    assert NestedPhase(lib, call, None) == Times(ONE, lib.cis(phase));
  }

  /** Decomposing loses the phase of a body, whenever that phase is not one: the circuit is well formed and its only body ascending. */
  lemma NestedPhaseMatters(lib: Library, phase: real)
    requires phase != 0.0 && lib.cis(phase) != ONE
    ensures WellFormed(lib, PhasedCall(phase)) && AscendingBodies(PhasedCall(phase).ops)
    ensures CircuitToMatrix(lib, PhasedCall(phase), None).Ok? && !KeepsMatrix(lib, PhasedCall(phase))
  {
    hide CircuitToMatrix, NestedPhases, WellFormed, AscendingBodies, AllZero;
    PhasedCallWellFormed(lib, phase);
    PhasedCallMatrix(lib, phase);
    var c := PhasedCall(phase);
    var flat := FlatteningIsExactWhen(lib, c, None);
    PhasedCallFlat(lib, phase);
    IdentityNotZero(1);
  }

  lemma PhasedCallFlat(lib: Library, phase: real)
    ensures Decompose(lib, PhasedCall(phase)) == Ok(Circuit([0], [], Num(0.0)))
    ensures CircuitToMatrix(lib, Circuit([0], [], Num(0.0)), None) == Ok(Identity(Pow2(1)))
  {
    hide Times;
    var c := PhasedCall(phase);
    var qm: QubitMap := map q | q in c.qubits :: q := q;
    DecomposeSingle(lib, c.ops[0], qm, map[], c.qubits);
    assert SquareOf(Identity(Pow2(1)), 1);
    ScaleOne(Identity(Pow2(1)));
  }

  // ---- a body whose qubits are declared out of order --------------------------------------------------

  /** The qubits `0 .. n` in order. */
  function Range(n: nat): (r: seq<nat>)
    ensures |r| == n && Ascending(r) && forall k | 0 <= k < n :: r[k] == k
  {
    seq(n, k => k)
  }

  /** A circuit on the qubits `qs`, declared in this order, with one gate on the `i`-th of them. */
  function GateBody(name: string, qs: seq<nat>, i: nat): Circuit
    requires i < |qs|
  {
    Circuit(qs, [Op(Gate(name, false), [qs[i]], [])], Num(0.0))
  }

  /** That circuit as a gate on the qubits of an outer circuit. */
  function GateCall(name: string, qs: seq<nat>, i: nat): Circuit
    requires i < |qs|
  {
    Circuit(Range(|qs|), [Op(Nested(GateBody(name, qs, i), []), Range(|qs|), [])], Num(0.0))
  }

  ghost predicate SingleQubitGate(lib: Library, name: string, g: Mat) {
    lib.arity(name) == (1, 0) && lib.matrix(name, []) == Some(g) && |g| == 2 && Shape(g, 2)
  }

  lemma GateOnQubit(lib: Library, name: string, g: Mat, order: seq<nat>, q: nat, m: Mat, env: Option<Bindings>)
    requires SingleQubitGate(lib, name, g) && q in order && SquareOf(m, |order|)
    ensures Fits(g, [BitOf(order, q)], m, |order|, Pow2(|order|))
    ensures RunOp(lib, Op(Gate(name, false), [q], []), order, m, env, true)
         == Ok(Embedded(g, [BitOf(order, q)], m, |order|, Pow2(|order|)))
  {
    hide Embedded, Combine;
    assert BitsOf(order, [q]) == [BitOf(order, q)];
    assert Pow2(1) == 2 && |[BitOf(order, q)]| == 1;
  }

  /** The matrix of a circuit whose only operation is the gate on `q`. */
  lemma GateAlone(lib: Library, name: string, g: Mat, qs: seq<nat>, order: seq<nat>, q: nat, env: Option<Bindings>)
    requires SingleQubitGate(lib, name, g) && q in order && |qs| == |order| < 32
    ensures Fits(g, [BitOf(order, q)], Identity(Pow2(|order|)), |order|, Pow2(|order|))
    ensures MatrixOf(lib, Circuit(qs, [Op(Gate(name, false), [q], [])], Num(0.0)), order, env, true)
         == Ok(Embedded(g, [BitOf(order, q)], Identity(Pow2(|order|)), |order|, Pow2(|order|)))
  {
    hide Embedded, Combine, Times, Plus, RunOps, RunOp, Identity, ScaleAll, Pow2;
    var start := Identity(Pow2(|order|));
    assert SquareOf(start, |order|);
    GateOnQubit(lib, name, g, order, q, start, env);
    RunSingle(lib, Op(Gate(name, false), [q], []), order, start, env);
    ScaleOne(Embedded(g, [BitOf(order, q)], start, |order|, Pow2(|order|)));
  }

  lemma RangeBit(n: nat, i: nat)
    requires i < n
    ensures BitOf(Range(n), i) == i && Sorted(Range(n)) == Range(n)
  {
    assert Range(n)[i] in Range(n);
    BitOfAt(Range(n), i);
    SortedAscending(Range(n));
  }

  /** A body on all qubits of the outer circuit has its own matrix there. */
  lemma CallIsBody(lib: Library, body: Circuit, n: nat, e: Mat)
    requires |body.qubits| == n < 32 && SquareOf(e, n)
    requires MatrixOf(lib, body, BodyOrder(body, true), Some(Zip([], [])), true) == Ok(e)
    ensures CircuitToMatrix(lib, Circuit(Range(n), [Op(Nested(body, []), Range(n), [])], Num(0.0)), None) == Ok(e)
  {
    hide Embedded, Combine, Times, Plus, MatrixOf, Identity, Pow2, RunOps, Sorted, ScaleAll;
    var start, op := Identity(Pow2(n)), Op(Nested(body, []), Range(n), []);
    var c := Circuit(Range(n), [op], Num(0.0));
    assert SquareOf(start, n);
    SortedAscending(Range(n));
    IdentityTargets(n, e);
    assert BitsOf(Range(n), Range(n)) == seq(n, i => i) by {
      forall i | 0 <= i < n
        ensures BitOf(Range(n), Range(n)[i]) == i
      {
        RangeBit(n, i);
      }
    }
    assert RunOp(lib, op, Range(n), start, None, true) == Ok(e);
    RunSingle(lib, op, Range(n), start, None);
    ScaleOne(e);
    SingleMatrix(lib, c, Range(n), e);
  }

  lemma SingleMatrix(lib: Library, c: Circuit, order: seq<nat>, e: Mat)
    requires |order| == |c.qubits| < 32 && c.phase == Num(0.0) && SquareOf(e, |order|)
    requires SquareOf(Identity(Pow2(|order|)), |order|)
    requires RunOps(lib, c.ops, order, Identity(Pow2(|order|)), None, true) == Ok(e)
    ensures MatrixOf(lib, c, order, None, true) == Ok(e)
  {
    hide RunOps, Identity, ScaleAll, Pow2;
    ScaleOne(e);
  }

  lemma DecomposeSingle(lib: Library, op: Op, qm: QubitMap, pm: ParamMap, target: seq<nat>)
    ensures DecomposeOps(lib, [op], qm, pm, target) == DecomposeOp(lib, op, qm, pm, target)
  {
    hide DecomposeOp;
    assert [op][..|[op]| - 1] == [];
    var last := DecomposeOp(lib, op, qm, pm, target);
    if last.Ok? {
      assert [] + last.value == last.value;
    }
  }

  /** Decomposing sends the body's `i`-th declared qubit to the `i`-th argument. */
  lemma GateCallFlat(lib: Library, name: string, g: Mat, qs: seq<nat>, i: nat)
    requires SingleQubitGate(lib, name, g) && Distinct(qs) && i < |qs|
    ensures Decompose(lib, GateCall(name, qs, i)) == Ok(Circuit(Range(|qs|), [Op(Gate(name, false), [i], [])], Num(0.0)))
  {
    hide DecomposeOps, Zip;
    var c := GateCall(name, qs, i);
    var call, inner := c.ops[0], GateBody(name, qs, i).ops[0];
    var qm: QubitMap := map q | q in c.qubits :: q := q;
    DecomposeSingle(lib, call, qm, map[], c.qubits);
    var mapped := MappedAll(qm, call.qubits);
    assert mapped == Range(|qs|) by {
      assert forall k | 0 <= k < |qs| :: Range(|qs|)[k] in Range(|qs|);
    }
    var qm', pm: ParamMap := Zip(qs, mapped), Zip([], []);
    ZipAt(qs, mapped, i);
    assert qs[i] in qs && qs[..|qs|] == qs;
    assert MappedAll(qm', inner.qubits) == [i];
    assert StoredAll(lib, []) == [];
    assert Range(|qs|)[i] in Range(|qs|);
    assert Appended(lib, Gate(name, false), [i], c.qubits, []) == Ok([Op(Gate(name, false), [i], [])]);
    DecomposeSingle(lib, inner, qm', pm, c.qubits);
  }

  /** Two places for a one-qubit gate with distinct diagonal entries give different matrices. */
  lemma PlacesDiffer(g: Mat, n: nat, i: nat, k: nat)
    requires |g| == 2 && Shape(g, 2) && g[0][0] != g[1][1] && i < n && k < n && i != k
    requires Fits(g, [i], Identity(Pow2(n)), n, Pow2(n)) && Fits(g, [k], Identity(Pow2(n)), n, Pow2(n))
    ensures Embedded(g, [i], Identity(Pow2(n)), n, Pow2(n)) != Embedded(g, [k], Identity(Pow2(n)), n, Pow2(n))
  {
    hide Embedded, Combine, Times, Plus, Identity;
    var r := Shl(1, i);
    forall j: nat | n <= j
      ensures !Bit(r, j)
    {
      OneBit(i, j);
    }
    FewBits(r, n);
    UnitaryEntry(g, [i], n, r, r);
    UnitaryEntry(g, [k], n, r, r);
    OneBit(i, i);
    OneBit(i, k);
    assert [i][1..] == [] && [k][1..] == [];
    assert GateIndex(r, [i]) == 1 && GateIndex(r, [k]) == 0;
  }

  /** A list of distinct qubits that is not ascending has a qubit that sorting moves. */
  lemma SomeQubitMoves(qs: seq<nat>) returns (i: nat)
    requires Distinct(qs) && !Ascending(qs)
    ensures i < |qs| && BitOf(Sorted(qs), qs[i]) != i
  {
    SortedFacts(qs);
    assert Sorted(qs) != qs;
    i :| 0 <= i < |qs| && Sorted(qs)[i] != qs[i];
    assert qs[i] in Sorted(qs);
  }

  /**
   Bodies that declare their qubits in a given order keep their matrix when flattened exactly if that
   order is ascending: for any other order, some body with a single gate gets a different matrix,
   whatever the gate, as long as its diagonal entries differ, although no phase is involved.
   */
  lemma DeclaredOrderMatters(lib: Library, name: string, g: Mat, qs: seq<nat>)
    requires SingleQubitGate(lib, name, g) && g[0][0] != g[1][1] && Distinct(qs) && |qs| < 32
    ensures forall i | 0 <= i < |qs| :: WellFormed(lib, GateCall(name, qs, i))
    ensures (forall i | 0 <= i < |qs| :: KeepsMatrix(lib, GateCall(name, qs, i))) <==> Ascending(qs)
  {
    hide KeepsMatrix;
    forall i | 0 <= i < |qs|
      ensures WellFormed(lib, GateCall(name, qs, i))
      ensures KeepsMatrix(lib, GateCall(name, qs, i)) <==> BitOf(Sorted(qs), qs[i]) == i
    {
      GateCallWellFormed(lib, name, g, qs, i);
      GateCallKeeps(lib, name, g, qs, i);
    }
    if Ascending(qs) {
      SortedAscending(qs);
      forall i | 0 <= i < |qs|
        ensures BitOf(Sorted(qs), qs[i]) == i
      {
        BitOfAt(qs, i);
      }
    } else {
      var i := SomeQubitMoves(qs);
    }
  }

  lemma GateCallWellFormed(lib: Library, name: string, g: Mat, qs: seq<nat>, i: nat)
    requires SingleQubitGate(lib, name, g) && Distinct(qs) && i < |qs|
    ensures WellFormed(lib, GateCall(name, qs, i))
  {
    var body := GateBody(name, qs, i);
    assert qs[i] in qs;
    assert OpWellFormed(lib, body.ops[0], qs);
    assert OpWellFormed(lib, GateCall(name, qs, i).ops[0], Range(|qs|));
  }

  lemma GateCallKeeps(lib: Library, name: string, g: Mat, qs: seq<nat>, i: nat)
    requires SingleQubitGate(lib, name, g) && g[0][0] != g[1][1] && Distinct(qs) && |qs| < 32 && i < |qs|
    ensures KeepsMatrix(lib, GateCall(name, qs, i)) <==> BitOf(Sorted(qs), qs[i]) == i
  {
    hide Embedded, Combine, Identity, Pow2, MatrixOf, Decompose;
    var n := |qs|;
    SortedFacts(qs);
    assert qs[i] in Sorted(qs);
    var k := BitOf(Sorted(qs), qs[i]);
    GateAlone(lib, name, g, qs, Sorted(qs), qs[i], Some(Zip([], [])));
    CallIsBody(lib, GateBody(name, qs, i), n, Embedded(g, [k], Identity(Pow2(n)), n, Pow2(n)));
    GateCallFlat(lib, name, g, qs, i);
    RangeBit(n, i);
    assert Range(n)[i] in Range(n);
    GateAlone(lib, name, g, Range(n), Range(n), i, None);
    if i != k {
      PlacesDiffer(g, n, i, k);
    }
  }
}
