/**
 What the matrix of a circuit means, without target bits, embeddings or sweeps: the entry at (r, c) is
 the sum, over all sequences of intermediate basis states, of the products of the gate entries along
 the sequence, times the global phase. A basis state assigns a bit to every qubit: bit `p` of its
 number is the state of the `p`-th qubit of the order.
 */
module MatrixMeaning {
  import opened Prelude
  import opened Bits
  import opened Linear
  import opened Embedding
  import opened CircuitMatrix
  import opened Flatten

  // ---- basis states ---------------------------------------------------------------------------------

  /**
   `i` numbers the states of the qubits `qs` in basis state `r`: a gate that lists its least significant
   qubit first has the state of `qs[k]` at bit `k`, a big-endian gate counts from the other end.
   */
  ghost predicate IsLocal(i: nat, r: nat, order: seq<nat>, qs: seq<nat>, bigEndian: bool) {
    && i < Pow2(|qs|)
    && forall k: nat, p: nat | k < |qs| && p < |order| && order[p] == qs[k] ::
         Bit(i, if bigEndian then |qs| - 1 - k else k) == Bit(r, p)
  }

  ghost function Local(r: nat, order: seq<nat>, qs: seq<nat>, bigEndian: bool): nat {
    if exists i: nat :: IsLocal(i, r, order, qs, bigEndian) then
      var i: nat :| IsLocal(i, r, order, qs, bigEndian);
      i
    else 0
  }

  /** The two basis states agree on every qubit that is not in `qs`. */
  ghost predicate SameElsewhere(r: nat, c: nat, order: seq<nat>, qs: seq<nat>) {
    forall p: nat | p < |order| && order[p] !in qs :: Bit(r, p) == Bit(c, p)
  }

  // ---- entries ----------------------------------------------------------------------------------------

  function EntryAt(g: Mat, i: nat, j: nat): C {
    if i < |g| && j < |g[i]| then g[i][j] else ZERO
  }

  function Delta(r: nat, c: nat): C {
    if r == c then ONE else ZERO
  }

  /** The entry of one operation; a body's qubits, in ascending order, are those the operation lists. */
  ghost function OpEntry(lib: Library, op: Op, order: seq<nat>, env: Bindings, r: nat, c: nat): C
    decreases op, 0, 0
  {
    match op.inst
    case Gate(name, bigEndian) =>
      var values := EvalAll(lib, op.params, env);
      if values.None? || lib.matrix(name, values.value).None? || !SameElsewhere(r, c, order, op.qubits) then ZERO
      else EntryAt(lib.matrix(name, values.value).value, Local(r, order, op.qubits, bigEndian), Local(c, order, op.qubits, bigEndian))
    case Nested(body, signature) =>
      var values := EvalAll(lib, op.params, env);
      if values.None? || |signature| > |values.value| || !SameElsewhere(r, c, order, op.qubits) then ZERO
      else
        CircuitEntry(lib, body, Sorted(body.qubits), Zip(signature, values.value),
                     Local(r, order, op.qubits, false), Local(c, order, op.qubits, false))
    case _ => Delta(r, c)
  }

  ghost function OpsEntry(lib: Library, ops: seq<Op>, order: seq<nat>, env: Bindings, r: nat, c: nat): C
    decreases ops, 2, 0
  {
    if ops == [] then Delta(r, c) else PathSum(lib, ops, order, env, r, c, Pow2(|order|))
  }

  /** The sum over the state before the last operation, below `n`: first the other operations, then the last one. */
  ghost function PathSum(lib: Library, ops: seq<Op>, order: seq<nat>, env: Bindings, r: nat, c: nat, n: nat): C
    requires ops != []
    decreases ops, 1, n
  {
    if n == 0 then ZERO
    else
      Plus(PathSum(lib, ops, order, env, r, c, n - 1),
           Times(OpEntry(lib, ops[|ops| - 1], order, env, r, n - 1), OpsEntry(lib, ops[..|ops| - 1], order, env, n - 1, c)))
  }

  ghost function CircuitEntry(lib: Library, c: Circuit, order: seq<nat>, env: Bindings, i: nat, j: nat): C
    decreases c, 3, 0
  {
    var phase := Eval(lib, c.phase, env);
    var factor := if phase.None? || phase.value == 0.0 then ONE else lib.cis(phase.value);
    Times(factor, OpsEntry(lib, c.ops, order, env, i, j))
  }

  // ---- which circuits have a matrix ---------------------------------------------------------------------

  ghost predicate HasMatrix(lib: Library, c: Circuit, order: seq<nat>, env: Option<Bindings>)
    decreases c, 1
  {
    |c.qubits| < 32 && OpsHaveMatrix(lib, c.ops, order, env) && Eval(lib, c.phase, EnvOf(env)).Some?
  }

  ghost predicate OpsHaveMatrix(lib: Library, ops: seq<Op>, order: seq<nat>, env: Option<Bindings>)
    decreases ops, 0
  {
    forall k | 0 <= k < |ops| :: OpHasMatrix(lib, ops[k], order, env)
  }

  /** At the top level only numbers are stored; a body's parameters are evaluated under its bindings. */
  predicate HasValues(lib: Library, ps: seq<Param>, env: Option<Bindings>) {
    EvalAll(lib, ps, EnvOf(env)).Some? && (env.None? ==> forall p | p in ps :: p.Num?)
  }

  ghost predicate OpHasMatrix(lib: Library, op: Op, order: seq<nat>, env: Option<Bindings>)
    decreases op, 0
  {
    && (forall q | q in op.qubits :: q in order) && HasValues(lib, op.params, env)
    && var values := EvalAll(lib, op.params, EnvOf(env)).value;
       match op.inst
       case Gate(name, _) =>
         && Distinct(op.qubits) && lib.matrix(name, values).Some?
         && |lib.matrix(name, values).value| == Pow2(|op.qubits|) && Shape(lib.matrix(name, values).value, Pow2(|op.qubits|))
       case Nested(body, signature) =>
         && Distinct(op.qubits) && |body.qubits| == |op.qubits| && |values| == |signature|
         && HasMatrix(lib, body, Sorted(body.qubits), Some(Zip(signature, values)))
       case Barrier => true
       case Delay => true
       case NonUnitary(_) => false
       case ControlFlow => false
  }

  /** Bodies, at every depth, are circuits: their qubits are distinct. */
  predicate DistinctBodies(ops: seq<Op>)
    decreases ops, 0
  {
    forall k | 0 <= k < |ops| :: DistinctBody(ops[k])
  }

  predicate DistinctBody(op: Op)
    decreases op, 0
  {
    op.inst.Nested? ==> Distinct(op.inst.body.qubits) && DistinctBodies(op.inst.body.ops)
  }

  // ---- gate indices are local states ----------------------------------------------------------------------

  /** The target bits the implementation uses. */
  function UsedBits(order: seq<nat>, qs: seq<nat>, bigEndian: bool): (bits: seq<nat>)
    ensures |bits| == |qs|
  {
    if bigEndian then Reversed(BitsOf(order, qs)) else BitsOf(order, qs)
  }

  lemma IndexIsLocal(r: nat, order: seq<nat>, qs: seq<nat>, bigEndian: bool)
    requires Distinct(order)
    ensures IsLocal(GateIndex(r, UsedBits(order, qs, bigEndian)), r, order, qs, bigEndian)
  {
    hide GateIndex, Pow2, Bit;
    var bits := UsedBits(order, qs, bigEndian);
    GateIndexBit(r, bits, 0);
    forall k: nat, p: nat | k < |qs| && p < |order| && order[p] == qs[k]
      ensures Bit(GateIndex(r, bits), if bigEndian then |qs| - 1 - k else k) == Bit(r, p)
    {
      BitOfAt(order, p);
      GateIndexBit(r, bits, if bigEndian then |qs| - 1 - k else k);
    }
  }

  lemma LocalUnique(i: nat, j: nat, r: nat, order: seq<nat>, qs: seq<nat>, bigEndian: bool)
    requires IsLocal(i, r, order, qs, bigEndian) && IsLocal(j, r, order, qs, bigEndian) && forall q | q in qs :: q in order
    ensures i == j
  {
    hide Pow2, Bit;
    forall b: nat | b < |qs|
      ensures Bit(i, b) == Bit(j, b)
    {
      var k := if bigEndian then |qs| - 1 - b else b;
      assert qs[k] in order;
      var p: nat :| p < |order| && order[p] == qs[k];
    }
    BitsDetermine(i, j, |qs|);
  }

  lemma LocalIsIndex(r: nat, order: seq<nat>, qs: seq<nat>, bigEndian: bool)
    requires Distinct(order) && forall q | q in qs :: q in order
    ensures IsLocal(Local(r, order, qs, bigEndian), r, order, qs, bigEndian)
    ensures Local(r, order, qs, bigEndian) == GateIndex(r, UsedBits(order, qs, bigEndian))
  {
    hide GateIndex, Pow2, IsLocal;
    IndexIsLocal(r, order, qs, bigEndian);
    LocalUnique(Local(r, order, qs, bigEndian), GateIndex(r, UsedBits(order, qs, bigEndian)), r, order, qs, bigEndian);
  }

  lemma UsedTargets(order: seq<nat>, qs: seq<nat>, bigEndian: bool)
    requires Distinct(qs) && forall q | q in qs :: q in order
    ensures Targets(UsedBits(order, qs, bigEndian), |order|)
  {
    BitsTargets(order, qs);
    ReversedTargets(BitsOf(order, qs), |order|);
  }

  lemma UsedDistinct(order: seq<nat>, qs: seq<nat>, bigEndian: bool)
    requires Targets(UsedBits(order, qs, bigEndian), |order|)
    ensures Distinct(qs)
  {
    var bits, used := BitsOf(order, qs), UsedBits(order, qs, bigEndian);
    forall i, j | 0 <= i < j < |qs|
      ensures qs[i] != qs[j]
    {
      if bigEndian {
        assert used[|qs| - 1 - j] == bits[j] && used[|qs| - 1 - i] == bits[i];
      }
      assert bits[i] != bits[j];
    }
  }

  lemma ElsewhereIsAgreeOff(r: nat, c: nat, order: seq<nat>, qs: seq<nat>, bigEndian: bool)
    requires Distinct(order) && (forall q | q in qs :: q in order) && r < Pow2(|order|) && c < Pow2(|order|)
    ensures AgreeOff(r, c, UsedBits(order, qs, bigEndian)) <==> SameElsewhere(r, c, order, qs)
  {
    hide Pow2, Bit;
    var bits := UsedBits(order, qs, bigEndian);
    forall p: nat | p < |order|
      ensures p in bits <==> order[p] in qs
    {
      PositionUsed(order, qs, bigEndian, p);
    }
    if SameElsewhere(r, c, order, qs) {
      forall p: nat | p !in bits
        ensures Bit(r, p) == Bit(c, p)
      {
        if p >= |order| {
          NoHighBit(r, |order|, p);
          NoHighBit(c, |order|, p);
        }
      }
    }
  }

  lemma PositionUsed(order: seq<nat>, qs: seq<nat>, bigEndian: bool, p: nat)
    requires Distinct(order) && (forall q | q in qs :: q in order) && p < |order|
    ensures p in UsedBits(order, qs, bigEndian) <==> order[p] in qs
  {
    var bits, used := BitsOf(order, qs), UsedBits(order, qs, bigEndian);
    if p in used {
      var k :| 0 <= k < |qs| && used[k] == p;
      var j := if bigEndian then |qs| - 1 - k else k;
      assert bits[j] == p && qs[j] in order;
      assert order[p] == qs[j];
    }
    if order[p] in qs {
      var j :| 0 <= j < |qs| && qs[j] == order[p];
      BitOfAt(order, p);
      assert used[if bigEndian then |qs| - 1 - j else j] == p;
    }
  }

  // ---- one operation --------------------------------------------------------------------------------------

  /** The entry of the product with a matrix `m`, summed over the states below `n`. */
  ghost function ActSum(lib: Library, op: Op, order: seq<nat>, env: Bindings, m: Mat, r: nat, c: nat, n: nat): C
    requires SquareOf(m, |order|) && c < Pow2(|order|) && n <= Pow2(|order|)
  {
    if n == 0 then ZERO
    else Plus(ActSum(lib, op, order, env, m, r, c, n - 1), Times(OpEntry(lib, op, order, env, r, n - 1), m[n - 1][c]))
  }

  lemma {:induction false} ActIsDot(lib: Library, op: Op, order: seq<nat>, env: Bindings, m: Mat, row: Vec, r: nat, c: nat, n: nat)
    requires SquareOf(m, |order|) && c < Pow2(|order|) && n <= Pow2(|order|) && |row| == Pow2(|order|)
    requires forall k: nat | k < n :: row[k] == OpEntry(lib, op, order, env, r, k)
    ensures ActSum(lib, op, order, env, m, r, c, n) == Dot(row, Column(m, c), n)
    decreases n
  {
    hide OpEntry, Plus, Times, Pow2;
    if n > 0 {
      ActIsDot(lib, op, order, env, m, row, r, c, n - 1);
    }
  }

  lemma {:induction false} DeltaSum(lib: Library, op: Op, order: seq<nat>, env: Bindings, m: Mat, r: nat, c: nat, n: nat)
    requires SquareOf(m, |order|) && c < Pow2(|order|) && r < Pow2(|order|) && n <= Pow2(|order|)
    requires !op.inst.Gate? && !op.inst.Nested?
    ensures ActSum(lib, op, order, env, m, r, c, n) == if r < n then m[r][c] else ZERO
    decreases n
  {
    hide Plus, Times, Pow2;
    if n > 0 {
      DeltaSum(lib, op, order, env, m, r, c, n - 1);
      assert OpEntry(lib, op, order, env, r, n - 1) == Delta(r, n - 1);
      Units(m[n - 1][c]);
      Units(ActSum(lib, op, order, env, m, r, c, n - 1));
    }
  }

  /** A gate matrix applied to its bits acts by entries that depend only on local states. */
  lemma AppliedMeans(lib: Library, op: Op, order: seq<nat>, env: Bindings, g: Mat, bigEndian: bool, m: Mat)
    requires Distinct(order) && SquareOf(m, |order|) && Distinct(op.qubits) && forall q | q in op.qubits :: q in order
    requires |g| == Pow2(|op.qubits|) && Shape(g, Pow2(|op.qubits|))
    requires forall r: nat, k: nat | r < Pow2(|order|) && k < Pow2(|order|) ::
               OpEntry(lib, op, order, env, r, k)
               == if SameElsewhere(r, k, order, op.qubits)
                  then EntryAt(g, Local(r, order, op.qubits, bigEndian), Local(k, order, op.qubits, bigEndian)) else ZERO
    ensures Applied(g, UsedBits(order, op.qubits, bigEndian), m, |order|).Ok?
    ensures forall r: nat, c: nat | r < Pow2(|order|) && c < Pow2(|order|) ::
              Applied(g, UsedBits(order, op.qubits, bigEndian), m, |order|).value[r][c] == ActSum(lib, op, order, env, m, r, c, Pow2(|order|))
  {
    hide Pow2, Plus, Times, Combine, Embedded, OpEntry, Local, SameElsewhere, AgreeOff, GateIndex, Dot, Identity, UsedBits, ActSum, Distinct;
    var n, bits := |order|, UsedBits(order, op.qubits, bigEndian);
    UsedTargets(order, op.qubits, bigEndian);
    var one := Identity(Pow2(n));
    assert Fits(g, bits, m, n, Pow2(n)) && Fits(g, bits, one, n, Pow2(n));
    var u := Embedded(g, bits, one, n, Pow2(n));
    EmbeddedIsProduct(g, bits, m, n, Pow2(n));
    forall r: nat, c: nat | r < Pow2(n) && c < Pow2(n)
      ensures Embedded(g, bits, m, n, Pow2(n))[r][c] == ActSum(lib, op, order, env, m, r, c, Pow2(n))
    {
      CombineAt(u[r], m, Pow2(n), c);
      forall k: nat | k < Pow2(n)
        ensures u[r][k] == OpEntry(lib, op, order, env, r, k)
      {
        UnitaryEntry(g, bits, n, r, k);
        LocalIsIndex(r, order, op.qubits, bigEndian);
        LocalIsIndex(k, order, op.qubits, bigEndian);
        ElsewhereIsAgreeOff(r, k, order, op.qubits, bigEndian);
      }
      ActIsDot(lib, op, order, env, m, u[r], r, c, Pow2(n));
    }
  }

  lemma ValuesExist(lib: Library, ps: seq<Param>, env: Option<Bindings>)
    ensures ValuesOf(lib, ps, env).Some? <==> HasValues(lib, ps, env)
    ensures ValuesOf(lib, ps, env).Some? ==> ValuesOf(lib, ps, env) == EvalAll(lib, ps, EnvOf(env))
  {
  }

  lemma {:induction false} OpMeans(lib: Library, op: Op, order: seq<nat>, m: Mat, env: Option<Bindings>)
    requires Distinct(order) && SquareOf(m, |order|) && DistinctBody(op)
    ensures RunOp(lib, op, order, m, env, true).Ok? <==> OpHasMatrix(lib, op, order, env)
    ensures RunOp(lib, op, order, m, env, true).Ok? ==>
              forall r: nat, c: nat | r < Pow2(|order|) && c < Pow2(|order|) ::
                RunOp(lib, op, order, m, env, true).value[r][c] == ActSum(lib, op, order, EnvOf(env), m, r, c, Pow2(|order|))
    decreases op, 1
  {
    hide Pow2, Plus, Times, Embedded, EvalAll, ValuesOf, HasValues, MatrixOf, HasMatrix, ActSum, Applied, BitsOf, Local, SameElsewhere, Zip, Sorted;
    ValuesExist(lib, op.params, env);
    if op.inst.Gate? {
      GateMeans(lib, op, order, m, env);
    } else if op.inst.Nested? {
      NestedMeans(lib, op, order, m, env);
    } else {
      forall r: nat, c: nat | r < Pow2(|order|) && c < Pow2(|order|)
        ensures m[r][c] == ActSum(lib, op, order, EnvOf(env), m, r, c, Pow2(|order|))
      {
        DeltaSum(lib, op, order, EnvOf(env), m, r, c, Pow2(|order|));
      }
    }
  }

  lemma GateMeans(lib: Library, op: Op, order: seq<nat>, m: Mat, env: Option<Bindings>)
    requires Distinct(order) && SquareOf(m, |order|) && op.inst.Gate?
    ensures RunOp(lib, op, order, m, env, true).Ok? <==> OpHasMatrix(lib, op, order, env)
    ensures RunOp(lib, op, order, m, env, true).Ok? ==>
              forall r: nat, c: nat | r < Pow2(|order|) && c < Pow2(|order|) ::
                RunOp(lib, op, order, m, env, true).value[r][c] == ActSum(lib, op, order, EnvOf(env), m, r, c, Pow2(|order|))
  {
    hide Pow2, Plus, Times, Embedded, EvalAll, ValuesOf, HasValues, ActSum, BitsOf, Local, SameElsewhere, Reversed;
    ValuesExist(lib, op.params, env);
    var bigEndian := op.inst.bigEndian;
    if RunOp(lib, op, order, m, env, true).Ok? {
      UsedDistinct(order, op.qubits, bigEndian);
    }
    if OpHasMatrix(lib, op, order, env) {
      var g := lib.matrix(op.inst.name, EvalAll(lib, op.params, EnvOf(env)).value).value;
      AppliedMeans(lib, op, order, EnvOf(env), g, bigEndian, m);
    }
  }

  lemma {:induction false} NestedMeans(lib: Library, op: Op, order: seq<nat>, m: Mat, env: Option<Bindings>)
    requires Distinct(order) && SquareOf(m, |order|) && DistinctBody(op) && op.inst.Nested?
    ensures RunOp(lib, op, order, m, env, true).Ok? <==> OpHasMatrix(lib, op, order, env)
    ensures RunOp(lib, op, order, m, env, true).Ok? ==>
              forall r: nat, c: nat | r < Pow2(|order|) && c < Pow2(|order|) ::
                RunOp(lib, op, order, m, env, true).value[r][c] == ActSum(lib, op, order, EnvOf(env), m, r, c, Pow2(|order|))
    decreases op, 0
  {
    hide Pow2, Plus, Times, Embedded, EvalAll, ValuesOf, HasValues, ActSum, BitsOf, Local, SameElsewhere, Reversed, MatrixOf, HasMatrix, Zip, CircuitEntry, DistinctBodies;
    ValuesExist(lib, op.params, env);
    var body, signature := op.inst.body, op.inst.signature;
    SortedFacts(body.qubits);
    var o := Sorted(body.qubits);
    hide Sorted;
    var values := EvalAll(lib, op.params, EnvOf(env));
    if values.Some? && |values.value| == |signature| {
      var b := Zip(signature, values.value);
      MatrixMeans(lib, body, o, Some(b));
      var sub := MatrixOf(lib, body, o, Some(b), true);
      if RunOp(lib, op, order, m, env, true).Ok? {
        UsedDistinct(order, op.qubits, false);
        Pow2Injective(|op.qubits|, |body.qubits|);
      }
      if OpHasMatrix(lib, op, order, env) {
        forall r: nat, k: nat | r < Pow2(|order|) && k < Pow2(|order|)
          ensures OpEntry(lib, op, order, EnvOf(env), r, k)
               == if SameElsewhere(r, k, order, op.qubits)
                  then EntryAt(sub.value, Local(r, order, op.qubits, false), Local(k, order, op.qubits, false)) else ZERO
        {
          LocalBelow(r, order, op.qubits);
          LocalBelow(k, order, op.qubits);
        }
        AppliedMeans(lib, op, order, EnvOf(env), sub.value, false, m);
      }
    }
  }

  lemma LocalBelow(r: nat, order: seq<nat>, qs: seq<nat>)
    requires Distinct(order) && forall q | q in qs :: q in order
    ensures Local(r, order, qs, false) < Pow2(|qs|)
  {
    hide Local;
    LocalIsIndex(r, order, qs, false);
  }

  lemma {:induction false} Pow2Injective(a: nat, b: nat)
    requires Pow2(a) == Pow2(b)
    ensures a == b
    decreases a
  {
    if a > 0 && b > 0 {
      Pow2Injective(a - 1, b - 1);
    }
  }

  // ---- sequences and circuits -------------------------------------------------------------------------------

  lemma {:induction false} PathIsAct(lib: Library, ops: seq<Op>, order: seq<nat>, env: Bindings, m: Mat, r: nat, c: nat, n: nat)
    requires ops != [] && SquareOf(m, |order|) && c < Pow2(|order|) && n <= Pow2(|order|)
    requires forall k: nat | k < Pow2(|order|) :: m[k][c] == OpsEntry(lib, ops[..|ops| - 1], order, env, k, c)
    ensures PathSum(lib, ops, order, env, r, c, n) == ActSum(lib, ops[|ops| - 1], order, env, m, r, c, n)
    decreases n
  {
    hide OpEntry, OpsEntry, Plus, Times, Pow2;
    if n > 0 {
      PathIsAct(lib, ops, order, env, m, r, c, n - 1);
    }
  }

  lemma OpsHaveMatrixLast(lib: Library, ops: seq<Op>, order: seq<nat>, env: Option<Bindings>)
    requires ops != []
    ensures OpsHaveMatrix(lib, ops, order, env)
       <==> OpsHaveMatrix(lib, ops[..|ops| - 1], order, env) && OpHasMatrix(lib, ops[|ops| - 1], order, env)
  {
    hide OpHasMatrix;
    var init := ops[..|ops| - 1];
    if OpsHaveMatrix(lib, init, order, env) && OpHasMatrix(lib, ops[|ops| - 1], order, env) {
      forall k | 0 <= k < |ops|
        ensures OpHasMatrix(lib, ops[k], order, env)
      {
        assert k < |init| ==> OpHasMatrix(lib, init[k], order, env);
      }
    }
    if OpsHaveMatrix(lib, ops, order, env) {
      forall k | 0 <= k < |init|
        ensures OpHasMatrix(lib, init[k], order, env)
      {
        assert init[k] == ops[k];
      }
    }
  }

  /** From the identity, the operations have a matrix exactly if each has one, and its entries are the sums over paths. */
  lemma {:induction false} RunMeans(lib: Library, ops: seq<Op>, order: seq<nat>, env: Option<Bindings>)
    requires Distinct(order) && DistinctBodies(ops)
    ensures SquareOf(Identity(Pow2(|order|)), |order|)
    ensures var run := RunOps(lib, ops, order, Identity(Pow2(|order|)), env, true);
            && (run.Ok? <==> OpsHaveMatrix(lib, ops, order, env))
            && (run.Ok? ==> forall r: nat, c: nat | r < Pow2(|order|) && c < Pow2(|order|) ::
                              run.value[r][c] == OpsEntry(lib, ops, order, EnvOf(env), r, c))
    decreases ops, 1
  {
    hide Pow2, Plus, Times, RunOp, OpEntry, OpHasMatrix, DistinctBody, PathSum, ActSum;
    var one := Identity(Pow2(|order|));
    if ops != [] {
      var init, last := ops[..|ops| - 1], ops[|ops| - 1];
      assert DistinctBodies(init) && DistinctBody(last) by { DistinctLast(ops); }
      RunMeans(lib, init, order, env);
      OpsHaveMatrixLast(lib, ops, order, env);
      var before := RunOps(lib, init, order, one, env, true);
      if before.Ok? {
        OpMeans(lib, last, order, before.value, env);
        if OpHasMatrix(lib, last, order, env) {
          forall r: nat, c: nat | r < Pow2(|order|) && c < Pow2(|order|)
            ensures RunOps(lib, ops, order, one, env, true).value[r][c] == OpsEntry(lib, ops, order, EnvOf(env), r, c)
          {
            PathIsAct(lib, ops, order, EnvOf(env), before.value, r, c, Pow2(|order|));
          }
        }
      }
    }
  }

  lemma DistinctLast(ops: seq<Op>)
    requires ops != [] && DistinctBodies(ops)
    ensures DistinctBodies(ops[..|ops| - 1]) && DistinctBody(ops[|ops| - 1])
  {
    hide DistinctBody;
    var init := ops[..|ops| - 1];
    forall k | 0 <= k < |init|
      ensures DistinctBody(init[k])
    {
      assert init[k] == ops[k];
    }
  }

  /** For any order of the qubits and any bindings, a circuit has a matrix exactly under `HasMatrix`, and every entry is what it means. */
  lemma {:induction false} MatrixMeans(lib: Library, c: Circuit, order: seq<nat>, env: Option<Bindings>)
    requires Distinct(order) && |order| == |c.qubits| && DistinctBodies(c.ops)
    ensures MatrixOf(lib, c, order, env, true).Ok? <==> HasMatrix(lib, c, order, env)
    ensures MatrixOf(lib, c, order, env, true).Ok? ==>
              forall i: nat, j: nat | i < Pow2(|order|) && j < Pow2(|order|) ::
                MatrixOf(lib, c, order, env, true).value[i][j] == CircuitEntry(lib, c, order, EnvOf(env), i, j)
    decreases c, 2
  {
    hide Pow2, Plus, Times, RunOps, OpsEntry, OpsHaveMatrix, DistinctBodies, Identity, Eval;
    RunMeans(lib, c.ops, order, env);
  }

  lemma AscendingUnique(a: seq<nat>, b: seq<nat>)
    requires Ascending(a) && Ascending(b) && forall q :: q in a <==> q in b
    ensures a == b
    decreases |a|
  {
    assert a != [] ==> a[0] in a;
    assert b != [] ==> b[0] in b;
    if a != [] && b != [] {
      assert a[0] in b && b[0] in a;
      assert a[0] == b[0] by { AscendingLeast(a, b[0]); AscendingLeast(b, a[0]); }
      forall q
        ensures q in a[1..] <==> q in b[1..]
      {
        AscendingTail(a, q);
        AscendingTail(b, q);
      }
      AscendingUnique(a[1..], b[1..]);
    }
  }

  lemma AscendingLeast(a: seq<nat>, q: nat)
    requires Ascending(a) && q in a
    ensures a[0] <= q
  {
  }

  lemma AscendingTail(a: seq<nat>, q: nat)
    requires Ascending(a) && a != []
    ensures q in a[1..] <==> q in a && q != a[0]
  {
    if q in a && q != a[0] {
      var i :| 0 <= i < |a| && a[i] == q;
      assert a[1..][i - 1] == q;
    }
  }

  /** An explicit order must list the circuit's qubits; without one, the qubits are in ascending order. */
  ghost predicate Orders(o: seq<nat>, c: Circuit, order: Option<seq<nat>>) {
    match order
    case Some(explicit) => o == explicit
    case None => Ascending(o) && forall q :: q in o <==> q in c.qubits
  }

  /**
   The matrix of a circuit: it exists exactly for a proper order and operations that have one, and its
   entries are sums over paths of products of gate entries, times the phase.
   */
  lemma CircuitMeans(lib: Library, c: Circuit, order: Option<seq<nat>>, o: seq<nat>)
    requires Distinct(c.qubits) && DistinctBodies(c.ops) && Orders(o, c, order)
    ensures CircuitToMatrix(lib, c, order).Ok?
       <==> (forall q :: q in o <==> q in c.qubits) && |o| == |c.qubits| && HasMatrix(lib, c, o, None)
    ensures CircuitToMatrix(lib, c, order).Ok? ==>
              forall i: nat, j: nat | i < Pow2(|o|) && j < Pow2(|o|) ::
                CircuitToMatrix(lib, c, order).value[i][j] == CircuitEntry(lib, c, o, map[], i, j)
  {
    hide Pow2, Plus, Times, MatrixOf, CircuitEntry, OpsHaveMatrix, DistinctBodies, Eval;
    assert forall q :: q in ToSet(o) <==> q in o;
    assert forall q :: q in ToSet(c.qubits) <==> q in c.qubits;
    SortedFacts(c.qubits);
    if order.None? {
      AscendingUnique(o, Sorted(c.qubits));
    }
    if (forall q :: q in o <==> q in c.qubits) && |o| == |c.qubits| {
      assert ToSet(o) == ToSet(c.qubits);
      UsedOrder(c, order);
      MatrixMeans(lib, c, o, None);
    }
  }

  /**
   One gate on distinct qubits: the entry is the gate's entry at the local states of its qubits where
   the two basis states agree on all other qubits, and zero where they do not.
   */
  lemma GateEntries(lib: Library, name: string, bigEndian: bool, ps: seq<Param>, g: Mat, qs: seq<nat>, order: seq<nat>,
                    r: nat, c: nat, i: nat, j: nat)
    requires Distinct(order) && |order| < 32 && Distinct(qs) && forall q | q in qs :: q in order
    requires HasValues(lib, ps, None) && lib.matrix(name, EvalAll(lib, ps, map[]).value) == Some(g)
    requires |g| == Pow2(|qs|) && Shape(g, Pow2(|qs|))
    requires r < Pow2(|order|) && c < Pow2(|order|) && IsLocal(i, r, order, qs, bigEndian) && IsLocal(j, c, order, qs, bigEndian)
    ensures var m := CircuitToMatrix(lib, Circuit(order, [Op(Gate(name, bigEndian), qs, ps)], Num(0.0)), Some(order));
            && m.Ok? && |m.value| == Pow2(|order|) && |m.value[r]| == Pow2(|order|)
            && m.value[r][c] == if SameElsewhere(r, c, order, qs) then g[i][j] else ZERO
  {
    hide Pow2, Plus, Times, Combine, Embedded, EvalAll, GateIndex, AgreeOff, SameElsewhere, IsLocal, HasValues, UsedBits, RunOps, ScaleAll, Applied, Identity;
    var op := Op(Gate(name, bigEndian), qs, ps);
    var one, used := Identity(Pow2(|order|)), UsedBits(order, qs, bigEndian);
    assert SquareOf(one, |order|);
    RunSingle(lib, op, order, one, None);
    ValuesExist(lib, ps, None);
    UsedTargets(order, qs, bigEndian);
    var e := Embedded(g, used, one, |order|, Pow2(|order|));
    assert RunOp(lib, op, order, one, None, true) == Ok(e) by { GateRuns(lib, op, g, order, one, used); }
    ScaleOne(e);
    UnitaryEntry(g, used, |order|, r, c);
    ElsewhereIsAgreeOff(r, c, order, qs, bigEndian);
    IndexIsLocal(r, order, qs, bigEndian);
    IndexIsLocal(c, order, qs, bigEndian);
    LocalUnique(i, GateIndex(r, used), r, order, qs, bigEndian);
    LocalUnique(j, GateIndex(c, used), c, order, qs, bigEndian);
  }

  lemma GateRuns(lib: Library, op: Op, g: Mat, order: seq<nat>, m: Mat, used: seq<nat>)
    requires op.inst.Gate? && SquareOf(m, |order|) && (forall q | q in op.qubits :: q in order)
    requires ValuesOf(lib, op.params, None).Some? && lib.matrix(op.inst.name, ValuesOf(lib, op.params, None).value) == Some(g)
    requires used == UsedBits(order, op.qubits, op.inst.bigEndian)
    requires |g| == Pow2(|op.qubits|) && Shape(g, Pow2(|op.qubits|)) && Targets(used, |order|)
    ensures RunOp(lib, op, order, m, None, true) == Ok(Embedded(g, used, m, |order|, Pow2(|order|)))
  {
    hide Pow2, Embedded, ValuesOf;
  }
}
