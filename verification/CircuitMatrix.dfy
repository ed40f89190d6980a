/**
 The dense matrix of a circuit: every operation's gate matrix is applied to the target bits of an
 initially identity matrix, and the global phase scales the result. Gates built from circuits
 recurse. Gate matrices, parameter functions and the phase function come from a library.
 */
module CircuitMatrix {
  import opened Prelude
  import opened Bits
  import opened Linear
  import opened Embedding
  import Kernel

  /** A number, a symbol, or an operator applied to parameters. */
  datatype Param = Num(value: real) | Sym(name: string) | Term(op: string, args: seq<Param>)

  datatype Circuit = Circuit(qubits: seq<nat>, ops: seq<Op>, phase: Param)

  datatype Op = Op(inst: Inst, qubits: seq<nat>, params: seq<Param>)

  /** `bigEndian` gates list their most significant qubit first. */
  datatype Inst =
    | Gate(name: string, bigEndian: bool)
    | Nested(body: Circuit, signature: seq<string>)
    | Barrier
    | Delay
    | NonUnitary(arity: Option<(nat, nat)>)   // measurement and reset directives, classical data
    | ControlFlow

  datatype MatrixError =
    | TooLarge(numQubits: nat)
    | OrderMismatch
    | QubitNotFound(qubit: nat)
    | DuplicateQubits
    | SymbolicParameter
    | QubitCountMismatch(expected: nat, actual: nat)
    | ParameterCountMismatch(expected: nat, actual: nat)
    | NoMatrix
    | GateRejected
    | ControlFlowHasNoMatrix
    | Irreversible

  /** Parameter operators, gates by name with their numbers of qubits and parameters and their matrices, and `e^(i x)`. */
  datatype Library = Library(
    arity: string -> (nat, nat),
    apply: (string, seq<real>) -> Option<real>,
    matrix: (string, seq<real>) -> Option<Mat>,
    cis: real -> C)

  type Bindings = map<string, real>

  // ---- parameters -----------------------------------------------------------------------------

  function Eval(lib: Library, p: Param, env: Bindings): Option<real>
    decreases p, 0
  {
    match p
    case Num(v) => Some(v)
    case Sym(s) => if s in env then Some(env[s]) else None
    case Term(op, args) =>
      var vs := EvalAll(lib, args, env);
      if vs.None? then None else lib.apply(op, vs.value)
  }

  function EvalAll(lib: Library, ps: seq<Param>, env: Bindings): (r: Option<seq<real>>)
    ensures r.Some? ==> |r.value| == |ps|
    decreases ps, 1
  {
    if ps == [] then Some([])
    else
      var v := Eval(lib, ps[0], env);
      var vs := EvalAll(lib, ps[1..], env);
      if v.None? || vs.None? then None else Some([v.value] + vs.value)
  }

  /** Without bindings only stored numbers have a value; a bound body evaluates everything. */
  function ValuesOf(lib: Library, ps: seq<Param>, env: Option<Bindings>): Option<seq<real>> {
    match env
    case Some(b) => EvalAll(lib, ps, b)
    case None => if forall p | p in ps :: p.Num? then EvalAll(lib, ps, map[]) else None
  }

  function PhaseOf(lib: Library, phase: Param, env: Option<Bindings>): Option<C> {
    match Eval(lib, phase, if env.Some? then env.value else map[])
    case None => None
    case Some(v) => Some(if v == 0.0 then ONE else lib.cis(v))
  }

  /** Keys inserted one after the other; a repeated key keeps its last value. */
  function Zip<K, V>(keys: seq<K>, values: seq<V>): (m: map<K, V>)
    requires |keys| <= |values|
    ensures m.Keys == set x | x in keys
    decreases |keys|
  {
    if keys == [] then map[]
    else Zip(keys[..|keys| - 1], values)[keys[|keys| - 1] := values[|keys| - 1]]
  }

  lemma {:induction false} ZipAt<K, V>(keys: seq<K>, values: seq<V>, i: nat)
    requires |keys| <= |values| && i < |keys| && forall a, b | 0 <= a < b < |keys| :: keys[a] != keys[b]
    ensures Zip(keys, values)[keys[i]] == values[i]
    decreases |keys|
  {
    if i < |keys| - 1 {
      ZipAt(keys[..|keys| - 1], values, i);
      assert keys[..|keys| - 1][i] == keys[i];
    }
  }

  // ---- bit positions ----------------------------------------------------------------------------

  /** The position of `q` in the order, from the least significant bit. */
  function BitOf(order: seq<nat>, q: nat): (b: nat)
    ensures q in order ==> b < |order| && order[b] == q
    ensures q !in order ==> b == |order|
  {
    if order == [] then 0 else if order[0] == q then 0 else 1 + BitOf(order[1..], q)
  }

  function BitsOf(order: seq<nat>, qubits: seq<nat>): (bits: seq<nat>)
    ensures |bits| == |qubits|
  {
    seq(|qubits|, i requires 0 <= i < |qubits| => BitOf(order, qubits[i]))
  }

  function Reversed(s: seq<nat>): (r: seq<nat>)
    ensures |r| == |s| && forall i | 0 <= i < |s| :: r[i] == s[|s| - 1 - i]
  {
    seq(|s|, i requires 0 <= i < |s| => s[|s| - 1 - i])
  }

  predicate SquareOf(m: Mat, n: nat) {
    |m| == Pow2(n) && Shape(m, Pow2(n))
  }

  // ---- the fold -------------------------------------------------------------------------------------

  /** A gate matrix on target bits, rejected unless the targets and the dimensions are right. */
  function Applied(gate: Mat, bits: seq<nat>, m: Mat, n: nat): (r: Result<Mat, MatrixError>)
    requires SquareOf(m, n)
    ensures r.Ok? ==> SquareOf(r.value, n)
  {
    if Fits(gate, bits, m, n, Pow2(n)) then Ok(Embedded(gate, bits, m, n, Pow2(n))) else Err(GateRejected)
  }

  /**
   The matrix after the operations. A nested body takes its qubits in ascending order of their
   identifiers when `byId`, as the code does, and otherwise in the order they were declared.
   */
  function RunOps(lib: Library, ops: seq<Op>, order: seq<nat>, m: Mat, env: Option<Bindings>, byId: bool): (r: Result<Mat, MatrixError>)
    requires SquareOf(m, |order|)
    ensures r.Ok? ==> SquareOf(r.value, |order|)
    decreases ops, 0
  {
    if ops == [] then Ok(m)
    else
      var before := RunOps(lib, ops[..|ops| - 1], order, m, env, byId);
      if before.Err? then before else RunOp(lib, ops[|ops| - 1], order, before.value, env, byId)
  }

  function RunOp(lib: Library, op: Op, order: seq<nat>, m: Mat, env: Option<Bindings>, byId: bool): (r: Result<Mat, MatrixError>)
    requires SquareOf(m, |order|)
    ensures r.Ok? ==> SquareOf(r.value, |order|)
    decreases op, 0
  {
    if exists q :: q in op.qubits && q !in order then
      Err(QubitNotFound(Missing(order, op.qubits)))
    else
      var bits := BitsOf(order, op.qubits);
      var values := ValuesOf(lib, op.params, env);
      if values.None? then Err(SymbolicParameter)
      else
        match op.inst
        case Gate(name, bigEndian) =>
          var gate := lib.matrix(name, values.value);
          if gate.None? then Err(NoMatrix)
          else Applied(gate.value, if bigEndian then Reversed(bits) else bits, m, |order|)
        case Nested(body, signature) =>
          if |values.value| != |signature| then Err(ParameterCountMismatch(|signature|, |values.value|))
          else
            var sub := MatrixOf(lib, body, BodyOrder(body, byId), Some(Zip(signature, values.value)), byId);
            if sub.Err? then Err(sub.error) else Applied(sub.value, bits, m, |order|)
        case ControlFlow => Err(ControlFlowHasNoMatrix)
        case NonUnitary(_) => Err(NoMatrix)
        case Barrier => Ok(m)
        case Delay => Ok(m)
  }

  /** The first qubit that is not in the order. */
  function Missing(order: seq<nat>, qubits: seq<nat>): nat
    requires exists q :: q in qubits && q !in order
  {
    if qubits[0] !in order then qubits[0] else Missing(order, qubits[1..])
  }

  function BodyOrder(body: Circuit, byId: bool): (order: seq<nat>)
    ensures |order| == |body.qubits|
  {
    SortedLength(body.qubits);
    if byId then Sorted(body.qubits) else body.qubits
  }

  lemma {:induction false} InsertSortedLength(x: nat, s: seq<nat>)
    ensures |InsertSorted(x, s)| == |s| + 1
    decreases |s|
  {
    if s != [] && x > s[0] {
      InsertSortedLength(x, s[1..]);
    }
  }

  lemma {:induction false} SortedLength(s: seq<nat>)
    ensures |Sorted(s)| == |s|
    decreases |s|
  {
    if s != [] {
      SortedLength(s[1..]);
      InsertSortedLength(s[0], Sorted(s[1..]));
    }
  }

  /** The matrix of a circuit for a given bit order, phase included. */
  function MatrixOf(lib: Library, c: Circuit, order: seq<nat>, env: Option<Bindings>, byId: bool): (r: Result<Mat, MatrixError>)
    requires |order| == |c.qubits|
    ensures r.Ok? ==> SquareOf(r.value, |order|)
    decreases c, 1
  {
    if |c.qubits| >= 32 then Err(TooLarge(|c.qubits|))
    else
      var run := RunOps(lib, c.ops, order, Identity(Pow2(|order|)), env, byId);
      if run.Err? then run
      else
        var phase := PhaseOf(lib, c.phase, env);
        if phase.None? then Err(SymbolicParameter) else Ok(ScaleAll(phase.value, run.value))
  }

  /** Entry point: an explicit order must be a permutation of the qubits, the default is ascending. */
  function CircuitToMatrix(lib: Library, c: Circuit, order: Option<seq<nat>>): Result<Mat, MatrixError>
    requires Distinct(c.qubits)
  {
    if |c.qubits| >= 32 then Err(TooLarge(|c.qubits|))
    else
      match order
      case Some(o) =>
        if ToSet(o) != ToSet(c.qubits) || |c.qubits| != |o| then Err(OrderMismatch)
        else MatrixOf(lib, c, o, None, true)
      case None => MatrixOf(lib, c, BodyOrder(c, true), None, true)
  }

  function ToSet(s: seq<nat>): set<nat> {
    set q | q in s
  }

  // ---- in memory ------------------------------------------------------------------------------------

  /** The contents of a matrix that was allocated by this module. */
  method FreshIdentity(dim: nat) returns (a: array2<C>)
    ensures fresh(a) && a.Length0 == a.Length1 == dim && Kernel.Rows(a) == Identity(dim)
  {
    a := new C[dim, dim]((r, c) => if c == r then ONE else ZERO);
    assert forall r, c | 0 <= r < dim && 0 <= c < dim :: Kernel.Rows(a)[r][c] == Identity(dim)[r][c];
    assert forall r | 0 <= r < dim :: Kernel.Rows(a)[r] == Identity(dim)[r];
  }

  method ScaleInPlace(a: array2<C>, x: C)
    modifies a
    ensures Kernel.Rows(a) == ScaleAll(x, old(Kernel.Rows(a)))
  {
    hide Times;
    ghost var m := Kernel.Rows(a);
    for r := 0 to a.Length0
      invariant forall i, c | 0 <= i < a.Length0 && 0 <= c < a.Length1 :: a[i, c] == if i < r then Times(x, m[i][c]) else m[i][c]
    {
      for k := 0 to a.Length1
        invariant forall i, c | 0 <= i < a.Length0 && 0 <= c < a.Length1 ::
            a[i, c] == if i < r || (i == r && c < k) then Times(x, m[i][c]) else m[i][c]
      {
        a[r, k] := Times(x, a[r, k]);
      }
    }
    assert forall r | 0 <= r < a.Length0 :: Kernel.Rows(a)[r] == ScaleAll(x, m)[r];
  }

  /** A copy of a matrix as a value, to be used as a gate. */
  method Snapshot(a: array2<C>) returns (m: Mat)
    ensures m == Kernel.Rows(a)
  {
    m := [];
    for r := 0 to a.Length0
      invariant m == Kernel.Rows(a)[..r]
    {
      var row := [];
      for c := 0 to a.Length1
        invariant row == Kernel.Rows(a)[r][..c]
      {
        row := row + [a[r, c]];
      }
      assert row == Kernel.Rows(a)[r];
      m := m + [row];
    }
  }

  /** The fold over the operations, updating the matrix in place, and the phase at the end. */
  method BuildMatrix(lib: Library, c: Circuit, order: seq<nat>, env: Option<Bindings>) returns (r: Result<array2<C>, MatrixError>)
    requires |order| == |c.qubits|
    ensures r.Ok? ==> fresh(r.value) && MatrixOf(lib, c, order, env, true) == Ok(Kernel.Rows(r.value))
    ensures r.Err? ==> MatrixOf(lib, c, order, env, true) == Err(r.error)
    decreases c
  {
    hide Plus, Times, Pow2, Embedded, Identity, ScaleAll;
    if |c.qubits| >= 32 {
      return Err(TooLarge(|c.qubits|));
    }
    var dim := Shl(1, |order|);
    ShlPow2(|order|);
    var a := FreshIdentity(dim);
    ghost var start := Identity(dim);
    for k := 0 to |c.ops|
      invariant SquareOf(Kernel.Rows(a), |order|)
      invariant RunOps(lib, c.ops[..k], order, start, env, true) == Ok(Kernel.Rows(a))
    {
      RunOpsStep(lib, c.ops, k, order, start, env);
      var op := c.ops[k];
      var e := ApplyOp(lib, op, order, env, a);
      if e.Some? {
        RunOpsFails(lib, c.ops, k + 1, order, start, env);
        return Err(e.value);
      }
    }
    assert c.ops[..|c.ops|] == c.ops;
    var phase := PhaseOf(lib, c.phase, env);
    if phase.None? {
      return Err(SymbolicParameter);
    }
    ScaleInPlace(a, phase.value);
    r := Ok(a);
  }

  lemma RunOpsStep(lib: Library, ops: seq<Op>, k: nat, order: seq<nat>, m: Mat, env: Option<Bindings>)
    requires SquareOf(m, |order|) && k < |ops|
    ensures var before := RunOps(lib, ops[..k], order, m, env, true);
            RunOps(lib, ops[..k + 1], order, m, env, true) == if before.Err? then before else RunOp(lib, ops[k], order, before.value, env, true)
  {
    hide RunOp;
    assert ops[..k + 1][..k] == ops[..k];
  }

  lemma {:induction false} RunOpsFails(lib: Library, ops: seq<Op>, k: nat, order: seq<nat>, m: Mat, env: Option<Bindings>)
    requires SquareOf(m, |order|) && k <= |ops| && RunOps(lib, ops[..k], order, m, env, true).Err?
    ensures RunOps(lib, ops, order, m, env, true) == RunOps(lib, ops[..k], order, m, env, true)
    decreases |ops| - k
  {
    hide RunOp, RunOps;
    if k < |ops| {
      RunOpsStep(lib, ops, k, order, m, env);
      RunOpsFails(lib, ops, k + 1, order, m, env);
    } else {
      assert ops[..k] == ops;
    }
  }

  /** One operation applied to the matrix in place. */
  method ApplyOp(lib: Library, op: Op, order: seq<nat>, env: Option<Bindings>, a: array2<C>) returns (e: Option<MatrixError>)
    requires a.Length0 == a.Length1 == Pow2(|order|)
    modifies a
    ensures SquareOf(old(Kernel.Rows(a)), |order|)
    ensures e.None? ==> RunOp(lib, op, order, old(Kernel.Rows(a)), env, true) == Ok(Kernel.Rows(a))
    ensures e.Some? ==> RunOp(lib, op, order, old(Kernel.Rows(a)), env, true) == Err(e.value)
    decreases op
  {
    hide Plus, Times, Pow2, Embedded;
    ghost var m := Kernel.Rows(a);
    var missing := exists q :: q in op.qubits && q !in order;
    if missing {
      return Some(QubitNotFound(Missing(order, op.qubits)));
    }
    var bits := BitsOf(order, op.qubits);
    var values := ValuesOf(lib, op.params, env);
    if values.None? {
      return Some(SymbolicParameter);
    }
    match op.inst
    case Gate(name, bigEndian) =>
      var gate := lib.matrix(name, values.value);
      if gate.None? {
        return Some(NoMatrix);
      }
      e := ApplyMatrix(a, gate.value, if bigEndian then Reversed(bits) else bits, |order|);
    case Nested(body, signature) =>
      if |values.value| != |signature| {
        return Some(ParameterCountMismatch(|signature|, |values.value|));
      }
      var sub := BuildMatrix(lib, body, BodyOrder(body, true), Some(Zip(signature, values.value)));
      if sub.Err? {
        return Some(sub.error);
      }
      var gate := Snapshot(sub.value);
      e := ApplyMatrix(a, gate, bits, |order|);
    case ControlFlow =>
      return Some(ControlFlowHasNoMatrix);
    case NonUnitary(_) =>
      return Some(NoMatrix);
    case Barrier =>
      e := None;
    case Delay =>
      e := None;
  }

  method ApplyMatrix(a: array2<C>, gate: Mat, bits: seq<nat>, ghost n: nat) returns (e: Option<MatrixError>)
    requires a.Length0 == a.Length1 == Pow2(n)
    modifies a
    ensures SquareOf(old(Kernel.Rows(a)), n)
    ensures e.None? ==> Applied(gate, bits, old(Kernel.Rows(a)), n) == Ok(Kernel.Rows(a))
    ensures e.Some? ==> Applied(gate, bits, old(Kernel.Rows(a)), n) == Err(e.value)
  {
    hide Plus, Times, Pow2, Embedded;
    var cols := if gate == [] then 0 else |gate[0]|;
    if !Shape(gate, cols) {
      return Some(GateRejected);
    }
    Kernel.PowerOfTwoExactly(n);
    var applied := Kernel.ApplyGateToMatrix(a, gate, cols, bits);
    e := if applied.Ok? then None else Some(GateRejected);
  }
}
