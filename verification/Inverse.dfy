/**
 Inverting a circuit: operations inverted in reverse order, bodies of nested gates inverted
 recursively, the global phase negated. Given that single gates invert correctly, the matrices of a
 circuit and of its inverse multiply to the identity on both sides, phases included.
 */
module Inverse {
  import opened Prelude
  import opened Bits
  import opened Linear
  import opened Embedding
  import opened CircuitMatrix
  import opened Flatten

  /** How single gates invert: a name, its endianness and parameters give another gate, if there is one. */
  type Inverter = (string, bool, seq<Param>) -> Option<(string, bool, seq<Param>)>

  const NEGATE := "*"

  /** The phase parameter multiplied by minus one. */
  function NegatedPhase(lib: Library, phase: Param): Param {
    Stored(lib, Term(NEGATE, [Num(-1.0), phase]))
  }

  function InverseOf(lib: Library, inv: Inverter, c: Circuit): Result<Circuit, MatrixError>
    decreases c, 1
  {
    var ops := InverseOps(lib, inv, c.ops, c.qubits);
    if ops.Err? then Err(ops.error) else Ok(Circuit(c.qubits, ops.value, NegatedPhase(lib, c.phase)))
  }

  /** The inverted operations, last one first. */
  function InverseOps(lib: Library, inv: Inverter, ops: seq<Op>, target: seq<nat>): Result<seq<Op>, MatrixError>
    decreases ops, 0
  {
    if ops == [] then Ok([])
    else
      var last := InverseOp(lib, inv, ops[|ops| - 1], target);
      if last.Err? then last
      else
        var rest := InverseOps(lib, inv, ops[..|ops| - 1], target);
        if rest.Err? then rest else Ok(last.value + rest.value)
  }

  function InverseOp(lib: Library, inv: Inverter, op: Op, target: seq<nat>): Result<seq<Op>, MatrixError>
    decreases op, 0
  {
    match op.inst
    case Barrier => Appended(lib, Barrier, op.qubits, target, [])
    case Gate(name, bigEndian) =>
      (match inv(name, bigEndian, op.params)
       case None => Err(Irreversible)
       case Some(g) => Appended(lib, Gate(g.0, g.1), op.qubits, target, StoredAll(lib, g.2)))
    case Nested(body, signature) =>
      var body' := InverseOf(lib, inv, body);
      if body'.Err? || !Declares(signature, UsedSymbols(body'.value)) then Err(Irreversible)
      else Appended(lib, Nested(body'.value, signature), op.qubits, target, StoredAll(lib, op.params))
    case Delay => Appended(lib, Delay, op.qubits, target, [])   // the inverse of a delay comes without its duration
    case NonUnitary(_) => Err(Irreversible)
    case ControlFlow => Err(Irreversible)
  }

  // ---- the symbols a circuit uses, which a gate made of it must declare -----------------------------

  function Symbols(p: Param): set<string>
    decreases p, 0
  {
    match p
    case Num(_) => {}
    case Sym(s) => {s}
    case Term(_, args) => AllSymbols(args)
  }

  function AllSymbols(ps: seq<Param>): set<string>
    decreases ps, 1
  {
    if ps == [] then {} else Symbols(ps[0]) + AllSymbols(ps[1..])
  }

  function OpsSymbols(ops: seq<Op>): set<string> {
    if ops == [] then {} else OpsSymbols(ops[..|ops| - 1]) + AllSymbols(ops[|ops| - 1].params)
  }

  function UsedSymbols(c: Circuit): set<string> {
    Symbols(c.phase) + OpsSymbols(c.ops)
  }

  predicate Declares(signature: seq<string>, used: set<string>) {
    forall s | s in used :: s in signature
  }

  // ---- what is assumed of single gates, products and phases ---------------------------------------

  predicate MutuallyInverse(a: Mat, b: Mat) {
    && |a| == |b| && Shape(a, |a|) && Shape(b, |a|)
    && Mul(a, b, |a|) == Identity(|a|) && Mul(b, a, |a|) == Identity(|a|)
  }

  /** For all parameter values, the inverse gate exists with values and has the inverse matrix. */
  ghost predicate GatesInvert(lib: Library, inv: Inverter) {
    forall name, bigEndian, ps, env | inv(name, bigEndian, ps).Some? && EvalAll(lib, ps, env).Some? ::
      GateInverts(lib, inv, name, bigEndian, ps, env)
  }

  ghost predicate GateInverts(lib: Library, inv: Inverter, name: string, bigEndian: bool, ps: seq<Param>, env: Bindings)
    requires inv(name, bigEndian, ps).Some? && EvalAll(lib, ps, env).Some?
  {
    var (name', bigEndian', ps') := inv(name, bigEndian, ps).value;
    var a := lib.matrix(name, EvalAll(lib, ps, env).value);
    a.Some? && Shape(a.value, |a.value|) ==>
      && bigEndian' == bigEndian
      && EvalAll(lib, ps', env).Some?
      && var b := lib.matrix(name', EvalAll(lib, ps', env).value);
         b.Some? && MutuallyInverse(a.value, b.value)
  }

  ghost predicate PhasesInvert(lib: Library) {
    && (forall v: real :: lib.apply(NEGATE, [-1.0, v]) == Some(-1.0 * v))
    && (forall v: real :: Times(lib.cis(v), lib.cis(-1.0 * v)) == ONE)
  }

  // ---- parameters -----------------------------------------------------------------------------------

  /** Without bindings needed, bindings do not matter. */
  lemma {:induction false} EvalGrows(lib: Library, p: Param, env: Bindings)
    requires Eval(lib, p, map[]).Some?
    ensures Eval(lib, p, env) == Eval(lib, p, map[])
    decreases p, 0
  {
    if p.Term? {
      EvalAllGrows(lib, p.args, env);
    }
  }

  lemma {:induction false} EvalAllGrows(lib: Library, ps: seq<Param>, env: Bindings)
    requires EvalAll(lib, ps, map[]).Some?
    ensures EvalAll(lib, ps, env) == EvalAll(lib, ps, map[])
    decreases ps, 1
  {
    if ps != [] {
      EvalGrows(lib, ps[0], env);
      EvalAllGrows(lib, ps[1..], env);
    }
  }

  lemma {:induction false} StoredUnder(lib: Library, ps: seq<Param>, env: Bindings)
    ensures EvalAll(lib, StoredAll(lib, ps), env) == EvalAll(lib, ps, env)
    decreases |ps|
  {
    if ps != [] {
      StoredUnder(lib, ps[1..], env);
      assert StoredAll(lib, ps)[1..] == StoredAll(lib, ps[1..]);
      if Eval(lib, ps[0], map[]).Some? {
        EvalGrows(lib, ps[0], env);
      }
    }
  }

  lemma StoredKeepsValues(lib: Library, ps: seq<Param>, env: Option<Bindings>)
    requires EvalAll(lib, ps, EnvOf(env)).Some?
    ensures ValuesOf(lib, StoredAll(lib, ps), env) == EvalAll(lib, ps, EnvOf(env))
  {
    if env.Some? {
      StoredUnder(lib, ps, env.value);
    } else {
      StoredValues(lib, ps);
    }
  }

  lemma EvalTwo(lib: Library, p: Param, q: Param, env: Bindings)
    requires Eval(lib, p, env).Some? && Eval(lib, q, env).Some?
    ensures EvalAll(lib, [p, q], env) == Some([Eval(lib, p, env).value, Eval(lib, q, env).value])
  {
    hide Eval;
    assert [p, q][1..] == [q] && [q][1..] == [];
    assert EvalAll(lib, [], env) == Some([]);
    var v, w := Eval(lib, p, env).value, Eval(lib, q, env).value;
    assert EvalAll(lib, [q], env) == Some([w] + []);
    assert [w] + [] == [w] && [v] + [w] == [v, w];
    assert [p, q][0] == p && EvalAll(lib, [p, q][1..], env) == Some([w]);
  }

  lemma PhaseInverts(lib: Library, phase: Param, env: Option<Bindings>)
    requires PhasesInvert(lib) && PhaseOf(lib, phase, env).Some?
    ensures PhaseOf(lib, NegatedPhase(lib, phase), env).Some?
    ensures Times(PhaseOf(lib, NegatedPhase(lib, phase), env).value, PhaseOf(lib, phase, env).value) == ONE
  {
    hide Times;
    var e := EnvOf(env);
    var p := Term(NEGATE, [Num(-1.0), phase]);
    var v := Eval(lib, phase, e).value;
    EvalTwo(lib, Num(-1.0), phase, e);
    assert Eval(lib, p, e) == Some(-1.0 * v);
    if Eval(lib, p, map[]).Some? {
      EvalGrows(lib, p, e);
    }
    MulCommutes(lib.cis(v), lib.cis(-1.0 * v));
    Units(ONE);
  }

  // ---- running is multiplying on the left -----------------------------------------------------------

  function Mulled(r: Result<Mat, MatrixError>, w: Mat, n: nat): Result<Mat, MatrixError>
    requires SquareOf(w, n) && (r.Ok? ==> SquareOf(r.value, n))
  {
    if r.Ok? then Ok(Mul(r.value, w, Pow2(n))) else r
  }

  lemma AppliedMul(gate: Mat, bits: seq<nat>, a: Mat, w: Mat, n: nat)
    requires SquareOf(a, n) && SquareOf(w, n)
    ensures SquareOf(Mul(a, w, Pow2(n)), n)
    ensures Applied(gate, bits, Mul(a, w, Pow2(n)), n) == Mulled(Applied(gate, bits, a, n), w, n)
  {
    hide Pow2, Mul, Embedded;
    if Fits(gate, bits, a, n, Pow2(n)) {
      EmbeddedMul(gate, bits, a, w, n, Pow2(n));
    }
  }

  lemma RunOpMul(lib: Library, op: Op, order: seq<nat>, a: Mat, w: Mat, env: Option<Bindings>)
    requires SquareOf(a, |order|) && SquareOf(w, |order|)
    ensures SquareOf(Mul(a, w, Pow2(|order|)), |order|)
    ensures RunOp(lib, op, order, Mul(a, w, Pow2(|order|)), env, true) == Mulled(RunOp(lib, op, order, a, env, true), w, |order|)
  {
    hide Times, Plus, Embedded, Pow2, RunOps, MatrixOf, Applied, Eval, EvalAll, Mul;
    var bits, values := BitsOf(order, op.qubits), ValuesOf(lib, op.params, env);
    AppliedMul([], bits, a, w, |order|);
    if values.Some? {
      match op.inst {
        case Gate(name, bigEndian) =>
          var gate := lib.matrix(name, values.value);
          if gate.Some? {
            AppliedMul(gate.value, if bigEndian then Reversed(bits) else bits, a, w, |order|);
          }
        case Nested(body, signature) =>
          if |values.value| == |signature| {
            var sub := MatrixOf(lib, body, BodyOrder(body, true), Some(Zip(signature, values.value)), true);
            if sub.Ok? {
              AppliedMul(sub.value, bits, a, w, |order|);
            }
          }
        case _ =>
      }
    }
  }

  lemma {:induction false} RunMul(lib: Library, ops: seq<Op>, order: seq<nat>, a: Mat, w: Mat, env: Option<Bindings>)
    requires SquareOf(a, |order|) && SquareOf(w, |order|)
    ensures SquareOf(Mul(a, w, Pow2(|order|)), |order|)
    ensures RunOps(lib, ops, order, Mul(a, w, Pow2(|order|)), env, true) == Mulled(RunOps(lib, ops, order, a, env, true), w, |order|)
    decreases |ops|
  {
    hide Times, Plus, Pow2, RunOp, Mul;
    if ops != [] {
      RunMul(lib, ops[..|ops| - 1], order, a, w, env);
      var before := RunOps(lib, ops[..|ops| - 1], order, a, env, true);
      if before.Ok? {
        RunOpMul(lib, ops[|ops| - 1], order, before.value, w, env);
      }
    }
  }

  /** The operations multiply any matrix by their own matrix, on the left. */
  lemma RunIsProduct(lib: Library, ops: seq<Op>, order: seq<nat>, w: Mat, env: Option<Bindings>)
    requires SquareOf(w, |order|)
    ensures SquareOf(Identity(Pow2(|order|)), |order|)
    ensures RunOps(lib, ops, order, w, env, true)
         == Mulled(RunOps(lib, ops, order, Identity(Pow2(|order|)), env, true), w, |order|)
  {
    hide Pow2, RunOps, Identity, Mul;
    var one := Identity(Pow2(|order|));
    RunMul(lib, ops, order, one, w, env);
    MulIdentity(w, Pow2(|order|));
  }

  // ---- the inverse operations undo the operations -----------------------------------------------------

  lemma AppliedUndone(a: Mat, b: Mat, bits: seq<nat>, m: Mat, n: nat)
    requires SquareOf(m, n) && Fits(a, bits, m, n, Pow2(n)) && MutuallyInverse(a, b)
    ensures Applied(a, bits, m, n).Ok? && Applied(b, bits, Applied(a, bits, m, n).value, n) == Ok(m)
  {
    hide Pow2, Mul, Embedded, Identity;
    EmbeddedProduct(b, a, bits, m, n, Pow2(n));
    EmbeddedIdentity(bits, m, n, Pow2(n));
  }

  /** An operation and its inverse undo each other on every matrix. */
  ghost predicate Undoes(lib: Library, ops: seq<Op>, ops': seq<Op>, order: seq<nat>, m: Mat, env: Option<Bindings>)
    requires SquareOf(m, |order|)
  {
    && RunOps(lib, ops, order, m, env, true).Ok?
    && RunOps(lib, ops', order, RunOps(lib, ops, order, m, env, true).value, env, true) == Ok(m)
    && RunOps(lib, ops', order, m, env, true).Ok?
    && RunOps(lib, ops, order, RunOps(lib, ops', order, m, env, true).value, env, true) == Ok(m)
  }

  lemma {:induction false} OpsUndone(lib: Library, inv: Inverter, ops: seq<Op>, target: seq<nat>, order: seq<nat>, m: Mat, m0: Mat, env: Option<Bindings>)
    requires GatesInvert(lib, inv) && PhasesInvert(lib) && SquareOf(m, |order|) && SquareOf(m0, |order|)
    requires InverseOps(lib, inv, ops, target).Ok? && RunOps(lib, ops, order, m0, env, true).Ok?
    ensures Undoes(lib, ops, InverseOps(lib, inv, ops, target).value, order, m, env)
    decreases ops, 2
  {
    hide Pow2, RunOp, InverseOp, GatesInvert, PhasesInvert;
    if ops != [] {
      var init, last := ops[..|ops| - 1], ops[|ops| - 1];
      var init', last' := InverseOps(lib, inv, init, target).value, InverseOp(lib, inv, last, target).value;
      var m1 := RunOps(lib, init, order, m0, env, true).value;
      OpsUndone(lib, inv, init, target, order, m, m0, env);
      var v := RunOps(lib, init, order, m, env, true).value;
      OpUndone(lib, inv, last, target, order, v, m1, env);
      OpUndone(lib, inv, last, target, order, m, m1, env);
      var w := RunOps(lib, last', order, m, env, true).value;
      OpsUndone(lib, inv, init, target, order, w, m0, env);
      hide Undoes;
      UndoesChain(lib, init, init', last, last', order, m, env);
      assert init + [last] == ops;
    }
  }

  /** Two undoing pairs, the second inside the first, undo each other in reverse order. */
  lemma UndoesChain(lib: Library, init: seq<Op>, init': seq<Op>, last: Op, last': seq<Op>, order: seq<nat>, m: Mat, env: Option<Bindings>)
    requires SquareOf(m, |order|) && Undoes(lib, init, init', order, m, env) && Undoes(lib, [last], last', order, m, env)
    requires Undoes(lib, [last], last', order, RunOps(lib, init, order, m, env, true).value, env)
    requires Undoes(lib, init, init', order, RunOps(lib, last', order, m, env, true).value, env)
    ensures Undoes(lib, init + [last], last' + init', order, m, env)
  {
    hide RunOps, Pow2;
    var v := RunOps(lib, init, order, m, env, true).value;
    RunAppend(lib, init, [last], order, m, env, true);
    var top := RunOps(lib, [last], order, v, env, true).value;
    RunAppend(lib, last', init', order, top, env, true);
    var w := RunOps(lib, last', order, m, env, true).value;
    RunAppend(lib, last', init', order, m, env, true);
    var bottom := RunOps(lib, init', order, w, env, true).value;
    RunAppend(lib, init, [last], order, bottom, env, true);
  }

  lemma {:induction false} OpUndone(lib: Library, inv: Inverter, op: Op, target: seq<nat>, order: seq<nat>, m: Mat, m0: Mat, env: Option<Bindings>)
    requires GatesInvert(lib, inv) && PhasesInvert(lib) && SquareOf(m, |order|) && SquareOf(m0, |order|)
    requires InverseOp(lib, inv, op, target).Ok? && RunOp(lib, op, order, m0, env, true).Ok?
    ensures Undoes(lib, [op], InverseOp(lib, inv, op, target).value, order, m, env)
    decreases op, 1
  {
    hide Pow2, GatesInvert, PhasesInvert, Applied, Embedded, Identity, Eval, EvalAll, ValuesOf, RunOps, StoredAll, MatrixOf, Zip, InverseOps;
    var bits := BitsOf(order, op.qubits);
    assert op.inst.Barrier? || op.inst.Gate? || op.inst.Nested?;
    if op.inst.Barrier? {
      var op' := Op(Barrier, op.qubits, []);
      assert InverseOp(lib, inv, op, target).value == [op'];
      assert ValuesOf(lib, [], env) == Some([]) by { NoValues(lib, env); }
      RunSingle(lib, op, order, m, env);
      RunSingle(lib, op', order, m, env);
    } else {
      var a, b, op', used;
      if op.inst.Gate? {
        a, b, op', used := GatePair(lib, inv, op, target, order, m0, env);
      } else {
        a, b, op', used := NestedPair(lib, inv, op, target, order, m0, env);
      }
      FitsAnyMatrix(a, used, m0, m, |order|);
      AppliedUndone(a, b, used, m, |order|);
      AppliedUndone(b, a, used, m, |order|);
      var v, w := Applied(a, used, m, |order|).value, Applied(b, used, m, |order|).value;
      assert RunOp(lib, op, order, m, env, true) == Ok(v) && RunOp(lib, op', order, v, env, true) == Ok(m);
      assert RunOp(lib, op', order, m, env, true) == Ok(w) && RunOp(lib, op, order, w, env, true) == Ok(m);
      RunSingle(lib, op, order, m, env);
      RunSingle(lib, op', order, v, env);
      RunSingle(lib, op', order, m, env);
      RunSingle(lib, op, order, w, env);
    }
  }

  lemma NoValues(lib: Library, env: Option<Bindings>)
    ensures ValuesOf(lib, [], env) == Some([])
  {
  }

  lemma FitsAnyMatrix(gate: Mat, bits: seq<nat>, m0: Mat, m: Mat, n: nat)
    requires SquareOf(m0, n) && SquareOf(m, n) && Applied(gate, bits, m0, n).Ok?
    ensures Fits(gate, bits, m, n, Pow2(n))
  {
  }

  /** The matrices that a gate and its inverse apply, on the same bits, are inverse to each other. */
  lemma {:induction false} GatePair(lib: Library, inv: Inverter, op: Op, target: seq<nat>, order: seq<nat>, m0: Mat, env: Option<Bindings>)
    returns (a: Mat, b: Mat, op': Op, used: seq<nat>)
    requires GatesInvert(lib, inv) && PhasesInvert(lib) && SquareOf(m0, |order|)
    requires InverseOp(lib, inv, op, target).Ok? && RunOp(lib, op, order, m0, env, true).Ok? && op.inst.Gate?
    ensures InverseOp(lib, inv, op, target).value == [op'] && MutuallyInverse(a, b) && Applied(a, used, m0, |order|).Ok?
    ensures forall m | SquareOf(m, |order|) :: RunOp(lib, op, order, m, env, true) == Applied(a, used, m, |order|)
    ensures forall m | SquareOf(m, |order|) :: RunOp(lib, op', order, m, env, true) == Applied(b, used, m, |order|)
    decreases op, 0
  {
    hide Pow2, PhasesInvert, Embedded, Identity, Eval, EvalAll, RunOps, StoredAll, MatrixOf, Zip, InverseOps, GateInverts, MutuallyInverse;
    var bits, values := BitsOf(order, op.qubits), ValuesOf(lib, op.params, env).value;
    assert EvalAll(lib, op.params, EnvOf(env)) == Some(values);
    var (name', bigEndian', ps') := inv(op.inst.name, op.inst.bigEndian, op.params).value;
    assert GateInverts(lib, inv, op.inst.name, op.inst.bigEndian, op.params, EnvOf(env));
    hide GatesInvert;
    a := lib.matrix(op.inst.name, values).value;
    used := if op.inst.bigEndian then Reversed(bits) else bits;
    b := GateInverse(lib, inv, op.inst.name, op.inst.bigEndian, op.params, EnvOf(env), a);
    StoredKeepsValues(lib, ps', env);
    hide ValuesOf;
    op' := Op(Gate(name', bigEndian'), op.qubits, StoredAll(lib, ps'));
  }

  lemma {:induction false} NestedPair(lib: Library, inv: Inverter, op: Op, target: seq<nat>, order: seq<nat>, m0: Mat, env: Option<Bindings>)
    returns (a: Mat, b: Mat, op': Op, used: seq<nat>)
    requires GatesInvert(lib, inv) && PhasesInvert(lib) && SquareOf(m0, |order|)
    requires InverseOp(lib, inv, op, target).Ok? && RunOp(lib, op, order, m0, env, true).Ok? && op.inst.Nested?
    ensures InverseOp(lib, inv, op, target).value == [op'] && MutuallyInverse(a, b) && Applied(a, used, m0, |order|).Ok?
    ensures forall m | SquareOf(m, |order|) :: RunOp(lib, op, order, m, env, true) == Applied(a, used, m, |order|)
    ensures forall m | SquareOf(m, |order|) :: RunOp(lib, op', order, m, env, true) == Applied(b, used, m, |order|)
    decreases op, 0
  {
    hide GatesInvert, Pow2, PhasesInvert, Embedded, Identity, Eval, EvalAll, RunOps, StoredAll, MatrixOf, Zip, InverseOps, GateInverts, MutuallyInverse;
    var bits, values := BitsOf(order, op.qubits), ValuesOf(lib, op.params, env).value;
    assert EvalAll(lib, op.params, EnvOf(env)) == Some(values);
    var body, names := op.inst.body, op.inst.signature;
    StoredKeepsValues(lib, op.params, env);
    hide ValuesOf;
    used := bits;
    a, b := InverseMatrices(lib, inv, body, BodyOrder(body, true), Some(Zip(names, values)));
    op' := Op(Nested(InverseOf(lib, inv, body).value, names), op.qubits, StoredAll(lib, op.params));
  }

  lemma GateInverse(lib: Library, inv: Inverter, name: string, bigEndian: bool, ps: seq<Param>, env: Bindings, a: Mat) returns (b: Mat)
    requires inv(name, bigEndian, ps).Some? && EvalAll(lib, ps, env).Some? && GateInverts(lib, inv, name, bigEndian, ps, env)
    requires lib.matrix(name, EvalAll(lib, ps, env).value) == Some(a) && Shape(a, |a|)
    ensures var (name', bigEndian', ps') := inv(name, bigEndian, ps).value;
            && bigEndian' == bigEndian && EvalAll(lib, ps', env).Some?
            && lib.matrix(name', EvalAll(lib, ps', env).value) == Some(b)
    ensures MutuallyInverse(a, b)
  {
    var (name', bigEndian', ps') := inv(name, bigEndian, ps).value;
    b := lib.matrix(name', EvalAll(lib, ps', env).value).value;
  }

  /** The matrices of a circuit and its inverse, for any bit order and any bindings, multiply to the identity on both sides. */
  lemma {:induction false} InverseMatrices(lib: Library, inv: Inverter, c: Circuit, order: seq<nat>, env: Option<Bindings>) returns (a: Mat, b: Mat)
    requires GatesInvert(lib, inv) && PhasesInvert(lib) && InverseOf(lib, inv, c).Ok?
    requires |order| == |c.qubits| && MatrixOf(lib, c, order, env, true).Ok?
    ensures InverseOf(lib, inv, c).value.qubits == c.qubits
    ensures MatrixOf(lib, c, order, env, true) == Ok(a)
    ensures MatrixOf(lib, InverseOf(lib, inv, c).value, order, env, true) == Ok(b)
    ensures MutuallyInverse(a, b)
    decreases c, 2
  {
    hide Pow2, Times, Identity, RunOps, InverseOps, PhaseOf, NegatedPhase, Mul, ScaleAll, GatesInvert, PhasesInvert;
    var one := Identity(Pow2(|order|));
    var ops' := InverseOps(lib, inv, c.ops, c.qubits).value;
    assert SquareOf(one, |order|);
    OpsUndone(lib, inv, c.ops, c.qubits, order, one, one, env);
    var r := RunOps(lib, c.ops, order, one, env, true).value;
    var r' := RunOps(lib, ops', order, one, env, true).value;
    RunIsProduct(lib, ops', order, r, env);
    RunIsProduct(lib, c.ops, order, r', env);
    PhaseInverts(lib, c.phase, env);
    var p, p' := PhaseOf(lib, c.phase, env).value, PhaseOf(lib, NegatedPhase(lib, c.phase), env).value;
    a, b := ScaleAll(p, r), ScaleAll(p', r');
    ScaledInverse(p, r, p', r', Pow2(|order|));
  }

  lemma MulScaled(x: C, a: Mat, y: C, b: Mat, n: nat)
    requires |a| == n && |b| == n && Shape(a, n) && Shape(b, n)
    ensures Shape(ScaleAll(x, a), n) && Shape(ScaleAll(y, b), n)
    ensures Mul(ScaleAll(x, a), ScaleAll(y, b), n) == ScaleAll(Times(x, y), Mul(a, b, n))
  {
    hide Times, Plus, Combine;
    forall r | 0 <= r < n
      ensures Mul(ScaleAll(x, a), ScaleAll(y, b), n)[r] == ScaleAll(y, ScaleAll(x, Mul(a, b, n)))[r]
    {
      CombineScaledRows(y, Scale(x, a[r]), b, n);
      CombineScale(x, a[r], b, n);
    }
    assert Mul(ScaleAll(x, a), ScaleAll(y, b), n) == ScaleAll(y, ScaleAll(x, Mul(a, b, n)));
    ScaleTwice(y, x, Mul(a, b, n));
  }

  lemma ScaledInverse(p: C, r: Mat, p': C, r': Mat, n: nat)
    requires |r| == n && |r'| == n && Shape(r, n) && Shape(r', n) && Times(p', p) == ONE
    requires Mul(r', r, n) == Identity(n) && Mul(r, r', n) == Identity(n)
    ensures MutuallyInverse(ScaleAll(p, r), ScaleAll(p', r'))
  {
    hide Times, Plus, Combine;
    MulScaled(p, r, p', r', n);
    MulScaled(p', r', p, r, n);
    MulCommutes(p, p');
    ScaleOne(Identity(n));
  }

  /** Inverting a circuit that has a matrix gives a circuit whose matrix is the two-sided inverse. */
  lemma InverseIsInverse(lib: Library, inv: Inverter, c: Circuit, order: Option<seq<nat>>) returns (c': Circuit, a: Mat, b: Mat)
    requires GatesInvert(lib, inv) && PhasesInvert(lib) && Distinct(c.qubits)
    requires CircuitToMatrix(lib, c, order).Ok? && InverseOf(lib, inv, c).Ok?
    ensures CircuitToMatrix(lib, c, order) == Ok(a) && InverseOf(lib, inv, c) == Ok(c')
    ensures c'.qubits == c.qubits && CircuitToMatrix(lib, c', order) == Ok(b)
    ensures MutuallyInverse(a, b)
  {
    hide MutuallyInverse, GatesInvert, PhasesInvert, InverseOf, MatrixOf;
    c' := InverseOf(lib, inv, c).value;
    a, b := InverseMatrices(lib, inv, c, if order.Some? then order.value else BodyOrder(c, true), None);
  }
}
