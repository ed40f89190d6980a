/**
 When a circuit has an inverse: the exact condition, the one for well-formed circuits, and the
 circuit with a delay, which has a matrix but no inverse.
 */
module InverseLimits {
  import opened Prelude
  import opened Bits
  import opened Linear
  import opened Embedding
  import opened CircuitMatrix
  import opened Flatten
  import opened Inverse

  // ---- the exact condition --------------------------------------------------------------------------

  /** The parameters of the inverse operation. */
  function InverseParams(lib: Library, inv: Inverter, op: Op): seq<Param> {
    match op.inst
    case Gate(name, bigEndian) =>
      var g := inv(name, bigEndian, op.params);
      if g.Some? then StoredAll(lib, g.value.2) else []
    case Nested(_, _) => StoredAll(lib, op.params)
    case _ => []
  }

  function InverseOpsSymbols(lib: Library, inv: Inverter, ops: seq<Op>): set<string> {
    if ops == [] then {} else InverseOpsSymbols(lib, inv, ops[..|ops| - 1]) + AllSymbols(InverseParams(lib, inv, ops[|ops| - 1]))
  }

  /** The symbols of the inverse circuit, read from the circuit. */
  function InverseSymbols(lib: Library, inv: Inverter, c: Circuit): set<string> {
    Symbols(NegatedPhase(lib, c.phase)) + InverseOpsSymbols(lib, inv, c.ops)
  }

  predicate Invertible(lib: Library, inv: Inverter, c: Circuit)
    decreases c, 1
  {
    OpsInvertible(lib, inv, c.ops, c.qubits)
  }

  predicate OpsInvertible(lib: Library, inv: Inverter, ops: seq<Op>, qubits: seq<nat>)
    decreases ops, 0
  {
    forall k | 0 <= k < |ops| :: OpInvertible(lib, inv, ops[k], qubits)
  }

  /** A barrier, a gate that has an inverse, or a gate made of an invertible body, on operands that can be appended. */
  predicate OpInvertible(lib: Library, inv: Inverter, op: Op, qubits: seq<nat>)
    decreases op, 0
  {
    match op.inst
    case Barrier => Appendable(lib, Barrier, op.qubits, qubits, 0)
    case Gate(name, bigEndian) =>
      var g := inv(name, bigEndian, op.params);
      g.Some? && Appendable(lib, Gate(g.value.0, g.value.1), op.qubits, qubits, |g.value.2|)
    case Nested(body, signature) =>
      && Invertible(lib, inv, body) && Declares(signature, InverseSymbols(lib, inv, body))
      && Appendable(lib, op.inst, op.qubits, qubits, |op.params|)
    case Delay => false
    case NonUnitary(_) => false
    case ControlFlow => false
  }

  lemma AppendedExactly(lib: Library, inst: Inst, qubits: seq<nat>, target: seq<nat>, params: seq<Param>)
    ensures Appended(lib, inst, qubits, target, params).Ok? <==> Appendable(lib, inst, qubits, target, |params|)
    ensures Appended(lib, inst, qubits, target, params).Ok? ==>
              Appended(lib, inst, qubits, target, params) == Ok([Op(inst, qubits, params)])
  {
  }

  lemma {:induction false} SymbolsAppend(a: seq<Op>, b: seq<Op>)
    ensures OpsSymbols(a + b) == OpsSymbols(a) + OpsSymbols(b)
    decreases |b|
  {
    if b == [] {
      assert a + b == a;
    } else {
      assert (a + b)[..|a + b| - 1] == a + b[..|b| - 1];
      SymbolsAppend(a, b[..|b| - 1]);
    }
  }

  lemma SymbolsOne(op: Op)
    ensures OpsSymbols([op]) == AllSymbols(op.params)
  {
    assert [op][..|[op]| - 1] == [];
    assert OpsSymbols([]) == {};
  }

  /** A circuit has an inverse exactly if it is invertible, and the inverse uses exactly the predicted symbols. */
  lemma {:induction false} InverseExactlyWhen(lib: Library, inv: Inverter, c: Circuit)
    ensures InverseOf(lib, inv, c).Ok? <==> Invertible(lib, inv, c)
    ensures InverseOf(lib, inv, c).Ok? ==> UsedSymbols(InverseOf(lib, inv, c).value) == InverseSymbols(lib, inv, c)
    decreases c, 1
  {
    hide InverseOps, OpsInvertible, NegatedPhase, Symbols;
    OpsInverseExactlyWhen(lib, inv, c.ops, c.qubits);
  }

  lemma {:induction false} OpsInverseExactlyWhen(lib: Library, inv: Inverter, ops: seq<Op>, qubits: seq<nat>)
    ensures InverseOps(lib, inv, ops, qubits).Ok? <==> OpsInvertible(lib, inv, ops, qubits)
    ensures InverseOps(lib, inv, ops, qubits).Ok? ==>
              OpsSymbols(InverseOps(lib, inv, ops, qubits).value) == InverseOpsSymbols(lib, inv, ops)
    decreases ops, 0
  {
    hide InverseOp, OpInvertible, AllSymbols, InverseParams;
    if ops != [] {
      var init, last := ops[..|ops| - 1], ops[|ops| - 1];
      OpInverseExactlyWhen(lib, inv, last, qubits);
      OpsInverseExactlyWhen(lib, inv, init, qubits);
      assert OpsInvertible(lib, inv, ops, qubits) <==> OpsInvertible(lib, inv, init, qubits) && OpInvertible(lib, inv, last, qubits) by {
        LastInvertible(lib, inv, ops, qubits);
      }
      if InverseOps(lib, inv, ops, qubits).Ok? {
        SymbolsAppend(InverseOp(lib, inv, last, qubits).value, InverseOps(lib, inv, init, qubits).value);
      }
    }
  }

  lemma LastInvertible(lib: Library, inv: Inverter, ops: seq<Op>, qubits: seq<nat>)
    requires ops != []
    ensures OpsInvertible(lib, inv, ops, qubits) <==>
            OpsInvertible(lib, inv, ops[..|ops| - 1], qubits) && OpInvertible(lib, inv, ops[|ops| - 1], qubits)
  {
    hide OpInvertible;
    var init := ops[..|ops| - 1];
    assert forall k | 0 <= k < |init| :: init[k] == ops[k];
    if OpsInvertible(lib, inv, init, qubits) && OpInvertible(lib, inv, ops[|ops| - 1], qubits) {
      forall k | 0 <= k < |ops|
        ensures OpInvertible(lib, inv, ops[k], qubits)
      {
        if k < |init| {
          assert OpInvertible(lib, inv, init[k], qubits);
        }
      }
    }
  }

  lemma {:induction false} OpInverseExactlyWhen(lib: Library, inv: Inverter, op: Op, qubits: seq<nat>)
    ensures InverseOp(lib, inv, op, qubits).Ok? <==> OpInvertible(lib, inv, op, qubits)
    ensures InverseOp(lib, inv, op, qubits).Ok? ==>
              OpsSymbols(InverseOp(lib, inv, op, qubits).value) == AllSymbols(InverseParams(lib, inv, op))
    decreases op, 0
  {
    hide InverseOf, Invertible, Appended, Appendable, UsedSymbols, InverseSymbols;
    if op.inst.Nested? {
      var body := op.inst.body;
      InverseExactlyWhen(lib, inv, body);
      var r := InverseOf(lib, inv, body);
      if r.Ok? {
        var inst, params := Nested(r.value, op.inst.signature), StoredAll(lib, op.params);
        AppendedExactly(lib, inst, op.qubits, qubits, params);
        InverseKeepsQubits(lib, inv, body);
        SameArity(lib, op.inst, inst, op.qubits, qubits, |params|);
        SymbolsOne(Op(inst, op.qubits, params));
      }
    } else if op.inst.Gate? {
      var g := inv(op.inst.name, op.inst.bigEndian, op.params);
      if g.Some? {
        var inst, params := Gate(g.value.0, g.value.1), StoredAll(lib, g.value.2);
        AppendedExactly(lib, inst, op.qubits, qubits, params);
        SymbolsOne(Op(inst, op.qubits, params));
      }
    } else {
      AppendedExactly(lib, op.inst, op.qubits, qubits, []);
      DelayRefused(lib, op.qubits, qubits);
      SymbolsOne(Op(op.inst, op.qubits, []));
    }
  }

  lemma InverseKeepsQubits(lib: Library, inv: Inverter, c: Circuit)
    requires InverseOf(lib, inv, c).Ok?
    ensures InverseOf(lib, inv, c).value.qubits == c.qubits
  {
    hide InverseOps;
  }

  lemma SameArity(lib: Library, a: Inst, b: Inst, qubits: seq<nat>, target: seq<nat>, n: nat)
    requires a.Nested? && b.Nested? && a.body.qubits == b.body.qubits && a.signature == b.signature
    ensures Appendable(lib, a, qubits, target, n) <==> Appendable(lib, b, qubits, target, n)
  {
  }

  lemma DelayRefused(lib: Library, qubits: seq<nat>, target: seq<nat>)
    ensures !Appendable(lib, Delay, qubits, target, 0)
  {
  }

  // ---- well-formed circuits ---------------------------------------------------------------------------

  /** Every operation, at every depth, is a barrier, a gate that has an inverse, or a gate made of a circuit. */
  predicate Reversible(inv: Inverter, ops: seq<Op>)
    decreases ops, 0
  {
    forall k | 0 <= k < |ops| :: ReversibleOp(inv, ops[k])
  }

  predicate ReversibleOp(inv: Inverter, op: Op)
    decreases op, 0
  {
    match op.inst
    case Barrier => true
    case Gate(name, bigEndian) => inv(name, bigEndian, op.params).Some?
    case Nested(body, _) => Reversible(inv, body.ops)
    case _ => false
  }

  /** What making a gate of a circuit guarantees, at every depth: its signature declares the symbols used. */
  predicate Declared(ops: seq<Op>)
    decreases ops, 0
  {
    forall k | 0 <= k < |ops| :: DeclaredOp(ops[k])
  }

  predicate DeclaredOp(op: Op)
    decreases op, 0
  {
    op.inst.Nested? ==> Declares(op.inst.signature, UsedSymbols(op.inst.body)) && Declared(op.inst.body.ops)
  }

  /** Inverse gates act on as many qubits, come with their number of parameters, and use no new symbols. */
  ghost predicate KeepsOperands(lib: Library, inv: Inverter) {
    forall name, bigEndian, ps | inv(name, bigEndian, ps).Some? :: KeepsOperandsOf(lib, inv, name, bigEndian, ps)
  }

  ghost predicate KeepsOperandsOf(lib: Library, inv: Inverter, name: string, bigEndian: bool, ps: seq<Param>)
    requires inv(name, bigEndian, ps).Some?
  {
    var (name', _, ps') := inv(name, bigEndian, ps).value;
    lib.arity(name') == (lib.arity(name).0, |ps'|) && AllSymbols(ps') <= AllSymbols(ps)
  }

  lemma {:induction false} StoredSymbols(lib: Library, ps: seq<Param>)
    ensures AllSymbols(StoredAll(lib, ps)) <= AllSymbols(ps)
    decreases |ps|
  {
    if ps != [] {
      StoredSymbols(lib, ps[1..]);
      assert StoredAll(lib, ps)[1..] == StoredAll(lib, ps[1..]);
    }
  }

  lemma PhaseSymbols(lib: Library, phase: Param)
    ensures Symbols(NegatedPhase(lib, phase)) <= Symbols(phase)
  {
    var args := [Num(-1.0), phase];
    assert args[1..] == [phase] && [phase][1..] == [];
    assert AllSymbols([phase]) == Symbols(phase);
    assert AllSymbols(args) == Symbols(phase);
  }

  /** The inverse uses no symbol that the circuit does not use. */
  lemma {:induction false} InverseSymbolsUsed(lib: Library, inv: Inverter, ops: seq<Op>)
    requires KeepsOperands(lib, inv)
    ensures InverseOpsSymbols(lib, inv, ops) <= OpsSymbols(ops)
    decreases |ops|
  {
    hide AllSymbols, KeepsOperandsOf;
    if ops != [] {
      InverseSymbolsUsed(lib, inv, ops[..|ops| - 1]);
      InverseParamsUsed(lib, inv, ops[|ops| - 1]);
    }
  }

  lemma InverseParamsUsed(lib: Library, inv: Inverter, op: Op)
    requires KeepsOperands(lib, inv)
    ensures AllSymbols(InverseParams(lib, inv, op)) <= AllSymbols(op.params)
  {
    StoredSymbols(lib, op.params);
    if op.inst.Gate? {
      var g := inv(op.inst.name, op.inst.bigEndian, op.params);
      if g.Some? {
        assert KeepsOperandsOf(lib, inv, op.inst.name, op.inst.bigEndian, op.params);
        StoredSymbols(lib, g.value.2);
      }
    }
  }

  /**
   A well-formed circuit has an inverse exactly if every operation at every depth is a barrier, a gate
   that has an inverse, or a gate made of a circuit: a delay, a measurement or control flow anywhere
   is what makes it fail.
   */
  lemma WellFormedInverse(lib: Library, inv: Inverter, c: Circuit)
    requires WellFormed(lib, c) && Declared(c.ops) && KeepsOperands(lib, inv)
    ensures InverseOf(lib, inv, c).Ok? <==> Reversible(inv, c.ops)
  {
    InverseExactlyWhen(lib, inv, c);
    ReversibleExactly(lib, inv, c.ops, c.qubits);
  }

  lemma {:induction false} ReversibleExactly(lib: Library, inv: Inverter, ops: seq<Op>, qubits: seq<nat>)
    requires OpsWellFormed(lib, ops, qubits) && Declared(ops) && KeepsOperands(lib, inv)
    ensures OpsInvertible(lib, inv, ops, qubits) <==> Reversible(inv, ops)
    decreases ops, 1
  {
    hide KeepsOperands, OpInvertible, OpWellFormed, DeclaredOp, ReversibleOp;
    forall k | 0 <= k < |ops|
      ensures OpInvertible(lib, inv, ops[k], qubits) <==> ReversibleOp(inv, ops[k])
    {
      assert OpWellFormed(lib, ops[k], qubits) && DeclaredOp(ops[k]);
      ReversibleOpExactly(lib, inv, ops[k], qubits);
    }
  }

  lemma {:induction false} ReversibleOpExactly(lib: Library, inv: Inverter, op: Op, qubits: seq<nat>)
    requires OpWellFormed(lib, op, qubits) && DeclaredOp(op) && KeepsOperands(lib, inv)
    ensures OpInvertible(lib, inv, op, qubits) <==> ReversibleOp(inv, op)
    decreases op, 0
  {
    hide AllSymbols, OpsSymbols, InverseOpsSymbols, Symbols, OpsInvertible, OpsWellFormed, Declared, Reversible;
    if op.inst.Nested? {
      var body := op.inst.body;
      ReversibleExactly(lib, inv, body.ops, body.qubits);
      InverseSymbolsUsed(lib, inv, body.ops);
      PhaseSymbols(lib, body.phase);
    } else if op.inst.Gate? {
      if inv(op.inst.name, op.inst.bigEndian, op.params).Some? {
        assert KeepsOperandsOf(lib, inv, op.inst.name, op.inst.bigEndian, op.params);
      }
    }
  }

  // ---- what the inverse consists of -----------------------------------------------------------------

  /** The same qubits, every operation inverted on its own qubits, last one first, and the phase negated. */
  predicate Inverts(lib: Library, inv: Inverter, c: Circuit, c': Circuit)
    decreases c, 1
  {
    && c'.qubits == c.qubits && c'.phase == NegatedPhase(lib, c.phase) && |c'.ops| == |c.ops|
    && forall k | 0 <= k < |c.ops| :: InvertsOp(lib, inv, c.ops[k], c'.ops[|c.ops| - 1 - k])
  }

  predicate InvertsOp(lib: Library, inv: Inverter, op: Op, op': Op)
    decreases op, 0
  {
    && op'.qubits == op.qubits
    && match op.inst
       case Barrier => op'.inst == Barrier && op'.params == []
       case Gate(name, bigEndian) =>
         var g := inv(name, bigEndian, op.params);
         g.Some? && op'.inst == Gate(g.value.0, g.value.1) && op'.params == StoredAll(lib, g.value.2)
       case Nested(body, signature) =>
         && op'.inst.Nested? && Inverts(lib, inv, body, op'.inst.body) && op'.inst.signature == signature
         && op'.params == StoredAll(lib, op.params)
       case _ => false
  }

  lemma {:induction false} InverseInverts(lib: Library, inv: Inverter, c: Circuit)
    requires InverseOf(lib, inv, c).Ok?
    ensures Inverts(lib, inv, c, InverseOf(lib, inv, c).value)
    decreases c, 1
  {
    hide InverseOps, InvertsOp, NegatedPhase;
    InverseOpsInvert(lib, inv, c.ops, c.qubits);
  }

  lemma {:induction false} InverseOpsInvert(lib: Library, inv: Inverter, ops: seq<Op>, qubits: seq<nat>)
    requires InverseOps(lib, inv, ops, qubits).Ok?
    ensures var ops' := InverseOps(lib, inv, ops, qubits).value;
            |ops'| == |ops| && forall k | 0 <= k < |ops| :: InvertsOp(lib, inv, ops[k], ops'[|ops| - 1 - k])
    decreases ops, 0
  {
    hide InverseOp, InvertsOp;
    if ops != [] {
      var init, last := ops[..|ops| - 1], ops[|ops| - 1];
      InverseOpsInvert(lib, inv, init, qubits);
      var op' := InverseOpInverts(lib, inv, last, qubits);
      var rest, ops' := InverseOps(lib, inv, init, qubits).value, InverseOps(lib, inv, ops, qubits).value;
      assert ops' == [op'] + rest;
      forall k | 0 <= k < |ops|
        ensures InvertsOp(lib, inv, ops[k], ops'[|ops| - 1 - k])
      {
        if k < |init| {
          assert init[k] == ops[k] && ops'[|ops| - 1 - k] == rest[|init| - 1 - k];
        }
      }
    }
  }

  lemma {:induction false} InverseOpInverts(lib: Library, inv: Inverter, op: Op, qubits: seq<nat>) returns (op': Op)
    requires InverseOp(lib, inv, op, qubits).Ok?
    ensures InverseOp(lib, inv, op, qubits) == Ok([op']) && InvertsOp(lib, inv, op, op')
    decreases op, 0
  {
    hide InverseOf, Inverts, Appended, Appendable;
    OpInverseExactlyWhen(lib, inv, op, qubits);
    match op.inst {
      case Barrier =>
        op' := Op(Barrier, op.qubits, []);
        AppendedExactly(lib, Barrier, op.qubits, qubits, []);
      case Gate(name, bigEndian) =>
        var g := inv(name, bigEndian, op.params).value;
        op' := Op(Gate(g.0, g.1), op.qubits, StoredAll(lib, g.2));
        AppendedExactly(lib, op'.inst, op.qubits, qubits, op'.params);
      case Nested(body, signature) =>
        InverseInverts(lib, inv, body);
        op' := Op(Nested(InverseOf(lib, inv, body).value, signature), op.qubits, StoredAll(lib, op.params));
        AppendedExactly(lib, op'.inst, op.qubits, qubits, op'.params);
    }
  }

  // ---- a delay ----------------------------------------------------------------------------------------

  /** One qubit and one delay on it. */
  function Delayed(duration: real): Circuit {
    Circuit([0], [Op(Delay, [0], [Num(duration)])], Num(0.0))
  }

  /** A circuit with a delay is well formed and has the identity matrix, but inverting it fails. */
  lemma DelayHasNoInverse(lib: Library, inv: Inverter, duration: real)
    ensures WellFormed(lib, Delayed(duration))
    ensures CircuitToMatrix(lib, Delayed(duration), None) == Ok(Identity(2))
    ensures InverseOf(lib, inv, Delayed(duration)) == Err(ParameterCountMismatch(1, 0))
  {
    hide Times, Plus, Embedded;
    var c := Delayed(duration);
    var op := c.ops[0];
    assert Pow2(1) == 2;
    var start := Identity(Pow2(1));
    assert SquareOf(start, 1);
    assert [0][1..] == [] && Sorted([0]) == [0];
    assert [Num(duration)][1..] == [];
    assert EvalAll(lib, [], map[]) == Some([]) && [duration] + [] == [duration];
    assert EvalAll(lib, [Num(duration)], map[]) == Some([duration]);
    assert OpWellFormed(lib, op, [0]);
    assert RunOp(lib, op, [0], start, None, true) == Ok(start);
    RunSingle(lib, op, [0], start, None);
    ScaleOne(start);
    assert c.ops[..|c.ops| - 1] == [];
    assert InverseOp(lib, inv, op, [0]) == Err(ParameterCountMismatch(1, 0));
  }
}
