/**
 What decomposing does to the operations themselves, whether or not the circuit has a matrix: the
 flattened operations are the leaves of the tree of nested gates, read depth first. A leaf keeps its
 instruction; its qubits and parameters go out through the calls around it, one after the other.
 */
module FlattenLeaves {
  import opened Prelude
  import opened Bits
  import opened CircuitMatrix
  import opened Flatten

  /** An operation that is not a nested gate, with the nested gates around it, outermost first. */
  datatype Leaf = Leaf(op: Op, calls: seq<Op>)

  function Leaves(ops: seq<Op>, calls: seq<Op>): seq<Leaf>
    decreases ops, 0
  {
    if ops == [] then [] else Leaves(ops[..|ops| - 1], calls) + LeavesOf(ops[|ops| - 1], calls)
  }

  function LeavesOf(op: Op, calls: seq<Op>): seq<Leaf>
    decreases op, 0
  {
    if op.inst.Nested? then Leaves(op.inst.body.ops, calls + [op]) else [Leaf(op, calls)]
  }

  /** The `k`-th declared qubit of the innermost body is the `k`-th argument of its call, which is a qubit one level further out. */
  function QubitOutside(q: nat, calls: seq<Op>): nat
    decreases |calls|
  {
    if calls == [] then q
    else
      var call := calls[|calls| - 1];
      if !call.inst.Nested? then q
      else
        var k := BitOf(call.inst.body.qubits, q);
        if k < |call.qubits| then QubitOutside(call.qubits[k], calls[..|calls| - 1]) else q
  }

  /** The `k`-th name of the innermost signature stands for the `k`-th argument of its call, seen from outside. */
  function ParamOutside(p: Param, calls: seq<Op>): Param
    decreases |calls|, 0
  {
    if calls == [] then p else Substitute(p, Bound(calls[|calls| - 1], calls[..|calls| - 1]))
  }

  function Bound(call: Op, calls: seq<Op>): (pm: ParamMap)
    decreases |calls|, 1
  {
    if !call.inst.Nested? || |call.inst.signature| > |call.params| then map[]
    else Zip(call.inst.signature, seq(|call.params|, k requires 0 <= k < |call.params| => ParamOutside(call.params[k], calls)))
  }

  /** A leaf outside all calls, its parameters stored as numbers where they have a value. */
  function Outside(lib: Library, leaf: Leaf): Op {
    Op(leaf.op.inst,
       seq(|leaf.op.qubits|, k requires 0 <= k < |leaf.op.qubits| => QubitOutside(leaf.op.qubits[k], leaf.calls)),
       seq(|leaf.op.params|, k requires 0 <= k < |leaf.op.params| => Stored(lib, ParamOutside(leaf.op.params[k], leaf.calls))))
  }

  function AllOutside(lib: Library, leaves: seq<Leaf>): (ops: seq<Op>)
    ensures |ops| == |leaves| && forall k | 0 <= k < |leaves| :: ops[k] == Outside(lib, leaves[k])
  {
    seq(|leaves|, k requires 0 <= k < |leaves| => Outside(lib, leaves[k]))
  }

  /** A parameter without free symbols, seen from outside, has a value. */
  predicate Resolves(lib: Library, ps: seq<Param>, calls: seq<Op>) {
    forall p | p in ps :: Closed(ParamOutside(p, calls)) ==> Eval(lib, ParamOutside(p, calls), map[]).Some?
  }

  /** All parameters, of leaves and of calls, resolve, and there is no control flow at any depth. */
  predicate AllResolve(lib: Library, ops: seq<Op>, calls: seq<Op>)
    decreases ops, 0
  {
    forall k | 0 <= k < |ops| :: OpResolves(lib, ops[k], calls)
  }

  predicate OpResolves(lib: Library, op: Op, calls: seq<Op>)
    decreases op, 0
  {
    && Resolves(lib, op.params, calls) && !op.inst.ControlFlow?
    && (op.inst.Nested? ==> AllResolve(lib, op.inst.body.ops, calls + [op]))
  }

  // ---- the maps of the implementation are the ways out ------------------------------------------------

  /** The map in use inside the calls sends distinct qubits to distinct qubits of the target. */
  ghost predicate QubitsLead(calls: seq<Op>, qubits: seq<nat>, qm: QubitMap, target: seq<nat>) {
    && Distinct(qubits)
    && (forall q | q in qubits :: Mapped(qm, q) == QubitOutside(q, calls) && Mapped(qm, q) in target)
    && (forall q, q' | q in qubits && q' in qubits && q != q' :: Mapped(qm, q) != Mapped(qm, q'))
  }

  ghost predicate Leads(calls: seq<Op>, qubits: seq<nat>, qm: QubitMap, pm: ParamMap, target: seq<nat>) {
    QubitsLead(calls, qubits, qm, target) && forall p :: Substitute(p, pm) == ParamOutside(p, calls)
  }

  lemma {:induction false} ResolvedOutside(lib: Library, ps: seq<Param>, pm: ParamMap, calls: seq<Op>)
    requires forall p :: Substitute(p, pm) == ParamOutside(p, calls)
    ensures ResolveAll(lib, ps, pm).Ok? <==> Resolves(lib, ps, calls)
    ensures ResolveAll(lib, ps, pm).Ok? ==>
              forall k | 0 <= k < |ps| :: ResolveAll(lib, ps, pm).value[k] == ParamOutside(ps[k], calls)
    decreases |ps|
  {
    hide ParamOutside, Eval, Closed;
    if ps != [] {
      ResolvedOutside(lib, ps[1..], pm, calls);
      assert Substitute(ps[0], pm) == ParamOutside(ps[0], calls);
      assert forall p :: p in ps <==> p == ps[0] || p in ps[1..];
    }
  }

  /** Inside one more call the maps of the implementation lead outside again. */
  lemma LeadsInside(lib: Library, op: Op, calls: seq<Op>, qubits: seq<nat>, qm: QubitMap, pm: ParamMap, target: seq<nat>)
    requires Leads(calls, qubits, qm, pm, target) && OpWellFormed(lib, op, qubits) && op.inst.Nested?
    requires ResolveAll(lib, op.params, pm).Ok?
    ensures var params := ResolveAll(lib, op.params, pm).value;
            Leads(calls + [op], op.inst.body.qubits, Zip(op.inst.body.qubits, MappedAll(qm, op.qubits)), Zip(op.inst.signature, params), target)
  {
    hide Eval, Closed, ResolveAll, Substitute, Zip, OpsWellFormed, QubitsLead, ParamOutside;
    QubitsInside(op, calls, qubits, qm, target);
    BoundInside(lib, op, calls, pm);
  }

  lemma QubitsInside(op: Op, calls: seq<Op>, qubits: seq<nat>, qm: QubitMap, target: seq<nat>)
    requires QubitsLead(calls, qubits, qm, target) && op.inst.Nested? && Distinct(op.qubits) && Distinct(op.inst.body.qubits)
    requires (forall q | q in op.qubits :: q in qubits) && |op.qubits| == |op.inst.body.qubits|
    ensures QubitsLead(calls + [op], op.inst.body.qubits, Zip(op.inst.body.qubits, MappedAll(qm, op.qubits)), target)
  {
    hide Mapped, QubitOutside, Zip;
    var inner := op.inst.body.qubits;
    var qm' := Zip(inner, MappedAll(qm, op.qubits));
    forall q | q in inner
      ensures Mapped(qm', q) == QubitOutside(q, calls + [op]) && Mapped(qm', q) in target
    {
      var k := QubitInside(op, calls, qm, q);
    }
    forall q, q' | q in inner && q' in inner && q != q'
      ensures Mapped(qm', q) != Mapped(qm', q')
    {
      var k := QubitInside(op, calls, qm, q);
      var k' := QubitInside(op, calls, qm, q');
      assert op.qubits[k] != op.qubits[k'] by { assert k < k' || k' < k; }
    }
  }

  lemma QubitInside(op: Op, calls: seq<Op>, qm: QubitMap, q: nat) returns (k: nat)
    requires op.inst.Nested? && Distinct(op.inst.body.qubits) && q in op.inst.body.qubits && |op.qubits| == |op.inst.body.qubits|
    ensures k < |op.qubits| && op.inst.body.qubits[k] == q && op.qubits[k] in op.qubits
    ensures Mapped(Zip(op.inst.body.qubits, MappedAll(qm, op.qubits)), q) == Mapped(qm, op.qubits[k])
    ensures QubitOutside(q, calls + [op]) == QubitOutside(op.qubits[k], calls)
  {
    var inner, qs := calls + [op], op.inst.body.qubits;
    k :| 0 <= k < |qs| && qs[k] == q;
    ZipAt(qs, MappedAll(qm, op.qubits), k);
    BitOfAt(qs, k);
    assert inner[..|inner| - 1] == calls && inner[|inner| - 1] == op;
  }

  lemma BoundInside(lib: Library, op: Op, calls: seq<Op>, pm: ParamMap)
    requires (forall p :: Substitute(p, pm) == ParamOutside(p, calls)) && op.inst.Nested? && |op.params| == |op.inst.signature|
    requires ResolveAll(lib, op.params, pm).Ok?
    ensures forall p :: Substitute(p, Zip(op.inst.signature, ResolveAll(lib, op.params, pm).value)) == ParamOutside(p, calls + [op])
  {
    hide Eval, Closed, ResolveAll, Substitute, Zip;
    var inner, params := calls + [op], ResolveAll(lib, op.params, pm).value;
    assert inner[..|inner| - 1] == calls && inner[|inner| - 1] == op;
    ResolvedOutside(lib, op.params, pm, calls);
    var outside := seq(|op.params|, k requires 0 <= k < |op.params| => ParamOutside(op.params[k], calls));
    assert params == outside;
    forall p
      ensures Substitute(p, Zip(op.inst.signature, params)) == ParamOutside(p, inner)
    {
      assert Bound(op, calls) == Zip(op.inst.signature, outside);
    }
  }

  // ---- flattening reads the leaves -------------------------------------------------------------------------

  lemma AllResolveLast(lib: Library, ops: seq<Op>, calls: seq<Op>)
    requires ops != []
    ensures AllResolve(lib, ops, calls) <==> AllResolve(lib, ops[..|ops| - 1], calls) && OpResolves(lib, ops[|ops| - 1], calls)
  {
    hide OpResolves;
    var init := ops[..|ops| - 1];
    assert forall k | 0 <= k < |init| :: init[k] == ops[k];
    if AllResolve(lib, init, calls) && OpResolves(lib, ops[|ops| - 1], calls) {
      forall k | 0 <= k < |ops|
        ensures OpResolves(lib, ops[k], calls)
      {
        assert k < |init| ==> OpResolves(lib, init[k], calls);
      }
    }
  }

  lemma WellFormedLast(lib: Library, ops: seq<Op>, qubits: seq<nat>)
    requires ops != [] && OpsWellFormed(lib, ops, qubits)
    ensures OpsWellFormed(lib, ops[..|ops| - 1], qubits) && OpWellFormed(lib, ops[|ops| - 1], qubits)
  {
    hide OpWellFormed;
    var init := ops[..|ops| - 1];
    forall k | 0 <= k < |init|
      ensures OpWellFormed(lib, init[k], qubits)
    {
      assert init[k] == ops[k];
    }
  }

  lemma {:induction false} FlattenReadsLeaves(lib: Library, ops: seq<Op>, calls: seq<Op>, qubits: seq<nat>, qm: QubitMap, pm: ParamMap,
                                              target: seq<nat>)
    requires OpsWellFormed(lib, ops, qubits) && Leads(calls, qubits, qm, pm, target)
    ensures DecomposeOps(lib, ops, qm, pm, target).Ok? <==> AllResolve(lib, ops, calls)
    ensures AllResolve(lib, ops, calls) ==> DecomposeOps(lib, ops, qm, pm, target) == Ok(AllOutside(lib, Leaves(ops, calls)))
    decreases ops, 1
  {
    hide DecomposeOp, OpWellFormed, OpResolves, LeavesOf, Leads, Outside;
    if ops != [] {
      var init, last := ops[..|ops| - 1], ops[|ops| - 1];
      WellFormedLast(lib, ops, qubits);
      AllResolveLast(lib, ops, calls);
      FlattenReadsLeaves(lib, init, calls, qubits, qm, pm, target);
      FlattenReadsLeaf(lib, last, calls, qubits, qm, pm, target);
      var a, b := Leaves(init, calls), LeavesOf(last, calls);
      assert AllOutside(lib, a + b) == AllOutside(lib, a) + AllOutside(lib, b);
    }
  }

  lemma {:induction false} FlattenReadsLeaf(lib: Library, op: Op, calls: seq<Op>, qubits: seq<nat>, qm: QubitMap, pm: ParamMap,
                                            target: seq<nat>)
    requires OpWellFormed(lib, op, qubits) && Leads(calls, qubits, qm, pm, target)
    ensures DecomposeOp(lib, op, qm, pm, target).Ok? <==> OpResolves(lib, op, calls)
    ensures OpResolves(lib, op, calls) ==> DecomposeOp(lib, op, qm, pm, target) == Ok(AllOutside(lib, LeavesOf(op, calls)))
    decreases op, 0
  {
    hide DecomposeOps, Leaves, AllResolve, Resolves, ResolveAll, ParamOutside, QubitOutside, OpsWellFormed, Stored, Eval, Zip, Substitute;
    ResolvedOutside(lib, op.params, pm, calls);
    if ResolveAll(lib, op.params, pm).Ok? {
      var params := ResolveAll(lib, op.params, pm).value;
      if op.inst.Nested? {
        var body, signature := op.inst.body, op.inst.signature;
        LeadsInside(lib, op, calls, qubits, qm, pm, target);
        assert body.qubits[..|body.qubits|] == body.qubits && signature[..|signature|] == signature;
        FlattenReadsLeaves(lib, body.ops, calls + [op], body.qubits, Zip(body.qubits, MappedAll(qm, op.qubits)), Zip(signature, params), target);
      } else if !op.inst.ControlFlow? {
        LeafAppended(lib, op, calls, qubits, qm, pm, target, params);
        assert AllOutside(lib, LeavesOf(op, calls)) == [Outside(lib, Leaf(op, calls))];
      }
    }
  }

  lemma LeafAppended(lib: Library, op: Op, calls: seq<Op>, qubits: seq<nat>, qm: QubitMap, pm: ParamMap, target: seq<nat>, params: seq<Param>)
    requires OpWellFormed(lib, op, qubits) && Leads(calls, qubits, qm, pm, target) && !op.inst.Nested?
    requires |params| == |op.params| && forall k | 0 <= k < |params| :: params[k] == ParamOutside(op.params[k], calls)
    ensures Appended(lib, op.inst, MappedAll(qm, op.qubits), target, StoredAll(lib, params)) == Ok([Outside(lib, Leaf(op, calls))])
  {
    hide ParamOutside, QubitOutside, Stored, Substitute;
    var mapped, leaf := MappedAll(qm, op.qubits), Outside(lib, Leaf(op, calls));
    forall k | 0 <= k < |mapped|
      ensures mapped[k] in target && mapped[k] == leaf.qubits[k]
    {
      assert op.qubits[k] in op.qubits;
    }
    forall i, j | 0 <= i < j < |mapped|
      ensures mapped[i] != mapped[j]
    {
      assert op.qubits[i] in op.qubits && op.qubits[j] in op.qubits;
    }
    assert mapped == leaf.qubits && StoredAll(lib, params) == leaf.params;
  }

  lemma {:induction false} SubstituteNothing(p: Param)
    ensures Substitute(p, map[]) == p
    decreases p, 0
  {
    if p.Term? {
      SubstituteNothings(p.args);
    }
  }

  lemma {:induction false} SubstituteNothings(ps: seq<Param>)
    ensures SubstituteAll(ps, map[]) == ps
    decreases ps, 1
  {
    if ps != [] {
      SubstituteNothing(ps[0]);
      SubstituteNothings(ps[1..]);
    }
  }

  /**
   Decomposing a well-formed circuit succeeds exactly if all parameters resolve and there is no control
   flow; it then keeps qubits and phase, and its operations are the leaves of the circuit, in order and
   seen from outside, measurements, barriers and delays included.
   */
  lemma DecomposeReadsLeaves(lib: Library, c: Circuit)
    requires WellFormed(lib, c)
    ensures Decompose(lib, c).Ok? <==> AllResolve(lib, c.ops, [])
    ensures AllResolve(lib, c.ops, []) ==> Decompose(lib, c) == Ok(Circuit(c.qubits, AllOutside(lib, Leaves(c.ops, [])), c.phase))
  {
    hide DecomposeOps, AllResolve, Leaves, OpsWellFormed, Substitute;
    var qm: QubitMap := map q | q in c.qubits :: q := q;
    forall p
      ensures Substitute(p, map[]) == ParamOutside(p, [])
    {
      SubstituteNothing(p);
    }
    FlattenReadsLeaves(lib, c.ops, [], c.qubits, qm, map[], c.qubits);
  }

  /** The instructions that are not nested gates, depth first. */
  function Instructions(ops: seq<Op>): seq<Inst>
    decreases ops, 0
  {
    if ops == [] then [] else Instructions(ops[..|ops| - 1]) + InstructionsOf(ops[|ops| - 1])
  }

  function InstructionsOf(op: Op): seq<Inst>
    decreases op, 0
  {
    if op.inst.Nested? then Instructions(op.inst.body.ops) else [op.inst]
  }

  function Insts(leaves: seq<Leaf>): (r: seq<Inst>)
    ensures |r| == |leaves| && forall k | 0 <= k < |leaves| :: r[k] == leaves[k].op.inst
  {
    seq(|leaves|, k requires 0 <= k < |leaves| => leaves[k].op.inst)
  }

  lemma {:induction false} LeafInstructions(ops: seq<Op>, calls: seq<Op>)
    ensures Insts(Leaves(ops, calls)) == Instructions(ops)
    decreases ops, 1
  {
    if ops != [] {
      LeafInstructions(ops[..|ops| - 1], calls);
      LeafInstructionsOf(ops[|ops| - 1], calls);
      var a, b := Leaves(ops[..|ops| - 1], calls), LeavesOf(ops[|ops| - 1], calls);
      assert Insts(a + b) == Insts(a) + Insts(b);
    }
  }

  lemma {:induction false} LeafInstructionsOf(op: Op, calls: seq<Op>)
    ensures Insts(LeavesOf(op, calls)) == InstructionsOf(op)
    decreases op, 0
  {
    if op.inst.Nested? {
      LeafInstructions(op.inst.body.ops, calls + [op]);
    }
  }

  /** No instruction is lost, added or moved. */
  lemma DecomposeKeepsInstructions(lib: Library, c: Circuit)
    requires WellFormed(lib, c) && Decompose(lib, c).Ok?
    ensures var ops := Decompose(lib, c).value.ops;
            |ops| == |Instructions(c.ops)| && forall k | 0 <= k < |ops| :: ops[k].inst == Instructions(c.ops)[k]
  {
    hide WellFormed, Decompose, AllResolve, Leaves, Instructions;
    DecomposeReadsLeaves(lib, c);
    LeafInstructions(c.ops, []);
    var leaves := Leaves(c.ops, []);
    forall k | 0 <= k < |leaves|
      ensures AllOutside(lib, leaves)[k].inst == Instructions(c.ops)[k]
    {
      assert Insts(leaves)[k] == leaves[k].op.inst;
    }
  }
}
