/**
 Decomposing nested circuit gates, and what it preserves: the flattened circuit has the matrix of
 the original up to the phases of the nested bodies, when bodies take their qubits in declared order.
 */
module Flatten {
  import opened Prelude
  import opened Bits
  import opened Linear
  import opened Embedding
  import opened CircuitMatrix

  type QubitMap = map<nat, nat>

  type ParamMap = map<string, Param>

  // ---- parameters -------------------------------------------------------------------------------

  /** Simultaneous substitution. */
  function Substitute(p: Param, pm: ParamMap): Param
    decreases p, 0
  {
    match p
    case Num(v) => Num(v)
    case Sym(s) => if s in pm then pm[s] else p
    case Term(op, args) => Term(op, SubstituteAll(args, pm))
  }

  function SubstituteAll(ps: seq<Param>, pm: ParamMap): (r: seq<Param>)
    ensures |r| == |ps|
    decreases ps, 1
  {
    if ps == [] then [] else [Substitute(ps[0], pm)] + SubstituteAll(ps[1..], pm)
  }

  predicate Closed(p: Param)
    decreases p, 0
  {
    match p
    case Num(_) => true
    case Sym(_) => false
    case Term(_, args) => AllClosed(args)
  }

  predicate AllClosed(ps: seq<Param>)
    decreases ps, 1
  {
    ps != [] ==> Closed(ps[0]) && AllClosed(ps[1..])
  }

  /** A substituted parameter; closed ones must have a value. */
  function ResolveAll(lib: Library, ps: seq<Param>, pm: ParamMap): (r: Result<seq<Param>, MatrixError>)
    ensures r.Ok? ==> |r.value| == |ps|
  {
    if ps == [] then Ok([])
    else
      var p := Substitute(ps[0], pm);
      if Closed(p) && Eval(lib, p, map[]).None? then Err(SymbolicParameter)
      else
        var rest := ResolveAll(lib, ps[1..], pm);
        if rest.Err? then rest else Ok([p] + rest.value)
  }

  /** What is stored when a parameter is appended: its value when it has one. */
  function Stored(lib: Library, p: Param): Param {
    var v := Eval(lib, p, map[]);
    if v.Some? then Num(v.value) else p
  }

  function StoredAll(lib: Library, ps: seq<Param>): (r: seq<Param>)
    ensures |r| == |ps|
  {
    seq(|ps|, i requires 0 <= i < |ps| => Stored(lib, ps[i]))
  }

  function Mapped(qm: QubitMap, q: nat): nat {
    if q in qm then qm[q] else q
  }

  function MappedAll(qm: QubitMap, qs: seq<nat>): (r: seq<nat>)
    ensures |r| == |qs|
  {
    seq(|qs|, i requires 0 <= i < |qs| => Mapped(qm, qs[i]))
  }

  /** The numbers of qubits and parameters an instruction takes, when they are fixed. */
  function Arity(lib: Library, inst: Inst): Option<(nat, nat)> {
    match inst
    case Gate(name, _) => Some(lib.arity(name))
    case Nested(body, signature) => Some((|body.qubits|, |signature|))
    case Delay => Some((1, 1))
    case NonUnitary(arity) => arity
    case Barrier => None
    case ControlFlow => None
  }

  /** Appending refuses wrong numbers of operands, repeated qubits, and qubits that are not in the circuit, in this order. */
  function Appended(lib: Library, inst: Inst, qubits: seq<nat>, target: seq<nat>, params: seq<Param>): Result<seq<Op>, MatrixError> {
    var arity := Arity(lib, inst);
    if arity.Some? && |qubits| != arity.value.0 then Err(QubitCountMismatch(arity.value.0, |qubits|))
    else if arity.Some? && |params| != arity.value.1 then Err(ParameterCountMismatch(arity.value.1, |params|))
    else if !Distinct(qubits) then Err(DuplicateQubits)
    else if exists q :: q in qubits && q !in target then Err(QubitNotFound(Missing(target, qubits)))
    else Ok([Op(inst, qubits, params)])
  }

  /** The operands of an operation that can be appended to a circuit with these qubits. */
  predicate Appendable(lib: Library, inst: Inst, qubits: seq<nat>, target: seq<nat>, numParams: nat) {
    && (Arity(lib, inst).Some? ==> Arity(lib, inst).value == (|qubits|, numParams))
    && Distinct(qubits) && (forall q | q in qubits :: q in target)
  }

  // ---- decomposition ----------------------------------------------------------------------------

  function DecomposeOps(lib: Library, ops: seq<Op>, qm: QubitMap, pm: ParamMap, target: seq<nat>): Result<seq<Op>, MatrixError>
    decreases ops, 0
  {
    if ops == [] then Ok([])
    else
      var before := DecomposeOps(lib, ops[..|ops| - 1], qm, pm, target);
      if before.Err? then before
      else
        var last := DecomposeOp(lib, ops[|ops| - 1], qm, pm, target);
        if last.Err? then last else Ok(before.value + last.value)
  }

  function DecomposeOp(lib: Library, op: Op, qm: QubitMap, pm: ParamMap, target: seq<nat>): Result<seq<Op>, MatrixError>
    decreases op, 0
  {
    match op.inst
    case Nested(body, signature) =>
      var params := ResolveAll(lib, op.params, pm);
      if params.Err? then Err(params.error)
      else
        var n := if |signature| < |op.params| then |signature| else |op.params|;
        var w := if |body.qubits| < |op.qubits| then |body.qubits| else |op.qubits|;
        DecomposeOps(lib, body.ops, Zip(body.qubits[..w], MappedAll(qm, op.qubits)), Zip(signature[..n], params.value), target)
    case ControlFlow => Err(ControlFlowHasNoMatrix)
    case _ =>
      var params := ResolveAll(lib, op.params, pm);
      if params.Err? then Err(params.error)
      else Appended(lib, op.inst, MappedAll(qm, op.qubits), target, StoredAll(lib, params.value))
  }

  function Decompose(lib: Library, c: Circuit): Result<Circuit, MatrixError> {
    var ops := DecomposeOps(lib, c.ops, map q | q in c.qubits :: q := q, map[], c.qubits);
    if ops.Err? then Err(ops.error) else Ok(Circuit(c.qubits, ops.value, c.phase))
  }

  /** What appending guarantees of every circuit: arities match and qubits are distinct and present. */
  predicate WellFormed(lib: Library, c: Circuit)
    decreases c, 1
  {
    Distinct(c.qubits) && OpsWellFormed(lib, c.ops, c.qubits)
  }

  predicate OpsWellFormed(lib: Library, ops: seq<Op>, qubits: seq<nat>)
    decreases ops, 0
  {
    forall k | 0 <= k < |ops| :: OpWellFormed(lib, ops[k], qubits)
  }

  predicate OpWellFormed(lib: Library, op: Op, qubits: seq<nat>)
    decreases op, 0
  {
    && Appendable(lib, op.inst, op.qubits, qubits, |op.params|)
    && (op.inst.Nested? ==>
          && (forall i, j | 0 <= i < j < |op.inst.signature| :: op.inst.signature[i] != op.inst.signature[j])
          && WellFormed(lib, op.inst.body))
  }

  /** The product of the phases of all nested bodies, which decomposing drops. */
  function NestedPhases(lib: Library, ops: seq<Op>, env: Option<Bindings>): C
    decreases ops, 0
  {
    if ops == [] then ONE
    else Times(NestedPhases(lib, ops[..|ops| - 1], env), NestedPhase(lib, ops[|ops| - 1], env))
  }

  function NestedPhase(lib: Library, op: Op, env: Option<Bindings>): C
    decreases op, 0
  {
    var values := ValuesOf(lib, op.params, env);
    if !op.inst.Nested? || values.None? || |values.value| != |op.inst.signature| then ONE
    else
      var b := Some(Zip(op.inst.signature, values.value));
      var phase := PhaseOf(lib, op.inst.body.phase, b);
      var inner := NestedPhases(lib, op.inst.body.ops, b);
      if phase.None? then inner else Times(inner, phase.value)
  }

  // ---- substituting then evaluating is evaluating under the bindings -----------------------------

  function EnvOf(env: Option<Bindings>): Bindings {
    if env.Some? then env.value else map[]
  }

  /** Every bound symbol is substituted by a closed parameter with the bound value. */
  ghost predicate Faithful(lib: Library, pm: ParamMap, env: Bindings) {
    && (forall s :: s in pm <==> s in env)
    && (forall s | s in env :: s in pm && Closed(pm[s]) && Eval(lib, pm[s], map[]) == Some(env[s]))
  }

  lemma {:induction false} SubstituteEvaluates(lib: Library, p: Param, pm: ParamMap, env: Bindings)
    requires Faithful(lib, pm, env) && Eval(lib, p, env).Some?
    ensures Closed(Substitute(p, pm)) && Eval(lib, Substitute(p, pm), map[]) == Eval(lib, p, env)
    decreases p, 0
  {
    if p.Term? {
      SubstituteAllEvaluates(lib, p.args, pm, env);
    }
  }

  lemma {:induction false} SubstituteAllEvaluates(lib: Library, ps: seq<Param>, pm: ParamMap, env: Bindings)
    requires Faithful(lib, pm, env) && EvalAll(lib, ps, env).Some?
    ensures AllClosed(SubstituteAll(ps, pm)) && EvalAll(lib, SubstituteAll(ps, pm), map[]) == EvalAll(lib, ps, env)
    ensures ResolveAll(lib, ps, pm) == Ok(SubstituteAll(ps, pm))
    decreases ps, 1
  {
    if ps != [] {
      SubstituteEvaluates(lib, ps[0], pm, env);
      SubstituteAllEvaluates(lib, ps[1..], pm, env);
      assert ([Substitute(ps[0], pm)] + SubstituteAll(ps[1..], pm))[1..] == SubstituteAll(ps[1..], pm);
    }
  }

  lemma StoredValues(lib: Library, ps: seq<Param>)
    requires EvalAll(lib, ps, map[]).Some?
    ensures ValuesOf(lib, StoredAll(lib, ps), None) == EvalAll(lib, ps, map[])
  {
    StoredNumbers(lib, ps);
  }

  lemma {:induction false} StoredNumbers(lib: Library, ps: seq<Param>)
    requires EvalAll(lib, ps, map[]).Some?
    ensures EvalAll(lib, StoredAll(lib, ps), map[]) == EvalAll(lib, ps, map[])
    ensures forall p | p in StoredAll(lib, ps) :: p.Num?
    decreases ps
  {
    if ps != [] {
      StoredNumbers(lib, ps[1..]);
      assert StoredAll(lib, ps)[1..] == StoredAll(lib, ps[1..]);
      assert StoredAll(lib, ps) == [Stored(lib, ps[0])] + StoredAll(lib, ps[1..]);
    }
  }

  lemma {:induction false} EvalAllAt(lib: Library, ps: seq<Param>, env: Bindings, i: nat)
    requires EvalAll(lib, ps, env).Some? && i < |ps|
    ensures Eval(lib, ps[i], env) == Some(EvalAll(lib, ps, env).value[i])
    decreases |ps|
  {
    if i > 0 {
      EvalAllAt(lib, ps[1..], env, i - 1);
    }
  }

  lemma {:induction false} ClosedAt(ps: seq<Param>, i: nat)
    requires AllClosed(ps) && i < |ps|
    ensures Closed(ps[i])
    decreases |ps|
  {
    if i > 0 {
      ClosedAt(ps[1..], i - 1);
    }
  }

  /** The maps for a nested body bind its symbols to the same values on both sides. */
  lemma BodyFaithful(lib: Library, names: seq<string>, params: seq<Param>, values: seq<real>)
    requires |names| == |params| && EvalAll(lib, params, map[]) == Some(values) && AllClosed(params)
    requires forall i, j | 0 <= i < j < |names| :: names[i] != names[j]
    ensures Faithful(lib, Zip(names, params), Zip(names, values))
  {
    hide Eval, EvalAll, Closed, AllClosed, Zip;
    var pm, env := Zip(names, params), Zip(names, values);
    forall s | s in env
      ensures s in pm && Closed(pm[s]) && Eval(lib, pm[s], map[]) == Some(env[s])
    {
      var i: nat :| i < |names| && names[i] == s;
      ZipAt(names, params, i);
      ZipAt(names, values, i);
      EvalAllAt(lib, params, map[], i);
      ClosedAt(params, i);
    }
  }

  // ---- running is linear and sequential -----------------------------------------------------------

  lemma ScaleTwice(x: C, y: C, m: Mat)
    ensures ScaleAll(x, ScaleAll(y, m)) == ScaleAll(Times(y, x), m)
  {
    hide Times;
    forall r | 0 <= r < |m|
      ensures ScaleAll(x, ScaleAll(y, m))[r] == ScaleAll(Times(y, x), m)[r]
    {
      forall c | 0 <= c < |m[r]|
        ensures Times(x, Times(y, m[r][c])) == Times(Times(y, x), m[r][c])
      {
        MulMoves(y, x, m[r][c]);
      }
    }
  }

  lemma ScaleOne(m: Mat)
    ensures ScaleAll(ONE, m) == m
  {
    hide Times;
    forall r, c | 0 <= r < |m| && 0 <= c < |m[r]|
      ensures Times(ONE, m[r][c]) == m[r][c]
    {
      Units(m[r][c]);
    }
    forall r | 0 <= r < |m|
      ensures ScaleAll(ONE, m)[r] == m[r]
    {
    }
  }

  function Scaled(x: C, r: Result<Mat, MatrixError>): Result<Mat, MatrixError> {
    if r.Ok? then Ok(ScaleAll(x, r.value)) else r
  }

  lemma AppliedScaled(gate: Mat, bits: seq<nat>, x: C, m: Mat, n: nat)
    requires SquareOf(m, n)
    ensures SquareOf(ScaleAll(x, m), n)
    ensures Applied(gate, bits, ScaleAll(x, m), n) == Scaled(x, Applied(gate, bits, m, n))
  {
    hide Times, Plus, Embedded, Pow2;
    if Fits(gate, bits, m, n, Pow2(n)) {
      EmbeddedScaled(gate, bits, x, m, n, Pow2(n));
    }
  }

  lemma {:induction false} RunScaled(lib: Library, ops: seq<Op>, order: seq<nat>, x: C, m: Mat, env: Option<Bindings>, byId: bool)
    requires SquareOf(m, |order|)
    ensures SquareOf(ScaleAll(x, m), |order|)
    ensures RunOps(lib, ops, order, ScaleAll(x, m), env, byId) == Scaled(x, RunOps(lib, ops, order, m, env, byId))
    decreases |ops|
  {
    hide Times, Plus, Embedded, Pow2, RunOp, Applied;
    assert SquareOf(ScaleAll(x, m), |order|);
    if ops != [] {
      RunScaled(lib, ops[..|ops| - 1], order, x, m, env, byId);
      var before := RunOps(lib, ops[..|ops| - 1], order, m, env, byId);
      if before.Ok? {
        RunOpScaled(lib, ops[|ops| - 1], order, x, before.value, env, byId);
      }
    }
  }

  lemma RunOpScaled(lib: Library, op: Op, order: seq<nat>, x: C, m: Mat, env: Option<Bindings>, byId: bool)
    requires SquareOf(m, |order|)
    ensures SquareOf(ScaleAll(x, m), |order|)
    ensures RunOp(lib, op, order, ScaleAll(x, m), env, byId) == Scaled(x, RunOp(lib, op, order, m, env, byId))
  {
    hide Times, Plus, Embedded, Pow2, RunOps, MatrixOf, Applied, ScaleAll, Eval, EvalAll;
    var bits, values := BitsOf(order, op.qubits), ValuesOf(lib, op.params, env);
    assert SquareOf(ScaleAll(x, m), |order|) by { AppliedScaled([], bits, x, m, |order|); }
    if values.Some? {
      match op.inst {
        case Gate(name, bigEndian) =>
          var gate := lib.matrix(name, values.value);
          if gate.Some? {
            AppliedScaled(gate.value, if bigEndian then Reversed(bits) else bits, x, m, |order|);
          }
        case Nested(body, signature) =>
          if |values.value| == |signature| {
            var sub := MatrixOf(lib, body, BodyOrder(body, byId), Some(Zip(signature, values.value)), byId);
            if sub.Ok? {
              AppliedScaled(sub.value, bits, x, m, |order|);
            }
          }
        case _ =>
      }
    }
  }

  lemma {:induction false} RunAppend(lib: Library, a: seq<Op>, b: seq<Op>, order: seq<nat>, m: Mat, env: Option<Bindings>, byId: bool)
    requires SquareOf(m, |order|) && RunOps(lib, a, order, m, env, byId).Ok?
    ensures RunOps(lib, a + b, order, m, env, byId)
         == RunOps(lib, b, order, RunOps(lib, a, order, m, env, byId).value, env, byId)
    decreases |b|
  {
    hide RunOp, Pow2;
    if b == [] {
      assert a + b == a;
    } else {
      assert (a + b)[..|a + b| - 1] == a + b[..|b| - 1];
      RunAppend(lib, a, b[..|b| - 1], order, m, env, byId);
    }
  }

  lemma RunSingle(lib: Library, op: Op, order: seq<nat>, m: Mat, env: Option<Bindings>)
    requires SquareOf(m, |order|)
    ensures RunOps(lib, [op], order, m, env, true) == RunOp(lib, op, order, m, env, true)
  {
    hide RunOp;
    assert [op][..|[op]| - 1] == [];
    assert RunOps(lib, [], order, m, env, true) == Ok(m);
  }

  // ---- flattening ---------------------------------------------------------------------------------

  /**
   Where a body sits in the flattened circuit: `outer[i]` is the target bit of the body's `i`-th
   qubit, and the qubit map sends that qubit to the target qubit of that bit.
   */
  predicate Placed(order: seq<nat>, qm: QubitMap, outer: seq<nat>, target: seq<nat>) {
    && Distinct(order) && |outer| == |order| && Targets(outer, |target|)
    && forall i | 0 <= i < |order| :: Mapped(qm, order[i]) in target && outer[i] == BitOf(target, Mapped(qm, order[i]))
  }

  lemma BitOfAt(order: seq<nat>, i: nat)
    requires Distinct(order) && i < |order|
    ensures BitOf(order, order[i]) == i
  {
    assert order[i] in order;
  }

  /** The bits of distinct qubits are distinct targets. */
  lemma BitsTargets(order: seq<nat>, qubits: seq<nat>)
    requires Distinct(qubits) && forall q | q in qubits :: q in order
    ensures Targets(BitsOf(order, qubits), |order|)
  {
    var bits := BitsOf(order, qubits);
    forall i | 0 <= i < |bits|
      ensures bits[i] < |order|
    {
      assert qubits[i] in order;
    }
    forall i, j | 0 <= i < j < |bits|
      ensures bits[i] != bits[j]
    {
      assert qubits[i] in order && qubits[j] in order;
      assert order[bits[i]] == qubits[i] && order[bits[j]] == qubits[j];
    }
  }

  lemma ReversedTargets(bits: seq<nat>, n: nat)
    requires Targets(bits, n)
    ensures Targets(Reversed(bits), n)
  {
  }

  /** Mapping an operation's qubits selects the bits through the outer placement. */
  lemma MappedBits(order: seq<nat>, qm: QubitMap, outer: seq<nat>, target: seq<nat>, qubits: seq<nat>)
    requires Placed(order, qm, outer, target) && Distinct(qubits) && forall q | q in qubits :: q in order
    ensures Targets(BitsOf(order, qubits), |outer|)
    ensures BitsOf(target, MappedAll(qm, qubits)) == Through(outer, BitsOf(order, qubits))
    ensures Distinct(MappedAll(qm, qubits)) && forall q | q in MappedAll(qm, qubits) :: q in target
  {
    BitsTargets(order, qubits);
    var ib, mapped := BitsOf(order, qubits), MappedAll(qm, qubits);
    forall j | 0 <= j < |qubits|
      ensures ib[j] < |order| && mapped[j] in target && BitOf(target, mapped[j]) == outer[ib[j]]
    {
      assert qubits[j] in order;
    }
    ThroughTargets(outer, ib, |target|);
    forall i, j | 0 <= i < j < |mapped|
      ensures mapped[i] != mapped[j]
    {
      assert Through(outer, ib)[i] != Through(outer, ib)[j];
    }
  }

  /** A gate appended to the flattened circuit does to the placed matrix what the original did inside the body. */
  lemma FlattenGate(gate: Mat, bits: seq<nat>, b: Mat, outer: seq<nat>, x: Mat, n: nat)
    requires Targets(bits, |outer|) && Targets(outer, n) && SquareOf(b, |outer|) && SquareOf(x, n)
    requires Applied(gate, bits, b, |outer|).Ok?
    ensures Applied(gate, Through(outer, bits), Embedded(b, outer, x, n, Pow2(n)), n)
         == Ok(Embedded(Applied(gate, bits, b, |outer|).value, outer, x, n, Pow2(n)))
  {
    hide Times, Plus, Embedded, Pow2;
    EmbeddedNested(gate, bits, b, outer, x, n, Pow2(n));
  }

  lemma ReversedThrough(outer: seq<nat>, bits: seq<nat>)
    requires Below(bits, |outer|)
    ensures Reversed(Through(outer, bits)) == Through(outer, Reversed(bits))
  {
  }

  /** A body being flattened: its qubit order and bindings, and its place in the target circuit. */
  datatype Site = Site(order: seq<nat>, qm: QubitMap, pm: ParamMap, env: Option<Bindings>,
                       target: seq<nat>, all: seq<nat>, outer: seq<nat>) {
    ghost predicate Valid(lib: Library) {
      && Placed(order, qm, outer, target)
      && (forall q :: q in target <==> q in all)
      && Faithful(lib, pm, EnvOf(env))
    }

    /** The body's matrix `b` applied at its place to the target matrix `x`. */
    function At(b: Mat, x: Mat): (e: Mat)
      requires Placed(order, qm, outer, target) && SquareOf(b, |order|) && SquareOf(x, |target|)
      ensures SquareOf(e, |target|)
    {
      Embedded(b, outer, x, |target|, Pow2(|target|))
    }
  }

  /** Operations of a body, once flattened, act on the target as the body does up to its nested phases. */
  lemma {:induction false} FlattenOps(lib: Library, ops: seq<Op>, site: Site, b: Mat, x: Mat) returns (flat: seq<Op>, y: Mat)
    requires site.Valid(lib) && OpsWellFormed(lib, ops, site.order) && SquareOf(b, |site.order|) && SquareOf(x, |site.target|)
    requires RunOps(lib, ops, site.order, b, site.env, false).Ok?
    ensures DecomposeOps(lib, ops, site.qm, site.pm, site.all) == Ok(flat) && SquareOf(y, |site.target|)
    ensures RunOps(lib, flat, site.target, site.At(b, x), None, false) == Ok(y)
    ensures site.At(RunOps(lib, ops, site.order, b, site.env, false).value, x) == ScaleAll(NestedPhases(lib, ops, site.env), y)
    decreases ops, 2
  {
    hide Times, Pow2, RunOp, DecomposeOp, NestedPhase, ScaleAll, Faithful, Placed, site.At;
    var e := site.At(b, x);
    if ops == [] {
      flat, y := [], e;
      ScaleOne(y);
    } else {
      var init, last := ops[..|ops| - 1], ops[|ops| - 1];
      var flat1, y1 := FlattenOps(lib, init, site, b, x);
      var m1 := RunOps(lib, init, site.order, b, site.env, false).value;
      var flat2, y2 := FlattenOp(lib, last, site, m1, x);
      var s := NestedPhases(lib, init, site.env);
      RunScaled(lib, flat2, site.target, s, y1, None, false);
      flat := flat1 + flat2;
      RunAppend(lib, flat1, flat2, site.target, e, None, false);
      y := RunOps(lib, flat2, site.target, y1, None, false).value;
      ScaleTwice(NestedPhase(lib, last, site.env), s, y);
    }
  }

  lemma {:induction false} FlattenOp(lib: Library, op: Op, site: Site, b: Mat, x: Mat) returns (flat: seq<Op>, y: Mat)
    requires site.Valid(lib) && OpWellFormed(lib, op, site.order) && SquareOf(b, |site.order|) && SquareOf(x, |site.target|)
    requires RunOp(lib, op, site.order, b, site.env, false).Ok?
    ensures DecomposeOp(lib, op, site.qm, site.pm, site.all) == Ok(flat) && SquareOf(y, |site.target|)
    ensures RunOps(lib, flat, site.target, site.At(b, x), None, false) == Ok(y)
    ensures site.At(RunOp(lib, op, site.order, b, site.env, false).value, x) == ScaleAll(NestedPhase(lib, op, site.env), y)
    decreases op, 1
  {
    hide Times, Pow2, ScaleAll, Faithful, Placed, site.At, OpsWellFormed;
    assert op.inst.Gate? || op.inst.Nested? || op.inst.Barrier? || op.inst.Delay?;
    if op.inst.Nested? {
      flat, y := FlattenNested(lib, op, site, b, x);
    } else {
      flat, y := FlattenPlain(lib, op, site, b, x);
      ScaleOne(y);
    }
  }

  /** The flattened parameters have the values the body's parameters have under its bindings. */
  lemma FlattenParams(lib: Library, ps: seq<Param>, pm: ParamMap, env: Option<Bindings>) returns (params: seq<Param>)
    requires Faithful(lib, pm, EnvOf(env)) && ValuesOf(lib, ps, env).Some?
    ensures ResolveAll(lib, ps, pm) == Ok(params) && |params| == |ps| && AllClosed(params)
    ensures EvalAll(lib, params, map[]) == ValuesOf(lib, ps, env)
    ensures ValuesOf(lib, StoredAll(lib, params), None) == ValuesOf(lib, ps, env)
  {
    params := SubstituteAll(ps, pm);
    SubstituteAllEvaluates(lib, ps, pm, EnvOf(env));
    StoredValues(lib, params);
  }

  lemma FlattenPlain(lib: Library, op: Op, site: Site, b: Mat, x: Mat) returns (flat: seq<Op>, y: Mat)
    requires site.Valid(lib) && OpWellFormed(lib, op, site.order) && SquareOf(b, |site.order|) && SquareOf(x, |site.target|)
    requires RunOp(lib, op, site.order, b, site.env, false).Ok? && !op.inst.Nested?
    ensures DecomposeOp(lib, op, site.qm, site.pm, site.all) == Ok(flat) && SquareOf(y, |site.target|)
    ensures RunOps(lib, flat, site.target, site.At(b, x), None, false) == Ok(y)
    ensures site.At(RunOp(lib, op, site.order, b, site.env, false).value, x) == y
  {
    hide Times, Pow2, ScaleAll, Faithful, Placed, Applied, Embedded, Eval, EvalAll, ResolveAll, StoredAll, ValuesOf, MappedAll, Through, Distinct, BitsOf, Reversed;
    var params := FlattenParams(lib, op.params, site.pm, site.env);
    MappedBits(site.order, site.qm, site.outer, site.target, op.qubits);
    var op' := Op(op.inst, MappedAll(site.qm, op.qubits), StoredAll(lib, params));
    flat := [op'];
    var e, n := site.At(b, x), |site.target|;
    assert flat[..|flat| - 1] == [];
    y := site.At(RunOp(lib, op, site.order, b, site.env, false).value, x);
    if op.inst.Gate? {
      var bits := BitsOf(site.order, op.qubits);
      var gate := lib.matrix(op.inst.name, ValuesOf(lib, op.params, site.env).value).value;
      var used := if op.inst.bigEndian then Reversed(bits) else bits;
      ReversedTargets(bits, |site.outer|);
      ReversedThrough(site.outer, bits);
      PlacedSize(site);
      FlattenGate(gate, used, b, site.outer, x, n);
    }
    assert RunOp(lib, op', site.target, e, None, false) == Ok(y);
  }

  lemma PlacedSize(site: Site)
    requires Placed(site.order, site.qm, site.outer, site.target)
    ensures |site.outer| == |site.order| && Targets(site.outer, |site.target|)
  {
  }

  /** The site of a nested gate's body inside the site of the gate. */
  lemma NestedSite(lib: Library, op: Op, site: Site, params: seq<Param>) returns (inner: Site)
    requires site.Valid(lib) && OpWellFormed(lib, op, site.order) && op.inst.Nested?
    requires ValuesOf(lib, op.params, site.env).Some? && |params| == |op.params| && AllClosed(params)
    requires EvalAll(lib, params, map[]) == ValuesOf(lib, op.params, site.env)
    ensures inner.Valid(lib)
    ensures Targets(BitsOf(site.order, op.qubits), |site.outer|)
    ensures inner == Site(op.inst.body.qubits, Zip(op.inst.body.qubits, MappedAll(site.qm, op.qubits)), Zip(op.inst.signature, params),
                          Some(Zip(op.inst.signature, ValuesOf(lib, op.params, site.env).value)),
                          site.target, site.all, Through(site.outer, BitsOf(site.order, op.qubits)))
  {
    hide Eval, EvalAll, ValuesOf, Zip, AllClosed, OpsWellFormed, Closed, Distinct, MappedAll;
    var body, names := op.inst.body, op.inst.signature;
    var mapped, bits := MappedAll(site.qm, op.qubits), BitsOf(site.order, op.qubits);
    var values := ValuesOf(lib, op.params, site.env).value;
    MappedBits(site.order, site.qm, site.outer, site.target, op.qubits);
    ThroughTargets(site.outer, bits, |site.target|);
    BodyFaithful(lib, names, params, values);
    var outer, qm := Through(site.outer, bits), Zip(body.qubits, mapped);
    inner := Site(body.qubits, qm, Zip(names, params), Some(Zip(names, values)), site.target, site.all, outer);
    assert Distinct(body.qubits);
    forall i | 0 <= i < |body.qubits|
      ensures Mapped(qm, body.qubits[i]) in site.target && outer[i] == BitOf(site.target, Mapped(qm, body.qubits[i]))
    {
      DistinctAt(body.qubits);
      ZipAt(body.qubits, mapped, i);
      assert body.qubits[i] in qm;
      assert BitsOf(site.target, mapped)[i] == outer[i];
      assert mapped[i] in mapped;
    }
  }

  lemma DistinctAt(s: seq<nat>)
    requires Distinct(s)
    ensures forall a, b | 0 <= a < b < |s| :: s[a] != s[b]
  {
  }

  lemma FlattenNested(lib: Library, op: Op, site: Site, b: Mat, x: Mat) returns (flat: seq<Op>, y: Mat)
    requires site.Valid(lib) && OpWellFormed(lib, op, site.order) && SquareOf(b, |site.order|) && SquareOf(x, |site.target|)
    requires RunOp(lib, op, site.order, b, site.env, false).Ok? && op.inst.Nested?
    ensures DecomposeOp(lib, op, site.qm, site.pm, site.all) == Ok(flat) && SquareOf(y, |site.target|)
    ensures RunOps(lib, flat, site.target, site.At(b, x), None, false) == Ok(y)
    ensures site.At(RunOp(lib, op, site.order, b, site.env, false).value, x) == ScaleAll(NestedPhase(lib, op, site.env), y)
    decreases op, 0
  {
    hide Times, Pow2, ScaleAll, Faithful, Placed, Embedded, Eval, EvalAll, ResolveAll, ValuesOf, MappedAll, Through, BitsOf, RunOps, DecomposeOps, Zip, Identity, PhaseOf;
    var body, names := op.inst.body, op.inst.signature;
    var params := FlattenParams(lib, op.params, site.pm, site.env);
    var inner := NestedSite(lib, op, site, params);
    PlacedSize(site);
    PlacedSize(inner);
    var e, n, k := site.At(b, x), |site.target|, |body.qubits|;
    var bits := BitsOf(site.order, op.qubits);
    var start := Identity(Pow2(k));
    var m := RunOp(lib, op, site.order, b, site.env, false).value;
    var sub := MatrixOf(lib, body, body.qubits, inner.env, false).value;
    var run := RunOps(lib, body.ops, body.qubits, start, inner.env, false).value;
    var phase := PhaseOf(lib, body.phase, inner.env).value;
    FlattenGate(sub, bits, b, site.outer, x, n);
    flat, y := FlattenOps(lib, body.ops, inner, start, e);
    EmbeddedIdentity(inner.outer, e, n, Pow2(n));
    ScaledGate(run, inner.outer, phase, e, n, Pow2(n));
    ScaleTwice(phase, NestedPhases(lib, body.ops, inner.env), y);
    assert body.qubits[..k] == body.qubits && names[..|names|] == names;
  }

  // ---- flat circuits and ascending bodies ---------------------------------------------------------

  predicate Flat(ops: seq<Op>) {
    forall k | 0 <= k < |ops| :: !ops[k].inst.Nested?
  }

  lemma {:induction false} DecomposedIsFlat(lib: Library, ops: seq<Op>, qm: QubitMap, pm: ParamMap, target: seq<nat>)
    requires DecomposeOps(lib, ops, qm, pm, target).Ok?
    ensures Flat(DecomposeOps(lib, ops, qm, pm, target).value)
    decreases ops, 1
  {
    hide ResolveAll, StoredAll, MappedAll;
    if ops != [] {
      DecomposedIsFlat(lib, ops[..|ops| - 1], qm, pm, target);
      DecomposedOpIsFlat(lib, ops[|ops| - 1], qm, pm, target);
    }
  }

  lemma {:induction false} DecomposedOpIsFlat(lib: Library, op: Op, qm: QubitMap, pm: ParamMap, target: seq<nat>)
    requires DecomposeOp(lib, op, qm, pm, target).Ok?
    ensures Flat(DecomposeOp(lib, op, qm, pm, target).value)
    decreases op, 0
  {
    hide ResolveAll, StoredAll, MappedAll, Zip;
    if op.inst.Nested? {
      var body, signature := op.inst.body, op.inst.signature;
      var params := ResolveAll(lib, op.params, pm).value;
      var n := if |signature| < |op.params| then |signature| else |op.params|;
      var w := if |body.qubits| < |op.qubits| then |body.qubits| else |op.qubits|;
      DecomposedIsFlat(lib, body.ops, Zip(body.qubits[..w], MappedAll(qm, op.qubits)), Zip(signature[..n], params), target);
    }
  }

  /** Bodies at every depth declare their qubits in ascending order of identifier. */
  predicate AscendingBodies(ops: seq<Op>)
    decreases ops, 0
  {
    forall k | 0 <= k < |ops| :: AscendingBody(ops[k])
  }

  predicate AscendingBody(op: Op)
    decreases op, 0
  {
    op.inst.Nested? ==> Ascending(op.inst.body.qubits) && AscendingBodies(op.inst.body.ops)
  }

  lemma {:induction false} SortedAscending(s: seq<nat>)
    requires Ascending(s)
    ensures Sorted(s) == s
    decreases |s|
  {
    if s != [] {
      SortedAscending(s[1..]);
    }
  }

  /** For ascending bodies, taking body qubits by identifier or by declaration is the same. */
  lemma {:induction false} OrderIrrelevant(lib: Library, ops: seq<Op>, order: seq<nat>, m: Mat, env: Option<Bindings>)
    requires AscendingBodies(ops) && SquareOf(m, |order|)
    ensures RunOps(lib, ops, order, m, env, true) == RunOps(lib, ops, order, m, env, false)
    decreases ops, 1
  {
    hide Pow2, RunOp;
    if ops != [] {
      OrderIrrelevant(lib, ops[..|ops| - 1], order, m, env);
      var before := RunOps(lib, ops[..|ops| - 1], order, m, env, true);
      if before.Ok? {
        OrderIrrelevantOp(lib, ops[|ops| - 1], order, before.value, env);
      }
    }
  }

  lemma {:induction false} OrderIrrelevantOp(lib: Library, op: Op, order: seq<nat>, m: Mat, env: Option<Bindings>)
    requires AscendingBody(op) && SquareOf(m, |order|)
    ensures RunOp(lib, op, order, m, env, true) == RunOp(lib, op, order, m, env, false)
    decreases op, 0
  {
    hide Pow2, Applied, ValuesOf, Sorted, ScaleAll, PhaseOf, RunOps;
    var values := ValuesOf(lib, op.params, env);
    if op.inst.Nested? && values.Some? && |values.value| == |op.inst.signature| {
      var body := op.inst.body;
      SortedAscending(body.qubits);
      OrderIrrelevant(lib, body.ops, body.qubits, Identity(Pow2(|body.qubits|)), Some(Zip(op.inst.signature, values.value)));
    }
  }

  lemma FlatIsAscending(ops: seq<Op>)
    requires Flat(ops)
    ensures AscendingBodies(ops)
  {
  }

  // ---- the theorem ----------------------------------------------------------------------------------

  lemma OrderPlaced(c: Circuit, order: seq<nat>)
    requires Distinct(order) && ToSet(order) == ToSet(c.qubits)
    ensures Placed(order, map q | q in c.qubits :: q := q, seq(|order|, i => i), order)
    ensures forall q :: q in order <==> q in c.qubits
  {
    assert forall q :: q in order <==> q in ToSet(order);
    assert forall q :: q in c.qubits <==> q in ToSet(c.qubits);
    var qm := map q | q in c.qubits :: q := q;
    forall i | 0 <= i < |order|
      ensures Mapped(qm, order[i]) in order && i == BitOf(order, Mapped(qm, order[i]))
    {
      assert order[i] in order;
      BitOfAt(order, i);
    }
  }

  lemma {:induction false} IdentityTargets(n: nat, b: Mat)
    requires SquareOf(b, n)
    ensures Targets(seq(n, i => i), n)
    ensures Embedded(b, seq(n, i => i), Identity(Pow2(n)), n, Pow2(n)) == b
  {
    hide Pow2, Times, Plus, Combine;
    var bits := seq(n, i => i);
    var e := Embedded(b, bits, Identity(Pow2(n)), n, Pow2(n));
    forall p: nat | p < n
      ensures p in bits
    {
      assert bits[p] == p;
    }
    forall r: nat, c: nat | r < Pow2(n) && c < Pow2(n)
      ensures e[r][c] == b[r][c]
    {
      UnitaryEntry(b, bits, n, r, c);
      OwnIndex(n, r);
      OwnIndex(n, c);
      forall p: nat | p !in bits
        ensures Bit(r, p) == Bit(c, p)
      {
        if p >= n {
          NoHighBit(r, n, p);
          NoHighBit(c, n, p);
        }
      }
    }
    forall r: nat | r < Pow2(n)
      ensures e[r] == b[r]
    {
    }
    assert e == b;
  }

  lemma OwnIndex(n: nat, r: nat)
    requires r < Pow2(n)
    ensures GateIndex(r, seq(n, i => i)) == r
  {
    var bits: seq<nat> := seq(n, i => i);
    GateIndexBit(r, bits, 0);
    forall j: nat | j < n
      ensures Bit(GateIndex(r, bits), j) == Bit(r, j)
    {
      GateIndexBit(r, bits, j);
    }
    BitsDetermine(GateIndex(r, bits), r, n);
  }

  /** The whole circuit as a site of itself. */
  lemma TopSite(lib: Library, c: Circuit, order: seq<nat>) returns (site: Site)
    requires Distinct(order) && ToSet(order) == ToSet(c.qubits)
    ensures site == Site(order, map q | q in c.qubits :: q := q, map[], None, order, c.qubits, seq(|order|, i => i))
    ensures site.Valid(lib) && forall q :: q in order <==> q in c.qubits
  {
    hide Placed;
    site := Site(order, map q | q in c.qubits :: q := q, map[], None, order, c.qubits, seq(|order|, i => i));
    OrderPlaced(c, order);
  }

  lemma AtTop(site: Site, b: Mat)
    requires Placed(site.order, site.qm, site.outer, site.target) && SquareOf(b, |site.order|)
    requires site.outer == seq(|site.order|, i => i) && site.target == site.order
    ensures site.At(b, Identity(Pow2(|site.order|))) == b
  {
    hide Pow2, Embedded, Placed;
    IdentityTargets(|site.order|, b);
  }

  /** The operations of a whole circuit, flattened. */
  lemma FlattenTop(lib: Library, c: Circuit, order: seq<nat>) returns (ops: seq<Op>, y: Mat)
    requires WellFormed(lib, c) && Distinct(order) && ToSet(order) == ToSet(c.qubits)
    requires RunOps(lib, c.ops, order, Identity(Pow2(|order|)), None, false).Ok?
    ensures DecomposeOps(lib, c.ops, map q | q in c.qubits :: q := q, map[], c.qubits) == Ok(ops) && Flat(ops)
    ensures RunOps(lib, ops, order, Identity(Pow2(|order|)), None, true) == Ok(y)
    ensures RunOps(lib, c.ops, order, Identity(Pow2(|order|)), None, false) == Ok(ScaleAll(NestedPhases(lib, c.ops, None), y))
  {
    hide Pow2, Times, Plus, RunOps, DecomposeOps, ScaleAll, NestedPhases, OpWellFormed, Identity, Placed, Flat;
    var site := TopSite(lib, c, order);
    hide site.Valid, site.At;
    var start := Identity(Pow2(|order|));
    SameQubits(lib, c.ops, c.qubits, order);
    ops, y := FlattenOps(lib, c.ops, site, start, start);
    AtTop(site, start);
    AtTop(site, RunOps(lib, c.ops, order, start, None, false).value);
    DecomposedIsFlat(lib, c.ops, site.qm, site.pm, c.qubits);
    FlatIsAscending(ops);
    OrderIrrelevant(lib, ops, order, start, None);
  }

  /**
   Decomposing succeeds whenever the circuit has a matrix, and the flattened circuit has that matrix
   up to the product of the nested phases. Bodies take their qubits in declared order.
   */
  lemma FlatteningByDeclaration(lib: Library, c: Circuit, order: seq<nat>) returns (flat: Circuit)
    requires WellFormed(lib, c) && Distinct(order) && ToSet(order) == ToSet(c.qubits) && |order| == |c.qubits|
    requires MatrixOf(lib, c, order, None, false).Ok?
    ensures Decompose(lib, c) == Ok(flat) && Flat(flat.ops) && flat.qubits == c.qubits
    ensures MatrixOf(lib, flat, order, None, true).Ok?
    ensures MatrixOf(lib, c, order, None, false).value
         == ScaleAll(NestedPhases(lib, c.ops, None), MatrixOf(lib, flat, order, None, true).value)
  {
    hide Pow2, Times, Plus, RunOps, DecomposeOps, ScaleAll, NestedPhases, OpsWellFormed, PhaseOf, Flat, Identity;
    var ops, y := FlattenTop(lib, c, order);
    flat := Circuit(c.qubits, ops, c.phase);
    var phase, nested := PhaseOf(lib, c.phase, None).value, NestedPhases(lib, c.ops, None);
    ScaleTwice(phase, nested, y);
    ScaleTwice(nested, phase, y);
    MulCommutes(phase, nested);
  }

  lemma {:induction false} SameQubits(lib: Library, ops: seq<Op>, a: seq<nat>, b: seq<nat>)
    requires OpsWellFormed(lib, ops, a) && forall q :: q in b <==> q in a
    ensures OpsWellFormed(lib, ops, b)
  {
    hide WellFormed, Distinct;
    forall k | 0 <= k < |ops|
      ensures OpWellFormed(lib, ops[k], b)
    {
      assert OpWellFormed(lib, ops[k], a);
    }
  }

  /** The matrix the code computes is preserved when every nested body lists its qubits in ascending order. */
  lemma FlatteningPreservesMatrix(lib: Library, c: Circuit, order: Option<seq<nat>>) returns (flat: Circuit)
    requires WellFormed(lib, c) && AscendingBodies(c.ops) && CircuitToMatrix(lib, c, order).Ok?
    ensures Decompose(lib, c) == Ok(flat) && Flat(flat.ops) && flat.qubits == c.qubits
    ensures CircuitToMatrix(lib, flat, order).Ok?
    ensures CircuitToMatrix(lib, c, order).value
         == ScaleAll(NestedPhases(lib, c.ops, None), CircuitToMatrix(lib, flat, order).value)
    ensures NestedPhases(lib, c.ops, None) == ONE ==> CircuitToMatrix(lib, flat, order) == CircuitToMatrix(lib, c, order)
  {
    hide Pow2, Times, Plus, RunOps, Embedded, DecomposeOps, ScaleAll, Eval, NestedPhases, PhaseOf, OpsWellFormed, AscendingBodies, Identity;
    var o := if order.Some? then order.value else BodyOrder(c, true);
    UsedOrder(c, order);
    OrderIrrelevant(lib, c.ops, o, Identity(Pow2(|o|)), None);
    flat := FlatteningByDeclaration(lib, c, o);
    ScaleOne(CircuitToMatrix(lib, flat, order).value);
  }

  lemma UsedOrder(c: Circuit, order: Option<seq<nat>>)
    requires Distinct(c.qubits)
    requires order.Some? ==> ToSet(order.value) == ToSet(c.qubits) && |c.qubits| == |order.value|
    ensures var o := if order.Some? then order.value else BodyOrder(c, true);
            Distinct(o) && ToSet(o) == ToSet(c.qubits)
  {
    if order.Some? {
      DistinctSize(c.qubits);
      SizeDistinct(order.value);
    } else {
      SortedFacts(c.qubits);
    }
  }

  lemma {:induction false} DistinctSize(s: seq<nat>)
    requires Distinct(s)
    ensures |ToSet(s)| == |s|
    decreases |s|
  {
    if s != [] {
      DistinctSize(s[1..]);
      assert s[0] !in s[1..];
      assert ToSet(s) == {s[0]} + ToSet(s[1..]);
    }
  }

  lemma {:induction false} SizeDistinct(s: seq<nat>)
    ensures |ToSet(s)| <= |s|
    ensures |ToSet(s)| == |s| ==> Distinct(s)
    decreases |s|
  {
    if s != [] {
      SizeDistinct(s[1..]);
      assert ToSet(s) == {s[0]} + ToSet(s[1..]);
      if s[0] in s[1..] {
        assert ToSet(s) == ToSet(s[1..]);
      } else {
        assert forall k | 1 <= k < |s| :: s[k] in s[1..];
        if |ToSet(s)| == |s| {
          forall i, j | 0 <= i < j < |s|
            ensures s[i] != s[j]
          {
            if i > 0 {
              assert s[1..][i - 1] != s[1..][j - 1];
            }
          }
        }
      }
    }
  }
}
