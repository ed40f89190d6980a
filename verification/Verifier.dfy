/**
 The classical verifier. `Verify` is the analysis as a function: it threads the values
 available in straight-line code, gives every body a copy of them, and keeps one global
 set of definitions. `VerifyCharacterised` says exactly what it accepts.
 */
module Verifier {
  import opened Prelude
  import opened Ir
  import opened Placement

  datatype VerifyError =
    | ForeignHandle
    | UnknownHandle
    | WrongType
    | DuplicateDefinition
    | OutOfScope
    | Undefined
    | BreakOutsideBody
    | ContinueOutsideLoop
    | NonTerminal

  /** The identity of a circuit with its classical type tables. */
  datatype Handles = Handles(id: nat, vars: seq<ClassicalType>, values: seq<ClassicalType>) {
    predicate OwnsVar(v: ClassicalVar) {
      v.circuit == id && v.id < |vars| && vars[v.id] == v.ty
    }

    predicate OwnsValue(v: ClassicalValue) {
      v.circuit == id && v.index < |values| && values[v.index] == v.ty
    }

    predicate OwnsExpr(e: Expr) {
      (forall v | v in e.Vars() :: OwnsVar(v)) && (forall v | v in e.Values() :: OwnsValue(v))
    }

    function CheckVar(v: ClassicalVar): Result<(), VerifyError> {
      if v.circuit != id then Err(ForeignHandle)
      else if v.id >= |vars| then Err(UnknownHandle)
      else if vars[v.id] != v.ty then Err(WrongType)
      else Ok(())
    }

    function CheckValue(v: ClassicalValue): Result<(), VerifyError> {
      if v.circuit != id then Err(ForeignHandle)
      else if v.index >= |values| then Err(UnknownHandle)
      else if values[v.index] != v.ty then Err(WrongType)
      else Ok(())
    }
  }

  /** The analysis state: all values defined so far, and those available here. */
  datatype State = State(defined: set<ClassicalValue>, available: set<ClassicalValue>)

  datatype Placing = Placing(breakAllowed: bool, continueAllowed: bool)

  function Enter(p: Placing, c: ControlOp): Placing {
    match c
    case While(_, _) => Placing(true, true)
    case For(_, _, _, _, _) => Placing(true, true)
    case Switch(_, _, _) => Placing(true, p.continueAllowed)
    case _ => p
  }

  /**
   An expression may read only handles of the circuit and available values. The error
   depends on which handle is met first; here it is the most basic failure among them.
   */
  function VerifyExpr(e: Expr, h: Handles, st: State): Result<(), VerifyError> {
    if !h.OwnsExpr(e) then Err(UnknownHandle)
    else if e.Values() <= st.available then Ok(())
    else if e.Values() <= st.available + st.defined then Err(OutOfScope)
    else Err(Undefined)
  }

  function Define(v: ClassicalValue, st: State): Result<State, VerifyError> {
    if v in st.defined then Err(DuplicateDefinition)
    else Ok(State(st.defined + {v}, st.available + {v}))
  }

  function VerifyData(d: DataOp, numQubits: nat, h: Handles, st: State): Result<State, VerifyError> {
    match d
    case Store(target, value) =>
      var _ :- h.CheckVar(target);
      var _ :- VerifyExpr(value, h, st);
      if target.ty != value.Ty() then Err(WrongType) else Ok(st)
    case MeasureBit(result) =>
      var _ :- h.CheckValue(result);
      if result.ty != Bit || numQubits != 1 then Err(WrongType) else Define(result, st)
    case MeasureBits(result) =>
      var _ :- h.CheckValue(result);
      if result.ty.MeasurementWidth() != Some(numQubits) then Err(WrongType) else Define(result, st)
  }

  function VerifyHeads(heads: seq<Expr>, h: Handles, st: State): Result<(), VerifyError> {
    if heads == [] then Ok(())
    else
      var _ :- VerifyExpr(heads[0], h, st);
      VerifyHeads(heads[1..], h, st)
  }

  function Verify(ops: seq<Operation>, h: Handles, st: State, p: Placing): Result<State, VerifyError>
    decreases ops
  {
    if ops == [] then Ok(st)
    else
      var st1 :- VerifyOp(ops[0], h, st, p, |ops| == 1);
      Verify(ops[1..], h, st1, p)
  }

  function VerifyOp(op: Operation, h: Handles, st: State, p: Placing, last: bool): Result<State, VerifyError>
    decreases op
  {
    match op.instruction
    case Gate(_) => Ok(st)
    case Data(d) => VerifyData(d, |op.qubits|, h, st)
    case Control(Break) =>
      if !p.breakAllowed then Err(BreakOutsideBody) else if !last then Err(NonTerminal) else Ok(st)
    case Control(Continue) =>
      if !p.continueAllowed then Err(ContinueOutsideLoop) else if !last then Err(NonTerminal) else Ok(st)
    case Control(_) => VerifyControl(op.instruction.control, h, st, p)
  }

  /** The expressions of a structured operation, then its bodies. */
  function VerifyControl(c: ControlOp, h: Handles, st: State, p: Placing): Result<State, VerifyError>
    decreases c, |Bodies(c)| + 1
  {
    var _ :- if c.For? then h.CheckVar(c.loopVar) else Ok(());
    var _ :- VerifyHeads(Heads(c), h, st);
    var defined :- VerifyBodies(c, 0, h, st, Enter(p, c));
    Ok(st.(defined := defined))
  }

  /** The bodies of `c` from the `k`-th on: each sees the values available at `c`; only definitions come back. */
  function VerifyBodies(c: ControlOp, k: nat, h: Handles, st: State, p: Placing): Result<set<ClassicalValue>, VerifyError>
    requires k <= |Bodies(c)|
    decreases c, |Bodies(c)| - k
  {
    if k == |Bodies(c)| then Ok(st.defined)
    else
      var after :- Verify(Bodies(c)[k], h, st, p);
      VerifyBodies(c, k + 1, h, st.(defined := after.defined), p)
  }

  /** The checks of a finished circuit: a clean run of the analysis in which every table entry is defined. */
  predicate Valid(ops: seq<Operation>, h: Handles) {
    var r := Verify(ops, h, State({}, {}), Placing(false, false));
    r.Ok? && forall k | 0 <= k < |h.values| :: ClassicalValue(h.id, k, h.values[k]) in r.value.defined
  }

  // ---- what the verifier accepts, stated on the tree ------------------------------------------

  /** The values an operation makes available to what follows it. */
  function Produced(op: Operation): set<ClassicalValue> {
    match op.instruction
    case Data(MeasureBit(r)) => {r}
    case Data(MeasureBits(r)) => {r}
    case _ => {}
  }

  function ProducedAll(ops: seq<Operation>): set<ClassicalValue> {
    if ops == [] then {} else Produced(ops[0]) + ProducedAll(ops[1..])
  }

  /** The results of all measurements of a tree, at any depth, in visiting order. */
  function Results(ops: seq<Operation>): seq<ClassicalValue>
    decreases ops
  {
    if ops == [] then [] else ResultsOp(ops[0]) + Results(ops[1..])
  }

  function ResultsOp(op: Operation): seq<ClassicalValue>
    decreases op
  {
    match op.instruction
    case Data(MeasureBit(r)) => [r]
    case Data(MeasureBits(r)) => [r]
    case Control(c) => ResultsBodies(c, 0)
    case _ => []
  }

  function ResultsBodies(c: ControlOp, k: nat): seq<ClassicalValue>
    requires k <= |Bodies(c)|
    decreases c, |Bodies(c)| - k
  {
    if k == |Bodies(c)| then [] else Results(Bodies(c)[k]) + ResultsBodies(c, k + 1)
  }

  /** No value is measured twice, and none of those in `defined` is measured again. */
  ghost predicate Fresh(results: seq<ClassicalValue>, defined: set<ClassicalValue>) {
    && (forall i, j | 0 <= i < j < |results| :: results[i] != results[j])
    && (forall i | 0 <= i < |results| :: results[i] !in defined)
  }

  function ToSet(results: seq<ClassicalValue>): set<ClassicalValue> {
    set v | v in results
  }

  /** Every handle, at any depth, belongs to the circuit and has the type its use requires. */
  predicate Typed(ops: seq<Operation>, h: Handles)
    decreases ops
  {
    forall k | 0 <= k < |ops| :: TypedOp(ops[k], h)
  }

  predicate TypedOp(op: Operation, h: Handles)
    decreases op
  {
    match op.instruction
    case Gate(_) => true
    case Data(Store(v, e)) => h.OwnsVar(v) && h.OwnsExpr(e) && v.ty == e.Ty()
    case Data(MeasureBit(r)) => h.OwnsValue(r) && r.ty == Bit && |op.qubits| == 1
    case Data(MeasureBits(r)) => h.OwnsValue(r) && r.ty.MeasurementWidth() == Some(|op.qubits|)
    case Control(c) =>
      && (c.For? ==> h.OwnsVar(c.loopVar)) && (forall e | e in Heads(c) :: h.OwnsExpr(e))
      && (forall k | 0 <= k < |Bodies(c)| :: Typed(Bodies(c)[k], h))
  }

  /** Every read, at any depth, is of a value available at that point. */
  predicate Scoped(ops: seq<Operation>, available: set<ClassicalValue>)
    decreases ops
  {
    ops != [] ==> ScopedOp(ops[0], available) && Scoped(ops[1..], available + Produced(ops[0]))
  }

  predicate ScopedOp(op: Operation, available: set<ClassicalValue>)
    decreases op
  {
    match op.instruction
    case Data(Store(_, e)) => e.Values() <= available
    case Control(c) =>
      && (forall e | e in Heads(c) :: e.Values() <= available)
      && (forall k | 0 <= k < |Bodies(c)| :: Scoped(Bodies(c)[k], available))
    case _ => true
  }

  ghost predicate Accepts(ops: seq<Operation>, h: Handles, st: State, p: Placing) {
    && Typed(ops, h) && Placed(ops, p.breakAllowed, p.continueAllowed)
    && Fresh(Results(ops), st.defined) && Scoped(ops, st.available)
  }

  // ---- proof ------------------------------------------------------------------------------

  lemma FreshAppend(a: seq<ClassicalValue>, b: seq<ClassicalValue>, defined: set<ClassicalValue>)
    ensures Fresh(a + b, defined) <==> Fresh(a, defined) && Fresh(b, defined + ToSet(a))
    ensures ToSet(a + b) == ToSet(a) + ToSet(b)
  {
    if Fresh(a + b, defined) {
      forall i | 0 <= i < |a|
        ensures a[i] !in defined
      {
        assert (a + b)[i] == a[i];
      }
      forall i, j | 0 <= i < j < |a|
        ensures a[i] != a[j]
      {
        assert (a + b)[i] == a[i] && (a + b)[j] == a[j];
      }
      forall i | 0 <= i < |b|
        ensures b[i] !in defined + ToSet(a)
      {
        assert (a + b)[|a| + i] == b[i];
        if b[i] in a {
          var j :| 0 <= j < |a| && a[j] == b[i];
          assert (a + b)[j] == a[j];
        }
      }
      forall i, j | 0 <= i < j < |b|
        ensures b[i] != b[j]
      {
        assert (a + b)[|a| + i] == b[i] && (a + b)[|a| + j] == b[j];
      }
    }
  }

  lemma {:induction false} HeadsCharacterised(heads: seq<Expr>, h: Handles, st: State)
    ensures VerifyHeads(heads, h, st).Ok? <==> forall e | e in heads :: h.OwnsExpr(e) && e.Values() <= st.available
    decreases |heads|
  {
    if heads != [] {
      HeadsCharacterised(heads[1..], h, st);
      assert forall e :: e in heads <==> e == heads[0] || e in heads[1..];
    }
  }

  lemma TypedHead(ops: seq<Operation>, h: Handles)
    requires ops != []
    ensures Typed(ops, h) <==> TypedOp(ops[0], h) && Typed(ops[1..], h)
  {
    if TypedOp(ops[0], h) && Typed(ops[1..], h) {
      forall k | 0 <= k < |ops|
        ensures TypedOp(ops[k], h)
      {
        assert k > 0 ==> ops[k] == ops[1..][k - 1];
      }
    }
  }

  /**
   The verifier accepts a tree exactly if every handle is well typed, every transfer is well
   placed, no value is measured twice, and every read is in scope; it then returns exactly
   the values measured anywhere and the values measured on the straight-line path.
   */
  lemma {:induction false} VerifyCharacterised(ops: seq<Operation>, h: Handles, st: State, p: Placing)
    ensures Verify(ops, h, st, p).Ok? <==> Accepts(ops, h, st, p)
    ensures Verify(ops, h, st, p).Ok? ==>
              Verify(ops, h, st, p).value == State(st.defined + ToSet(Results(ops)), st.available + ProducedAll(ops))
    decreases ops
  {
    if ops == [] {
      assert ToSet([]) == {};
    } else {
      PlacedHead(ops, p.breakAllowed, p.continueAllowed);
      TypedHead(ops, h);
      FreshAppend(ResultsOp(ops[0]), Results(ops[1..]), st.defined);
      OpCharacterised(ops[0], h, st, p, |ops| == 1);
      var r := VerifyOp(ops[0], h, st, p, |ops| == 1);
      if r.Ok? {
        VerifyCharacterised(ops[1..], h, r.value, p);
      }
    }
  }

  ghost predicate AcceptsOp(op: Operation, h: Handles, st: State, p: Placing, last: bool) {
    && TypedOp(op, h) && PlacedOp(op, p.breakAllowed, p.continueAllowed, last)
    && Fresh(ResultsOp(op), st.defined) && ScopedOp(op, st.available)
  }

  lemma {:induction false} OpCharacterised(op: Operation, h: Handles, st: State, p: Placing, last: bool)
    ensures VerifyOp(op, h, st, p, last).Ok? <==> AcceptsOp(op, h, st, p, last)
    ensures VerifyOp(op, h, st, p, last).Ok? ==>
              VerifyOp(op, h, st, p, last).value == State(st.defined + ToSet(ResultsOp(op)), st.available + Produced(op))
    decreases op
  {
    if Structured(op) {
      ControlCharacterised(op, h, st, p, last);
    } else if op.instruction.Control? {
      assert Bodies(op.instruction.control) == [] && Heads(op.instruction.control) == [];
      assert ResultsBodies(op.instruction.control, 0) == [];
      assert ResultsOp(op) == [] && ToSet([]) == {};
      assert TypedOp(op, h) && ScopedOp(op, st.available);
    } else if Produced(op) == {} {
      assert ResultsOp(op) == [] && ToSet([]) == {};
    } else {
      var r :| ResultsOp(op) == [r];
      assert [r][0] == r && ToSet([r]) == {r};
    }
  }

  lemma {:induction false} ControlCharacterised(op: Operation, h: Handles, st: State, p: Placing, last: bool)
    requires Structured(op)
    ensures VerifyOp(op, h, st, p, last).Ok? <==> AcceptsOp(op, h, st, p, last)
    ensures VerifyOp(op, h, st, p, last).Ok? ==>
              VerifyOp(op, h, st, p, last).value == State(st.defined + ToSet(ResultsOp(op)), st.available + Produced(op))
    decreases op, 0
  {
    hide Verify, Typed, Placed, Scoped, Results;
    var c := op.instruction.control;
    HeadsCharacterised(Heads(c), h, st);
    BodiesCharacterised(c, 0, h, st, Enter(p, c));
    assert Enter(p, c) == Placing(BreakInside(c, p.breakAllowed), ContinueInside(c, p.continueAllowed));
    assert c.For? ==> (h.CheckVar(c.loopVar).Ok? <==> h.OwnsVar(c.loopVar));
  }

  ghost predicate AcceptsBodies(c: ControlOp, k: nat, h: Handles, st: State, p: Placing)
    requires k <= |Bodies(c)|
  {
    && (forall j | k <= j < |Bodies(c)| :: Typed(Bodies(c)[j], h))
    && (forall j | k <= j < |Bodies(c)| :: Placed(Bodies(c)[j], p.breakAllowed, p.continueAllowed))
    && (forall j | k <= j < |Bodies(c)| :: Scoped(Bodies(c)[j], st.available))
    && Fresh(ResultsBodies(c, k), st.defined)
  }

  lemma {:induction false} BodiesCharacterised(c: ControlOp, k: nat, h: Handles, st: State, p: Placing)
    requires k <= |Bodies(c)|
    ensures VerifyBodies(c, k, h, st, p).Ok? <==> AcceptsBodies(c, k, h, st, p)
    ensures VerifyBodies(c, k, h, st, p).Ok? ==> VerifyBodies(c, k, h, st, p).value == st.defined + ToSet(ResultsBodies(c, k))
    decreases c, |Bodies(c)| - k
  {
    hide Verify, Typed, Placed, Scoped, Results, Bodies;
    if k == |Bodies(c)| {
      assert ToSet([]) == {};
    } else {
      VerifyCharacterised(Bodies(c)[k], h, st, p);
      FreshAppend(Results(Bodies(c)[k]), ResultsBodies(c, k + 1), st.defined);
      var r := Verify(Bodies(c)[k], h, st, p);
      if r.Ok? {
        BodiesCharacterised(c, k + 1, h, st.(defined := r.value.defined), p);
      }
    }
  }
}
