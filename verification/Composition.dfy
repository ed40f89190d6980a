/**
 Cloning a circuit under a new identity and composing one circuit into another. Both rename every
 handle; both keep circuits valid. Structural equality ignores identities and parameter positions.
 */
module Composition {
  import opened Prelude
  import opened Ir
  import opened Placement
  import opened Verifier
  import opened Builder
  import opened BuilderReach
  import BuilderBuilt
  import BuilderSafety
  import AppendMeaning
  import opened Renaming
  import opened RenamingInvariance

  // ---- handle maps ------------------------------------------------------------------------------------

  /** The variables of `s` to those of circuit `id`, moved up by `base`. */
  function VarMap(s: Draft, id: nat, base: nat): (m: map<ClassicalVar, ClassicalVar>)
    ensures forall v :: v in m <==> s.Handles().OwnsVar(v)
    ensures forall v | v in m :: m[v] == ClassicalVar(id, base + v.id, v.ty)
  {
    map k | 0 <= k < |s.vars| :: ClassicalVar(s.id, k, s.vars[k]) := ClassicalVar(id, base + k, s.vars[k])
  }

  function ValueMap(s: Draft, id: nat, base: nat): (m: map<ClassicalValue, ClassicalValue>)
    ensures forall v :: v in m <==> s.Handles().OwnsValue(v)
    ensures forall v | v in m :: m[v] == ClassicalValue(id, base + v.index, v.ty)
  {
    map k | 0 <= k < |s.values| :: ClassicalValue(s.id, k, s.values[k]) := ClassicalValue(id, base + k, s.values[k])
  }

  // ---- clone --------------------------------------------------------------------------------------------

  function CloneMap(s: Draft, id: nat): Renaming {
    HandleMap(None, None, VarMap(s, id, 0), ValueMap(s, id, 0))
  }

  /** A copy under a new identity. A circuit without classical tables shares its operations unchanged. */
  function Clone(s: Draft, id: nat): Result<Draft, RemapError> {
    if s.vars == [] && s.values == [] then Ok(s.(id := id))
    else
      var ops :- RemapOps(s.ops, CloneMap(s, id));
      Ok(s.(id := id, ops := ops))
  }

  /** What the constructors guarantee of any operation tree: every control operation passed its checks. */
  predicate Constructible(ops: seq<Operation>)
    decreases ops
  {
    forall k | 0 <= k < |ops| :: ConstructibleOp(ops[k])
  }

  predicate ConstructibleOp(op: Operation)
    decreases op
  {
    op.instruction.Control? ==>
      && Accepted(op.instruction.control)
      && forall k | 0 <= k < |Bodies(op.instruction.control)| :: Constructible(Bodies(op.instruction.control)[k])
  }

  /** Qubit and parameter entries for every operation of a tree, at any depth. */
  predicate FieldsReady(ops: seq<Operation>, r: Renaming)
    decreases ops
  {
    forall k | 0 <= k < |ops| :: FieldsReadyOp(ops[k], r)
  }

  predicate FieldsReadyOp(op: Operation, r: Renaming)
    decreases op
  {
    && (forall q | q in op.qubits :: r.HasQubit(q)) && (forall p | p in op.params :: r.HasParam(p))
    && (op.instruction.Control? ==>
          forall k | 0 <= k < |Bodies(op.instruction.control)| :: FieldsReady(Bodies(op.instruction.control)[k], r))
  }

  /** A typed tree has entries for all its handles when the maps cover the tables. */
  lemma {:induction false} TypedIsReady(ops: seq<Operation>, h: Handles, r: Renaming)
    requires Typed(ops, h) && Constructible(ops) && FieldsReady(ops, r)
    requires (forall v | h.OwnsVar(v) :: v in r.vars) && (forall v | h.OwnsValue(v) :: v in r.values)
    ensures Ready(ops, r)
    decreases ops
  {
    forall k | 0 <= k < |ops|
      ensures ReadyOp(ops[k], r)
    {
      assert TypedOp(ops[k], h) && ConstructibleOp(ops[k]) && FieldsReadyOp(ops[k], r);
      TypedOpIsReady(ops[k], h, r);
    }
  }

  lemma {:induction false} TypedOpIsReady(op: Operation, h: Handles, r: Renaming)
    requires TypedOp(op, h) && ConstructibleOp(op) && FieldsReadyOp(op, r)
    requires (forall v | h.OwnsVar(v) :: v in r.vars) && (forall v | h.OwnsValue(v) :: v in r.values)
    ensures ReadyOp(op, r)
    decreases op
  {
    if op.instruction.Control? {
      var c := op.instruction.control;
      forall k | 0 <= k < |Bodies(c)|
        ensures Ready(Bodies(c)[k], r)
      {
        TypedIsReady(Bodies(c)[k], h, r);
      }
      forall e | e in Heads(c)
        ensures ReadyExpr(e, r)
      {
        assert h.OwnsExpr(e);
      }
    } else if op.instruction.Data? && op.instruction.data.Store? {
      assert h.OwnsExpr(op.instruction.data.value);
    }
  }

  lemma {:induction false} NoFieldMaps(ops: seq<Operation>, r: Renaming)
    requires r.qubits.None? && r.params.None?
    ensures FieldsReady(ops, r)
    decreases ops
  {
    forall k | 0 <= k < |ops|
      ensures FieldsReadyOp(ops[k], r)
    {
      NoFieldMapsOp(ops[k], r);
    }
  }

  lemma {:induction false} NoFieldMapsOp(op: Operation, r: Renaming)
    requires r.qubits.None? && r.params.None?
    ensures FieldsReadyOp(op, r)
    decreases op
  {
    if op.instruction.Control? {
      var c := op.instruction.control;
      forall k | 0 <= k < |Bodies(c)|
        ensures FieldsReady(Bodies(c)[k], r)
      {
        NoFieldMaps(Bodies(c)[k], r);
      }
    }
  }

  lemma MapsAreSafe(s: Draft, id: nat, varBase: nat, valueBase: nat, qs: Option<map<nat, nat>>, ps: Option<seq<Param>>)
    ensures HandleMap(qs, ps, VarMap(s, id, varBase), ValueMap(s, id, valueBase)).Safe()
  {
  }

  // ---- a renaming that fixes the handles of a tree changes nothing -----------------------------------------

  /** Qubits and parameters stay as they are. */
  ghost predicate KeepsFields(r: Renaming) {
    (forall q: nat :: r.Qubit(q) == q) && (forall p :: r.Parameter(p) == p)
  }

  predicate Fixes(r: Renaming, h: Handles) {
    && (forall k | 0 <= k < |h.vars| :: r.Var(ClassicalVar(h.id, k, h.vars[k])) == ClassicalVar(h.id, k, h.vars[k]))
    && (forall k | 0 <= k < |h.values| :: r.Value(ClassicalValue(h.id, k, h.values[k])) == ClassicalValue(h.id, k, h.values[k]))
  }

  lemma FixedVar(v: ClassicalVar, r: Renaming, h: Handles)
    requires h.OwnsVar(v) && Fixes(r, h)
    ensures r.Var(v) == v
  {
    assert v == ClassicalVar(h.id, v.id, h.vars[v.id]);
  }

  lemma FixedValue(v: ClassicalValue, r: Renaming, h: Handles)
    requires h.OwnsValue(v) && Fixes(r, h)
    ensures r.Value(v) == v
  {
    assert v == ClassicalValue(h.id, v.index, h.values[v.index]);
  }

  lemma {:induction false} NothingToRename(ops: seq<Operation>, h: Handles, r: Renaming)
    requires Typed(ops, h) && Fixes(r, h) && KeepsFields(r)
    ensures RenameOps(ops, r) == ops
    decreases ops
  {
    if ops != [] {
      TypedHead(ops, h);
      NothingToRenameOp(ops[0], h, r);
      NothingToRename(ops[1..], h, r);
    }
  }

  lemma {:induction false} NothingToRenameOp(op: Operation, h: Handles, r: Renaming)
    requires TypedOp(op, h) && Fixes(r, h) && KeepsFields(r)
    ensures RenameOp(op, r) == op
    decreases op
  {
    assert RenameQubits(op.qubits, r) == op.qubits;
    assert RenameParams(op.params, r) == op.params;
    match op.instruction {
      case Gate(_) =>
      case Data(d) =>
        if d.Store? {
          FixedVar(d.target, r, h);
          FixedExpr(d.value, h, r);
        } else {
          FixedValue(d.result, r, h);
        }
      case Control(c) =>
        forall k | 0 <= k < |Bodies(c)|
          ensures RenameOps(Bodies(c)[k], r) == Bodies(c)[k]
        {
          NothingToRename(Bodies(c)[k], h, r);
        }
        forall e | e in Heads(c)
          ensures RenameExpr(e, r) == e
        {
          FixedExpr(e, h, r);
        }
        if c.For? {
          FixedVar(c.loopVar, r, h);
        }
        SameControl(c, r);
    }
  }

  lemma {:induction false} FixedExpr(e: Expr, h: Handles, r: Renaming)
    requires h.OwnsExpr(e) && Fixes(r, h)
    ensures RenameExpr(e, r) == e
    decreases e
  {
    match e {
      case VarRead(v) => FixedVar(v, r, h);
      case ValueRead(v) => FixedValue(v, r, h);
      case Apply(_, _, args) =>
        forall k | 0 <= k < |args|
          ensures RenameExprs(args, r)[k] == args[k]
        {
          assert forall v | v in args[k].Vars() :: v in e.Vars();
          assert forall v | v in args[k].Values() :: v in e.Values();
          FixedExpr(args[k], h, r);
          RenameExprsAt(args, r, k);
        }
    }
  }

  /** A control operation whose heads and bodies are unchanged is unchanged. */
  lemma SameControl(c: ControlOp, r: Renaming)
    requires c.For? ==> r.Var(c.loopVar) == c.loopVar
    requires forall e | e in Heads(c) :: RenameExpr(e, r) == e
    requires forall k | 0 <= k < |Bodies(c)| :: RenameOps(Bodies(c)[k], r) == Bodies(c)[k]
    ensures RenameControl(c, r) == c
  {
    hide RenameOps, RenameExpr;
    match c {
      case If(e, t, els) =>
        assert Heads(c)[0] == e && Bodies(c)[0] == t && (els.Present? ==> |Bodies(c)| == 2 && Bodies(c)[1] == els.ops);
      case While(e, b) => assert Heads(c)[0] == e && Bodies(c)[0] == b;
      case For(v, a, z, s, b) => assert Heads(c)[0] == a && Heads(c)[1] == z && Heads(c)[2] == s && Bodies(c)[0] == b;
      case Switch(e, cases, d) =>
        assert Heads(c)[0] == e;
        forall k | 0 <= k < |cases|
          ensures RenameCases(cases, r)[k] == cases[k]
        {
          RenameCasesAt(cases, r, k);
          assert Bodies(c)[k] == cases[k].body;
        }
        assert RenameCases(cases, r) == cases;
        assert d.Present? ==> Bodies(c)[|cases|] == d.ops;
      case Break =>
      case Continue =>
    }
  }

  /** A valid tree keeps its validity under a renaming that covers its tables; every value stays measured. */
  lemma RenamedIsVerified(s: Draft, r: Renaming, h': Handles)
    requires TopValid(s) && Constructible(s.ops) && FieldsReady(s.ops, r) && r.Safe() && r.Between(s.Handles(), h')
    requires (forall v | s.Handles().OwnsVar(v) :: v in r.vars) && (forall v | s.Handles().OwnsValue(v) :: v in r.values)
    ensures RemapOps(s.ops, r) == Ok(RenameOps(s.ops, r)) && Typed(s.ops, s.Handles())
    ensures Verify(RenameOps(s.ops, r), h', Verifier.State({}, {}), Verifier.Placing(false, false)).Ok?
    ensures forall k | 0 <= k < |s.values| :: r.Value(s.Value(k)) in Results(RenameOps(s.ops, r))
  {
    hide Verify, Results, RemapOps, RenameOps, Ready, Typed, Constructible, FieldsReady, r.Safe, r.Between;
    var h, st, p := s.Handles(), Verifier.State({}, {}), Verifier.Placing(false, false);
    ValidMeans(s);
    VerifyCharacterised(s.ops, h, st, p);
    TypedIsReady(s.ops, h, r);
    RemapIsRename(s.ops, r);
    VerificationIsInvariant(s.ops, r, h, h', st, p);
    assert ImageState(st, r) == st;
    forall k | 0 <= k < |s.values|
      ensures r.Value(s.Value(k)) in Results(RenameOps(s.ops, r))
    {
      RenamedResult(s.ops, r, s.Value(k));
    }
  }

  /** Every clone of a valid circuit exists, is the renamed circuit, and is valid under its new identity. */
  lemma CloneIsValid(s: Draft, id: nat)
    requires TopValid(s) && Constructible(s.ops)
    ensures Clone(s, id) == Ok(s.(id := id, ops := RenameOps(s.ops, CloneMap(s, id))))
    ensures TopValid(Clone(s, id).value)
  {
    hide Verify, Results, RemapOps, RenameOps, Typed, Constructible, FieldsReady;
    var r := CloneMap(s, id);
    var t := s.(id := id, ops := RenameOps(s.ops, r));
    NoFieldMaps(s.ops, r);
    RenamedIsVerified(s, r, t.Handles());
    if s.vars == [] && s.values == [] {
      NothingToRename(s.ops, s.Handles(), r);
    }
    forall k | 0 <= k < |t.values|
      ensures t.Value(k) in Results(t.ops)
    {
      assert r.Value(s.Value(k)) == t.Value(k);
    }
    ValidMeans(t);
  }

  lemma RenamedResult(ops: seq<Operation>, r: Renaming, v: ClassicalValue)
    requires v in Results(ops)
    ensures r.Value(v) in Results(RenameOps(ops, r))
  {
    hide Results, RenameOps;
    ResultsRenamed(ops, r);
    var k :| 0 <= k < |Results(ops)| && Results(ops)[k] == v;
    assert RenameValues(Results(ops), r)[k] == r.Value(v);
  }

  // ---- fields ------------------------------------------------------------------------------------------------

  /** Qubits and parameters in range and control operations accepted, at every depth. */
  predicate WellMade(ops: seq<Operation>, qubits: set<nat>, numParams: nat)
    decreases ops
  {
    forall k | 0 <= k < |ops| :: WellMadeOp(ops[k], qubits, numParams)
  }

  predicate WellMadeOp(op: Operation, qubits: set<nat>, numParams: nat)
    decreases op
  {
    && (forall q | q in op.qubits :: q in qubits) && (forall p | p in op.params :: p.Index? ==> p.index < numParams)
    && (op.instruction.Control? ==>
          && Accepted(op.instruction.control)
          && forall k | 0 <= k < |Bodies(op.instruction.control)| :: WellMade(Bodies(op.instruction.control)[k], qubits, numParams))
  }

  /** The fields of a circuit's operations, and its global phase, refer to its own tables. */
  predicate OwnFields(s: Draft) {
    WellMade(s.ops, set q | q in s.qubits, |s.params|) && (s.phase.Index? ==> s.phase.index < |s.params|)
  }

  /** Where a renaming takes the qubits and parameters of one circuit, inside another. */
  predicate FieldsGo(r: Renaming, qubits: set<nat>, n: nat, qubits': set<nat>, n': nat) {
    && (forall q | q in qubits :: r.Qubit(q) in qubits')
    && (forall i | 0 <= i < n :: r.Parameter(Index(i)).Index? ==> r.Parameter(Index(i)).index < n')
  }

  lemma {:induction false} WellMadeRenamed(ops: seq<Operation>, r: Renaming, qubits: set<nat>, n: nat, qubits': set<nat>, n': nat)
    requires WellMade(ops, qubits, n) && FieldsGo(r, qubits, n, qubits', n') && r.Safe() && Ready(ops, r)
    ensures WellMade(RenameOps(ops, r), qubits', n')
    decreases ops
  {
    hide WellMadeOp, FieldsGo, r.Safe, ReadyOp, RenameOps;
    forall k | 0 <= k < |ops|
      ensures WellMadeOp(RenameOps(ops, r)[k], qubits', n')
    {
      RenameOpsAt(ops, r, k);
      WellMadeOpRenamed(ops[k], r, qubits, n, qubits', n');
    }
  }

  lemma {:induction false} WellMadeOpRenamed(op: Operation, r: Renaming, qubits: set<nat>, n: nat, qubits': set<nat>, n': nat)
    requires WellMadeOp(op, qubits, n) && FieldsGo(r, qubits, n, qubits', n') && r.Safe() && ReadyOp(op, r)
    ensures WellMadeOp(RenameOp(op, r), qubits', n')
    decreases op
  {
    hide r.Safe, RenameControl;
    var op' := RenameOp(op, r);
    forall q | q in op'.qubits
      ensures q in qubits'
    {
      var i :| 0 <= i < |op.qubits| && op'.qubits[i] == q;
      assert op.qubits[i] in op.qubits;
    }
    forall p | p in op'.params
      ensures p.Index? ==> p.index < n'
    {
      var i :| 0 <= i < |op.params| && op'.params[i] == p;
      assert op.params[i] in op.params;
      assert op.params[i].Index? ==> op.params[i] == Index(op.params[i].index);
    }
    if op.instruction.Control? {
      var c := op.instruction.control;
      ControlShape(c, r);
      AcceptedRenamed(c, r);
      forall k | 0 <= k < |Bodies(c)|
        ensures WellMade(Bodies(RenameControl(c, r))[k], qubits', n')
      {
        WellMadeRenamed(Bodies(c)[k], r, qubits, n, qubits', n');
      }
    }
  }

  lemma {:induction false} WellMadeMore(ops: seq<Operation>, qubits: set<nat>, n: nat, qubits': set<nat>, n': nat)
    requires WellMade(ops, qubits, n) && qubits <= qubits' && n <= n'
    ensures WellMade(ops, qubits', n')
    decreases ops
  {
    forall k | 0 <= k < |ops|
      ensures WellMadeOp(ops[k], qubits', n')
    {
      assert WellMadeOp(ops[k], qubits, n);
      WellMadeMoreOp(ops[k], qubits, n, qubits', n');
    }
  }

  lemma {:induction false} WellMadeMoreOp(op: Operation, qubits: set<nat>, n: nat, qubits': set<nat>, n': nat)
    requires WellMadeOp(op, qubits, n) && qubits <= qubits' && n <= n'
    ensures WellMadeOp(op, qubits', n')
    decreases op
  {
    if op.instruction.Control? {
      var c := op.instruction.control;
      forall k | 0 <= k < |Bodies(c)|
        ensures WellMade(Bodies(c)[k], qubits', n')
      {
        WellMadeMore(Bodies(c)[k], qubits, n, qubits', n');
      }
    }
  }

  lemma WellMadeConcat(a: seq<Operation>, b: seq<Operation>, qubits: set<nat>, n: nat)
    requires WellMade(a, qubits, n) && WellMade(b, qubits, n)
    ensures WellMade(a + b, qubits, n)
  {
    hide WellMadeOp;
    forall k | 0 <= k < |a + b|
      ensures WellMadeOp((a + b)[k], qubits, n)
    {
      if k >= |a| {
        assert (a + b)[k] == b[k - |a|];
      }
    }
  }

  lemma {:induction false} BuiltIsWellMade(ops: seq<Operation>, t: Tables)
    requires Built(ops, t)
    ensures WellMade(ops, t.qubits, t.numParams)
    decreases ops
  {
    forall k | 0 <= k < |ops|
      ensures WellMadeOp(ops[k], t.qubits, t.numParams)
    {
      assert BuiltOp(ops[k], t);
      BuiltIsWellMadeOp(ops[k], t);
    }
  }

  lemma {:induction false} BuiltIsWellMadeOp(op: Operation, t: Tables)
    requires BuiltOp(op, t)
    ensures WellMadeOp(op, t.qubits, t.numParams)
    decreases op
  {
    if op.instruction.Control? {
      var c := op.instruction.control;
      forall k | 0 <= k < |Bodies(c)|
        ensures WellMade(Bodies(c)[k], t.qubits, t.numParams)
      {
        BuiltIsWellMade(Bodies(c)[k], t);
      }
    }
  }

  lemma {:induction false} WellMadeIsReady(ops: seq<Operation>, qubits: set<nat>, numParams: nat, r: Renaming)
    requires WellMade(ops, qubits, numParams)
    requires (forall q | q in qubits :: r.HasQubit(q)) && (r.params.Some? ==> numParams <= |r.params.value|)
    ensures FieldsReady(ops, r) && Constructible(ops)
    decreases ops
  {
    forall k | 0 <= k < |ops|
      ensures FieldsReadyOp(ops[k], r) && ConstructibleOp(ops[k])
    {
      assert WellMadeOp(ops[k], qubits, numParams);
      WellMadeIsReadyOp(ops[k], qubits, numParams, r);
    }
  }

  lemma {:induction false} WellMadeIsReadyOp(op: Operation, qubits: set<nat>, numParams: nat, r: Renaming)
    requires WellMadeOp(op, qubits, numParams)
    requires (forall q | q in qubits :: r.HasQubit(q)) && (r.params.Some? ==> numParams <= |r.params.value|)
    ensures FieldsReadyOp(op, r) && ConstructibleOp(op)
    decreases op
  {
    if op.instruction.Control? {
      var c := op.instruction.control;
      forall k | 0 <= k < |Bodies(c)|
        ensures FieldsReady(Bodies(c)[k], r) && Constructible(Bodies(c)[k])
      {
        WellMadeIsReady(Bodies(c)[k], qubits, numParams, r);
      }
    }
  }

  // ---- structural equality ---------------------------------------------------------------------------------

  /** Stored parameters are equal when they resolve to the same parameter. */
  predicate ParamsEqual(a: Param, b: Param, ps: seq<Parameter>, qs: seq<Parameter>) {
    match (a, b)
    case (Fixed(v), Fixed(w)) => v == w
    case (Index(i), Index(j)) => i < |ps| && j < |qs| && ps[i] == qs[j]
    case (Fixed(v), Index(j)) => j < |qs| && FromNumber(v) == qs[j]
    case (Index(i), Fixed(w)) => i < |ps| && ps[i] == FromNumber(w)
  }

  predicate VarsEqual(v: ClassicalVar, w: ClassicalVar) {
    v.id == w.id && v.ty == w.ty
  }

  predicate ValuesEqual(v: ClassicalValue, w: ClassicalValue) {
    v.index == w.index && v.ty == w.ty
  }

  predicate ExprsEqual(a: Expr, b: Expr)
    decreases a
  {
    match (a, b)
    case (VarRead(v), VarRead(w)) => VarsEqual(v, w)
    case (ValueRead(v), ValueRead(w)) => ValuesEqual(v, w)
    case (Apply(op, ty, args), Apply(op', ty', args')) =>
      op == op' && ty == ty' && |args| == |args'| && forall k | 0 <= k < |args| :: ExprsEqual(args[k], args'[k])
    case (_, _) => false
  }

  predicate DataEqual(a: DataOp, b: DataOp) {
    match (a, b)
    case (Store(v, e), Store(w, f)) => VarsEqual(v, w) && ExprsEqual(e, f)
    case (MeasureBit(v), MeasureBit(w)) => ValuesEqual(v, w)
    case (MeasureBits(v), MeasureBits(w)) => ValuesEqual(v, w)
    case (_, _) => false
  }

  predicate OpsEqual(a: seq<Operation>, b: seq<Operation>, ps: seq<Parameter>, qs: seq<Parameter>)
    decreases a
  {
    |a| == |b| && forall k | 0 <= k < |a| :: OperationsEqual(a[k], b[k], ps, qs)
  }

  predicate OperationsEqual(a: Operation, b: Operation, ps: seq<Parameter>, qs: seq<Parameter>)
    decreases a
  {
    && a.qubits == b.qubits && a.tag == b.tag && |a.params| == |b.params|
    && (forall k | 0 <= k < |a.params| :: ParamsEqual(a.params[k], b.params[k], ps, qs))
    && match (a.instruction, b.instruction)
       case (Gate(g), Gate(g')) => g == g'
       case (Data(d), Data(d')) => DataEqual(d, d')
       case (Control(c), Control(c')) => ControlEqual(c, c', ps, qs)
       case (_, _) => false
  }

  predicate ControlEqual(a: ControlOp, b: ControlOp, ps: seq<Parameter>, qs: seq<Parameter>)
    decreases a
  {
    match (a, b)
    case (If(e, t, els), If(e', t', els')) =>
      ExprsEqual(e, e') && OpsEqual(t, t', ps, qs) && MaybeEqual(els, els', ps, qs)
    case (While(e, x), While(e', x')) => ExprsEqual(e, e') && OpsEqual(x, x', ps, qs)
    case (For(v, s, z, d, x), For(v', s', z', d', x')) =>
      VarsEqual(v, v') && ExprsEqual(s, s') && ExprsEqual(z, z') && ExprsEqual(d, d') && OpsEqual(x, x', ps, qs)
    case (Switch(e, cases, d), Switch(e', cases', d')) =>
      && ExprsEqual(e, e') && |cases| == |cases'|
      && (forall k | 0 <= k < |cases| :: cases[k].value == cases'[k].value && OpsEqual(cases[k].body, cases'[k].body, ps, qs))
      && MaybeEqual(d, d', ps, qs)
    case (Break, Break) => true
    case (Continue, Continue) => true
    case (_, _) => false
  }

  predicate MaybeEqual(a: MaybeBody, b: MaybeBody, ps: seq<Parameter>, qs: seq<Parameter>)
    decreases a
  {
    (a.Absent? <==> b.Absent?) && (a.Present? && b.Present? ==> OpsEqual(a.ops, b.ops, ps, qs))
  }

  predicate CircuitsEqual(s: Draft, t: Draft) {
    && (set q | q in s.qubits) == (set q | q in t.qubits) && (set x | x in s.symbols) == (set x | x in t.symbols)
    && |s.params| == |t.params| && (forall p | p in s.params :: p in t.params)
    && s.vars == t.vars && s.values == t.values && s.scopes == t.scopes
    && ParamsEqual(s.phase, t.phase, s.params, t.params) && OpsEqual(s.ops, t.ops, s.params, t.params)
  }

  /** A renaming that changes circuit identities only. */
  predicate KeepsPositions(r: Renaming) {
    && r.qubits.None? && r.params.None?
    && (forall v | v in r.vars :: VarsEqual(r.vars[v], v)) && (forall v | v in r.values :: ValuesEqual(r.values[v], v))
  }

  lemma {:induction false} RenamedExprEqual(e: Expr, r: Renaming)
    requires KeepsPositions(r)
    ensures ExprsEqual(RenameExpr(e, r), e)
    decreases e
  {
    if e.Apply? {
      forall k | 0 <= k < |e.args|
        ensures ExprsEqual(RenameExprs(e.args, r)[k], e.args[k])
      {
        RenameExprsAt(e.args, r, k);
        RenamedExprEqual(e.args[k], r);
      }
    }
  }

  lemma {:induction false} RenamedIsEqual(ops: seq<Operation>, r: Renaming, ps: seq<Parameter>, qubits: set<nat>)
    requires KeepsPositions(r) && WellMade(ops, qubits, |ps|)
    ensures OpsEqual(RenameOps(ops, r), ops, ps, ps)
    decreases ops
  {
    hide RenameOps, OperationsEqual, RenameOp, KeepsPositions;
    forall k | 0 <= k < |ops|
      ensures OperationsEqual(RenameOps(ops, r)[k], ops[k], ps, ps)
    {
      assert WellMadeOp(ops[k], qubits, |ps|);
      RenameOpsAt(ops, r, k);
      RenamedOpIsEqual(ops[k], r, ps, qubits);
    }
  }

  lemma {:induction false} RenamedOpIsEqual(op: Operation, r: Renaming, ps: seq<Parameter>, qubits: set<nat>)
    requires KeepsPositions(r) && WellMadeOp(op, qubits, |ps|)
    ensures OperationsEqual(RenameOp(op, r), op, ps, ps)
    decreases op
  {
    hide ControlEqual, DataEqual, RenameControl, RenameData, WellMade;
    var op' := RenameOp(op, r);
    assert op'.qubits == op.qubits;
    forall k | 0 <= k < |op.params|
      ensures ParamsEqual(op'.params[k], op.params[k], ps, ps)
    {
      assert op.params[k] in op.params;
    }
    match op.instruction {
      case Gate(_) =>
      case Data(d) => RenamedDataEqual(d, r);
      case Control(c) => RenamedControlEqual(c, r, ps, qubits);
    }
  }

  lemma RenamedDataEqual(d: DataOp, r: Renaming)
    requires KeepsPositions(r)
    ensures DataEqual(RenameData(d, r), d)
  {
    if d.Store? {
      RenamedExprEqual(d.value, r);
    }
  }

  lemma {:induction false} RenamedControlEqual(c: ControlOp, r: Renaming, ps: seq<Parameter>, qubits: set<nat>)
    requires KeepsPositions(r) && forall k | 0 <= k < |Bodies(c)| :: WellMade(Bodies(c)[k], qubits, |ps|)
    ensures ControlEqual(RenameControl(c, r), c, ps, ps)
    decreases c
  {
    hide RenameOps, OpsEqual, WellMade, ExprsEqual, RenameExpr;
    forall k | 0 <= k < |Bodies(c)|
      ensures OpsEqual(RenameOps(Bodies(c)[k], r), Bodies(c)[k], ps, ps)
    {
      RenamedIsEqual(Bodies(c)[k], r, ps, qubits);
    }
    match c {
      case If(e, x, els) =>
        RenamedExprEqual(e, r);
        assert Bodies(c)[0] == x && (els.Present? ==> |Bodies(c)| == 2 && Bodies(c)[1] == els.ops);
      case While(e, x) =>
        RenamedExprEqual(e, r);
        assert Bodies(c)[0] == x;
      case For(v, s, z, d, x) =>
        RenamedExprEqual(s, r);
        RenamedExprEqual(z, r);
        RenamedExprEqual(d, r);
        assert Bodies(c)[0] == x;
      case Switch(e, cases, d) =>
        RenamedExprEqual(e, r);
        forall k | 0 <= k < |cases|
          ensures OpsEqual(RenameCases(cases, r)[k].body, cases[k].body, ps, ps)
        {
          RenameCasesAt(cases, r, k);
          assert Bodies(c)[k] == cases[k].body;
        }
        assert d.Present? ==> Bodies(c)[|cases|] == d.ops;
      case Break =>
      case Continue =>
    }
  }

  /** A clone is structurally equal to the circuit it copies. */
  lemma CloneIsEqual(s: Draft, id: nat)
    requires TopValid(s) && OwnFields(s)
    ensures Clone(s, id).Ok? && TopValid(Clone(s, id).value) && CircuitsEqual(Clone(s, id).value, s)
  {
    hide Clone, TopValid, RenameOps, WellMade, OpsEqual, Constructible;
    var qubits := set q | q in s.qubits;
    WellMadeIsReady(s.ops, qubits, |s.params|, HandleMap(None, None, map[], map[]));
    CloneIsValid(s, id);
    RenamedIsEqual(s.ops, CloneMap(s, id), s.params, qubits);
  }

  // ---- compose ----------------------------------------------------------------------------------------------

  datatype ComposeError =
    | QubitCount(expected: nat, actual: nat)
    | NoSuchQubit(qubit: nat)
    | Remap(remap: RemapError)

  /** Each qubit of `other` to the qubit at the same position of the mapping. */
  function QubitMap(qubits: seq<nat>, targets: seq<nat>): (m: map<nat, nat>)
    requires |qubits| <= |targets|
    ensures m.Keys == set q | q in qubits
    ensures forall q | q in m :: m[q] in targets
  {
    if qubits == [] then map[]
    else
      var n := |qubits| - 1;
      var rest := QubitMap(qubits[..n], targets);
      assert qubits == qubits[..n] + [qubits[n]];
      rest[qubits[n] := targets[n]]
  }

  function MergedQubits(qubits: seq<nat>, more: seq<nat>): (r: seq<nat>)
    ensures qubits <= r && forall q :: q in r <==> q in qubits || q in more
    decreases |more|
  {
    if more == [] then qubits
    else
      var r := MergedQubits(Interned(qubits, more[0]), more[1..]);
      assert forall q :: q in more <==> q == more[0] || q in more[1..];
      r
  }

  /** Distinct qubits go to the targets at their own positions. */
  lemma {:induction false} QubitMapAt(qubits: seq<nat>, targets: seq<nat>, k: nat)
    requires |qubits| <= |targets| && k < |qubits| && !HasDuplicates(qubits)
    ensures qubits[k] in QubitMap(qubits, targets) && QubitMap(qubits, targets)[qubits[k]] == targets[k]
    decreases |qubits|
  {
    var n := |qubits| - 1;
    if k < n {
      var init := qubits[..n];
      assert !HasDuplicates(init) && init[k] == qubits[k] && qubits[k] != qubits[n];
      QubitMapAt(init, targets, k);
    }
  }

  /** The qubits of `more` that are not known, in their order. */
  function Unknown(known: seq<nat>, more: seq<nat>): seq<nat> {
    if more == [] then [] else (if more[0] in known then [] else [more[0]]) + Unknown(known, more[1..])
  }

  lemma {:induction false} UnknownSame(a: seq<nat>, b: seq<nat>, more: seq<nat>)
    requires forall q | q in more :: q in a <==> q in b
    ensures Unknown(a, more) == Unknown(b, more)
    decreases |more|
  {
    if more != [] {
      assert more[0] in more && forall q | q in more[1..] :: q in more;
      UnknownSame(a, b, more[1..]);
    }
  }

  /** Merging adds the unknown qubits at the end, in the other circuit's order. */
  lemma {:induction false} MergedInOrder(qubits: seq<nat>, more: seq<nat>)
    requires !HasDuplicates(more)
    ensures MergedQubits(qubits, more) == qubits + Unknown(qubits, more)
    decreases |more|
  {
    hide HasDuplicates, MergedQubits, Unknown;
    MergedStep(qubits, more);
    if more != [] {
      TailDistinct(more);
      var known, rest := Interned(qubits, more[0]), more[1..];
      MergedInOrder(known, rest);
      UnknownSame(known, qubits, rest);
      if more[0] !in qubits {
        assert qubits + [more[0]] + Unknown(qubits, rest) == qubits + ([more[0]] + Unknown(qubits, rest));
      }
    } else {
      assert qubits + [] == qubits;
    }
  }

  lemma MergedStep(qubits: seq<nat>, more: seq<nat>)
    ensures more == [] ==> MergedQubits(qubits, more) == qubits && Unknown(qubits, more) == []
    ensures more != [] ==>
              && MergedQubits(qubits, more) == MergedQubits(Interned(qubits, more[0]), more[1..])
              && Unknown(qubits, more) == (if more[0] in qubits then [] else [more[0]]) + Unknown(qubits, more[1..])
  {
  }

  lemma TailDistinct(qs: seq<nat>)
    requires !HasDuplicates(qs) && qs != []
    ensures !HasDuplicates(qs[1..]) && qs[0] !in qs[1..]
  {
    assert forall k | 0 <= k < |qs[1..]| :: qs[1..][k] == qs[k + 1] && qs[0] != qs[k + 1];
  }

  /** Interns the parameters of another circuit one by one, recording where each went. */
  function MergeParams(s: Draft, more: seq<Parameter>): (r: (Draft, seq<Param>))
    ensures |r.1| == |more|
    decreases |more|
  {
    if more == [] then (s, [])
    else
      var s1 := AddParameter(s, more[0]);
      var (s2, rest) := MergeParams(s1, more[1..]);
      (s2, [Index(IndexOf(s1.params, more[0]))] + rest)
  }

  /** How symbolic parameters are added; the code delegates this to its expression library. */
  type Adder = (Parameter, Parameter) -> Parameter

  /** The parameter that a stored one stands for. */
  function Resolved(p: Param, params: seq<Parameter>): Parameter
    requires p.Index? ==> p.index < |params|
  {
    match p
    case Fixed(v) => FromNumber(v)
    case Index(i) => params[i]
  }

  /** Two numbers are added; anything else becomes one more interned parameter, whose symbols are already known. */
  function MergePhase(s: Draft, other: Draft, add: Adder): Result<Draft, RemapError> {
    if s.phase.Fixed? && other.phase.Fixed? then Ok(s.(phase := Fixed(s.phase.value + other.phase.value)))
    else if s.phase.Index? && s.phase.index >= |s.params| then Err(InvalidParameterIndex(s.phase.index))
    else if other.phase.Index? && other.phase.index >= |other.params| then Err(InvalidParameterIndex(other.phase.index))
    else
      var params := if s.phase.Index? && other.phase.Index? then Interned(s.params, other.params[other.phase.index]) else s.params;
      var sum := add(Resolved(s.phase, s.params), Resolved(other.phase, other.params));
      Ok(s.(params := Interned(params, sum), phase := Index(IndexOf(Interned(params, sum), sum))))
  }

  /**
   Appends `other`'s operations with its qubits mapped, its parameters interned and its classical
   tables appended, and adds the global phases. An error from remapping or from a phase leaves the
   qubits and parameters merged so far.
   */
  function Compose(s: Draft, other: Draft, mapping: Option<seq<nat>>, add: Adder): (Draft, Option<ComposeError>) {
    if mapping.Some? && |mapping.value| != |other.qubits| then (s, Some(QubitCount(|other.qubits|, |mapping.value|)))
    else if mapping.Some? && FirstMissing(mapping.value, s.qubits).Some? then
      (s, Some(NoSuchQubit(FirstMissing(mapping.value, s.qubits).value)))
    else
      var (s2, places) := MergeParams(Widened(s, other, mapping), other.params);
      var ops := RemapOps(other.ops, ComposeMap(s, other, mapping, places));
      if ops.Err? then (s2, Some(Remap(ops.error)))
      else
        var s3 := MergePhase(s2, other, add);
        if s3.Err? then (s2, Some(Remap(s3.error)))
        else (s3.value.(vars := s.vars + other.vars, values := s.values + other.values, ops := s.ops + ops.value), None)
  }

  /** Without a mapping the other circuit's qubits are added. */
  function Widened(s: Draft, other: Draft, mapping: Option<seq<nat>>): Draft {
    if mapping.Some? then s else s.(qubits := MergedQubits(s.qubits, other.qubits))
  }

  function ComposeMap(s: Draft, other: Draft, mapping: Option<seq<nat>>, places: seq<Param>): Renaming
    requires mapping.Some? ==> |mapping.value| == |other.qubits|
  {
    HandleMap(Some(QubitMap(other.qubits, if mapping.Some? then mapping.value else other.qubits)), Some(places),
              VarMap(other, s.id, |s.vars|), ValueMap(other, s.id, |s.values|))
  }

  lemma {:induction false} MergedResolve(s: Draft, more: seq<Parameter>)
    ensures var (s', places) := MergeParams(s, more);
            && s' == s.(params := s'.params, symbols := s'.symbols) && s.params <= s'.params
            && forall k | 0 <= k < |more| :: places[k].Index? && places[k].index < |s'.params| && s'.params[places[k].index] == more[k]
    decreases |more|
  {
    if more != [] {
      var s1 := AddParameter(s, more[0]);
      MergedResolve(s1, more[1..]);
      assert more[0] in s1.params by {
        if more[0] !in s.params {
          assert s1.params[|s.params|] == more[0];
        }
      }
      var (s', places) := MergeParams(s, more);
      forall k | 0 <= k < |more|
        ensures places[k].Index? && places[k].index < |s'.params| && s'.params[places[k].index] == more[k]
      {
        if k > 0 {
          assert more[k] == more[1..][k - 1];
        }
      }
    }
  }

  // ---- two accepted trees in sequence ------------------------------------------------------------------------

  lemma {:induction false} ScopedMore(ops: seq<Operation>, a: set<ClassicalValue>, b: set<ClassicalValue>)
    requires Scoped(ops, a) && a <= b
    ensures Scoped(ops, b)
    decreases ops
  {
    if ops != [] {
      ScopedMoreOp(ops[0], a, b);
      ScopedMore(ops[1..], a + Produced(ops[0]), b + Produced(ops[0]));
    }
  }

  lemma {:induction false} ScopedMoreOp(op: Operation, a: set<ClassicalValue>, b: set<ClassicalValue>)
    requires ScopedOp(op, a) && a <= b
    ensures ScopedOp(op, b)
    decreases op
  {
    if op.instruction.Control? {
      var c := op.instruction.control;
      forall k | 0 <= k < |Bodies(c)|
        ensures Scoped(Bodies(c)[k], b)
      {
        ScopedMore(Bodies(c)[k], a, b);
      }
    }
  }

  lemma {:induction false} ScopedConcat(x: seq<Operation>, y: seq<Operation>, a: set<ClassicalValue>)
    requires Scoped(x, a) && Scoped(y, a)
    ensures Scoped(x + y, a)
    decreases |x|
  {
    hide ScopedOp;
    if x == [] {
      assert x + y == y;
    } else {
      assert (x + y)[1..] == x[1..] + y && (x + y)[0] == x[0];
      ScopedMore(y, a, a + Produced(x[0]));
      ScopedConcat(x[1..], y, a + Produced(x[0]));
    }
  }

  lemma PlacedConcat(x: seq<Operation>, y: seq<Operation>)
    requires Placed(x, false, false) && Placed(y, false, false)
    ensures Placed(x + y, false, false)
  {
    forall k | 0 <= k < |x + y|
      ensures PlacedOp((x + y)[k], false, false, k + 1 == |x + y|)
    {
      if k < |x| {
        assert PlacedOp(x[k], false, false, k + 1 == |x|);
      } else {
        assert PlacedOp(y[k - |x|], false, false, k - |x| + 1 == |y|);
      }
    }
  }

  lemma TypedConcat(x: seq<Operation>, y: seq<Operation>, h: Handles)
    requires Typed(x, h) && Typed(y, h)
    ensures Typed(x + y, h)
  {
    forall k | 0 <= k < |x + y|
      ensures TypedOp((x + y)[k], h)
    {
      if k >= |x| {
        assert (x + y)[k] == y[k - |x|];
      }
    }
  }

  /** Two top-level trees accepted on their own, measuring different values, are accepted one after the other. */
  lemma VerifyConcat(x: seq<Operation>, y: seq<Operation>, h: Handles)
    requires Verify(x, h, Verifier.State({}, {}), Verifier.Placing(false, false)).Ok?
    requires Verify(y, h, Verifier.State({}, {}), Verifier.Placing(false, false)).Ok?
    requires forall v | v in Results(y) :: v !in Results(x)
    ensures Verify(x + y, h, Verifier.State({}, {}), Verifier.Placing(false, false)).Ok?
    ensures Results(x + y) == Results(x) + Results(y)
  {
    hide Verify, Typed, Placed, Scoped, Results;
    var st, p := Verifier.State({}, {}), Verifier.Placing(false, false);
    VerifyCharacterised(x, h, st, p);
    VerifyCharacterised(y, h, st, p);
    VerifyCharacterised(x + y, h, st, p);
    TypedConcat(x, y, h);
    PlacedConcat(x, y);
    ScopedConcat(x, y, {});
    BuilderSafety.ResultsAppend(x, y);
    FreshAppend(Results(x), Results(y), {});
  }

  /** The global phase of a composition stands for the sum of the two. */
  predicate PhasesAdded(s: Draft, other: Draft, s': Draft, add: Adder)
    requires (s.phase.Index? ==> s.phase.index < |s.params|) && (other.phase.Index? ==> other.phase.index < |other.params|)
  {
    if s.phase.Fixed? && other.phase.Fixed? then s'.phase == Fixed(s.phase.value + other.phase.value)
    else
      && s'.phase.Index? && s'.phase.index < |s'.params|
      && Resolved(s'.phase, s'.params) == add(Resolved(s.phase, s.params), Resolved(other.phase, other.params))
  }

  lemma InternedGrows(ps: seq<Parameter>, p: Parameter)
    ensures ps <= Interned(ps, p) && IndexOf(Interned(ps, p), p) < |Interned(ps, p)|
    ensures Interned(ps, p)[IndexOf(Interned(ps, p), p)] == p
  {
    if p !in ps {
      assert (ps + [p])[|ps|] == p;
    }
  }

  lemma PhaseMerged(s: Draft, s2: Draft, other: Draft, add: Adder)
    requires (s.phase.Index? ==> s.phase.index < |s.params|) && (other.phase.Index? ==> other.phase.index < |other.params|)
    requires s2.phase == s.phase && s.params <= s2.params
    ensures MergePhase(s2, other, add).Ok?
    ensures var s3 := MergePhase(s2, other, add).value;
            && s3 == s2.(params := s3.params, phase := s3.phase) && s2.params <= s3.params
            && PhasesAdded(s, other, s3, add) && (s3.phase.Index? ==> s3.phase.index < |s3.params|)
  {
    if s.phase.Index? || other.phase.Index? {
      var params := if s.phase.Index? && other.phase.Index? then Interned(s2.params, other.params[other.phase.index]) else s2.params;
      if s.phase.Index? && other.phase.Index? {
        InternedGrows(s2.params, other.params[other.phase.index]);
      }
      InternedGrows(params, add(Resolved(s.phase, s.params), Resolved(other.phase, other.params)));
    }
  }

  /** The renaming that a composition applies to the second circuit's operations. */
  function Moved(s: Draft, other: Draft, mapping: Option<seq<nat>>): Renaming
    requires mapping.Some? ==> |mapping.value| == |other.qubits|
  {
    ComposeMap(s, other, mapping, MergeParams(Widened(s, other, mapping), other.params).1)
  }

  lemma ComposeSteps(s: Draft, other: Draft, mapping: Option<seq<nat>>, add: Adder)
    requires TopValid(s) && TopValid(other) && OwnFields(s) && OwnFields(other)
    requires mapping.Some? ==> |mapping.value| == |other.qubits| && FirstMissing(mapping.value, s.qubits).None?
    ensures var (s', e) := Compose(s, other, mapping, add);
            && e.None? && TopValid(s') && OwnFields(s') && s'.id == s.id
            && s'.qubits == Widened(s, other, mapping).qubits
            && s'.ops == s.ops + RenameOps(other.ops, Moved(s, other, mapping))
            && s'.vars == s.vars + other.vars && s'.values == s.values + other.values
            && s.params <= s'.params && PhasesAdded(s, other, s', add)
            && MergeParams(Widened(s, other, mapping), other.params).0.params <= s'.params
  {
    hide Verify, Results, RemapOps, RenameOps, WellMade, Constructible, FieldsReady, MergeParams, QubitMap, TopValid, VarMap, ValueMap, MergePhase, PhasesAdded;
    var s1 := Widened(s, other, mapping);
    MergedResolve(s1, other.params);
    var (s2, places) := MergeParams(s1, other.params);
    PhaseMerged(s, s2, other, add);
    var s3 := MergePhase(s2, other, add).value;
    var r := ComposeMap(s, other, mapping, places);
    var s' := s3.(vars := s.vars + other.vars, values := s.values + other.values, ops := s.ops + RenameOps(other.ops, r));
    var mine, theirs := set q | q in s.qubits, set q | q in other.qubits;
    WellMadeIsReady(other.ops, theirs, |other.params|, r);
    SequenceIsValid(s, other, r, s');
    assert PhasesAdded(s, other, s', add) by { SamePhases(s, other, s3, s', add); }
    ComposedFields(s, other, mapping, places, s');
    MapsAreSafe(other, s.id, |s.vars|, |s.values|, r.qubits, r.params);
    RemapIsRename(other.ops, r);
    WellMadeMore(s.ops, mine, |s.params|, set q | q in s'.qubits, |s'.params|);
    WellMadeRenamed(other.ops, r, theirs, |other.params|, set q | q in s'.qubits, |s'.params|);
    WellMadeConcat(s.ops, RenameOps(other.ops, r), set q | q in s'.qubits, |s'.params|);
  }

  /**
   Where a composition sends the second circuit's handles: each qubit to the one at its position of the
   mapping, or to itself without a mapping; variables and values past the first circuit's; and every
   parameter to one that is the same in the composition's table.
   */
  predicate SendsHandles(s: Draft, other: Draft, mapping: Option<seq<nat>>, s': Draft, r: Renaming)
    requires mapping.Some? ==> |mapping.value| == |other.qubits|
    requires s'.vars == s.vars + other.vars && s'.values == s.values + other.values
  {
    && (!HasDuplicates(other.qubits) ==>
          forall k | 0 <= k < |other.qubits| :: r.Qubit(other.qubits[k]) == if mapping.Some? then mapping.value[k] else other.qubits[k])
    && (forall k | 0 <= k < |other.vars| :: r.Var(other.Var(k)) == s'.Var(|s.vars| + k))
    && (forall k | 0 <= k < |other.values| :: r.Value(other.Value(k)) == s'.Value(|s.values| + k))
    && (forall k | 0 <= k < |other.params| ::
          r.Parameter(Index(k)).Index? && r.Parameter(Index(k)).index < |s'.params|
          && s'.params[r.Parameter(Index(k)).index] == other.params[k])
  }

  lemma HandlesSent(s: Draft, other: Draft, mapping: Option<seq<nat>>, s': Draft)
    requires mapping.Some? ==> |mapping.value| == |other.qubits|
    requires s'.id == s.id && s'.vars == s.vars + other.vars && s'.values == s.values + other.values
    requires MergeParams(Widened(s, other, mapping), other.params).0.params <= s'.params
    ensures SendsHandles(s, other, mapping, s', Moved(s, other, mapping))
  {
    hide MergeParams, QubitMap, VarMap, ValueMap, HasDuplicates, Widened;
    var s1 := Widened(s, other, mapping);
    MergedResolve(s1, other.params);
    var places := MergeParams(s1, other.params).1;
    var r := Moved(s, other, mapping);
    forall k | 0 <= k < |other.values|
      ensures r.Value(other.Value(k)) == s'.Value(|s.values| + k)
    {
      MovedValue(s, other, r, s', k);
    }
    forall k | 0 <= k < |other.vars|
      ensures r.Var(other.Var(k)) == s'.Var(|s.vars| + k)
    {
      MovedVar(s, other, r, s', k);
    }
    if !HasDuplicates(other.qubits) {
      ComposedQubits(s, other, mapping, places);
    }
  }

  /**
   Composing two valid circuits succeeds and gives a valid circuit: the first one's operations, then
   the second's renamed. The first one's qubits and parameters stay where they were, unknown qubits are
   added in order, the tables are appended, the phases are added, and the result can be composed,
   cloned or edited again.
   */
  lemma ComposeIsValid(s: Draft, other: Draft, mapping: Option<seq<nat>>, add: Adder)
    requires TopValid(s) && TopValid(other) && OwnFields(s) && OwnFields(other)
    requires mapping.Some? ==> |mapping.value| == |other.qubits| && FirstMissing(mapping.value, s.qubits).None?
    ensures var (s', e) := Compose(s, other, mapping, add);
            && e.None? && TopValid(s') && OwnFields(s') && s'.id == s.id
            && (!HasDuplicates(other.qubits) ==>
                  s'.qubits == if mapping.Some? then s.qubits else s.qubits + Unknown(s.qubits, other.qubits))
            && s'.ops == s.ops + RenameOps(other.ops, Moved(s, other, mapping))
            && s'.vars == s.vars + other.vars && s'.values == s.values + other.values
            && s.params <= s'.params && PhasesAdded(s, other, s', add)
            && SendsHandles(s, other, mapping, s', Moved(s, other, mapping))
  {
    hide Compose, MergeParams, RenameOps, WellMade, TopValid, PhasesAdded, SendsHandles, Moved, HasDuplicates;
    ComposeSteps(s, other, mapping, add);
    HandlesSent(s, other, mapping, Compose(s, other, mapping, add).0);
    if !HasDuplicates(other.qubits) {
      MergedInOrder(s.qubits, other.qubits);
    }
  }

  /** A mapping of the wrong length or to a qubit that is not there is refused, and nothing changes; otherwise composing succeeds. */
  lemma ComposeExactlyWhen(s: Draft, other: Draft, mapping: Option<seq<nat>>, add: Adder)
    requires TopValid(s) && TopValid(other) && OwnFields(s) && OwnFields(other)
    ensures Compose(s, other, mapping, add).1.None?
       <==> mapping.None? || (|mapping.value| == |other.qubits| && forall q | q in mapping.value :: q in s.qubits)
    ensures Compose(s, other, mapping, add).1.Some? ==> Compose(s, other, mapping, add).0 == s
  {
    hide TopValid, WellMade, MergeParams, RemapOps, RenameOps, MergePhase, QubitMap, VarMap, ValueMap;
    if mapping.Some? {
      AppendMeaning.FirstMissingExactly(mapping.value, s.qubits);
    }
    if mapping.None? || (|mapping.value| == |other.qubits| && FirstMissing(mapping.value, s.qubits).None?) {
      ComposeIsValid(s, other, mapping, add);
    }
  }

  lemma SamePhases(s: Draft, other: Draft, t: Draft, s': Draft, add: Adder)
    requires (s.phase.Index? ==> s.phase.index < |s.params|) && (other.phase.Index? ==> other.phase.index < |other.params|)
    requires PhasesAdded(s, other, t, add) && s'.phase == t.phase && s'.params == t.params
    ensures PhasesAdded(s, other, s', add)
  {
  }

  /** The second circuit's qubits and parameters land in the tables of the composition. */
  lemma ComposedFields(s: Draft, other: Draft, mapping: Option<seq<nat>>, places: seq<Param>, s': Draft)
    requires mapping.Some? ==> |mapping.value| == |other.qubits| && FirstMissing(mapping.value, s.qubits).None?
    requires |places| == |other.params| && s'.qubits == Widened(s, other, mapping).qubits
    requires forall k | 0 <= k < |places| :: places[k].Index? && places[k].index < |s'.params|
    ensures FieldsGo(ComposeMap(s, other, mapping, places), set q | q in other.qubits, |other.params|,
                     set q | q in s'.qubits, |s'.params|)
  {
    hide VarMap, ValueMap;
    var targets := if mapping.Some? then mapping.value else other.qubits;
    if mapping.Some? {
      AppendMeaning.FirstMissingExactly(mapping.value, s.qubits);
    }
    assert forall q | q in targets :: q in s'.qubits;
  }

  /** Each of the other circuit's qubits goes to the qubit at its position of the mapping, or to itself. */
  lemma ComposedQubits(s: Draft, other: Draft, mapping: Option<seq<nat>>, places: seq<Param>)
    requires !HasDuplicates(other.qubits) && (mapping.Some? ==> |mapping.value| == |other.qubits|)
    ensures forall k | 0 <= k < |other.qubits| ::
              ComposeMap(s, other, mapping, places).Qubit(other.qubits[k]) == if mapping.Some? then mapping.value[k] else other.qubits[k]
  {
    hide QubitMap, VarMap, ValueMap, HasDuplicates;
    var targets := if mapping.Some? then mapping.value else other.qubits;
    forall k | 0 <= k < |other.qubits|
      ensures ComposeMap(s, other, mapping, places).Qubit(other.qubits[k]) == targets[k]
    {
      QubitMapAt(other.qubits, targets, k);
    }
  }

  lemma MovedVar(s: Draft, other: Draft, r: Renaming, s': Draft, k: nat)
    requires r.vars == VarMap(other, s.id, |s.vars|) && s'.id == s.id && s'.vars == s.vars + other.vars && k < |other.vars|
    ensures r.Var(other.Var(k)) == s'.Var(|s.vars| + k)
  {
    assert other.Handles().OwnsVar(other.Var(k));
  }

  lemma MovedValue(s: Draft, other: Draft, r: Renaming, s': Draft, k: nat)
    requires r.values == ValueMap(other, s.id, |s.values|) && s'.id == s.id && s'.values == s.values + other.values && k < |other.values|
    ensures r.Value(other.Value(k)) == s'.Value(|s.values| + k)
  {
    assert other.Handles().OwnsValue(other.Value(k));
  }

  /** A valid circuit followed by another valid one, renamed past its tables. */
  lemma SequenceIsValid(s: Draft, other: Draft, r: Renaming, s': Draft)
    requires TopValid(s) && TopValid(other) && Constructible(other.ops) && FieldsReady(other.ops, r)
    requires r.vars == VarMap(other, s.id, |s.vars|) && r.values == ValueMap(other, s.id, |s.values|)
    requires s'.id == s.id && s'.scopes == s.scopes && s'.vars == s.vars + other.vars && s'.values == s.values + other.values
    requires s'.ops == s.ops + RenameOps(other.ops, r)
    ensures RemapOps(other.ops, r) == Ok(RenameOps(other.ops, r)) && TopValid(s')
  {
    hide Verify, Results, RemapOps, RenameOps, Constructible, FieldsReady, TopValid, VarMap, ValueMap, Typed;
    MapsAreSafe(other, s.id, |s.vars|, |s.values|, r.qubits, r.params);
    MapsBetween(s, other, r, s');
    RenamedIsVerified(other, r, s'.Handles());
    TopScopes(s);
    ValidMeans(s);
    VerifyGrows(s.ops, s.Handles(), s'.Handles(), Verifier.State({}, {}), Verifier.Placing(false, false));
    ComposedDistinct(s, other, r);
    VerifyConcat(s.ops, RenameOps(other.ops, r), s'.Handles());
    forall k | 0 <= k < |s'.values|
      ensures s'.Value(k) in Results(s'.ops)
    {
      if k < |s.values| {
        assert s'.Value(k) == s.Value(k);
      } else {
        MovedValue(s, other, r, s', k - |s.values|);
      }
    }
    ValidMeans(s');
  }

  lemma MapsBetween(s: Draft, other: Draft, r: Renaming, s': Draft)
    requires r.vars == VarMap(other, s.id, |s.vars|) && r.values == ValueMap(other, s.id, |s.values|)
    requires s'.id == s.id && s'.vars == s.vars + other.vars && s'.values == s.values + other.values
    ensures r.Between(other.Handles(), s'.Handles())
    ensures (forall v | other.Handles().OwnsVar(v) :: v in r.vars) && (forall v | other.Handles().OwnsValue(v) :: v in r.values)
  {
    hide r.Between;
    var h, h' := other.Handles(), s'.Handles();
    var vars, values := VarMap(other, s.id, |s.vars|), ValueMap(other, s.id, |s.values|);
    hide VarMap, ValueMap;
    forall v | v in vars
      ensures h.OwnsVar(v) && h'.OwnsVar(vars[v])
    {
    }
    forall v | v in values
      ensures h.OwnsValue(v) && h'.OwnsValue(values[v])
    {
    }
    BetweenMeans(r, h, h');
  }

  lemma BetweenMeans(r: Renaming, h: Handles, h': Handles)
    requires forall v | v in r.vars :: h.OwnsVar(v) && h'.OwnsVar(r.vars[v])
    requires forall v | v in r.values :: h.OwnsValue(v) && h'.OwnsValue(r.values[v])
    ensures r.Between(h, h')
  {
  }

  lemma TopScopes(s: Draft)
    requires TopValid(s)
    ensures s.scopes == []
  {
  }

  /** The second circuit's values land past the first one's. */
  lemma ComposedDistinct(s: Draft, other: Draft, r: Renaming)
    requires TopValid(s) && TopValid(other) && r.values == ValueMap(other, s.id, |s.values|)
    ensures forall v | v in Results(RenameOps(other.ops, r)) :: v !in Results(s.ops)
  {
    hide Verify, Results, RenameOps, Typed;
    var st, p := Verifier.State({}, {}), Verifier.Placing(false, false);
    VerifyCharacterised(s.ops, s.Handles(), st, p);
    VerifyCharacterised(other.ops, other.Handles(), st, p);
    ResultsRenamed(other.ops, r);
    forall v | v in Results(RenameOps(other.ops, r))
      ensures v !in Results(s.ops)
    {
      var k :| 0 <= k < |Results(other.ops)| && RenameValues(Results(other.ops), r)[k] == v;
      var w := Results(other.ops)[k];
      assert w in Results(other.ops);
      ResultsOwned(other.ops, other.Handles(), w);
      if v in Results(s.ops) {
        ResultsOwned(s.ops, s.Handles(), v);
      }
    }
  }
}
