/**
 From a control-flow graph back to a circuit: the rebuilt operations are lowered and appended to a new
 circuit with the checks of an append, and the result is validated. For circuits made by callbacks
 no check fails, and the result is a valid circuit structurally equal to the one that was expanded.
 */
module Rebuilding {
  import opened Prelude
  import opened Ir
  import opened Placement
  import opened Verifier
  import opened Builder
  import opened BuilderReach
  import opened Renaming
  import opened RenamingInvariance
  import opened Composition
  import opened Rechecking
  import opened Lowering
  import BuilderBuilt
  import BuilderSafety
  import CfgGraph
  import CfgParse
  import CfgRoundTrip

  // ---- the rebuild ------------------------------------------------------------------------------------

  /** Lowers one operation and appends it with every check but the verification of the whole circuit. */
  function AppendLowered(d: Draft, op: Operation, from: Table, arities: Arities): Result<Draft, RebuildError> {
    var (instruction, t1) :- LowerInstruction(op.instruction, from, d.params);
    var e := PreCheck(d, instruction, ArityOf(arities, instruction), op.qubits, |op.params|);
    if e.Some? then Err(NotAppended(e.value))
    else
      var (ps, t) :- LowerParams(op.params, from, t1);
      Ok(d.(params := t, symbols := SymbolsOf(t), ops := d.ops + [Operation(instruction, op.qubits, ps, op.tag)]))
  }

  function AppendAll(d: Draft, ops: seq<Operation>, from: Table, arities: Arities): Result<Draft, RebuildError>
    decreases |ops|
  {
    if ops == [] then Ok(d)
    else
      var d1 :- AppendLowered(d, ops[0], from, arities);
      AppendAll(d1, ops[1..], from, arities)
  }

  /** The symbols recorded while the parameters were interned one by one. */
  function SymbolsOf(table: Table): seq<string> {
    if table == [] then [] else InternedAll(SymbolsOf(table[..|table| - 1]), table[|table| - 1].symbols)
  }

  predicate Mixed(ids: set<nat>) {
    exists i, j | i in ids && j in ids :: i != j
  }

  function TheOne(ids: set<nat>): nat
    requires ids != {} && !Mixed(ids)
  {
    var i :| i in ids;
    i
  }

  /** The identity of the handles, or a new one when there are none. */
  function IdentityOf(ids: set<nat>, newId: nat): nat
    requires !Mixed(ids)
  {
    if ids == {} then newId else TheOne(ids)
  }

  /** Every parameter, at any depth, is in the table. */
  predicate ParamsKnown(ops: seq<Operation>, n: nat)
    decreases ops
  {
    forall k | 0 <= k < |ops| :: ParamsKnownIn(ops[k], n)
  }

  predicate ParamsKnownIn(op: Operation, n: nat)
    decreases op
  {
    && ParamsIn(op.params, n)
    && (op.instruction.Control? ==>
          forall k | 0 <= k < |Bodies(op.instruction.control)| :: ParamsKnown(Bodies(op.instruction.control)[k], n))
  }

  /** A phase that has a value is stored as a number. */
  function SetPhase(d: Draft, p: Parameter): Draft {
    if p.number.Some? then d.(phase := Fixed(p.number.value))
    else
      var d1 := AddParameter(d, p);
      d1.(phase := Index(IndexOf(d1.params, p)))
  }

  /**
   A circuit from operations whose parameters are looked up in `from`: the tables are installed, the
   operations appended one by one, and everything is validated at the end.
   */
  function Rebuild(qubits: seq<nat>, ops: seq<Operation>, from: Table, vars: seq<ClassicalType>, values: seq<ClassicalType>,
                   phase: Param, newId: nat, arities: Arities): Result<Draft, RebuildError> {
    if HasDuplicates(qubits) then Err(NotAppended(DuplicateQubits))
    else if Mixed(Identities(ops)) then Err(MixedIdentities)
    else
      var d :- AppendAll(New(IdentityOf(Identities(ops), newId), qubits).(vars := vars, values := values), ops, from, arities);
      if !ParamsKnown(d.ops, |d.params|) || !Valid(d.ops, d.Handles()) then Err(NotValid)
      else if phase.Index? && phase.index >= |from| then Err(UnknownParameter(phase.index))
      else Ok(SetPhase(d, Resolved(phase, from)))
  }

  // ---- dropping the fields of transfers changes no judgement ----------------------------------------------

  lemma {:induction false} NormalizedAt(ops: seq<Operation>, k: nat)
    requires k < |ops|
    ensures CfgParse.Normalize(ops)[k] == CfgParse.NormalizeOp(ops[k])
    decreases |ops|
  {
    if k > 0 {
      NormalizedAt(ops[1..], k - 1);
    }
  }

  lemma {:induction false} NormalizedCaseAt(cases: seq<SwitchCase>, k: nat)
    requires k < |cases|
    ensures CfgParse.NormalizeCases(cases)[k] == CfgParse.NormalizeCase(cases[k])
    decreases |cases|
  {
    if k > 0 {
      NormalizedCaseAt(cases[1..], k - 1);
    }
  }

  lemma NormalizedShape(c: ControlOp)
    ensures var c' := CfgParse.NormalizeControl(c);
            && Heads(c') == Heads(c) && |Bodies(c')| == |Bodies(c)| && (forall p :: Enter(p, c') == Enter(p, c))
            && (c'.For? <==> c.For?) && (c.For? ==> c'.loopVar == c.loopVar)
            && (c'.Break? <==> c.Break?) && (c'.Continue? <==> c.Continue?)
            && forall k | 0 <= k < |Bodies(c)| :: Bodies(c')[k] == CfgParse.Normalize(Bodies(c)[k])
  {
    hide CfgParse.Normalize;
    if c.Switch? {
      forall k | 0 <= k < |Bodies(c)|
        ensures Bodies(CfgParse.NormalizeControl(c))[k] == CfgParse.Normalize(Bodies(c)[k])
      {
        if k < |c.cases| {
          NormalizedCaseAt(c.cases, k);
        }
      }
    }
  }

  lemma {:induction false} VerifyNormalized(ops: seq<Operation>, h: Handles, st: Verifier.State, p: Placing)
    ensures Verify(CfgParse.Normalize(ops), h, st, p) == Verify(ops, h, st, p)
    decreases ops
  {
    hide VerifyOp, CfgParse.NormalizeOp;
    if ops != [] {
      VerifyOpNormalized(ops[0], h, st, p, |ops| == 1);
      var r := VerifyOp(ops[0], h, st, p, |ops| == 1);
      assert CfgParse.Normalize(ops)[1..] == CfgParse.Normalize(ops[1..]);
      if r.Ok? {
        VerifyNormalized(ops[1..], h, r.value, p);
      }
    }
  }

  lemma {:induction false} VerifyOpNormalized(op: Operation, h: Handles, st: Verifier.State, p: Placing, last: bool)
    ensures VerifyOp(CfgParse.NormalizeOp(op), h, st, p, last) == VerifyOp(op, h, st, p, last)
    decreases op
  {
    hide VerifyControl, VerifyData, CfgParse.NormalizeControl;
    if Structured(op) {
      VerifyControlNormalized(op.instruction.control, h, st, p);
      NormalizedShape(op.instruction.control);
      assert CfgParse.NormalizeOp(op).instruction == Control(CfgParse.NormalizeControl(op.instruction.control));
    }
  }

  lemma {:induction false} VerifyControlNormalized(c: ControlOp, h: Handles, st: Verifier.State, p: Placing)
    ensures VerifyControl(CfgParse.NormalizeControl(c), h, st, p) == VerifyControl(c, h, st, p)
    decreases c, |Bodies(c)| + 1
  {
    hide VerifyBodies, VerifyHeads, CfgParse.NormalizeControl, Enter;
    NormalizedShape(c);
    VerifyBodiesNormalized(c, 0, h, st, Enter(p, c));
  }

  lemma {:induction false} VerifyBodiesNormalized(c: ControlOp, k: nat, h: Handles, st: Verifier.State, p: Placing)
    requires k <= |Bodies(c)|
    ensures |Bodies(CfgParse.NormalizeControl(c))| == |Bodies(c)|
    ensures VerifyBodies(CfgParse.NormalizeControl(c), k, h, st, p) == VerifyBodies(c, k, h, st, p)
    decreases c, |Bodies(c)| - k
  {
    hide Verify, CfgParse.NormalizeControl, CfgParse.Normalize;
    NormalizedShape(c);
    if k < |Bodies(c)| {
      VerifyNormalized(Bodies(c)[k], h, st, p);
      var r := Verify(Bodies(c)[k], h, st, p);
      if r.Ok? {
        VerifyBodiesNormalized(c, k + 1, h, st.(defined := r.value.defined), p);
      }
    }
  }

  lemma {:induction false} WellMadeNormalized(ops: seq<Operation>, qubits: set<nat>, n: nat)
    requires WellMade(ops, qubits, n)
    ensures WellMade(CfgParse.Normalize(ops), qubits, n)
    decreases ops
  {
    hide WellMadeOp, CfgParse.Normalize, CfgParse.NormalizeOp;
    forall k | 0 <= k < |ops|
      ensures WellMadeOp(CfgParse.Normalize(ops)[k], qubits, n)
    {
      NormalizedAt(ops, k);
      WellMadeOpNormalized(ops[k], qubits, n);
    }
  }

  lemma {:induction false} WellMadeOpNormalized(op: Operation, qubits: set<nat>, n: nat)
    requires WellMadeOp(op, qubits, n)
    ensures WellMadeOp(CfgParse.NormalizeOp(op), qubits, n)
    decreases op
  {
    if Structured(op) {
      var c := op.instruction.control;
      NormalizedShape(c);
      CfgParse.NormalizeAccepted(c);
      forall k | 0 <= k < |Bodies(c)|
        ensures WellMade(CfgParse.Normalize(Bodies(c)[k]), qubits, n)
      {
        WellMadeNormalized(Bodies(c)[k], qubits, n);
      }
      assert CfgParse.NormalizeOp(op).instruction == Control(CfgParse.NormalizeControl(c));
    }
  }

  // ---- appending again --------------------------------------------------------------------------------------

  lemma {:induction false} BodyNormalizes(ops: seq<Operation>, s: Draft, p: Placing)
    requires CheckBody(ops, s, p).None?
    ensures CheckBody(CfgParse.Normalize(ops), s, p).None?
    decreases ops
  {
    hide CheckBodyOp, CfgParse.NormalizeOp;
    if ops != [] {
      BodyOpNormalizes(ops[0], s, p);
      BodyNormalizes(ops[1..], s, p);
      assert CfgParse.Normalize(ops)[1..] == CfgParse.Normalize(ops[1..]);
    }
  }

  lemma {:induction false} BodyOpNormalizes(op: Operation, s: Draft, p: Placing)
    requires CheckBodyOp(op, s, p).None?
    ensures CheckBodyOp(CfgParse.NormalizeOp(op), s, p).None?
    decreases op
  {
    hide CheckControl, CheckData, CfgParse.NormalizeControl;
    if Structured(op) {
      ControlNormalizes(op.instruction.control, s, p);
      assert CfgParse.NormalizeOp(op) == op.(instruction := Control(CfgParse.NormalizeControl(op.instruction.control)));
    } else if op.instruction.Control? {
      assert CfgParse.NormalizeOp(op).instruction == op.instruction;
    }
  }

  lemma {:induction false} ControlNormalizes(c: ControlOp, s: Draft, p: Placing)
    requires CheckControl(c, s, p).None?
    ensures CheckControl(CfgParse.NormalizeControl(c), s, p).None?
    decreases c, |Bodies(c)| + 1
  {
    hide CheckBodies, CheckHeads, Enter, CfgParse.NormalizeControl;
    NormalizedShape(c);
    if c.Break? || c.Continue? {
      TransferNormalizes(c);
    } else {
      BodiesNormalize(c, 0, s, Enter(p, c));
    }
  }

  lemma TransferNormalizes(c: ControlOp)
    requires c.Break? || c.Continue?
    ensures CfgParse.NormalizeControl(c) == c
  {
  }

  lemma {:induction false} BodiesNormalize(c: ControlOp, k: nat, s: Draft, p: Placing)
    requires k <= |Bodies(c)| && CheckBodies(c, k, s, p).None?
    ensures |Bodies(CfgParse.NormalizeControl(c))| == |Bodies(c)|
    ensures CheckBodies(CfgParse.NormalizeControl(c), k, s, p).None?
    decreases c, |Bodies(c)| - k
  {
    hide CheckBody, CfgParse.NormalizeControl, CfgParse.Normalize;
    NormalizedShape(c);
    if k < |Bodies(c)| {
      BodyNormalizes(Bodies(c)[k], s, p);
      BodiesNormalize(c, k + 1, s, p);
    }
  }

  lemma {:induction false} BodyRelocates(ops: seq<Operation>, d: Draft, p: Placing, from: Table, final: Table)
    ensures CheckBody(RenameOps(ops, Relocation(from, final)), d, p) == CheckBody(ops, d, p)
    decreases ops
  {
    hide CheckBodyOp, RenameOp, Relocation;
    if ops != [] {
      BodyOpRelocates(ops[0], d, p, from, final);
      BodyRelocates(ops[1..], d, p, from, final);
      assert RenameOps(ops, Relocation(from, final))[1..] == RenameOps(ops[1..], Relocation(from, final));
    }
  }

  lemma {:induction false} BodyOpRelocates(op: Operation, d: Draft, p: Placing, from: Table, final: Table)
    ensures CheckBodyOp(RenameOp(op, Relocation(from, final)), d, p) == CheckBodyOp(op, d, p)
    decreases op
  {
    hide CheckControl, CheckData, RenameControl, Relocation, FirstMissing;
    QubitsStay(op.qubits, from, final);
    if op.instruction.Data? {
      DataStays(op.instruction.data, from, final);
    } else if op.instruction.Control? {
      ControlRelocates(op.instruction.control, d, p, from, final);
      assert RenameOp(op, Relocation(from, final)).instruction == Control(RenameControl(op.instruction.control, Relocation(from, final)));
    }
  }

  lemma {:induction false} ControlRelocates(c: ControlOp, d: Draft, p: Placing, from: Table, final: Table)
    ensures CheckControl(RenameControl(c, Relocation(from, final)), d, p) == CheckControl(c, d, p)
    decreases c, |Bodies(c)| + 1
  {
    hide CheckBodies, CheckHeads, RenameControl, Relocation;
    var r := Relocation(from, final);
    ControlShape(c, r);
    HeadsStay(Heads(c), from, final);
    if c.For? {
      VarStays(c.loopVar, from, final);
    }
    assert Enter(p, RenameControl(c, r)) == Enter(p, c) by { SameEntry(c, r, p); }
    BodiesRelocate(c, 0, d, Enter(p, c), from, final);
  }

  lemma {:induction false} BodiesRelocate(c: ControlOp, k: nat, d: Draft, p: Placing, from: Table, final: Table)
    requires k <= |Bodies(c)|
    ensures |Bodies(RenameControl(c, Relocation(from, final)))| == |Bodies(c)|
    ensures CheckBodies(RenameControl(c, Relocation(from, final)), k, d, p) == CheckBodies(c, k, d, p)
    decreases c, |Bodies(c)| - k
  {
    hide CheckBody, RenameControl, RenameOps, Relocation;
    ControlShape(c, Relocation(from, final));
    if k < |Bodies(c)| {
      BodyRelocates(Bodies(c)[k], d, p, from, final);
      BodiesRelocate(c, k + 1, d, p, from, final);
    }
  }

  /** An operation that passes the checks still passes them without the fields the graph drops. */
  lemma NormalizedRechecks(op: Operation, s: Draft, arities: Arities)
    requires Rechecks(op, s, arities) && s.scopes == []
    ensures Rechecks(CfgParse.NormalizeOp(op), s, arities)
    ensures CfgParse.NormalizeOp(op).qubits == op.qubits && CfgParse.NormalizeOp(op).params == op.params
  {
    hide CheckControl, CheckData, FirstMissing, HasDuplicates, CfgParse.NormalizeControl;
    if op.instruction.Control? {
      var c := op.instruction.control;
      NoTransferOutside(c, s);
      ControlNormalizes(c, s, s.Placing());
      assert CfgParse.NormalizeOp(op) == op.(instruction := Control(CfgParse.NormalizeControl(c)));
    }
  }

  lemma NoTransferOutside(c: ControlOp, s: Draft)
    requires s.scopes == [] && CheckControl(c, s, s.Placing()).None?
    ensures !c.Break? && !c.Continue?
  {
  }

  /** The checks made when the relocated operation is appended. */
  lemma LoweredRechecks(op: Operation, s: Draft, d: Draft, from: Table, final: Table, arities: Arities)
    requires Rechecks(op, s, arities) && Moves(s, d, OpIds(op)) && d.scopes == s.scopes
    ensures var i := RenameInstruction(op.instruction, Relocation(from, final));
            PreCheck(d, i, ArityOf(arities, i), op.qubits, |op.params|).None?
  {
    hide PreCheck, OpIds, Relocation, RenameControl;
    PreCheckPasses(s, d, op.instruction, ArityOf(arities, op.instruction), op.qubits, |op.params|, OpIds(op)) by {
      SameIds(op);
    }
    if op.instruction.Control? {
      ControlRelocates(op.instruction.control, d, d.Placing(), from, final);
      ControlPreCheck(d, op.instruction.control, RenameControl(op.instruction.control, Relocation(from, final)), op.qubits, |op.params|);
    } else if op.instruction.Data? {
      DataStays(op.instruction.data, from, final);
    }
  }

  lemma SameIds(op: Operation)
    ensures OpIds(Operation(op.instruction, op.qubits, [], None)) == OpIds(op)
  {
  }

  lemma ControlPreCheck(d: Draft, c: ControlOp, c': ControlOp, qubits: seq<nat>, n: nat)
    requires CheckControl(c', d, d.Placing()) == CheckControl(c, d, d.Placing())
    ensures PreCheck(d, Control(c'), None, qubits, n) == PreCheck(d, Control(c), None, qubits, n)
  {
    hide CheckControl;
  }

  /** Appending one operation gives the lowered one when it passes the checks somewhere the draft is moved from. */
  lemma OneAppended(d: Draft, op: Operation, from: Table, final: Table, s: Draft, qubits: set<nat>, arities: Arities)
    requires WellMadeOp(op, qubits, |from|) && LowerOp(op, from, d.params).Ok? && LowerOp(op, from, d.params).value.1 <= final
    requires Moves(s, d, OpIds(op)) && d.scopes == s.scopes && Rechecks(op, s, arities)
    ensures var (op', t) := LowerOp(op, from, d.params).value;
            AppendLowered(d, op, from, arities) == Ok(d.(params := t, symbols := SymbolsOf(t), ops := d.ops + [op']))
  {
    hide LowerInstruction, LowerParams, RenameInstruction, PreCheck, Rechecks, Relocation, WellMadeOp, OpIds, SymbolsOf;
    InstructionRelocated(op, from, d.params, final, qubits);
    var (i, t0) := LowerInstruction(op.instruction, from, d.params).value;
    WellMadeParams(op, qubits, |from|);
    ParamsRelocated(op.params, from, t0, final);
    LoweredRechecks(op, s, d, from, final, arities);
  }

  /** Appending the operations gives the lowered ones, in the relocated table. */
  lemma {:induction false} AllAppended(d: Draft, ops: seq<Operation>, from: Table, final: Table, s: Draft, qubits: set<nat>, arities: Arities)
    requires WellMade(ops, qubits, |from|) && LowerOps(ops, from, d.params).Ok? && LowerOps(ops, from, d.params).value.1 <= final
    requires Moves(s, d, Identities(ops)) && d.scopes == s.scopes && d.symbols == SymbolsOf(d.params)
    requires forall k | 0 <= k < |ops| :: Rechecks(ops[k], s, arities)
    ensures var (ops', t) := LowerOps(ops, from, d.params).value;
            AppendAll(d, ops, from, arities) == Ok(d.(params := t, symbols := SymbolsOf(t), ops := d.ops + ops'))
    decreases |ops|
  {
    hide LowerOp, AppendLowered, Rechecks, WellMadeOp, WellMade, OpIds, SymbolsOf;
    if ops == [] {
      assert d.ops + [] == d.ops;
    } else {
      var op, rest := ops[0], ops[1..];
      assert WellMadeOp(op, qubits, |from|) by { HeadWellMade(ops, qubits, |from|); }
      var (op', t1) := LowerOp(op, from, d.params).value;
      TailWellMade(ops, qubits, |from|);
      OpsRelocated(rest, from, t1, final, qubits);
      OneAppended(d, op, from, final, s, qubits, arities);
      var d1 := d.(params := t1, symbols := SymbolsOf(t1), ops := d.ops + [op']);
      AllAppended(d1, rest, from, final, s, qubits, arities);
      var rest' := LowerOps(rest, from, t1).value.0;
      assert (d.ops + [op']) + rest' == d.ops + ([op'] + rest');
    }
  }

  lemma HeadWellMade(ops: seq<Operation>, qubits: set<nat>, n: nat)
    requires ops != [] && WellMade(ops, qubits, n)
    ensures WellMadeOp(ops[0], qubits, n)
  {
  }

  lemma WellMadeParams(op: Operation, qubits: set<nat>, n: nat)
    requires WellMadeOp(op, qubits, n)
    ensures ParamsIn(op.params, n)
  {
  }

  /** A tree whose parameters are in the old table has its relocated parameters in the new one. */
  lemma {:induction false} EqualParamsKnown(a: seq<Operation>, b: seq<Operation>, ps: Table, qs: Table)
    requires OpsEqual(a, b, ps, qs)
    ensures ParamsKnown(a, |ps|)
    decreases a
  {
    hide OperationsEqual, ParamsKnownIn;
    forall k | 0 <= k < |a|
      ensures ParamsKnownIn(a[k], |ps|)
    {
      EqualParamsKnownIn(a[k], b[k], ps, qs);
    }
  }

  lemma {:induction false} EqualParamsKnownIn(a: Operation, b: Operation, ps: Table, qs: Table)
    requires OperationsEqual(a, b, ps, qs)
    ensures ParamsKnownIn(a, |ps|)
    decreases a
  {
    hide OpsEqual, ParamsKnown;
    forall p | p in a.params
      ensures p.Index? ==> p.index < |ps|
    {
      var k :| 0 <= k < |a.params| && a.params[k] == p;
      assert ParamsEqual(a.params[k], b.params[k], ps, qs);
    }
    if a.instruction.Control? {
      var c := a.instruction.control;
      forall k | 0 <= k < |Bodies(c)|
        ensures ParamsKnown(Bodies(c)[k], |ps|)
      {
        var body := EqualBodies(c, b.instruction.control, ps, qs, k);
        EqualParamsKnown(Bodies(c)[k], body, ps, qs);
      }
    }
  }

  lemma EqualBodies(c: ControlOp, d: ControlOp, ps: Table, qs: Table, k: nat) returns (body: seq<Operation>)
    requires ControlEqual(c, d, ps, qs) && k < |Bodies(c)|
    ensures OpsEqual(Bodies(c)[k], body, ps, qs)
  {
    hide OpsEqual, ExprsEqual;
    body := Bodies(d)[k];
  }

  // ---- the theorem -------------------------------------------------------------------------------------------

  /** What comes back from the graph of `s`. */
  predicate ComesBack(s: Draft, d: Draft) {
    && d.qubits == s.qubits && d.vars == s.vars && d.values == s.values && d.scopes == []
    && TopValid(d) && OpsEqual(d.ops, CfgParse.Normalize(s.ops), d.params, s.params)
    && SamePhase(s, d)
  }

  /** The phase stands for the same parameter, or for its value if it has one. */
  predicate SamePhase(s: Draft, d: Draft) {
    match s.phase
    case Fixed(v) => d.phase == Fixed(v)
    case Index(i) =>
      && i < |s.params|
      && match s.params[i].number
         case Some(v) => d.phase == Fixed(v)
         case None => d.phase.Index? && d.phase.index < |d.params| && d.params[d.phase.index] == s.params[i]
  }

  lemma PhaseSet(s: Draft, d: Draft)
    requires (s.phase.Index? ==> s.phase.index < |s.params|)
    ensures var d' := SetPhase(d, Resolved(s.phase, s.params));
            SamePhase(s, d') && d.params <= d'.params && d' == d.(params := d'.params, symbols := d'.symbols, phase := d'.phase)
  {
    var p := Resolved(s.phase, s.params);
    if p.number.None? {
      InternedIn(d.params, p);
      IndexFinds(Interned(d.params, p), p);
    }
  }

  lemma {:induction false} EqualMore(a: seq<Operation>, b: seq<Operation>, ps: Table, more: Table, qs: Table)
    requires OpsEqual(a, b, ps, qs) && ps <= more
    ensures OpsEqual(a, b, more, qs)
    decreases a
  {
    hide OperationsEqual;
    forall k | 0 <= k < |a|
      ensures OperationsEqual(a[k], b[k], more, qs)
    {
      EqualMoreOp(a[k], b[k], ps, more, qs);
    }
  }

  lemma {:induction false} EqualMoreOp(a: Operation, b: Operation, ps: Table, more: Table, qs: Table)
    requires OperationsEqual(a, b, ps, qs) && ps <= more
    ensures OperationsEqual(a, b, more, qs)
    decreases a
  {
    hide OpsEqual, DataEqual;
    if a.instruction.Control? {
      EqualMoreControl(a.instruction.control, b.instruction.control, ps, more, qs);
    }
  }

  lemma {:induction false} EqualMoreControl(c: ControlOp, d: ControlOp, ps: Table, more: Table, qs: Table)
    requires ControlEqual(c, d, ps, qs) && ps <= more
    ensures ControlEqual(c, d, more, qs)
    decreases c
  {
    hide OpsEqual, ExprsEqual;
    match c {
      case If(_, t, els) =>
        EqualMore(t, d.thenBody, ps, more, qs);
        if els.Present? {
          EqualMore(els.ops, d.elseBody.ops, ps, more, qs);
        }
      case While(_, b) => EqualMore(b, d.body, ps, more, qs);
      case For(_, _, _, _, b) => EqualMore(b, d.body, ps, more, qs);
      case Switch(_, cases, els) =>
        forall k | 0 <= k < |cases|
          ensures OpsEqual(cases[k].body, d.cases[k].body, more, qs)
        {
          EqualMore(cases[k].body, d.cases[k].body, ps, more, qs);
        }
        if els.Present? {
          EqualMore(els.ops, d.default.ops, ps, more, qs);
        }
      case Break =>
      case Continue =>
    }
  }

  /** A valid tree is valid under another identity when it mentions no handle. */
  lemma ValidMoves(ops: seq<Operation>, h: Handles, id: nat)
    requires Valid(ops, h) && (id == h.id || Identities(ops) == {})
    ensures Valid(ops, h.(id := id))
  {
    hide Verify, Typed, Placed, Scoped, Fresh, Results, Identities;
    var h' := h.(id := id);
    if id != h.id {
      var st, p := Verifier.State({}, {}), Verifier.Placing(false, false);
      VerifyCharacterised(ops, h, st, p);
      VerifyCharacterised(ops, h', st, p);
      TypedMoves(ops, h, h', {});
      if h.values != [] {
        var v := ClassicalValue(h.id, 0, h.values[0]);
        assert v in ToSet(Results(ops));
        ResultIds(ops, v);
      }
    }
  }

  /**
   Rebuilding succeeds for every valid circuit whose fields are its own and whose operations pass the
   checks of an append: no check fails again, and the circuit comes back.
   */
  lemma RebuildSucceeds(s: Draft, newId: nat, arities: Arities)
    requires TopValid(s) && OwnFields(s) && AllRecheck(s, arities) && !HasDuplicates(s.qubits)
    ensures var r := Rebuild(s.qubits, CfgParse.Normalize(s.ops), s.params, s.vars, s.values, s.phase, newId, arities);
            r.Ok? && ComesBack(s, r.value) && (r.value.id == s.id || (Identities(CfgParse.Normalize(s.ops)) == {} && r.value.id == newId))
  {
    hide Verify, WellMade, LowerOps, RenameOps, Relocation, OpsEqual, CfgParse.Normalize, HasDuplicates, Identities, Rechecks, AppendAll,
         Reaches, SetPhase, SamePhase, ParamsKnown, SymbolsOf, Valid;
    var ops, h := CfgParse.Normalize(s.ops), s.Handles();
    var qubits := set q | q in s.qubits;
    var ids := Identities(ops);
    NormalizedFacts(s, arities);
    OneIdentity(ops, h);
    var id := IdentityOf(ids, newId);
    assert id == s.id || (ids == {} && id == newId);
    var d0 := New(id, s.qubits).(vars := s.vars, values := s.values);
    OpsRelocated(ops, s.params, [], [], qubits);
    var (ops', t) := LowerOps(ops, s.params, []).value;
    OpsRelocated(ops, s.params, [], t, qubits);
    StartMoves(s, d0, ids);
    AllAppended(d0, ops, s.params, t, s, qubits, arities);
    var d := d0.(params := t, symbols := SymbolsOf(t), ops := ops');
    assert d0.ops + ops' == ops';
    EqualParamsKnown(ops', ops, t, s.params);
    ValidMoves(ops, h, id);
    RelocatedIsValid(ops, h.(id := id), s.params, t);
    PhaseSet(s, d);
    var d' := SetPhase(d, Resolved(s.phase, s.params));
    EqualMore(ops', ops, t, d'.params, s.params);
  }

  lemma StartMoves(s: Draft, d0: Draft, ids: set<nat>)
    requires d0.qubits == s.qubits && d0.vars == s.vars && d0.values == s.values && d0.params == [] && d0.symbols == []
    requires d0.id == s.id || ids == {}
    ensures Moves(s, d0, ids) && d0.symbols == SymbolsOf(d0.params)
  {
  }

  lemma OneIdentity(ops: seq<Operation>, h: Handles)
    requires Valid(ops, h)
    ensures Identities(ops) <= {h.id} && !Mixed(Identities(ops))
  {
    hide Verify, Typed, Identities;
    VerifyCharacterised(ops, h, Verifier.State({}, {}), Verifier.Placing(false, false));
    TypedIds(ops, h);
  }

  /** The operations without the dropped fields meet the same conditions. */
  lemma NormalizedFacts(s: Draft, arities: Arities)
    requires TopValid(s) && OwnFields(s) && AllRecheck(s, arities)
    ensures var ops := CfgParse.Normalize(s.ops);
            && Valid(ops, s.Handles()) && WellMade(ops, set q | q in s.qubits, |s.params|)
            && forall k | 0 <= k < |ops| :: Rechecks(ops[k], s, arities)
  {
    hide Verify, WellMade, CfgParse.Normalize, CfgParse.NormalizeOp, Rechecks;
    WellMadeNormalized(s.ops, set q | q in s.qubits, |s.params|);
    VerifyNormalized(s.ops, s.Handles(), Verifier.State({}, {}), Verifier.Placing(false, false));
    var ops := CfgParse.Normalize(s.ops);
    forall k | 0 <= k < |ops|
      ensures Rechecks(ops[k], s, arities)
    {
      NormalizedAt(s.ops, k);
      NormalizedRechecks(s.ops[k], s, arities);
    }
  }

  /**
   Every circuit built by callbacks survives the whole way through its graph: it expands, the graph
   gives its operations back, and rebuilding a circuit from them fails no check and gives a valid
   circuit with the same qubits, tables, phase and operations, every parameter resolving to what it was.
   */
  lemma ReachableRebuilds(id: nat, qubits: seq<nat>, script: Script, newId: nat, arities: Arities)
    requires BuilderBuilt.CallbacksOnly(script) && !HasDuplicates(qubits)
    requires forall k | 0 <= k < |script| :: OwnArities(script[k], arities)
    ensures var s := Exec(New(id, qubits), script).0;
            && CfgGraph.FromOperations(s.ops).Ok?
            && var ops := CfgRoundTrip.ToOperations(CfgGraph.FromOperations(s.ops).value, BuilderBuilt.TablesOf(s), s.phase);
               && ops == Ok(CfgParse.Normalize(s.ops))
               && var r := Rebuild(s.qubits, ops.value, s.params, s.vars, s.values, s.phase, newId, arities);
                  r.Ok? && ComesBack(s, r.value)
  {
    hide Exec, Built, Verify, WellMade, CfgGraph.FromOperations, CfgRoundTrip.ToOperations, CfgParse.Normalize, Rebuild, ComesBack, AllRecheck,
         HasDuplicates, OwnArities;
    var start := New(id, qubits);
    var s := Exec(start, script).0;
    BuilderBuilt.ReachableRoundTrips(id, qubits, script);
    BuilderBuilt.ReachableIsBuilt(id, qubits, script);
    ReachableIsValid(id, qubits, script);
    BuilderSafety.ExecGrows(start, script);
    var t := BuilderBuilt.TablesOf(s);
    BuiltIsWellMade(s.ops, t);
    assert AllRecheck(start, arities) by { NothingToRecheck(start, arities); }
    ScriptRechecks(start, script, arities);
    RebuildSucceeds(s, newId, arities);
  }

  lemma NothingToRecheck(s: Draft, arities: Arities)
    requires s.ops == []
    ensures AllRecheck(s, arities)
  {
  }
}
