/**
 Deleting, composing and rebuilding on the circuit object, with the loops of the implementation, proved
 to compute the edits whose properties are stated elsewhere.
 */
module CircuitEditing {
  import opened Prelude
  import opened Ir
  import opened Verifier
  import opened Builder
  import opened CircuitBuilder
  import opened Renaming
  import opened RenamingInvariance
  import opened Composition
  import opened Deletion
  import opened Lowering
  import opened Rechecking
  import opened Rebuilding
  import BuilderReach
  import BuilderSafety
  import BuilderBuilt

  /** The surviving value types, and where each old value goes. */
  method BuildCompactionMap(s: Draft, gone: set<nat>) returns (compacted: seq<ClassicalType>, renumbering: map<ClassicalValue, ClassicalValue>)
    ensures compacted == Keep(s.values, gone) && renumbering == CompactValues(s, gone)
  {
    compacted, renumbering := [], map[];
    for k := 0 to |s.values|
      invariant compacted + KeepFrom(s.values, gone, k) == Keep(s.values, gone)
      invariant |compacted| == Rank(gone, k)
      invariant forall v :: v in renumbering <==> s.Handles().OwnsValue(v) && v.index < k && v.index !in gone
      invariant forall v | v in renumbering :: renumbering[v] == ClassicalValue(s.id, Rank(gone, v.index), v.ty)
    {
      if k !in gone {
        renumbering := renumbering[ClassicalValue(s.id, k, s.values[k]) := ClassicalValue(s.id, |compacted|, s.values[k])];
        compacted := compacted + [s.values[k]];
      }
    }
  }

  /** Splits the schedule into removed and kept operations. */
  method Partition(ops: seq<Operation>, gone: set<nat>) returns (removed: seq<Operation>, kept: seq<Operation>)
    ensures removed == Pick(ops, gone) && kept == Keep(ops, gone)
  {
    removed, kept := [], [];
    for i := 0 to |ops|
      invariant removed + PickFrom(ops, gone, i) == Pick(ops, gone)
      invariant kept + KeepFrom(ops, gone, i) == Keep(ops, gone)
    {
      if i in gone {
        removed := removed + [ops[i]];
      } else {
        kept := kept + [ops[i]];
      }
    }
  }

  /** Whether any kept operation still reads a removed value. */
  method FindUse(kept: seq<Operation>, removedValues: seq<ClassicalValue>) returns (used: bool)
    ensures used <==> exists v | v in removedValues :: SomeReads(kept, v)
  {
    hide ReadsValue;
    for i := 0 to |kept|
      invariant forall j, v | 0 <= j < i && v in removedValues :: !ReadsValue(kept[j], v)
    {
      for k := 0 to |removedValues|
        invariant forall j | 0 <= j < k :: !ReadsValue(kept[i], removedValues[j])
      {
        if ReadsValue(kept[i], removedValues[k]) {
          assert SomeReads(kept, removedValues[k]);
          return true;
        }
      }
    }
    used := false;
  }

  function Positions(indices: seq<nat>): set<nat> {
    set i | i in indices
  }

  lemma OutOfBounds(s: Draft, gone: set<nat>, bad: nat)
    requires bad in gone && bad >= |s.ops|
    ensures Remove(s, gone) == (s, Err(IndexOutOfBounds))
  {
  }

  method RemoveOperations(c: Circuit, indices: seq<nat>) returns (r: Result<seq<Operation>, RemoveError>)
    modifies c
    ensures (c.Snapshot(), r) == Remove(old(c.Snapshot()), Positions(indices))
  {
    hide Verify, Valid, RemapOps, Keep, Pick, SomeReads, Results, CompactValues;
    var gone: set<nat> := {};
    for i := 0 to |indices|
      invariant gone == set k | k in indices[..i]
    {
      gone := gone + {indices[i]};
    }
    assert indices[..|indices|] == indices;
    assert gone == Positions(indices);
    if gone == {} {
      return Ok([]);
    }
    for i := 0 to |indices|
      invariant forall j | 0 <= j < i :: indices[j] < |c.ops|
    {
      if indices[i] >= |c.ops| {
        var bad := indices[i];
        OutOfBounds(c.Snapshot(), gone, bad);
        return Err(IndexOutOfBounds);
      }
    }
    var removed, kept := Partition(c.ops, gone);
    var used := FindUse(kept, Results(removed));
    if used {
      return Err(ValueStillInUse);
    }
    assert Unused(kept, removed);
    var lost := GoneValues(removed);
    var ops := kept;
    if lost != {} {
      var remapped := RemapOps(kept, CompactMap(c.Snapshot(), lost));
      if remapped.Err? {
        return Err(Remapping(remapped.error));
      }
      ops := remapped.value;
    }
    var values, renumbering := BuildCompactionMap(c.Snapshot(), lost);
    if !Valid(ops, Handles.Handles(c.id, c.vars, values)) {
      return Err(Invalid);
    }
    c.ops := ops;
    c.values := values;
    r := Ok(removed);
  }

  /** Interns the other circuit's parameters one by one. */
  method MergeParameters(c: Circuit, more: seq<Parameter>) returns (places: seq<Param>)
    modifies c
    ensures (c.Snapshot(), places) == MergeParams(old(c.Snapshot()), more)
  {
    places := [];
    var i := 0;
    while i < |more|
      invariant i <= |more|
      invariant MergeParams(old(c.Snapshot()), more).0 == MergeParams(c.Snapshot(), more[i..]).0
      invariant MergeParams(old(c.Snapshot()), more).1 == places + MergeParams(c.Snapshot(), more[i..]).1
    {
      assert more[i..][1..] == more[i + 1..];
      var index := c.Intern(more[i]);
      places := places + [Index(index)];
      i := i + 1;
    }
    assert MergeParams(c.Snapshot(), more[i..]) == (c.Snapshot(), []);
    assert places + [] == places;
  }

  method MergeQubits(c: Circuit, more: seq<nat>)
    modifies c`qubits
    ensures c.qubits == MergedQubits(old(c.qubits), more)
  {
    var i := 0;
    while i < |more|
      invariant i <= |more|
      invariant MergedQubits(old(c.qubits), more) == MergedQubits(c.qubits, more[i..])
    {
      assert more[i..][1..] == more[i + 1..];
      c.qubits := Interned(c.qubits, more[i]);
      i := i + 1;
    }
  }

  /** Adds the other circuit's global phase. */
  method AddPhase(c: Circuit, other: Circuit, add: Adder) returns (e: Option<RemapError>)
    requires c != other
    modifies c
    ensures e.None? ==> MergePhase(old(c.Snapshot()), old(other.Snapshot()), add) == Ok(c.Snapshot())
    ensures e.Some? ==> MergePhase(old(c.Snapshot()), old(other.Snapshot()), add) == Err(e.value) && c.Snapshot() == old(c.Snapshot())
  {
    if c.phase.Fixed? && other.phase.Fixed? {
      c.phase := Fixed(c.phase.value + other.phase.value);
      return None;
    }
    if c.phase.Index? && c.phase.index >= |c.params| {
      return Some(InvalidParameterIndex(c.phase.index));
    }
    if other.phase.Index? && other.phase.index >= |other.params| {
      return Some(InvalidParameterIndex(other.phase.index));
    }
    var sum := add(Resolved(c.phase, c.params), Resolved(other.phase, other.params));
    if c.phase.Index? && other.phase.Index? {
      c.params := Interned(c.params, other.params[other.phase.index]);
    }
    c.params := Interned(c.params, sum);
    c.phase := Index(IndexOf(c.params, sum));
    e := None;
  }

  /** Composes `other` into `c`; the two are different objects. */
  method ComposeInto(c: Circuit, other: Circuit, mapping: Option<seq<nat>>, add: Adder) returns (e: Option<ComposeError>)
    requires c != other
    modifies c
    ensures (c.Snapshot(), e) == Compose(old(c.Snapshot()), old(other.Snapshot()), mapping, add)
  {
    hide MergeParams, MergePhase, RemapOps, QubitMap, VarMap, ValueMap, FirstMissing;
    ghost var s, o := c.Snapshot(), other.Snapshot();
    if mapping.Some? {
      if |mapping.value| != |other.qubits| {
        return Some(QubitCount(|other.qubits|, |mapping.value|));
      }
      var missing := FirstMissing(mapping.value, c.qubits);
      if missing.Some? {
        return Some(NoSuchQubit(missing.value));
      }
    } else {
      MergeQubits(c, other.qubits);
    }
    var varMap := VarMap(other.Snapshot(), c.id, |c.vars|);
    var valueMap := ValueMap(other.Snapshot(), c.id, |c.values|);
    var qubitMap := QubitMap(other.qubits, if mapping.Some? then mapping.value else other.qubits);
    var places := MergeParameters(c, other.params);
    assert other.Snapshot() == o;
    ghost var s1 := Widened(s, o, mapping);
    assert (c.Snapshot(), places) == MergeParams(s1, o.params);
    var remapped := RemapOps(other.ops, HandleMap(Some(qubitMap), Some(places), varMap, valueMap));
    if remapped.Err? {
      return Some(Remap(remapped.error));
    }
    ghost var s2 := c.Snapshot();
    var failed := AddPhase(c, other, add);
    if failed.Some? {
      return Some(Remap(failed.value));
    }
    c.vars := c.vars + other.vars;
    c.values := c.values + other.values;
    c.ops := c.ops + remapped.value;
    assert HandleMap(Some(qubitMap), Some(places), varMap, valueMap) == ComposeMap(s, o, mapping, places);
    MergedResolve(s1, o.params);
    MergedPhaseKeeps(s2, o, add);
    e := None;
  }

  lemma MergedPhaseKeeps(s: Draft, other: Draft, add: Adder)
    requires MergePhase(s, other, add).Ok?
    ensures var t := MergePhase(s, other, add).value; t == s.(params := t.params, phase := t.phase)
  {
  }

  // ---- rebuilding from operations -----------------------------------------------------------------------------

  /** Lowers one operation into the circuit and appends it; a failing one ends the rebuild. */
  method AppendValue(c: Circuit, op: Operation, from: Table, arities: Arities) returns (e: Option<RebuildError>)
    modifies c
    ensures e.None? ==> AppendLowered(old(c.Snapshot()), op, from, arities) == Ok(c.Snapshot())
    ensures e.Some? ==> AppendLowered(old(c.Snapshot()), op, from, arities) == Err(e.value)
  {
    hide LowerInstruction, LowerParams, PreCheck, ArityOf, SymbolsOf;
    var lowered := LowerInstruction(op.instruction, from, c.params);
    if lowered.Err? {
      return Some(lowered.error);
    }
    var (instruction, table) := lowered.value;
    var refused := PreCheck(c.Snapshot(), instruction, ArityOf(arities, instruction), op.qubits, |op.params|);
    if refused.Some? {
      return Some(NotAppended(refused.value));
    }
    var params := LowerParams(op.params, from, table);
    if params.Err? {
      return Some(params.error);
    }
    c.params := params.value.1;
    c.symbols := SymbolsOf(c.params);
    c.ops := c.ops + [Operation(instruction, op.qubits, params.value.0, op.tag)];
    e := None;
  }

  /** A new circuit object from operations and tables, appended one by one and validated at the end. */
  method FromOperations(qubits: seq<nat>, ops: seq<Operation>, from: Table, vars: seq<ClassicalType>, values: seq<ClassicalType>,
                        phase: Param, newId: nat, arities: Arities) returns (r: Result<Circuit, RebuildError>)
    ensures r.Ok? ==> fresh(r.value) && Rebuild(qubits, ops, from, vars, values, phase, newId, arities) == Ok(r.value.Snapshot())
    ensures r.Err? ==> Rebuild(qubits, ops, from, vars, values, phase, newId, arities) == Err(r.error)
  {
    hide AppendLowered, Valid, ParamsKnown, HasDuplicates, Identities, SetPhase;
    if HasDuplicates(qubits) {
      return Err(NotAppended(DuplicateQubits));
    }
    if Mixed(Identities(ops)) {
      return Err(MixedIdentities);
    }
    var c := new Circuit(IdentityOf(Identities(ops), newId), qubits);
    c.vars, c.values := vars, values;
    ghost var start := c.Snapshot();
    assert start == New(IdentityOf(Identities(ops), newId), qubits).(vars := vars, values := values);
    for k := 0 to |ops|
      invariant AppendAll(start, ops, from, arities) == AppendAll(c.Snapshot(), ops[k..], from, arities)
    {
      assert ops[k..][0] == ops[k] && ops[k..][1..] == ops[k + 1..];
      var e := AppendValue(c, ops[k], from, arities);
      if e.Some? {
        return Err(e.value);
      }
    }
    if !ParamsKnown(c.ops, |c.params|) || !Valid(c.ops, Handles.Handles(c.id, c.vars, c.values)) {
      return Err(NotValid);
    }
    if phase.Index? && phase.index >= |from| {
      return Err(UnknownParameter(phase.index));
    }
    ResolvedPhase(c, Resolved(phase, from));
    r := Ok(c);
  }

  method ResolvedPhase(c: Circuit, p: Parameter)
    modifies c
    ensures c.Snapshot() == SetPhase(old(c.Snapshot()), p)
  {
    if p.number.Some? {
      c.phase := Fixed(p.number.value);
    } else {
      var index := c.Intern(p);
      c.phase := Index(index);
    }
  }

  // ---- circuits made by callbacks can always be edited -----------------------------------------------------

  /** Every circuit built by callbacks meets the conditions of the edits. */
  lemma ReachableIsEditable(id: nat, qubits: seq<nat>, script: Script)
    requires BuilderBuilt.CallbacksOnly(script)
    ensures BuilderReach.TopValid(Exec(New(id, qubits), script).0) && OwnFields(Exec(New(id, qubits), script).0)
  {
    hide Exec, Verify, Built, WellMade;
    var s := Exec(New(id, qubits), script).0;
    BuilderReach.ReachableIsValid(id, qubits, script);
    BuilderBuilt.ReachableIsBuilt(id, qubits, script);
    BuilderSafety.ExecGrows(New(id, qubits), script);
    BuiltIsWellMade(s.ops, BuilderBuilt.TablesOf(s));
  }
}
