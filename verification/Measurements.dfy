/**
 Expansion conserves measurements: the blocks of the graph measure exactly the values the
 tree measures, each as often. In the graph of an accepted circuit every value therefore
 has one defining operation.
 */
module Measurements {
  import opened Prelude
  import opened Ir
  import opened CfgGraph
  import opened CfgCode
  import opened Verifier
  import opened Soundness

  /** How often straight-line operations measure `v`. */
  function Measured(ops: seq<Operation>, v: ClassicalValue): nat {
    if ops == [] then 0 else (if v in Produced(ops[0]) then 1 else 0) + Measured(ops[1..], v)
  }

  function BlockMeasures(f: Graph, b: nat, v: ClassicalValue): nat {
    if b < |f| then Measured(f[b].ops, v) else 0
  }

  /** How often the blocks `lo .. hi` together measure `v`. */
  function RangeMeasures(f: Graph, lo: nat, hi: nat, v: ClassicalValue): nat
    decreases hi - lo
  {
    if lo >= hi then 0 else BlockMeasures(f, lo, v) + RangeMeasures(f, lo + 1, hi, v)
  }

  function Times(results: seq<ClassicalValue>, v: ClassicalValue): nat {
    multiset(results)[v]
  }

  lemma TimesAppend(a: seq<ClassicalValue>, b: seq<ClassicalValue>, v: ClassicalValue)
    ensures Times(a + b, v) == Times(a, v) + Times(b, v)
  {
  }

  lemma {:induction false} RangeSplit(f: Graph, lo: nat, mid: nat, hi: nat, v: ClassicalValue)
    requires lo <= mid <= hi
    ensures RangeMeasures(f, lo, hi, v) == RangeMeasures(f, lo, mid, v) + RangeMeasures(f, mid, hi, v)
    decreases mid - lo
  {
    if lo < mid {
      RangeSplit(f, lo + 1, mid, hi, v);
    }
  }

  function CaseResults(cases: seq<SwitchCase>): seq<ClassicalValue> {
    if cases == [] then [] else Results(cases[0].body) + CaseResults(cases[1..])
  }

  /** The measurements of a switch are those of its cases, then those of its default. */
  lemma {:induction false} SwitchResults(c: ControlOp, k: nat)
    requires c.Switch? && k <= |c.cases|
    ensures ResultsBodies(c, k) == CaseResults(c.cases[k..]) + Results(c.default.Ops())
    decreases |c.cases| - k
  {
    if k < |c.cases| {
      SwitchResults(c, k + 1);
      assert c.cases[k..][1..] == c.cases[k + 1..];
      assert Bodies(c)[k] == c.cases[k].body;
    } else if c.default.Present? {
      assert Bodies(c)[k] == c.default.ops && |Bodies(c)| == k + 1;
      assert ResultsBodies(c, k + 1) == [];
    }
  }

  lemma IfResults(c: ControlOp)
    requires c.If?
    ensures ResultsBodies(c, 0) == Results(c.thenBody) + Results(c.elseBody.Ops())
  {
    assert Bodies(c)[0] == c.thenBody;
    if c.elseBody.Present? {
      assert Bodies(c)[1] == c.elseBody.ops && |Bodies(c)| == 2;
      assert ResultsBodies(c, 2) == [];
    } else {
      assert ResultsBodies(c, 1) == [];
    }
  }

  lemma LoopResults(c: ControlOp)
    requires IsLoop(c)
    ensures ResultsBodies(c, 0) == Results(c.body)
  {
    assert Bodies(c)[0] == c.body && |Bodies(c)| == 1;
    assert ResultsBodies(c, 1) == [];
  }

  // ---- the code of a tree measures what the tree measures ---------------------------------------

  lemma {:induction false} CodeMeasures(f: Graph, n: nat, i: nat, ops: seq<Operation>, ctx: Context, fall: Option<nat>, lo: nat,
                                        v: ClassicalValue)
    requires CodeAt(f, n, i, ops, ctx, fall, lo)
    ensures Measured(f[n].ops[i..], v) + RangeMeasures(f, lo, lo + NumOps(ops), v) == Times(Results(ops), v)
    decreases ops, 2
  {
    if ops != [] {
      if Structured(ops[0]) {
        StructuredMeasures(f, n, i, ops, ctx, fall, lo, v);
      } else {
        PlainMeasures(f, n, i, ops, ctx, fall, lo, v);
      }
    }
  }

  lemma {:induction false} BodyMeasures(f: Graph, n: nat, ops: seq<Operation>, ctx: Context, fall: Option<nat>, lo: nat,
                                        v: ClassicalValue)
    requires CodeAt(f, n, 0, ops, ctx, fall, lo)
    ensures BlockMeasures(f, n, v) + RangeMeasures(f, lo, lo + NumOps(ops), v) == Times(Results(ops), v)
    decreases ops, 3
  {
    CodeMeasures(f, n, 0, ops, ctx, fall, lo, v);
    assert f[n].ops[0..] == f[n].ops;
  }

  lemma {:induction false} StructuredMeasures(f: Graph, n: nat, i: nat, ops: seq<Operation>, ctx: Context, fall: Option<nat>, lo: nat,
                                              v: ClassicalValue)
    requires CodeAt(f, n, i, ops, ctx, fall, lo) && ops != [] && Structured(ops[0])
    ensures Measured(f[n].ops[i..], v) + RangeMeasures(f, lo, lo + NumOps(ops), v) == Times(Results(ops), v)
    decreases ops, 1
  {
    hide ControlAt, Times, RangeMeasures, ResultsOp, NumOp, Measured;
    var op, rest := ops[0], ops[1..];
    TimesAppend(ResultsOp(op), Results(rest), v);
    var next := After(op.instruction.control, lo);
    var mid := lo + NumOp(op);
    ControlMeasures(f, n, op, ctx, lo, v);
    BodyMeasures(f, next, rest, ctx, fall, mid, v);
    RangeSplit(f, lo, mid, lo + NumOps(ops), v);
    NothingMeasured(f[n].ops[i..], v);
  }

  lemma {:induction false} PlainMeasures(f: Graph, n: nat, i: nat, ops: seq<Operation>, ctx: Context, fall: Option<nat>, lo: nat,
                                         v: ClassicalValue)
    requires CodeAt(f, n, i, ops, ctx, fall, lo) && ops != [] && !Structured(ops[0])
    ensures Measured(f[n].ops[i..], v) + RangeMeasures(f, lo, lo + NumOps(ops), v) == Times(Results(ops), v)
    decreases ops, 1
  {
    hide ControlAt, Times, RangeMeasures, ResultsOp;
    var op, rest := ops[0], ops[1..];
    TimesAppend(ResultsOp(op), Results(rest), v);
    StepMeasures(op, v);
    if op.instruction.Control? {
      assert rest == [];
      CodeEnds(f, lo, v);
    } else {
      CodeMeasures(f, n, i + 1, rest, ctx, fall, lo, v);
      assert f[n].ops[i..][1..] == f[n].ops[i + 1..];
    }
  }

  lemma CodeEnds(f: Graph, lo: nat, v: ClassicalValue)
    ensures RangeMeasures(f, lo, lo, v) == 0 && Times([], v) == 0
  {
  }

  /** An operation without bodies measures what it produces, and adds no blocks. */
  lemma StepMeasures(op: Operation, v: ClassicalValue)
    requires !Structured(op)
    ensures Times(ResultsOp(op), v) == (if v in Produced(op) then 1 else 0) && NumOp(op) == 0
  {
    if op.instruction.Control? {
      assert Bodies(op.instruction.control) == [];
      assert ResultsBodies(op.instruction.control, 0) == [];
    }
  }

  lemma HeaderMeasures(f: Graph, n: nat, v: ClassicalValue)
    requires n < |f| && f[n].ops == []
    ensures BlockMeasures(f, n, v) == 0
  {
  }

  lemma NothingMeasured(ops: seq<Operation>, v: ClassicalValue)
    requires ops == []
    ensures Measured(ops, v) == 0
  {
  }

  /** The blocks of a structured operation measure what its bodies do; its last block already belongs to what follows. */
  lemma {:induction false} ControlMeasures(f: Graph, n: nat, op: Operation, ctx: Context, lo: nat, v: ClassicalValue)
    requires n < |f| && Structured(op) && ControlAt(f, n, op, ctx, lo)
    ensures RangeMeasures(f, lo, lo + NumOp(op), v) ==
            Times(ResultsOp(op), v) + BlockMeasures(f, After(op.instruction.control, lo), v)
    decreases op, 1
  {
    var c := op.instruction.control;
    if c.If? {
      IfMeasures(f, n, op, ctx, lo, v);
    } else if c.Switch? {
      SwitchMeasures(f, n, op, ctx, lo, v);
    } else {
      LoopMeasures(f, n, op, ctx, lo, v);
    }
  }

  lemma FirstBlock(f: Graph, lo: nat, hi: nat, v: ClassicalValue)
    requires lo < hi
    ensures RangeMeasures(f, lo, hi, v) == BlockMeasures(f, lo, v) + RangeMeasures(f, lo + 1, hi, v)
  {
  }

  lemma FirstThree(f: Graph, lo: nat, hi: nat, v: ClassicalValue)
    requires lo + 3 <= hi
    ensures RangeMeasures(f, lo, hi, v) ==
            BlockMeasures(f, lo, v) + BlockMeasures(f, lo + 1, v) + BlockMeasures(f, lo + 2, v) + RangeMeasures(f, lo + 3, hi, v)
  {
    assert RangeMeasures(f, lo, hi, v) == BlockMeasures(f, lo, v) + RangeMeasures(f, lo + 1, hi, v);
    assert RangeMeasures(f, lo + 1, hi, v) == BlockMeasures(f, lo + 1, v) + RangeMeasures(f, lo + 2, hi, v);
  }

  lemma {:induction false} IfMeasures(f: Graph, n: nat, op: Operation, ctx: Context, lo: nat, v: ClassicalValue)
    requires n < |f| && Structured(op) && op.instruction.control.If? && ControlAt(f, n, op, ctx, lo)
    ensures RangeMeasures(f, lo, lo + NumOp(op), v) == Times(ResultsOp(op), v) + BlockMeasures(f, lo + 2, v)
    decreases op, 0
  {
    hide CodeAt, Results, NumOps, Measured, BlockMeasures, RangeMeasures, Times;
    var If(e, t, els) := op.instruction.control;
    var mid := lo + 3 + NumOps(t);
    var hi := mid + NumMaybe(els);
    FirstThree(f, lo, hi, v);
    RangeSplit(f, lo + 3, mid, hi, v);
    assert NumOp(op) == NumControl(op.instruction.control) == hi - lo;
    assert ResultsOp(op) == ResultsBodies(op.instruction.control, 0);
    BodyMeasures(f, lo, t, ctx, Some(lo + 2), lo + 3, v);
    MaybeMeasures(f, lo + 1, els, ctx, Some(lo + 2), mid, v);
    IfResults(op.instruction.control);
    TimesAppend(Results(t), Results(els.Ops()), v);
  }

  lemma {:induction false} LoopMeasures(f: Graph, n: nat, op: Operation, ctx: Context, lo: nat, v: ClassicalValue)
    requires n < |f| && Structured(op) && IsLoop(op.instruction.control) && ControlAt(f, n, op, ctx, lo)
    ensures RangeMeasures(f, lo, lo + NumOp(op), v) == Times(ResultsOp(op), v) + BlockMeasures(f, lo + 2, v)
    decreases op, 0
  {
    hide CodeAt, Results, NumOps, Measured, BlockMeasures, RangeMeasures, Times;
    var body := op.instruction.control.body;
    assert NumOp(op) == NumControl(op.instruction.control) == 3 + NumOps(body);
    FirstThree(f, lo, lo + 3 + NumOps(body), v);
    assert ResultsOp(op) == ResultsBodies(op.instruction.control, 0);
    BodyMeasures(f, lo + 1, body, LoopContext(lo, lo + 2), Some(lo), lo + 3, v);
    HeaderMeasures(f, lo, v);
    LoopResults(op.instruction.control);
  }

  lemma {:induction false} SwitchMeasures(f: Graph, n: nat, op: Operation, ctx: Context, lo: nat, v: ClassicalValue)
    requires n < |f| && Structured(op) && op.instruction.control.Switch? && ControlAt(f, n, op, ctx, lo)
    ensures RangeMeasures(f, lo, lo + NumOp(op), v) == Times(ResultsOp(op), v) + BlockMeasures(f, lo, v)
    decreases op, 0
  {
    hide CodeAt, Results, NumOps, Measured, BlockMeasures, RangeMeasures, Times;
    var Switch(e, cases, d) := op.instruction.control;
    var entry := lo + 1 + NumCases(cases);
    var hi := entry + 1 + NumMaybe(d);
    assert NumOp(op) == NumControl(op.instruction.control) == hi - lo;
    assert ResultsOp(op) == ResultsBodies(op.instruction.control, 0);
    FirstBlock(f, lo, hi, v);
    RangeSplit(f, lo + 1, entry, hi, v);
    FirstBlock(f, entry, hi, v);
    CasesMeasures(f, cases, SwitchContext(ctx, lo), lo, lo + 1, v);
    MaybeMeasures(f, entry, d, SwitchContext(ctx, lo), Some(lo), entry + 1, v);
    SwitchResults(op.instruction.control, 0);
    assert cases[0..] == cases;
    TimesAppend(CaseResults(cases), Results(d.Ops()), v);
  }

  lemma {:induction false} MaybeMeasures(f: Graph, n: nat, body: MaybeBody, ctx: Context, fall: Option<nat>, lo: nat, v: ClassicalValue)
    requires MaybeAt(f, n, body, ctx, fall, lo)
    ensures BlockMeasures(f, n, v) + RangeMeasures(f, lo, lo + NumMaybe(body), v) == Times(Results(body.Ops()), v)
    decreases body
  {
    if body.Present? {
      BodyMeasures(f, n, body.ops, ctx, fall, lo, v);
    }
  }

  lemma {:induction false} CasesMeasures(f: Graph, cases: seq<SwitchCase>, ctx: Context, merge: nat, lo: nat, v: ClassicalValue)
    requires CasesAt(f, cases, ctx, merge, lo)
    ensures RangeMeasures(f, lo, lo + NumCases(cases), v) == Times(CaseResults(cases), v)
    decreases cases
  {
    hide CodeAt, CaseAt, Results, NumOps, NumCase, Measured, BlockMeasures;
    if cases != [] {
      var mid := lo + NumCase(cases[0]);
      RangeSplit(f, lo, mid, lo + NumCases(cases), v);
      CaseMeasures(f, cases[0], ctx, merge, lo, v);
      TimesAppend(Results(cases[0].body), CaseResults(cases[1..]), v);
      CasesMeasures(f, cases[1..], ctx, merge, mid, v);
    }
  }

  lemma {:induction false} CaseMeasures(f: Graph, c: SwitchCase, ctx: Context, merge: nat, lo: nat, v: ClassicalValue)
    requires CaseAt(f, c, ctx, merge, lo)
    ensures RangeMeasures(f, lo, lo + NumCase(c), v) == Times(Results(c.body), v)
    decreases c
  {
    FirstBlock(f, lo, lo + 1 + NumOps(c.body), v);
    BodyMeasures(f, lo, c.body, ctx, Some(merge), lo + 1, v);
  }

  /** Expansion neither loses nor copies a measurement. */
  lemma ExpansionConservesMeasurements(ops: seq<Operation>)
    requires FromOperations(ops).Ok?
    ensures var f := FromOperations(ops).value; forall v :: RangeMeasures(f, 0, |f|, v) == Times(Results(ops), v)
  {
    var f := FromOperations(ops).value;
    FromOperationsCode(ops);
    forall v
      ensures RangeMeasures(f, 0, |f|, v) == Times(Results(ops), v)
    {
      CodeMeasures(f, 0, 0, ops, Context(None, None), None, 1, v);
      assert f[0].ops[0..] == f[0].ops;
    }
  }

  // ---- one definition for each value ------------------------------------------------------------

  /** Operation `j` of block `b` measures `v`. */
  predicate Defines(f: Graph, b: nat, j: nat, v: ClassicalValue) {
    b < |f| && j < |f[b].ops| && v in Produced(f[b].ops[j])
  }

  lemma {:induction false} Counted(ops: seq<Operation>, j: nat, v: ClassicalValue)
    requires j < |ops| && v in Produced(ops[j])
    ensures Measured(ops, v) >= 1
    decreases j
  {
    if j > 0 {
      Counted(ops[1..], j - 1, v);
    }
  }

  lemma {:induction false} CountedTwice(ops: seq<Operation>, j: nat, k: nat, v: ClassicalValue)
    requires j < k < |ops| && v in Produced(ops[j]) && v in Produced(ops[k])
    ensures Measured(ops, v) >= 2
    decreases j
  {
    if j > 0 {
      CountedTwice(ops[1..], j - 1, k - 1, v);
    } else {
      Counted(ops[1..], k - 1, v);
    }
  }

  lemma RangeBlock(f: Graph, lo: nat, b: nat, hi: nat, v: ClassicalValue)
    requires lo <= b < hi
    ensures RangeMeasures(f, lo, hi, v) == RangeMeasures(f, lo, b, v) + BlockMeasures(f, b, v) + RangeMeasures(f, b + 1, hi, v)
  {
    RangeSplit(f, lo, b, hi, v);
  }

  /** A value that the graph measures once has one defining operation. */
  lemma OneDefinition(f: Graph, v: ClassicalValue, b: nat, j: nat, c: nat, k: nat)
    requires RangeMeasures(f, 0, |f|, v) <= 1
    requires Defines(f, b, j, v) && Defines(f, c, k, v)
    ensures b == c && j == k
  {
    Counted(f[b].ops, j, v);
    Counted(f[c].ops, k, v);
    RangeBlock(f, 0, b, |f|, v);
    if c < b {
      RangeBlock(f, 0, c, b, v);
    } else if b < c {
      RangeBlock(f, b + 1, c, |f|, v);
    } else if j < k {
      CountedTwice(f[b].ops, j, k, v);
    } else if k < j {
      CountedTwice(f[b].ops, k, j, v);
    }
  }

  lemma {:induction false} FreshCount(results: seq<ClassicalValue>, defined: set<ClassicalValue>, v: ClassicalValue)
    requires Fresh(results, defined)
    ensures Times(results, v) <= 1 && (v in defined ==> Times(results, v) == 0)
    decreases |results|
  {
    if results != [] {
      assert results == [results[0]] + results[1..];
      FreshAppend([results[0]], results[1..], defined);
      FreshCount(results[1..], defined + ToSet([results[0]]), v);
      TimesAppend([results[0]], results[1..], v);
    }
  }

  /** In the graph of an accepted circuit no two operations measure the same value. */
  lemma DefinitionsAreUnique(ops: seq<Operation>, h: Handles)
    requires Valid(ops, h)
    ensures FromOperations(ops).Ok?
    ensures forall v, b, j, c, k ::
              Defines(FromOperations(ops).value, b, j, v) && Defines(FromOperations(ops).value, c, k, v) ==> b == c && j == k
  {
    AcceptedExpands(ops, h);
    ExpansionConservesMeasurements(ops);
    VerifyCharacterised(ops, h, State({}, {}), Placing(false, false));
    var f := FromOperations(ops).value;
    forall v, b, j, c, k | Defines(f, b, j, v) && Defines(f, c, k, v)
      ensures b == c && j == k
    {
      FreshCount(Results(ops), {}, v);
      OneDefinition(f, v, b, j, c, k);
    }
  }
}
