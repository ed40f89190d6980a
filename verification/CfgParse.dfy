/**
 Checking a graph and rebuilding the operation tree from it, and the proof that rebuilding
 undoes the expansion, visiting every block exactly once.
 */
module CfgParse {
  import opened Prelude
  import opened Ir
  import opened CfgGraph
  import opened CfgCode

  datatype GraphError = BadEntry | BadParam | BadBlock | Revisited | Unvisited | Rejected | MissingRegion | Unreachable

  // ---- checking blocks ----------------------------------------------------------------------

  /** Every edge out of block `n` has an existing target. */
  predicate EdgesExist(f: Graph, n: nat)
    requires n < |f|
  {
    forall e | e in f[n].out :: e.target < |f|
  }

  predicate OneEdge(b: Block, kind: FlowEdge, target: nat) {
    b.out == [Edge(kind, target)]
  }

  /** One true edge, one false edge, and no other, in either order. */
  predicate BranchEdges(b: Block, t: nat, e: nat) {
    |b.out| == 2 && Edge(TrueBranch, t) in b.out && Edge(FalseBranch, e) in b.out
  }

  predicate ValidTerminator(f: Graph, t: Tables, n: nat)
    requires n < |f|
  {
    var b := f[n];
    match b.term
    case None => false
    case Some(Return) => b.out == []
    case Some(Jump(d)) => d < |f| && OneEdge(b, Unconditional, d)
    case Some(BreakTo(d)) => d < |f| && OneEdge(b, BreakEdge, d)
    case Some(ContinueTo(d)) => d < |f| && OneEdge(b, ContinueEdge, d)
    case Some(Branch(e)) =>
      && e.Ty() == Bool && t.HasExpr(e)
      && (match b.region
          case Some(IfRegion(x, y, m, _, outer)) => BranchEdges(b, x, y) && m < |f| && t.HasFields(outer.qubits, outer.params)
          case Some(WhileRegion(x, y, outer)) => BranchEdges(b, x, y) && t.HasFields(outer.qubits, outer.params)
          case _ => false)
    case Some(ForLoop(v, a, z, s)) =>
      && t.HasVar(v) && t.HasExpr(a) && t.HasExpr(z) && t.HasExpr(s)
      && (match b.region
          case Some(ForRegion(x, y, outer)) => BranchEdges(b, x, y) && t.HasFields(outer.qubits, outer.params)
          case _ => false)
    case Some(SwitchOn(e)) =>
      && e.Ty().UInt? && t.HasExpr(e)
      && (match b.region
          case Some(SwitchRegion(cases, d, m, _, outer)) =>
            && d < |f| && m < |f| && t.HasFields(outer.qubits, outer.params)
            && (forall k | 0 <= k < |cases| :: cases[k].entry < |f| && Edge(CaseEdge(cases[k].value), cases[k].entry) in b.out)
            && Edge(DefaultCase, d) in b.out && |b.out| == |cases| + 1
          case _ => false)
  }

  predicate ValidPlain(op: Operation, t: Tables) {
    && t.HasFields(op.qubits, op.params) && !op.instruction.Control?
    && (op.instruction.Data? ==> t.HasData(op.instruction.data, |op.qubits|))
  }

  /** Every block that the walk can be sent to from block `n` exists. */
  predicate Linked(f: Graph, n: nat)
    requires n < |f|
  {
    match f[n].term
    case Some(Jump(d)) => d < |f|
    case Some(Branch(_)) =>
      (match f[n].region
       case Some(IfRegion(x, y, m, _, _)) => x < |f| && y < |f| && m < |f|
       case Some(WhileRegion(x, y, _)) => x < |f| && y < |f|
       case _ => true)
    case Some(ForLoop(_, _, _, _)) => f[n].region.Some? && f[n].region.value.ForRegion? ==>
      f[n].region.value.bodyEntry < |f| && f[n].region.value.exit < |f|
    case Some(SwitchOn(_)) =>
      (match f[n].region
       case Some(SwitchRegion(cases, d, m, _, _)) => d < |f| && m < |f| && forall k | 0 <= k < |cases| :: cases[k].entry < |f|
       case _ => true)
    case _ => true
  }

  /** Every finite graph whose referenced blocks exist, however malformed otherwise. */
  predicate Walkable(f: Graph) {
    forall n {:trigger Linked(f, n)} | 0 <= n < |f| :: Linked(f, n)
  }

  predicate ValidBlock(f: Graph, t: Tables, n: nat): (r: bool)
    requires n < |f|
    ensures r ==> Linked(f, n)
  {
    assert EdgesExist(f, n) && ValidTerminator(f, t, n) ==> Linked(f, n) by { ValidIsLinked(f, t, n); }
    && (forall k | 0 <= k < |f[n].ops| :: ValidPlain(f[n].ops[k], t))
    && EdgesExist(f, n) && ValidTerminator(f, t, n)
  }

  lemma ValidIsLinked(f: Graph, t: Tables, n: nat)
    requires n < |f|
    ensures EdgesExist(f, n) && ValidTerminator(f, t, n) ==> Linked(f, n)
  {
    var b := f[n];
    if EdgesExist(f, n) && ValidTerminator(f, t, n) && b.region.Some? {
      var r := b.region.value;
      if (r.IfRegion? || r.WhileRegion? || r.ForRegion?) && (b.term.value.Branch? || b.term.value.ForLoop?) {
        var x, y := if r.IfRegion? then r.thenEntry else r.bodyEntry, if r.IfRegion? then r.elseEntry else r.exit;
        assert BranchEdges(b, x, y);
        assert Edge(TrueBranch, x) in b.out && Edge(FalseBranch, y) in b.out;
      }
    }
  }

  predicate ValidBlocks(f: Graph, t: Tables): (r: bool)
    ensures r ==> Walkable(f)
  {
    assert (forall n {:trigger ValidBlock(f, t, n)} | 0 <= n < |f| :: ValidBlock(f, t, n)) ==> Walkable(f) by {
      if forall n {:trigger ValidBlock(f, t, n)} | 0 <= n < |f| :: ValidBlock(f, t, n) {
        forall n | 0 <= n < |f|
          ensures Linked(f, n)
        {
          assert ValidBlock(f, t, n);
        }
      }
    }
    forall n {:trigger ValidBlock(f, t, n)} | 0 <= n < |f| :: ValidBlock(f, t, n)
  }

  // ---- rebuilding ---------------------------------------------------------------------------

  function Span(lo: nat, hi: nat): (r: set<nat>)
    ensures forall n: nat :: n in r <==> lo <= n < hi
    decreases hi - lo
  {
    if lo >= hi then {} else {lo} + Span(lo + 1, hi)
  }

  /** All visited blocks exist. */
  predicate InGraph(f: Graph, visited: set<nat>) {
    forall b | b in visited :: b < |f|
  }

  function Nodes(f: Graph): set<nat> {
    Span(0, |f|)
  }

  function Outer(c: ControlOp, m: Metadata): Operation {
    Operation(Control(c), m.qubits, m.params, m.tag)
  }

  function BareControl(c: ControlOp): Operation {
    Operation(Control(c), [], [], None)
  }

  /**
   Rebuilds the operations from `node` up to, and excluding, `stop`, recording the blocks
   visited. Every call visits a block that was unvisited: that is why the walk ends on any
   graph whose referenced blocks exist, cyclic or malformed. `Unreachable` stands for the
   combinations of terminator and region that the implementation asserts cannot occur.
   */
  function Parse(f: Graph, node: nat, stop: Option<nat>, visited: set<nat>)
    : (r: Result<(seq<Operation>, set<nat>), GraphError>)
    requires Walkable(f) && node < |f| && InGraph(f, visited)
    ensures r.Ok? ==> visited <= r.value.1 && InGraph(f, r.value.1)
    decreases Nodes(f) - visited, 0
  {
    if Some(node) == stop then Ok(([], visited))
    else if node in visited then Err(Revisited)
    else
      assert Nodes(f) - (visited + {node}) < Nodes(f) - visited by {
        assert node in Nodes(f) - visited;
      }
      var (ops, v) :- ParseBlock(f, node, stop, visited + {node});
      Ok((f[node].ops + ops, v))
  }

  /** What follows the plain operations of block `node`. */
  function ParseBlock(f: Graph, node: nat, stop: Option<nat>, visited: set<nat>)
    : (r: Result<(seq<Operation>, set<nat>), GraphError>)
    requires Walkable(f) && node < |f| && InGraph(f, visited)
    ensures r.Ok? ==> visited <= r.value.1 && InGraph(f, r.value.1)
    decreases Nodes(f) - visited, 2
  {
    assert Linked(f, node);
    var b := f[node];
    match b.term
    case None => Err(Unreachable)
    case Some(Return) => Ok(([], visited))
    case Some(Jump(d)) => Parse(f, d, stop, visited)
    case Some(BreakTo(_)) => Ok(([BareControl(Break)], visited))
    case Some(ContinueTo(_)) => Ok(([BareControl(Continue)], visited))
    case Some(Branch(e)) =>
      (match b.region
       case None => Err(MissingRegion)
       case Some(IfRegion(x, y, m, hasElse, outer)) =>
         var (thenOps, v1) :- Parse(f, x, Some(m), visited);
         var (elseOps, v2) :- Parse(f, y, Some(m), v1);
         var c := If(e, thenOps, if hasElse then Present(elseOps) else Absent);
         if !Accepted(c) then Err(Rejected)
         else
           var (rest, v3) :- Parse(f, m, stop, v2);
           Ok(([Outer(c, outer)] + rest, v3)
         )
       case Some(WhileRegion(x, y, outer)) =>
         var (body, v1) :- Parse(f, x, Some(node), visited);
         var c := While(e, body);
         if !Accepted(c) then Err(Rejected)
         else
           var (rest, v2) :- Parse(f, y, stop, v1);
           Ok(([Outer(c, outer)] + rest, v2))
       case _ => Err(Unreachable))
    case Some(ForLoop(v, a, z, s)) =>
      (match b.region
       case None => Err(MissingRegion)
       case Some(ForRegion(x, y, outer)) =>
         var (body, v1) :- Parse(f, x, Some(node), visited);
         var c := For(v, a, z, s, body);
         if !Accepted(c) then Err(Rejected)
         else
           var (rest, v2) :- Parse(f, y, stop, v1);
           Ok(([Outer(c, outer)] + rest, v2))
       case _ => Err(Unreachable))
    case Some(SwitchOn(e)) =>
      (match b.region
       case None => Err(MissingRegion)
       case Some(SwitchRegion(cases, d, m, hasDefault, outer)) =>
         var (rebuilt, v1) :- ParseCases(f, cases, m, visited);
         var (defaultOps, v2) :- Parse(f, d, Some(m), v1);
         var c := Switch(e, rebuilt, if hasDefault then Present(defaultOps) else Absent);
         if !Accepted(c) then Err(Rejected)
         else
           var (rest, v3) :- Parse(f, m, stop, v2);
           Ok(([Outer(c, outer)] + rest, v3))
       case _ => Err(Unreachable))
  }

  function ParseCases(f: Graph, cases: seq<RegionCase>, merge: nat, visited: set<nat>)
    : (r: Result<(seq<SwitchCase>, set<nat>), GraphError>)
    requires Walkable(f) && InGraph(f, visited)
    requires forall k | 0 <= k < |cases| :: cases[k].entry < |f|
    ensures r.Ok? ==> visited <= r.value.1 && InGraph(f, r.value.1)
    decreases Nodes(f) - visited, 1, |cases|
  {
    if cases == [] then Ok(([], visited))
    else
      var (body, v1) :- Parse(f, cases[0].entry, Some(merge), visited);
      var (rest, v2) :- ParseCases(f, cases[1..], merge, v1);
      Ok(([SwitchCase(cases[0].value, body)] + rest, v2))
  }

  /** The checks of a whole graph with entry block 0: every block, then a visit of every block from the entry. */
  predicate ValidGraph(f: Graph, t: Tables, phase: Param) {
    && |f| > 0 && t.HasParam(phase) && ValidBlocks(f, t)
    && Parse(f, 0, None, {}).Ok? && Parse(f, 0, None, {}).value.1 == Nodes(f)
  }

  // ---- rebuilding undoes the expansion ------------------------------------------------------

  /** The tree without the label, qubits and parameters of `break` and `continue`, which have no place in the graph. */
  function Normalize(ops: seq<Operation>): (r: seq<Operation>)
    ensures |r| == |ops|
    decreases ops
  {
    if ops == [] then [] else [NormalizeOp(ops[0])] + Normalize(ops[1..])
  }

  function NormalizeOp(op: Operation): Operation
    decreases op
  {
    match op.instruction
    case Control(Break) => BareControl(Break)
    case Control(Continue) => BareControl(Continue)
    case Control(c) => op.(instruction := Control(NormalizeControl(c)))
    case _ => op
  }

  function NormalizeControl(c: ControlOp): ControlOp
    decreases c
  {
    match c
    case If(e, t, els) => If(e, Normalize(t), NormalizeMaybe(els))
    case While(e, b) => While(e, Normalize(b))
    case For(v, a, z, s, b) => For(v, a, z, s, Normalize(b))
    case Switch(e, cases, d) => Switch(e, NormalizeCases(cases), NormalizeMaybe(d))
    case _ => c
  }

  function NormalizeMaybe(b: MaybeBody): MaybeBody
    decreases b
  {
    match b
    case Absent => Absent
    case Present(ops) => Present(Normalize(ops))
  }

  function NormalizeCases(cases: seq<SwitchCase>): (r: seq<SwitchCase>)
    ensures |r| == |cases| && forall k | 0 <= k < |cases| :: r[k].value == cases[k].value
    decreases cases
  {
    if cases == [] then [] else [NormalizeCase(cases[0])] + NormalizeCases(cases[1..])
  }

  function NormalizeCase(c: SwitchCase): SwitchCase
    decreases c
  {
    SwitchCase(c.value, Normalize(c.body))
  }

  lemma NormalizeAccepted(c: ControlOp)
    requires Accepted(c)
    ensures Accepted(NormalizeControl(c))
    ensures c.Switch? ==> c.target.Ty().UInt? && CasesFit(NormalizeCases(c.cases), c.target.Ty().width)
  {
  }

  lemma NormalizeHead(ops: seq<Operation>)
    requires ops != [] && Structured(ops[0])
    ensures Normalize(ops) == RebuiltHead(ops)
  {
  }

  /** `v` is `visited` and the blocks from `lo` on, below `hi`. */
  ghost predicate Grew(visited: set<nat>, v: set<nat>, lo: nat, hi: nat) {
    forall b: nat :: b in v <==> (b in visited || lo <= b < hi)
  }

  /** `v` is `visited`, block `n`, and the blocks from `lo` on, below `hi`. */
  ghost predicate GrewFrom(visited: set<nat>, v: set<nat>, n: nat, lo: nat, hi: nat) {
    forall b: nat :: b in v <==> (b in visited || b == n || lo <= b < hi)
  }

  /** Rebuilding from `n` succeeds with the given operations and visited blocks. */
  predicate Parses(f: Graph, t: Tables, n: nat, stop: Option<nat>, visited: set<nat>, ops: seq<Operation>, v: set<nat>) {
    ValidBlocks(f, t) && n < |f| && InGraph(f, visited) && Parse(f, n, stop, visited) == Ok((ops, v))
  }

  predicate ParsesCases(f: Graph, t: Tables, rs: seq<RegionCase>, merge: nat, visited: set<nat>, cases: seq<SwitchCase>, v: set<nat>) {
    && ValidBlocks(f, t) && InGraph(f, visited) && (forall k | 0 <= k < |rs| :: rs[k].entry < |f|)
    && ParseCases(f, rs, merge, visited) == Ok((cases, v))
  }

  lemma NormalizeSingle(op: Operation)
    ensures Normalize([op]) == [NormalizeOp(op)] && NumOps([op]) == NumOp(op)
  {
    assert [op][1..] == [];
    assert Normalize([]) == [];
  }

  lemma NormalizePlain(ops: seq<Operation>, blockOps: seq<Operation>, i: nat, rest: seq<Operation>)
    requires ops != [] && !ops[0].instruction.Control? && i < |blockOps| && blockOps[i] == ops[0]
    requires blockOps[i + 1..] + rest == Normalize(ops[1..])
    ensures blockOps[i..] + rest == Normalize(ops) && NumOps(ops) == NumOps(ops[1..])
  {
    assert NormalizeOp(ops[0]) == ops[0] && NumOp(ops[0]) == 0;
    assert blockOps[i..] + rest == [ops[0]] + (blockOps[i + 1..] + rest);
  }

  lemma NormalizeMaybeOps(b: MaybeBody)
    ensures NormalizeMaybe(b) == if b.Present? then Present(Normalize(b.Ops())) else Absent
  {
  }

  /** The rest of a block rebuilds to the given operations. */
  predicate ParsesBlock(f: Graph, t: Tables, n: nat, stop: Option<nat>, visited: set<nat>, ops: seq<Operation>, v: set<nat>) {
    ValidBlocks(f, t) && n < |f| && InGraph(f, visited) && ParseBlock(f, n, stop, visited) == Ok((ops, v))
  }

  function RebuiltHead(ops: seq<Operation>): seq<Operation>
    requires ops != [] && Structured(ops[0])
  {
    [Outer(NormalizeControl(ops[0].instruction.control), Meta(ops[0]))] + Normalize(ops[1..])
  }

  ghost predicate Ahead(visited: set<nat>, lo: nat, hi: nat, stop: Option<nat>) {
    (forall b | b in visited :: b < lo || hi <= b) && (stop.Some? ==> stop.value < lo)
  }

  lemma BuiltTail(ops: seq<Operation>, t: Tables)
    requires Built(ops, t) && ops != []
    ensures BuiltOp(ops[0], t) && Built(ops[1..], t)
  {
    forall k | 0 <= k < |ops[1..]|
      ensures BuiltOp(ops[1..][k], t)
    {
      assert ops[1..][k] == ops[k + 1];
    }
  }

  lemma BuiltIf(op: Operation, t: Tables)
    requires BuiltOp(op, t) && op.instruction.Control? && op.instruction.control.If?
    ensures Accepted(op.instruction.control)
    ensures Built(op.instruction.control.thenBody, t) && Built(op.instruction.control.elseBody.Ops(), t)
  {
    var bodies := Bodies(op.instruction.control);
    assert Built(bodies[0], t);
    if op.instruction.control.elseBody.Present? {
      assert Built(bodies[1], t);
    }
  }

  lemma BuiltLoop(op: Operation, t: Tables)
    requires BuiltOp(op, t) && op.instruction.Control? && IsLoop(op.instruction.control)
    ensures Accepted(op.instruction.control) && Built(op.instruction.control.body, t)
  {
    assert Built(Bodies(op.instruction.control)[0], t);
  }

  lemma BuiltSwitch(op: Operation, t: Tables)
    requires BuiltOp(op, t) && op.instruction.Control? && op.instruction.control.Switch?
    ensures Accepted(op.instruction.control)
    ensures BuiltCases(op.instruction.control.cases, t) && Built(op.instruction.control.default.Ops(), t)
  {
    var c := op.instruction.control;
    forall k | 0 <= k < |c.cases|
      ensures Built(c.cases[k].body, t)
    {
      assert Bodies(c)[k] == c.cases[k].body;
    }
    if c.default.Present? {
      assert Built(Bodies(c)[|c.cases|], t);
    }
  }

  predicate BuiltCases(cases: seq<SwitchCase>, t: Tables) {
    forall k | 0 <= k < |cases| :: Built(cases[k].body, t)
  }

  lemma UnfoldIf(f: Graph, t: Tables, n: nat, stop: Option<nat>, visited: set<nat>, e: Expr, r: Region, thenOps: seq<Operation>,
                 v1: set<nat>, elseOps: seq<Operation>, v2: set<nat>, rest: seq<Operation>, v3: set<nat>)
    requires ValidBlocks(f, t) && n < |f| && InGraph(f, visited) && InGraph(f, v1) && InGraph(f, v2)
    requires r.IfRegion? && r.thenEntry < |f| && r.elseEntry < |f| && r.merge < |f|
    requires f[n].term == Some(Branch(e)) && f[n].region == Some(r)
    requires Parses(f, t, r.thenEntry, Some(r.merge), visited, thenOps, v1)
    requires Parses(f, t, r.elseEntry, Some(r.merge), v1, elseOps, v2)
    requires Parses(f, t, r.merge, stop, v2, rest, v3)
    requires e.Ty() == Bool
    ensures ParseBlock(f, n, stop, visited)
         == Ok(([Outer(If(e, thenOps, if r.hasElse then Present(elseOps) else Absent), r.outer)] + rest, v3))
  {
  }

  /** A loop header rebuilds `c`, the loop operation with its header expressions, around the rebuilt body. */
  lemma UnfoldLoop(f: Graph, t: Tables, n: nat, stop: Option<nat>, visited: set<nat>, c: ControlOp, outer: Metadata,
                   x: nat, y: nat, v1: set<nat>, rest: seq<Operation>, v2: set<nat>)
    requires ValidBlocks(f, t) && n < |f| && InGraph(f, visited) && InGraph(f, v1) && IsLoop(c) && Accepted(c)
    requires x < |f| && y < |f|
    requires f[n].term == Some(LoopTerm(c)) && f[n].region == Some(LoopRegion(c, x, y, outer))
    requires Parses(f, t, x, Some(n), visited, c.body, v1)
    requires Parses(f, t, y, stop, v1, rest, v2)
    ensures ParseBlock(f, n, stop, visited) == Ok(([Outer(c, outer)] + rest, v2))
  {
    match c
    case While(e, b) => assert f[n].term.value == Branch(e);
    case For(v, a, z, s, b) => assert f[n].term.value == ForLoop(v, a, z, s);
  }

  lemma UnfoldSwitch(f: Graph, t: Tables, n: nat, stop: Option<nat>, visited: set<nat>, e: Expr, r: Region,
                     rebuilt: seq<SwitchCase>, v1: set<nat>, defaultOps: seq<Operation>, v2: set<nat>, rest: seq<Operation>, v3: set<nat>)
    requires ValidBlocks(f, t) && n < |f| && InGraph(f, visited) && InGraph(f, v1) && InGraph(f, v2)
    requires r.SwitchRegion? && r.defaultEntry < |f| && r.merge < |f|
    requires f[n].term == Some(SwitchOn(e)) && f[n].region == Some(r)
    requires ParsesCases(f, t, r.cases, r.merge, visited, rebuilt, v1)
    requires Parses(f, t, r.defaultEntry, Some(r.merge), v1, defaultOps, v2)
    requires Parses(f, t, r.merge, stop, v2, rest, v3)
    requires e.Ty().UInt? && CasesFit(rebuilt, e.Ty().width)
    ensures ParseBlock(f, n, stop, visited)
         == Ok(([Outer(Switch(e, rebuilt, if r.hasDefault then Present(defaultOps) else Absent), r.outer)] + rest, v3))
  {
  }

  lemma ParseEmpty(f: Graph, t: Tables, n: nat, stop: Option<nat>, visited: set<nat>)
    requires ValidBlocks(f, t) && n < |f| && InGraph(f, visited) && f[n].ops == [] && stop != Some(n) && n !in visited
    ensures Parse(f, n, stop, visited) == ParseBlock(f, n, stop, visited + {n})
  {
    var r := ParseBlock(f, n, stop, visited + {n});
    if r.Ok? {
      assert [] + r.value.0 == r.value.0;
    }
  }

  /** From operation `i` of block `n` on, rebuilding yields `ops` and visits exactly the blocks allocated for them. */
  lemma {:induction false} ParseOps(f: Graph, t: Tables, n: nat, i: nat, ops: seq<Operation>, ctx: Context, fall: Option<nat>,
                                    lo: nat, visited: set<nat>) returns (rest: seq<Operation>, v: set<nat>)
    requires ValidBlocks(f, t) && CodeAt(f, n, i, ops, ctx, fall, lo) && Built(ops, t)
    requires lo + NumOps(ops) <= |f| && InGraph(f, visited) && Ahead(visited, lo, lo + NumOps(ops), fall)
    ensures ParsesBlock(f, t, n, fall, visited, rest, v)
    ensures f[n].ops[i..] + rest == Normalize(ops) && Grew(visited, v, lo, lo + NumOps(ops))
    decreases ops, 1
  {
    if ops == [] {
      rest, v := [], visited;
      if fall.Some? {
        assert ParseBlock(f, n, fall, visited) == Parse(f, fall.value, fall, visited);
      }
    } else if !ops[0].instruction.Control? {
      BuiltTail(ops, t);
      rest, v := ParseOps(f, t, n, i + 1, ops[1..], ctx, fall, lo, visited);
      NormalizePlain(ops, f[n].ops, i, rest);
    } else if Structured(ops[0]) {
      rest, v := ParseStructured(f, t, n, i, ops, ctx, fall, lo, visited);
    } else {
      rest, v := ParseExit(f, t, n, i, ops, ctx, fall, lo, visited);
    }
  }

  lemma {:induction false} ParseStructured(f: Graph, t: Tables, n: nat, i: nat, ops: seq<Operation>, ctx: Context, fall: Option<nat>,
                                           lo: nat, visited: set<nat>) returns (rest: seq<Operation>, v: set<nat>)
    requires ValidBlocks(f, t) && CodeAt(f, n, i, ops, ctx, fall, lo) && Built(ops, t) && ops != [] && Structured(ops[0])
    requires lo + NumOps(ops) <= |f| && InGraph(f, visited) && Ahead(visited, lo, lo + NumOps(ops), fall)
    ensures ParsesBlock(f, t, n, fall, visited, rest, v)
    ensures f[n].ops[i..] + rest == Normalize(ops) && Grew(visited, v, lo, lo + NumOps(ops))
    decreases ops, 0, 1
  {
    rest := RebuiltHead(ops);
    assert f[n].ops[i..] == [];
    BuiltTail(ops, t);
    NormalizeHead(ops);
    if ops[0].instruction.control.If? {
      v := ParseIf(f, t, n, ops, ctx, fall, lo, visited);
    } else if ops[0].instruction.control.Switch? {
      v := ParseSwitch(f, t, n, ops, ctx, fall, lo, visited);
    } else {
      v := ParseLoop(f, t, n, ops, ctx, fall, lo, visited);
    }
  }

  lemma ParseExit(f: Graph, t: Tables, n: nat, i: nat, ops: seq<Operation>, ctx: Context, fall: Option<nat>, lo: nat, visited: set<nat>)
    returns (rest: seq<Operation>, v: set<nat>)
    requires ValidBlocks(f, t) && CodeAt(f, n, i, ops, ctx, fall, lo)
    requires ops != [] && ops[0].instruction.Control? && !Structured(ops[0]) && InGraph(f, visited)
    ensures ParsesBlock(f, t, n, fall, visited, rest, v)
    ensures f[n].ops[i..] + rest == Normalize(ops) && Grew(visited, v, lo, lo + NumOps(ops))
  {
    assert ops == [ops[0]];
    NormalizeSingle(ops[0]);
    assert NumOp(ops[0]) == NumControl(ops[0].instruction.control) == 0;
    rest, v := [BareControl(ops[0].instruction.control)], visited;
    if ops[0].instruction.control.Break? {
      assert NormalizeOp(ops[0]) == BareControl(Break);
    } else {
      assert NormalizeOp(ops[0]) == BareControl(Continue);
    }
  }

  /** Rebuilding the block `n`, entered at its first operation. */
  lemma {:induction false} ParseEntry(f: Graph, t: Tables, n: nat, ops: seq<Operation>, ctx: Context, fall: Option<nat>,
                                      lo: nat, visited: set<nat>) returns (v: set<nat>)
    requires ValidBlocks(f, t) && CodeAt(f, n, 0, ops, ctx, fall, lo) && Built(ops, t)
    requires lo + NumOps(ops) <= |f| && InGraph(f, visited) && Ahead(visited, lo, lo + NumOps(ops), fall)
    requires n !in visited && fall != Some(n)
    ensures Parses(f, t, n, fall, visited, Normalize(ops), v) && GrewFrom(visited, v, n, lo, lo + NumOps(ops))
    decreases ops, 2
  {
    var rest;
    rest, v := ParseOps(f, t, n, 0, ops, ctx, fall, lo, visited + {n});
    assert f[n].ops[0..] == f[n].ops;
  }

  lemma {:induction false} ParseMaybe(f: Graph, t: Tables, n: nat, body: MaybeBody, ctx: Context, fall: Option<nat>,
                                      lo: nat, visited: set<nat>) returns (v: set<nat>)
    requires ValidBlocks(f, t) && MaybeAt(f, n, body, ctx, fall, lo) && Built(body.Ops(), t)
    requires n < |f| && lo + NumMaybe(body) <= |f| && InGraph(f, visited) && Ahead(visited, lo, lo + NumMaybe(body), fall)
    requires n !in visited && fall.Some? && fall != Some(n) && fall.value < |f|
    ensures Parses(f, t, n, fall, visited, Normalize(body.Ops()), v) && GrewFrom(visited, v, n, lo, lo + NumMaybe(body))
    decreases body
  {
    match body
    case Absent =>
      v := visited + {n};
      ParseEmpty(f, t, n, fall, visited);
      assert ParseBlock(f, n, fall, v) == Parse(f, fall.value, fall, v);
    case Present(ops) =>
      v := ParseEntry(f, t, n, ops, ctx, fall, lo, visited);
  }

  lemma IfParts(f: Graph, n: nat, op: Operation, ctx: Context, lo: nat)
    requires Structured(op) && op.instruction.control.If? && n < |f| && ControlAt(f, n, op, ctx, lo)
    ensures var If(e, a, b) := op.instruction.control;
            && f[n].term == Some(Branch(e)) && f[n].region == Some(IfRegion(lo, lo + 1, lo + 2, b.Present?, Meta(op)))
            && CodeAt(f, lo, 0, a, ctx, Some(lo + 2), lo + 3)
            && MaybeAt(f, lo + 1, b, ctx, Some(lo + 2), lo + 3 + NumOps(a))
  {
  }

  lemma {:induction false} ParseBranches(f: Graph, t: Tables, op: Operation, ctx: Context, lo: nat, hi: nat, visited: set<nat>)
    returns (v1: set<nat>, v2: set<nat>)
    requires Structured(op) && op.instruction.control.If?
    requires var If(_, a, b) := op.instruction.control;
             && CodeAt(f, lo, 0, a, ctx, Some(lo + 2), lo + 3) && Built(a, t)
             && MaybeAt(f, lo + 1, b, ctx, Some(lo + 2), lo + 3 + NumOps(a)) && Built(b.Ops(), t)
    requires ValidBlocks(f, t) && InGraph(f, visited) && lo + NumOp(op) <= hi <= |f|
    requires forall b | b in visited :: b < lo || hi <= b
    ensures var If(_, a, b) := op.instruction.control;
            && Parses(f, t, lo, Some(lo + 2), visited, Normalize(a), v1)
            && Parses(f, t, lo + 1, Some(lo + 2), v1, Normalize(b.Ops()), v2)
    ensures forall b: nat :: b in v2 <==> (b in visited || (lo <= b < lo + NumOp(op) && b != lo + 2))
    decreases op
  {
    var If(e, a, b) := op.instruction.control;
    assert NumOp(op) == NumControl(op.instruction.control);
    v1 := ParseEntry(f, t, lo, a, ctx, Some(lo + 2), lo + 3, visited);
    v2 := ParseMaybe(f, t, lo + 1, b, ctx, Some(lo + 2), lo + 3 + NumOps(a), v1);
  }

  lemma {:induction false} ParseIf(f: Graph, t: Tables, n: nat, ops: seq<Operation>, ctx: Context, fall: Option<nat>,
                                   lo: nat, visited: set<nat>) returns (v: set<nat>)
    requires ops != [] && Structured(ops[0]) && ops[0].instruction.control.If?
    requires ValidBlocks(f, t) && n < |f| && lo + 2 < |f| && ControlAt(f, n, ops[0], ctx, lo)
    requires CodeAt(f, lo + 2, 0, ops[1..], ctx, fall, lo + NumOp(ops[0])) && Built(ops[1..], t) && BuiltOp(ops[0], t)
    requires lo + NumOps(ops) <= |f| && InGraph(f, visited) && Ahead(visited, lo, lo + NumOps(ops), fall)
    ensures ParsesBlock(f, t, n, fall, visited, RebuiltHead(ops), v) && Grew(visited, v, lo, lo + NumOps(ops))
    decreases ops, 0, 0
  {
    hide ControlAt, BuiltOp, Built, CodeAt, Parse, ParseBlock;
    IfParts(f, n, ops[0], ctx, lo);
    BuiltIf(ops[0], t);
    var If(e, a, b) := ops[0].instruction.control;
    assert 3 <= NumOp(ops[0]) == NumControl(ops[0].instruction.control);
    var v1, v2 := ParseBranches(f, t, ops[0], ctx, lo, lo + NumOps(ops), visited);
    v := ParseEntry(f, t, lo + 2, ops[1..], ctx, fall, lo + NumOp(ops[0]), v2);
    NormalizeMaybeOps(b);
    UnfoldIf(f, t, n, fall, visited, e, IfRegion(lo, lo + 1, lo + 2, b.Present?, Meta(ops[0])), Normalize(a), v1, Normalize(b.Ops()), v2, Normalize(ops[1..]), v);
  }

  lemma LoopParts(f: Graph, n: nat, op: Operation, ctx: Context, lo: nat)
    requires Structured(op) && IsLoop(op.instruction.control) && n < |f| && ControlAt(f, n, op, ctx, lo)
    ensures LoopAt(f, n, op, lo)
    ensures CodeAt(f, lo + 1, 0, op.instruction.control.body, LoopContext(lo, lo + 2), Some(lo), lo + 3)
  {
  }

  /** The block before a loop only jumps to the header. */
  lemma EnterLoop(f: Graph, t: Tables, n: nat, h: nat, stop: Option<nat>, visited: set<nat>, ops: seq<Operation>, v: set<nat>)
    requires n < |f| && h < |f| && f[n].term == Some(Jump(h)) && f[h].ops == [] && stop != Some(h) && h !in visited
    requires InGraph(f, visited) && ParsesBlock(f, t, h, stop, visited + {h}, ops, v)
    ensures ParsesBlock(f, t, n, stop, visited, ops, v)
  {
    ParseEmpty(f, t, h, stop, visited);
  }

  lemma {:induction false} ParseLoop(f: Graph, t: Tables, n: nat, ops: seq<Operation>, ctx: Context, fall: Option<nat>,
                                     lo: nat, visited: set<nat>) returns (v: set<nat>)
    requires ops != [] && Structured(ops[0]) && IsLoop(ops[0].instruction.control)
    requires ValidBlocks(f, t) && n < |f| && lo + 2 < |f| && ControlAt(f, n, ops[0], ctx, lo)
    requires CodeAt(f, lo + 2, 0, ops[1..], ctx, fall, lo + NumOp(ops[0])) && Built(ops[1..], t) && BuiltOp(ops[0], t)
    requires lo + NumOps(ops) <= |f| && InGraph(f, visited) && Ahead(visited, lo, lo + NumOps(ops), fall)
    ensures ParsesBlock(f, t, n, fall, visited, RebuiltHead(ops), v) && Grew(visited, v, lo, lo + NumOps(ops))
    decreases ops, 0, 0
  {
    hide ControlAt, BuiltOp, Built, CodeAt, Parse, ParseBlock;
    LoopParts(f, n, ops[0], ctx, lo);
    BuiltLoop(ops[0], t);
    var c := ops[0].instruction.control;
    assert NumOp(ops[0]) == NumControl(c);
    var v0 := visited + {lo};
    var v1 := ParseEntry(f, t, lo + 1, c.body, LoopContext(lo, lo + 2), Some(lo), lo + 3, v0);
    v := ParseEntry(f, t, lo + 2, ops[1..], ctx, fall, lo + NumOp(ops[0]), v1);
    NormalizeAccepted(c);
    UnfoldLoop(f, t, lo, fall, v0, NormalizeControl(c), Meta(ops[0]), lo + 1, lo + 2, v1, Normalize(ops[1..]), v);
    EnterLoop(f, t, n, lo, fall, visited, RebuiltHead(ops), v);
  }

  lemma SwitchParts(f: Graph, n: nat, op: Operation, ctx: Context, lo: nat)
    requires Structured(op) && op.instruction.control.Switch? && n < |f| && ControlAt(f, n, op, ctx, lo)
    ensures var Switch(e, cases, d) := op.instruction.control;
            var entry := lo + 1 + NumCases(cases);
            && f[n].term == Some(SwitchOn(e))
            && f[n].region == Some(SwitchRegion(RegionCases(cases, lo + 1), entry, lo, d.Present?, Meta(op)))
            && CasesAt(f, cases, SwitchContext(ctx, lo), lo, lo + 1)
            && MaybeAt(f, entry, d, SwitchContext(ctx, lo), Some(lo), entry + 1)
  {
  }

  lemma {:induction false} ParseArms(f: Graph, t: Tables, op: Operation, ctx: Context, lo: nat, hi: nat, visited: set<nat>)
    returns (v1: set<nat>, v2: set<nat>)
    requires Structured(op) && op.instruction.control.Switch?
    requires var Switch(_, cases, d) := op.instruction.control;
             var entry := lo + 1 + NumCases(cases);
             && CasesAt(f, cases, ctx, lo, lo + 1) && BuiltCases(cases, t)
             && MaybeAt(f, entry, d, ctx, Some(lo), entry + 1) && Built(d.Ops(), t)
    requires ValidBlocks(f, t) && InGraph(f, visited) && lo + NumOp(op) <= hi <= |f|
    requires forall b | b in visited :: b < lo || hi <= b
    ensures var Switch(_, cases, d) := op.instruction.control;
            && ParsesCases(f, t, RegionCases(cases, lo + 1), lo, visited, NormalizeCases(cases), v1)
            && Parses(f, t, lo + 1 + NumCases(cases), Some(lo), v1, Normalize(d.Ops()), v2)
    ensures forall b: nat :: b in v2 <==> (b in visited || lo < b < lo + NumOp(op))
    decreases op
  {
    var Switch(_, cases, d) := op.instruction.control;
    assert NumOp(op) == NumControl(op.instruction.control);
    var entry := lo + 1 + NumCases(cases);
    v1 := ParseSwitchCases(f, t, cases, ctx, lo, lo + 1, visited);
    v2 := ParseMaybe(f, t, entry, d, ctx, Some(lo), entry + 1, v1);
  }

  lemma {:induction false} ParseSwitch(f: Graph, t: Tables, n: nat, ops: seq<Operation>, ctx: Context, fall: Option<nat>,
                                       lo: nat, visited: set<nat>) returns (v: set<nat>)
    requires ops != [] && Structured(ops[0]) && ops[0].instruction.control.Switch?
    requires ValidBlocks(f, t) && n < |f| && lo < |f| && ControlAt(f, n, ops[0], ctx, lo)
    requires CodeAt(f, lo, 0, ops[1..], ctx, fall, lo + NumOp(ops[0])) && Built(ops[1..], t) && BuiltOp(ops[0], t)
    requires lo + NumOps(ops) <= |f| && InGraph(f, visited) && Ahead(visited, lo, lo + NumOps(ops), fall)
    ensures ParsesBlock(f, t, n, fall, visited, RebuiltHead(ops), v) && Grew(visited, v, lo, lo + NumOps(ops))
    decreases ops, 0, 0
  {
    hide ControlAt, Accepted, BuiltOp, Built, CodeAt, Parse, ParseBlock;
    SwitchParts(f, n, ops[0], ctx, lo);
    BuiltSwitch(ops[0], t);
    var c := ops[0].instruction.control;
    var Switch(e, cases, d) := c;
    assert 2 <= NumOp(ops[0]) == NumControl(c);
    var entry := lo + 1 + NumCases(cases);
    var v1, v2 := ParseArms(f, t, ops[0], SwitchContext(ctx, lo), lo, lo + NumOps(ops), visited);
    v := ParseEntry(f, t, lo, ops[1..], ctx, fall, lo + NumOp(ops[0]), v2);
    NormalizeAccepted(c);
    NormalizeMaybeOps(d);
    assert NormalizeControl(c) == Switch(e, NormalizeCases(cases), NormalizeMaybe(d));
    UnfoldSwitch(f, t, n, fall, visited, e, SwitchRegion(RegionCases(cases, lo + 1), entry, lo, d.Present?, Meta(ops[0])), NormalizeCases(cases), v1, Normalize(d.Ops()), v2, Normalize(ops[1..]), v);
  }

  lemma {:induction false} ParseSwitchCases(f: Graph, t: Tables, cases: seq<SwitchCase>, ctx: Context, merge: nat,
                                            lo: nat, visited: set<nat>) returns (v: set<nat>)
    requires ValidBlocks(f, t) && CasesAt(f, cases, ctx, merge, lo) && BuiltCases(cases, t)
    requires lo + NumCases(cases) <= |f| && InGraph(f, visited) && Ahead(visited, lo, lo + NumCases(cases), Some(merge))
    ensures ParsesCases(f, t, RegionCases(cases, lo), merge, visited, NormalizeCases(cases), v)
    ensures Grew(visited, v, lo, lo + NumCases(cases))
    decreases cases
  {
    v := visited;
    if cases != [] {
      var rs := RegionCases(cases, lo);
      var next := lo + NumCase(cases[0]);
      assert rs[1..] == RegionCases(cases[1..], next);
      assert BuiltCases(cases[1..], t) by {
        forall k | 0 <= k < |cases[1..]|
          ensures Built(cases[1..][k].body, t)
        {
          assert cases[1..][k] == cases[k + 1];
        }
      }
      var v1 := ParseSwitchCase(f, t, cases[0], ctx, merge, lo, visited);
      v := ParseSwitchCases(f, t, cases[1..], ctx, merge, next, v1);
      forall k | 0 <= k < |rs|
        ensures rs[k].entry < |f|
      {
        assert k > 0 ==> rs[k] == rs[1..][k - 1];
      }
    }
  }

  lemma {:induction false} ParseSwitchCase(f: Graph, t: Tables, c: SwitchCase, ctx: Context, merge: nat, lo: nat, visited: set<nat>)
    returns (v: set<nat>)
    requires ValidBlocks(f, t) && CaseAt(f, c, ctx, merge, lo) && Built(c.body, t)
    requires lo + NumCase(c) <= |f| && InGraph(f, visited) && Ahead(visited, lo, lo + NumCase(c), Some(merge))
    ensures Parses(f, t, lo, Some(merge), visited, Normalize(c.body), v) && Grew(visited, v, lo, lo + NumCase(c))
    decreases c
  {
    v := ParseEntry(f, t, lo, c.body, ctx, Some(merge), lo + 1, visited);
  }
}
