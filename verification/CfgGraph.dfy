/**
 The control-flow graph and the pass that expands an operation tree into it.
 `Process` is the pass as a function on graph values; `CircuitCfg` is the mutable graph,
 whose `ProcessOperations` is proved to compute `Process`.
 */
module CfgGraph {
  import opened Prelude
  import opened Ir

  datatype FlowEdge =
    | TrueBranch
    | FalseBranch
    | Unconditional
    | CaseEdge(value: nat)
    | DefaultCase
    | BreakEdge
    | ContinueEdge

  datatype Edge = Edge(kind: FlowEdge, target: nat)

  datatype Terminator =
    | Branch(condition: Expr)
    | ForLoop(loopVar: ClassicalVar, start: Expr, stop: Expr, step: Expr)
    | SwitchOn(target: Expr)
    | Jump(block: nat)
    | BreakTo(block: nat)
    | ContinueTo(block: nat)
    | Return

  /** The fields of the outer control operation that are not part of its bodies. */
  datatype Metadata = Metadata(qubits: seq<nat>, params: seq<Param>, tag: Option<string>)

  datatype RegionCase = RegionCase(value: nat, entry: nat)

  datatype Region =
    | IfRegion(thenEntry: nat, elseEntry: nat, merge: nat, hasElse: bool, outer: Metadata)
    | WhileRegion(bodyEntry: nat, exit: nat, outer: Metadata)
    | ForRegion(bodyEntry: nat, exit: nat, outer: Metadata)
    | SwitchRegion(cases: seq<RegionCase>, defaultEntry: nat, merge: nat, hasDefault: bool, outer: Metadata)

  /**
   A straight-line block with its terminator, its outgoing edges in insertion order, and the
   structured region it owns when it is a header.
   */
  datatype Block = Block(ops: seq<Operation>, term: Option<Terminator>, out: seq<Edge>, region: Option<Region>)

  /** Blocks are indexed by creation order and never removed. */
  type Graph = seq<Block>

  datatype Context = Context(breakTarget: Option<nat>, continueTarget: Option<nat>)

  datatype Exit = Reachable(block: nat) | Terminated

  datatype CfgError = BreakOutside | ContinueOutside | NonTerminalControl

  const EMPTY_BLOCK := Block([], None, [], None)

  // ---- graph edits --------------------------------------------------------------------

  function Push(g: Graph, n: nat, op: Operation): Graph
    requires n < |g|
  {
    g[n := g[n].(ops := g[n].ops + [op])]
  }

  /** Gives block `n` a terminator and adds the edges that go with it. */
  function Terminate(g: Graph, n: nat, t: Terminator, edges: seq<Edge>): Graph
    requires n < |g|
  {
    g[n := g[n].(term := Some(t), out := g[n].out + edges)]
  }

  function AddEdge(g: Graph, n: nat, e: Edge): Graph
    requires n < |g|
  {
    g[n := g[n].(out := g[n].out + [e])]
  }

  function SetRegion(g: Graph, n: nat, r: Region): Graph
    requires n < |g|
  {
    g[n := g[n].(region := Some(r))]
  }

  function Meta(op: Operation): Metadata {
    Metadata(op.qubits, op.params, op.tag)
  }

  function LoopTerm(c: ControlOp): Terminator
    requires IsLoop(c)
  {
    match c
    case While(e, _) => Branch(e)
    case For(v, a, b, s, _) => ForLoop(v, a, b, s)
  }

  function LoopRegion(c: ControlOp, bodyEntry: nat, exit: nat, outer: Metadata): Region
    requires IsLoop(c)
  {
    if c.While? then WhileRegion(bodyEntry, exit, outer) else ForRegion(bodyEntry, exit, outer)
  }

  // ---- how many blocks an expansion allocates -------------------------------------------

  function NumOps(ops: seq<Operation>): nat
    decreases ops
  {
    if ops == [] then 0 else NumOp(ops[0]) + NumOps(ops[1..])
  }

  function NumOp(op: Operation): nat
    decreases op
  {
    match op.instruction
    case Control(c) => NumControl(c)
    case _ => 0
  }

  function NumControl(c: ControlOp): nat
    decreases c
  {
    match c
    case If(_, t, e) => 3 + NumOps(t) + NumMaybe(e)
    case While(_, b) => 3 + NumOps(b)
    case For(_, _, _, _, b) => 3 + NumOps(b)
    case Switch(_, cases, d) => 2 + NumCases(cases) + NumMaybe(d)
    case _ => 0
  }

  function NumMaybe(b: MaybeBody): nat
    decreases b
  {
    match b
    case Absent => 0
    case Present(ops) => NumOps(ops)
  }

  function NumCases(cases: seq<SwitchCase>): nat
    decreases cases
  {
    if cases == [] then 0 else NumCase(cases[0]) + NumCases(cases[1..])
  }

  function NumCase(c: SwitchCase): nat
    decreases c
  {
    1 + NumOps(c.body)
  }

  // ---- the expansion ----------------------------------------------------------------------

  function Connect(g: Graph, source: Exit, target: nat): Graph
    requires source.Reachable? ==> source.block < |g|
  {
    match source
    case Reachable(b) => Terminate(g, b, Jump(target), [Edge(Unconditional, target)])
    case Terminated => g
  }

  function LoopContext(header: nat, exit: nat): Context {
    Context(Some(exit), Some(header))
  }

  function SwitchContext(ctx: Context, merge: nat): Context {
    Context(Some(merge), ctx.continueTarget)
  }

  function OpenIf(g: Graph, cur: nat, e: Expr): Graph
    requires cur < |g|
  {
    Terminate(g, cur, Branch(e), [Edge(TrueBranch, |g|), Edge(FalseBranch, |g| + 1)]) + [EMPTY_BLOCK, EMPTY_BLOCK, EMPTY_BLOCK]
  }

  function OpenLoop(g: Graph, cur: nat, c: ControlOp): Graph
    requires cur < |g| && IsLoop(c)
  {
    var h := |g|;
    var header := Block([], Some(LoopTerm(c)), [Edge(TrueBranch, h + 1), Edge(FalseBranch, h + 2)], None);
    Terminate(g, cur, Jump(h), [Edge(Unconditional, h)]) + [header, EMPTY_BLOCK, EMPTY_BLOCK]
  }

  function OpenSwitch(g: Graph, cur: nat, e: Expr): Graph
    requires cur < |g|
  {
    Terminate(g, cur, SwitchOn(e), []) + [EMPTY_BLOCK]
  }

  function OpenCase(g: Graph, cur: nat, kind: FlowEdge): Graph
    requires cur < |g|
  {
    AddEdge(g, cur, Edge(kind, |g|)) + [EMPTY_BLOCK]
  }

  /** Expands `ops` into `g`, starting in the open block `cur`. */
  function Process(ops: seq<Operation>, g: Graph, cur: nat, ctx: Context): (r: Result<(Graph, Exit), CfgError>)
    requires cur < |g|
    ensures r.Ok? ==> |r.value.0| == |g| + NumOps(ops)
    ensures r.Ok? && r.value.1.Reachable? ==> r.value.1.block < |r.value.0|
    decreases ops
  {
    if ops == [] then Ok((g, Reachable(cur)))
    else
      match ops[0].instruction
      case Control(Break) =>
        if ctx.breakTarget.None? then Err(BreakOutside)
        else if |ops| != 1 then Err(NonTerminalControl)
        else
          var t := ctx.breakTarget.value;
          assert ops[1..] == [] && NumOp(ops[0]) == 0;
          Ok((Terminate(g, cur, BreakTo(t), [Edge(BreakEdge, t)]), Terminated))
      case Control(Continue) =>
        if ctx.continueTarget.None? then Err(ContinueOutside)
        else if |ops| != 1 then Err(NonTerminalControl)
        else
          var t := ctx.continueTarget.value;
          assert ops[1..] == [] && NumOp(ops[0]) == 0;
          Ok((Terminate(g, cur, ContinueTo(t), [Edge(ContinueEdge, t)]), Terminated))
      case Control(_) =>
        var (g1, next) :- ProcessControl(ops[0], g, cur, ctx);
        Process(ops[1..], g1, next, ctx)
      case _ => Process(ops[1..], Push(g, cur, ops[0]), cur, ctx)
  }

  /** Expands one structured operation; the second component is the block that follows it. */
  function ProcessControl(op: Operation, g: Graph, cur: nat, ctx: Context): (r: Result<(Graph, nat), CfgError>)
    requires cur < |g|
    requires Structured(op)
    ensures r.Ok? ==> |r.value.0| == |g| + NumOp(op) && r.value.1 < |r.value.0|
    decreases op
  {
    var k := |g|;
    match op.instruction.control
    case If(e, thenBody, elseBody) =>
      var (g1, thenExit) :- Process(thenBody, OpenIf(g, cur, e), k, ctx);
      var (g2, elseExit) :- ProcessMaybe(elseBody, g1, k + 1, ctx);
      var g3 := Connect(Connect(g2, thenExit, k + 2), elseExit, k + 2);
      Ok((SetRegion(g3, cur, IfRegion(k, k + 1, k + 2, elseBody.Present?, Meta(op))), k + 2))
    case Switch(e, cases, default) =>
      var (g1, regionCases) :- ProcessCases(cases, OpenSwitch(g, cur, e), cur, k, SwitchContext(ctx, k));
      var d := |g1|;
      var (g2, exit) :- ProcessMaybe(default, OpenCase(g1, cur, DefaultCase), d, SwitchContext(ctx, k));
      var g3 := Connect(g2, exit, k);
      Ok((SetRegion(g3, cur, SwitchRegion(regionCases, d, k, default.Present?, Meta(op))), k))
    case While(_, body) =>
      var (g1, exit) :- Process(body, OpenLoop(g, cur, op.instruction.control), k + 1, LoopContext(k, k + 2));
      Ok((SetRegion(Connect(g1, exit, k), k, WhileRegion(k + 1, k + 2, Meta(op))), k + 2))
    case For(_, _, _, _, body) =>
      var (g1, exit) :- Process(body, OpenLoop(g, cur, op.instruction.control), k + 1, LoopContext(k, k + 2));
      Ok((SetRegion(Connect(g1, exit, k), k, ForRegion(k + 1, k + 2, Meta(op))), k + 2))
  }

  function ProcessMaybe(body: MaybeBody, g: Graph, cur: nat, ctx: Context): (r: Result<(Graph, Exit), CfgError>)
    requires cur < |g|
    ensures r.Ok? ==> |r.value.0| == |g| + NumMaybe(body)
    ensures r.Ok? && r.value.1.Reachable? ==> r.value.1.block < |r.value.0|
    decreases body
  {
    match body
    case Absent => Ok((g, Reachable(cur)))
    case Present(ops) => Process(ops, g, cur, ctx)
  }

  function ProcessCases(cases: seq<SwitchCase>, g: Graph, cur: nat, merge: nat, ctx: Context)
    : (r: Result<(Graph, seq<RegionCase>), CfgError>)
    requires cur < |g|
    ensures r.Ok? ==> |r.value.0| == |g| + NumCases(cases)
    decreases cases
  {
    if cases == [] then Ok((g, []))
    else
      var (g1, first) :- ProcessCase(cases[0], g, cur, merge, ctx);
      var (g2, rest) :- ProcessCases(cases[1..], g1, cur, merge, ctx);
      Ok((g2, [first] + rest))
  }

  function ProcessCase(c: SwitchCase, g: Graph, cur: nat, merge: nat, ctx: Context)
    : (r: Result<(Graph, RegionCase), CfgError>)
    requires cur < |g|
    ensures r.Ok? ==> |r.value.0| == |g| + NumCase(c)
    decreases c
  {
    var entry := |g|;
    var (g1, exit) :- Process(c.body, OpenCase(g, cur, CaseEdge(c.value)), entry, ctx);
    Ok((Connect(g1, exit, merge), RegionCase(c.value, entry)))
  }

  /** The whole expansion: an entry block, the operations, and a final `Return`. */
  function FromOperations(ops: seq<Operation>): (r: Result<Graph, CfgError>) {
    var (g, exit) :- Process(ops, [EMPTY_BLOCK], 0, Context(None, None));
    match exit
    case Reachable(b) => Ok(if g[b].term.None? then Terminate(g, b, Return, []) else g)
    case Terminated => Ok(g)
  }
}
