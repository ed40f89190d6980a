/**
 The mutable graph: blocks are added, filled, terminated and linked one step at a time.
 Every method is proved to compute the corresponding function on graph values.
 */
module CircuitCfgModule {
  import opened Prelude
  import opened Ir
  import opened CfgGraph
  import opened CfgParse
  import opened CfgRoundTrip

  predicate KnownTargets(ctx: Context, n: nat) {
    && (ctx.breakTarget.Some? ==> ctx.breakTarget.value < n)
    && (ctx.continueTarget.Some? ==> ctx.continueTarget.value < n)
  }

  class CircuitCfg {
    var blocks: seq<Block>

    constructor ()
      ensures blocks == []
    {
      blocks := [];
    }

    method AddBlock() returns (id: nat)
      modifies this
      ensures blocks == old(blocks) + [EMPTY_BLOCK] && id == |old(blocks)|
    {
      id := |blocks|;
      blocks := blocks + [EMPTY_BLOCK];
    }

    /** Adds an edge between existing blocks; an unknown endpoint changes nothing. */
    method AddEdge(source: nat, target: nat, flow: FlowEdge) returns (added: bool)
      modifies this
      ensures added <==> source < |old(blocks)| && target < |old(blocks)|
      ensures !added ==> blocks == old(blocks)
      ensures added ==> blocks == old(blocks)[source := old(blocks)[source].(out := old(blocks)[source].out + [Edge(flow, target)])]
    {
      added := source < |blocks| && target < |blocks|;
      if added {
        blocks := blocks[source := blocks[source].(out := blocks[source].out + [Edge(flow, target)])];
      }
    }

    method SetTerminator(n: nat, t: Terminator)
      requires n < |blocks|
      modifies this
      ensures blocks == old(blocks)[n := old(blocks)[n].(term := Some(t))]
    {
      blocks := blocks[n := blocks[n].(term := Some(t))];
    }

    method PushOperation(n: nat, op: Operation)
      requires n < |blocks|
      modifies this
      ensures blocks == Push(old(blocks), n, op)
    {
      blocks := blocks[n := blocks[n].(ops := blocks[n].ops + [op])];
    }

    method SetControlFlowRegion(n: nat, r: Region)
      requires n < |blocks|
      modifies this
      ensures blocks == SetRegion(old(blocks), n, r)
    {
      blocks := blocks[n := blocks[n].(region := Some(r))];
    }

    /** Ends block `source` with a transfer to `target` along one edge. */
    method Transfer(source: nat, t: Terminator, flow: FlowEdge, target: nat)
      requires source < |blocks| && target < |blocks|
      modifies this
      ensures blocks == Terminate(old(blocks), source, t, [Edge(flow, target)])
    {
      SetTerminator(source, t);
      var _ := AddEdge(source, target, flow);
    }

    method ConnectToMerge(source: Exit, target: nat)
      requires target < |blocks| && (source.Reachable? ==> source.block < |blocks|)
      modifies this
      ensures blocks == Connect(old(blocks), source, target)
    {
      match source {
        case Reachable(b) => Transfer(b, Jump(target), Unconditional, target);
        case Terminated =>
      }
    }

    /** Expands `operations` into the graph, starting in block `start`. */
    method ProcessOperations(operations: seq<Operation>, start: nat, ctx: Context) returns (r: Result<Exit, CfgError>)
      requires start < |blocks| && KnownTargets(ctx, |blocks|)
      modifies this
      ensures match Process(operations, old(blocks), start, ctx)
              case Ok((g, exit)) => r == Ok(exit) && blocks == g
              case Err(e) => r == Err(e)
      decreases operations, 1
    {
      var current: nat := start;
      var idx := 0;
      while idx < |operations|
        invariant idx <= |operations| && current < |blocks| && |old(blocks)| <= |blocks|
        invariant Process(operations, old(blocks), start, ctx) == Process(operations[idx..], blocks, current, ctx)
      {
        var op := operations[idx];
        assert operations[idx..][0] == op && operations[idx..][1..] == operations[idx + 1..];
        match op.instruction {
          case Control(Break) =>
            if ctx.breakTarget == None {
              return Err(BreakOutside);
            }
            Transfer(current, BreakTo(ctx.breakTarget.value), BreakEdge, ctx.breakTarget.value);
            return if idx + 1 != |operations| then Err(NonTerminalControl) else Ok(Terminated);
          case Control(Continue) =>
            if ctx.continueTarget == None {
              return Err(ContinueOutside);
            }
            Transfer(current, ContinueTo(ctx.continueTarget.value), ContinueEdge, ctx.continueTarget.value);
            return if idx + 1 != |operations| then Err(NonTerminalControl) else Ok(Terminated);
          case Control(_) =>
            var next := ProcessStructured(op, current, ctx);
            if next.Err? {
              return Err(next.error);
            }
            current := next.value;
          case _ =>
            PushOperation(current, op);
        }
        idx := idx + 1;
      }
      return Ok(Reachable(current));
    }

    method ProcessStructured(op: Operation, current: nat, ctx: Context) returns (r: Result<nat, CfgError>)
      requires current < |blocks| && KnownTargets(ctx, |blocks|) && Structured(op)
      modifies this
      ensures match ProcessControl(op, old(blocks), current, ctx)
              case Ok((g, next)) => r == Ok(next) && blocks == g
              case Err(e) => r == Err(e)
      decreases op, 1
    {
      if op.instruction.control.If? {
        r := ProcessIf(op, current, ctx);
      } else if op.instruction.control.Switch? {
        r := ProcessSwitch(op, current, ctx);
      } else {
        r := ProcessLoop(op, current, ctx);
      }
    }

    method OpenBranch(current: nat, condition: Expr) returns (thenEntry: nat, elseEntry: nat, mergeBlock: nat)
      requires current < |blocks|
      modifies this
      ensures blocks == OpenIf(old(blocks), current, condition)
      ensures thenEntry == |old(blocks)| && elseEntry == thenEntry + 1 && mergeBlock == thenEntry + 2
    {
      thenEntry := AddBlock();
      elseEntry := AddBlock();
      mergeBlock := AddBlock();
      SetTerminator(current, Branch(condition));
      var _ := AddEdge(current, thenEntry, TrueBranch);
      var _ := AddEdge(current, elseEntry, FalseBranch);
      assert blocks[current].out == old(blocks)[current].out + [Edge(TrueBranch, thenEntry), Edge(FalseBranch, elseEntry)];
    }

    method ProcessIf(op: Operation, current: nat, ctx: Context) returns (r: Result<nat, CfgError>)
      requires current < |blocks| && KnownTargets(ctx, |blocks|) && Structured(op) && op.instruction.control.If?
      modifies this
      ensures match ProcessControl(op, old(blocks), current, ctx)
              case Ok((g, next)) => r == Ok(next) && blocks == g
              case Err(e) => r == Err(e)
      decreases op, 0
    {
      var If(condition, thenBody, elseBody) := op.instruction.control;
      var thenEntry, elseEntry, mergeBlock := OpenBranch(current, condition);
      var thenExit := ProcessOperations(thenBody, thenEntry, ctx);
      if thenExit.Err? {
        return Err(thenExit.error);
      }
      var elseExit := Ok(Reachable(elseEntry));
      if elseBody.Present? {
        elseExit := ProcessOperations(elseBody.ops, elseEntry, ctx);
        if elseExit.Err? {
          return Err(elseExit.error);
        }
      }
      ConnectToMerge(thenExit.value, mergeBlock);
      ConnectToMerge(elseExit.value, mergeBlock);
      SetControlFlowRegion(current, IfRegion(thenEntry, elseEntry, mergeBlock, elseBody.Present?, Meta(op)));
      return Ok(mergeBlock);
    }

    method ProcessLoop(op: Operation, current: nat, ctx: Context) returns (r: Result<nat, CfgError>)
      requires current < |blocks| && KnownTargets(ctx, |blocks|) && Structured(op) && IsLoop(op.instruction.control)
      modifies this
      ensures match ProcessControl(op, old(blocks), current, ctx)
              case Ok((g, next)) => r == Ok(next) && blocks == g
              case Err(e) => r == Err(e)
      decreases op, 0
    {
      hide Process;
      var c := op.instruction.control;
      var header := AddBlock();
      Transfer(current, Jump(header), Unconditional, header);
      var bodyEntry := AddBlock();
      var exitBlock := AddBlock();
      SetTerminator(header, LoopTerm(c));
      var _ := AddEdge(header, bodyEntry, TrueBranch);
      var _ := AddEdge(header, exitBlock, FalseBranch);
      assert blocks[header] == Block([], Some(LoopTerm(c)), [Edge(TrueBranch, bodyEntry), Edge(FalseBranch, exitBlock)], None);
      assert blocks == OpenLoop(old(blocks), current, c);

      var bodyExit := ProcessOperations(c.body, bodyEntry, Context(Some(exitBlock), Some(header)));
      if bodyExit.Err? {
        return Err(bodyExit.error);
      }
      ConnectToMerge(bodyExit.value, header);
      SetControlFlowRegion(header, LoopRegion(c, bodyEntry, exitBlock, Meta(op)));
      return Ok(exitBlock);
    }

    method ProcessSwitch(op: Operation, current: nat, ctx: Context) returns (r: Result<nat, CfgError>)
      requires current < |blocks| && KnownTargets(ctx, |blocks|) && Structured(op) && op.instruction.control.Switch?
      modifies this
      ensures match ProcessControl(op, old(blocks), current, ctx)
              case Ok((g, next)) => r == Ok(next) && blocks == g
              case Err(e) => r == Err(e)
      decreases op, 0
    {
      var Switch(target, cases, default) := op.instruction.control;
      var mergeBlock := AddBlock();
      SetTerminator(current, SwitchOn(target));
      ghost var begun := blocks;
      assert begun[current].out + [] == begun[current].out;
      assert begun == OpenSwitch(old(blocks), current, target);

      var switchContext := Context(Some(mergeBlock), ctx.continueTarget);
      var regionCases := ProcessSwitchCases(cases, current, mergeBlock, switchContext);
      if regionCases.Err? {
        return Err(regionCases.error);
      }
      ghost var before := blocks;
      var defaultEntry := AddBlock();
      var _ := AddEdge(current, defaultEntry, DefaultCase);
      assert blocks == OpenCase(before, current, DefaultCase);
      var defaultExit := Ok(Reachable(defaultEntry));
      if default.Present? {
        defaultExit := ProcessOperations(default.ops, defaultEntry, switchContext);
        if defaultExit.Err? {
          return Err(defaultExit.error);
        }
      }
      ConnectToMerge(defaultExit.value, mergeBlock);
      SetControlFlowRegion(current, SwitchRegion(regionCases.value, defaultEntry, mergeBlock, default.Present?, Meta(op)));
      return Ok(mergeBlock);
    }

    method ProcessSwitchCases(cases: seq<SwitchCase>, current: nat, merge: nat, ctx: Context) returns (r: Result<seq<RegionCase>, CfgError>)
      requires current < |blocks| && merge < |blocks| && KnownTargets(ctx, |blocks|)
      modifies this
      ensures match ProcessCases(cases, old(blocks), current, merge, ctx)
              case Ok((g, rs)) => r == Ok(rs) && blocks == g
              case Err(e) => r == Err(e)
      decreases cases, 0
    {
      var regionCases: seq<RegionCase> := [];
      var idx := 0;
      AddNothing(ProcessCases(cases, blocks, current, merge, ctx));
      while idx < |cases|
        invariant idx <= |cases| && |old(blocks)| <= |blocks|
        invariant ProcessCases(cases, old(blocks), current, merge, ctx)
               == AddCases(regionCases, ProcessCases(cases[idx..], blocks, current, merge, ctx))
      {
        assert cases[idx..][0] == cases[idx] && cases[idx..][1..] == cases[idx + 1..];
        var first := ProcessSwitchCase(cases[idx], current, merge, ctx);
        if first.Err? {
          return Err(first.error);
        }
        ghost var rest := ProcessCases(cases[idx + 1..], blocks, current, merge, ctx);
        assert rest.Ok? ==> regionCases + ([first.value] + rest.value.1) == regionCases + [first.value] + rest.value.1;
        regionCases := regionCases + [first.value];
        idx := idx + 1;
      }
      assert regionCases + [] == regionCases;
      return Ok(regionCases);
    }

    method ProcessSwitchCase(c: SwitchCase, current: nat, merge: nat, ctx: Context) returns (r: Result<RegionCase, CfgError>)
      requires current < |blocks| && merge < |blocks| && KnownTargets(ctx, |blocks|)
      modifies this
      ensures match ProcessCase(c, old(blocks), current, merge, ctx)
              case Ok((g, rc)) => r == Ok(rc) && blocks == g
              case Err(e) => r == Err(e)
      decreases c
    {
      var entry := AddBlock();
      var _ := AddEdge(current, entry, CaseEdge(c.value));
      assert blocks == OpenCase(old(blocks), current, CaseEdge(c.value));
      var caseExit := ProcessOperations(c.body, entry, ctx);
      if caseExit.Err? {
        return Err(caseExit.error);
      }
      ConnectToMerge(caseExit.value, merge);
      return Ok(RegionCase(c.value, entry));
    }

    /** Expands a whole circuit into an empty graph; on success the graph is that of `FromOperations`. */
    method FromCircuit(operations: seq<Operation>) returns (r: Result<(), CfgError>)
      requires blocks == []
      modifies this
      ensures match FromOperations(operations)
              case Ok(g) => r == Ok(()) && blocks == g
              case Err(e) => r == Err(e)
    {
      var entry := AddBlock();
      assert blocks == [EMPTY_BLOCK];
      var exit := ProcessOperations(operations, entry, Context(None, None));
      if exit.Err? {
        return Err(exit.error);
      }
      match exit.value {
        case Reachable(b) =>
          if blocks[b].term.None? {
            assert blocks[b].out + [] == blocks[b].out;
            SetTerminator(b, Return);
          }
        case Terminated =>
      }
      return Ok(());
    }

    /** Rebuilds the operations from `start` up to `stop`, one block after another. */
    method ParseSubgraph(start: nat, stop: Option<nat>, visited: set<nat>)
      returns (r: Result<seq<Operation>, GraphError>, visitedAfter: set<nat>)
      requires Walkable(blocks) && start < |blocks| && InGraph(blocks, visited)
      ensures match Parse(blocks, start, stop, visited)
              case Ok((ops, v)) => r == Ok(ops) && visitedAfter == v
              case Err(e) => r == Err(e)
      ensures visited <= visitedAfter && InGraph(blocks, visitedAfter)
      decreases Nodes(blocks) - visited, 0, 0
    {
      var ops: seq<Operation> := [];
      var current: nat := start;
      visitedAfter := visited;
      AddNoOps(Parse(blocks, start, stop, visited));
      while Some(current) != stop
        invariant current < |blocks| && visited <= visitedAfter && InGraph(blocks, visitedAfter)
        invariant Parse(blocks, start, stop, visited) == AddOps(ops, Parse(blocks, current, stop, visitedAfter))
        decreases Nodes(blocks) - visitedAfter
      {
        if current in visitedAfter {
          return Err(Revisited), visitedAfter;
        }
        ghost var before := visitedAfter;
        visitedAfter := visitedAfter + {current};
        assert current in Nodes(blocks) - before;
        var block := blocks[current];
        ghost var tail := ParseBlock(blocks, current, stop, visitedAfter);
        assert Parse(blocks, current, stop, before) == AddOps(block.ops, tail);
        AddOpsTwice(ops, block.ops, tail);
        assert Linked(blocks, current);
        match block.term {
          case None =>
            return Err(Unreachable), visitedAfter;
          case Some(Return) =>
            assert ops + block.ops + [] == ops + block.ops;
            return Ok(ops + block.ops), visitedAfter;
          case Some(BreakTo(_)) =>
            return Ok(ops + block.ops + [BareControl(Break)]), visitedAfter;
          case Some(ContinueTo(_)) =>
            return Ok(ops + block.ops + [BareControl(Continue)]), visitedAfter;
          case Some(Jump(target)) =>
            ops := ops + block.ops;
            current := target;
          case Some(_) =>
            var head, v, next := ParseHeader(current, stop, visitedAfter);
            visitedAfter := v;
            if head.Err? {
              return Err(head.error), visitedAfter;
            }
            AddOpsTwice(ops + block.ops, [head.value], Parse(blocks, next, stop, v));
            ops := ops + block.ops + [head.value];
            current := next;
        }
      }
      assert ops + [] == ops;
      return Ok(ops), visitedAfter;
    }

    /** Rebuilds the structured operation that block `n` ends in; `next` is the block that follows it. */
    method ParseHeader(n: nat, ghost stop: Option<nat>, visited: set<nat>)
      returns (head: Result<Operation, GraphError>, visitedAfter: set<nat>, next: nat)
      requires Walkable(blocks) && n < |blocks| && InGraph(blocks, visited)
      requires IsHeader(blocks[n])
      ensures visited <= visitedAfter && InGraph(blocks, visitedAfter) && next < |blocks|
      ensures match head
              case Ok(op) => ParseBlock(blocks, n, stop, visited) == Prepend(op, Parse(blocks, next, stop, visitedAfter))
              case Err(e) => ParseBlock(blocks, n, stop, visited) == Err(e)
      decreases Nodes(blocks) - visited, 1
    {
      assert Linked(blocks, n);
      var block := blocks[n];
      next := n;
      var c: ControlOp;
      if block.region.None? {
        return Err(MissingRegion), visited, n;
      }
      match (block.term.value, block.region.value) {
        case (Branch(condition), IfRegion(thenEntry, elseEntry, mergeBlock, hasElse, outer)) =>
          var thenOps, v1 := ParseSubgraph(thenEntry, Some(mergeBlock), visited);
          if thenOps.Err? {
            return Err(thenOps.error), v1, n;
          }
          var elseOps, v2 := ParseSubgraph(elseEntry, Some(mergeBlock), v1);
          if elseOps.Err? {
            return Err(elseOps.error), v2, n;
          }
          c := If(condition, thenOps.value, if hasElse then Present(elseOps.value) else Absent);
          visitedAfter, next := v2, mergeBlock;
        case (Branch(condition), WhileRegion(bodyEntry, exitBlock, outer)) =>
          var body, v1 := ParseSubgraph(bodyEntry, Some(n), visited);
          if body.Err? {
            return Err(body.error), v1, n;
          }
          c := While(condition, body.value);
          visitedAfter, next := v1, exitBlock;
        case (ForLoop(v, a, z, d), ForRegion(bodyEntry, exitBlock, outer)) =>
          var body, v1 := ParseSubgraph(bodyEntry, Some(n), visited);
          if body.Err? {
            return Err(body.error), v1, n;
          }
          c := For(v, a, z, d, body.value);
          visitedAfter, next := v1, exitBlock;
        case (SwitchOn(target), SwitchRegion(cases, defaultEntry, mergeBlock, hasDefault, outer)) =>
          var rebuilt, v1 := ParseSwitchCases(cases, mergeBlock, visited);
          if rebuilt.Err? {
            return Err(rebuilt.error), v1, n;
          }
          var defaultOps, v2 := ParseSubgraph(defaultEntry, Some(mergeBlock), v1);
          if defaultOps.Err? {
            return Err(defaultOps.error), v2, n;
          }
          c := Switch(target, rebuilt.value, if hasDefault then Present(defaultOps.value) else Absent);
          visitedAfter, next := v2, mergeBlock;
        case (_, _) =>
          return Err(Unreachable), visited, n;
      }
      head := if Accepted(c) then Ok(Outer(c, block.region.value.outer)) else Err(Rejected);
    }

    method ParseSwitchCases(cases: seq<RegionCase>, merge: nat, visited: set<nat>)
      returns (r: Result<seq<SwitchCase>, GraphError>, visitedAfter: set<nat>)
      requires Walkable(blocks) && InGraph(blocks, visited)
      requires forall k | 0 <= k < |cases| :: cases[k].entry < |blocks|
      ensures match ParseCases(blocks, cases, merge, visited)
              case Ok((rebuilt, v)) => r == Ok(rebuilt) && visitedAfter == v
              case Err(e) => r == Err(e)
      ensures visited <= visitedAfter && InGraph(blocks, visitedAfter)
      decreases Nodes(blocks) - visited, 0, 1
    {
      var rebuilt: seq<SwitchCase> := [];
      visitedAfter := visited;
      var k := 0;
      RebuildNothing(ParseCases(blocks, cases, merge, visited));
      while k < |cases|
        invariant k <= |cases| && visited <= visitedAfter && InGraph(blocks, visitedAfter)
        invariant ParseCases(blocks, cases, merge, visited)
               == AddRebuilt(rebuilt, ParseCases(blocks, cases[k..], merge, visitedAfter))
      {
        assert cases[k..][0] == cases[k] && cases[k..][1..] == cases[k + 1..];
        var body, v := ParseSubgraph(cases[k].entry, Some(merge), visitedAfter);
        visitedAfter := v;
        if body.Err? {
          return Err(body.error), visitedAfter;
        }
        ghost var rest := ParseCases(blocks, cases[k + 1..], merge, v);
        ghost var first := SwitchCase(cases[k].value, body.value);
        assert rest.Ok? ==> rebuilt + ([first] + rest.value.0) == rebuilt + [first] + rest.value.0;
        rebuilt := rebuilt + [SwitchCase(cases[k].value, body.value)];
        k := k + 1;
      }
      assert rebuilt + [] == rebuilt;
      return Ok(rebuilt), visitedAfter;
    }

    /** Checks the graph and rebuilds the circuit's operations from entry block 0. */
    method ToCircuit(t: Tables, phase: Param) returns (r: Result<seq<Operation>, GraphError>)
      ensures r == ToOperations(blocks, t, phase)
    {
      if |blocks| == 0 {
        return Err(BadEntry);
      }
      if !t.HasParam(phase) {
        return Err(BadParam);
      }
      if !ValidBlocks(blocks, t) {
        return Err(BadBlock);
      }
      var ops, visited := ParseSubgraph(0, None, {});
      if ops.Err? {
        return Err(ops.error);
      }
      return if visited != Nodes(blocks) then Err(Unvisited) else Ok(ops.value);
    }
  }

  predicate IsHeader(b: Block) {
    b.term.Some? && (b.term.value.Branch? || b.term.value.ForLoop? || b.term.value.SwitchOn?)
  }

  function Prepend(op: Operation, r: Result<(seq<Operation>, set<nat>), GraphError>): Result<(seq<Operation>, set<nat>), GraphError> {
    AddOps([op], r)
  }

  function AddOps(ops: seq<Operation>, r: Result<(seq<Operation>, set<nat>), GraphError>): Result<(seq<Operation>, set<nat>), GraphError> {
    match r
    case Ok((rest, v)) => Ok((ops + rest, v))
    case Err(e) => Err(e)
  }

  lemma AddOpsTwice(a: seq<Operation>, b: seq<Operation>, r: Result<(seq<Operation>, set<nat>), GraphError>)
    ensures AddOps(a, AddOps(b, r)) == AddOps(a + b, r)
  {
    if r.Ok? {
      assert a + (b + r.value.0) == a + b + r.value.0;
    }
  }

  function AddRebuilt(cases: seq<SwitchCase>, r: Result<(seq<SwitchCase>, set<nat>), GraphError>): Result<(seq<SwitchCase>, set<nat>), GraphError> {
    match r
    case Ok((rest, v)) => Ok((cases + rest, v))
    case Err(e) => Err(e)
  }

  function AddCases(cases: seq<RegionCase>, r: Result<(Graph, seq<RegionCase>), CfgError>): Result<(Graph, seq<RegionCase>), CfgError> {
    match r
    case Ok((g, rest)) => Ok((g, cases + rest))
    case Err(e) => Err(e)
  }

  lemma AddNothing(r: Result<(Graph, seq<RegionCase>), CfgError>)
    ensures AddCases([], r) == r
  {
    assert r.Ok? ==> [] + r.value.1 == r.value.1;
  }

  lemma AddNoOps(r: Result<(seq<Operation>, set<nat>), GraphError>)
    ensures AddOps([], r) == r
  {
    assert r.Ok? ==> [] + r.value.0 == r.value.0;
  }

  lemma RebuildNothing(r: Result<(seq<SwitchCase>, set<nat>), GraphError>)
    ensures AddRebuilt([], r) == r
  {
    assert r.Ok? ==> [] + r.value.0 == r.value.0;
  }
}
