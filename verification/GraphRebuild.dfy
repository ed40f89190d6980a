/**
 What a rebuild guarantees of any graph, not just of expanded ones: it succeeds exactly on the graphs
 that pass the checks, refers only to the tables, and neither invents nor repeats an operation. It can
 lose operations, in a branch that the region marks as absent.
 */
module GraphRebuild {
  import opened Prelude
  import opened Ir
  import opened CfgGraph
  import opened CfgParse
  import opened CfgRoundTrip

  /** A graph rebuilds exactly if it passes the checks, the visit of every block included. */
  lemma RebuildsExactlyWhen(f: Graph, t: Tables, phase: Param)
    ensures ToOperations(f, t, phase).Ok? <==> ValidGraph(f, t, phase)
  {
  }

  // ---- what the rebuilt tree refers to ------------------------------------------------------------------

  lemma BuiltConcat(a: seq<Operation>, b: seq<Operation>, t: Tables)
    requires Built(a, t) && Built(b, t)
    ensures Built(a + b, t)
  {
    hide BuiltOp;
  }

  lemma BuiltOne(c: ControlOp, m: Metadata, t: Tables)
    requires Accepted(c) && t.HasHead(c) && t.HasFields(m.qubits, m.params)
    requires forall k | 0 <= k < |Bodies(c)| :: Built(Bodies(c)[k], t)
    ensures Built([Outer(c, m)], t)
  {
  }

  lemma PlainBuilt(ops: seq<Operation>, t: Tables)
    requires forall k | 0 <= k < |ops| :: ValidPlain(ops[k], t)
    ensures Built(ops, t)
  {
  }

  lemma BareBuilt(c: ControlOp, t: Tables)
    requires c.Break? || c.Continue?
    ensures Built([BareControl(c)], t)
  {
    assert Heads(c) == [] && Bodies(c) == [];
  }

  lemma {:induction false} ParsedBuilt(f: Graph, t: Tables, node: nat, stop: Option<nat>, visited: set<nat>)
    requires ValidBlocks(f, t) && node < |f| && InGraph(f, visited) && Parse(f, node, stop, visited).Ok?
    ensures Built(Parse(f, node, stop, visited).value.0, t)
    decreases Nodes(f) - visited, 0
  {
    hide ParseBlock, Built, ValidTerminator, Linked;
    if Some(node) != stop {
      assert ValidBlock(f, t, node);
      assert Nodes(f) - (visited + {node}) < Nodes(f) - visited by {
        assert node in Nodes(f) - visited;
      }
      BlockBuilt(f, t, node, stop, visited + {node});
      PlainBuilt(f[node].ops, t);
      BuiltConcat(f[node].ops, ParseBlock(f, node, stop, visited + {node}).value.0, t);
    } else {
      PlainBuilt([], t);
    }
  }

  lemma {:induction false} BlockBuilt(f: Graph, t: Tables, node: nat, stop: Option<nat>, visited: set<nat>)
    requires ValidBlocks(f, t) && node < |f| && InGraph(f, visited) && ParseBlock(f, node, stop, visited).Ok?
    ensures Built(ParseBlock(f, node, stop, visited).value.0, t)
    decreases Nodes(f) - visited, 2
  {
    hide Parse, ParseCases, Built, Accepted, BranchEdges;
    assert ValidBlock(f, t, node) && Linked(f, node);
    var b := f[node];
    match b.term {
      case None =>
      case Some(Return) => PlainBuilt([], t);
      case Some(Jump(d)) => ParsedBuilt(f, t, d, stop, visited);
      case Some(BreakTo(_)) => BareBuilt(Break, t);
      case Some(ContinueTo(_)) => BareBuilt(Continue, t);
      case Some(Branch(e)) =>
        if b.region.value.IfRegion? {
          IfBuilt(f, t, node, stop, visited);
        } else {
          LoopBuilt(f, t, node, stop, visited);
        }
      case Some(ForLoop(_, _, _, _)) => LoopBuilt(f, t, node, stop, visited);
      case Some(SwitchOn(_)) => SwitchBuilt(f, t, node, stop, visited);
    }
  }

  lemma {:induction false} IfBuilt(f: Graph, t: Tables, node: nat, stop: Option<nat>, visited: set<nat>)
    requires ValidBlocks(f, t) && node < |f| && InGraph(f, visited) && ParseBlock(f, node, stop, visited).Ok?
    requires f[node].term.Some? && f[node].term.value.Branch? && f[node].region.Some? && f[node].region.value.IfRegion?
    ensures Built(ParseBlock(f, node, stop, visited).value.0, t)
    decreases Nodes(f) - visited, 1
  {
    hide Parse, Built, Accepted, BranchEdges;
    assert ValidBlock(f, t, node) && Linked(f, node);
    var e, r := f[node].term.value.condition, f[node].region.value;
    var (thenOps, v1) := Parse(f, r.thenEntry, Some(r.merge), visited).value;
    ParsedBuilt(f, t, r.thenEntry, Some(r.merge), visited);
    var (elseOps, v2) := Parse(f, r.elseEntry, Some(r.merge), v1).value;
    ParsedBuilt(f, t, r.elseEntry, Some(r.merge), v1);
    ParsedBuilt(f, t, r.merge, stop, v2);
    var c := If(e, thenOps, if r.hasElse then Present(elseOps) else Absent);
    BuiltOne(c, r.outer, t);
    BuiltConcat([Outer(c, r.outer)], Parse(f, r.merge, stop, v2).value.0, t);
  }

  lemma {:induction false} LoopBuilt(f: Graph, t: Tables, node: nat, stop: Option<nat>, visited: set<nat>)
    requires ValidBlocks(f, t) && node < |f| && InGraph(f, visited) && ParseBlock(f, node, stop, visited).Ok?
    requires f[node].term.Some? && f[node].region.Some?
    requires (f[node].term.value.Branch? && f[node].region.value.WhileRegion?) || f[node].term.value.ForLoop?
    ensures Built(ParseBlock(f, node, stop, visited).value.0, t)
    decreases Nodes(f) - visited, 1
  {
    hide Parse, Built, Accepted, BranchEdges;
    assert ValidBlock(f, t, node) && Linked(f, node);
    var k, r := f[node].term.value, f[node].region.value;
    var (body, v1) := Parse(f, r.bodyEntry, Some(node), visited).value;
    ParsedBuilt(f, t, r.bodyEntry, Some(node), visited);
    ParsedBuilt(f, t, r.exit, stop, v1);
    var c := if k.Branch? then While(k.condition, body) else For(k.loopVar, k.start, k.stop, k.step, body);
    BuiltOne(c, r.outer, t);
    BuiltConcat([Outer(c, r.outer)], Parse(f, r.exit, stop, v1).value.0, t);
  }

  lemma {:induction false} SwitchBuilt(f: Graph, t: Tables, node: nat, stop: Option<nat>, visited: set<nat>)
    requires ValidBlocks(f, t) && node < |f| && InGraph(f, visited) && ParseBlock(f, node, stop, visited).Ok?
    requires f[node].term.Some? && f[node].term.value.SwitchOn?
    ensures Built(ParseBlock(f, node, stop, visited).value.0, t)
    decreases Nodes(f) - visited, 2, 0
  {
    hide Parse, ParseCases, Built, Accepted;
    assert ValidBlock(f, t, node) && Linked(f, node);
    var e, r := f[node].term.value.target, f[node].region.value;
    var (cases, v1) := ParseCases(f, r.cases, r.merge, visited).value;
    CasesBuilt(f, t, r.cases, r.merge, visited);
    var (defaultOps, v2) := Parse(f, r.defaultEntry, Some(r.merge), v1).value;
    ParsedBuilt(f, t, r.defaultEntry, Some(r.merge), v1);
    ParsedBuilt(f, t, r.merge, stop, v2);
    var c := Switch(e, cases, if r.hasDefault then Present(defaultOps) else Absent);
    forall k | 0 <= k < |Bodies(c)|
      ensures Built(Bodies(c)[k], t)
    {
      assert k < |cases| ==> Bodies(c)[k] == cases[k].body;
    }
    BuiltOne(c, r.outer, t);
    BuiltConcat([Outer(c, r.outer)], Parse(f, r.merge, stop, v2).value.0, t);
  }

  lemma {:induction false} CasesBuilt(f: Graph, t: Tables, cases: seq<RegionCase>, merge: nat, visited: set<nat>)
    requires ValidBlocks(f, t) && InGraph(f, visited) && (forall k | 0 <= k < |cases| :: cases[k].entry < |f|)
    requires ParseCases(f, cases, merge, visited).Ok?
    ensures BuiltCases(ParseCases(f, cases, merge, visited).value.0, t)
    decreases Nodes(f) - visited, 1, |cases|
  {
    hide Parse, Built;
    if cases != [] {
      ParsedBuilt(f, t, cases[0].entry, Some(merge), visited);
      CasesBuilt(f, t, cases[1..], merge, Parse(f, cases[0].entry, Some(merge), visited).value.1);
    }
  }

  /** Whatever rebuilds refers only to the tables, and every control operation passes its constructor's checks. */
  lemma RebuiltIsBuilt(f: Graph, t: Tables, phase: Param)
    requires ToOperations(f, t, phase).Ok?
    ensures Built(ToOperations(f, t, phase).value, t)
  {
    ParsedBuilt(f, t, 0, None, {});
  }

  // ---- how often each operation is in the tree ------------------------------------------------------------

  /** How often the plain operation `x` stands in the tree, at any depth. */
  function Occurs(ops: seq<Operation>, x: Operation): nat
    decreases ops
  {
    if ops == [] then 0 else OccursOp(ops[0], x) + Occurs(ops[1..], x)
  }

  function OccursOp(op: Operation, x: Operation): nat
    decreases op
  {
    match op.instruction
    case Control(c) => OccursBodies(c, 0, x)
    case _ => if op == x then 1 else 0
  }

  function OccursBodies(c: ControlOp, k: nat, x: Operation): nat
    requires k <= |Bodies(c)|
    decreases c, |Bodies(c)| - k
  {
    if k == |Bodies(c)| then 0 else Occurs(Bodies(c)[k], x) + OccursBodies(c, k + 1, x)
  }

  /** How often it stands in those of the first `n` blocks that are in `v`. */
  function Listed(f: Graph, v: set<nat>, n: nat, x: Operation): nat
    requires n <= |f|
  {
    if n == 0 then 0 else Listed(f, v, n - 1, x) + if n - 1 in v then Occurs(f[n - 1].ops, x) else 0
  }

  lemma {:induction false} ListedMore(f: Graph, v: set<nat>, node: nat, n: nat, x: Operation)
    requires n <= |f| && node !in v
    ensures node < n ==> Listed(f, v + {node}, n, x) == Listed(f, v, n, x) + Occurs(f[node].ops, x)
    ensures node >= n ==> Listed(f, v + {node}, n, x) == Listed(f, v, n, x)
  {
    hide Occurs;
    if n > 0 {
      ListedMore(f, v, node, n - 1, x);
    }
  }

  lemma {:induction false} OccursConcat(a: seq<Operation>, b: seq<Operation>, x: Operation)
    ensures Occurs(a + b, x) == Occurs(a, x) + Occurs(b, x)
    decreases |a|
  {
    hide OccursOp;
    if a == [] {
      assert a + b == b;
    } else {
      assert (a + b)[1..] == a[1..] + b;
      OccursConcat(a[1..], b, x);
    }
  }

  function OccursCases(cases: seq<SwitchCase>, x: Operation): nat {
    if cases == [] then 0 else Occurs(cases[0].body, x) + OccursCases(cases[1..], x)
  }

  lemma {:induction false} SwitchOccurs(c: ControlOp, k: nat, x: Operation)
    requires c.Switch? && k <= |c.cases|
    ensures OccursBodies(c, k, x) == OccursCases(c.cases[k..], x) + Occurs(c.default.Ops(), x)
    decreases |c.cases| - k
  {
    if k < |c.cases| {
      SwitchOccurs(c, k + 1, x);
      assert c.cases[k..][1..] == c.cases[k + 1..];
      assert Bodies(c)[k] == c.cases[k].body;
    } else if c.default.Present? {
      assert Bodies(c)[k] == c.default.ops && |Bodies(c)| == k + 1;
      assert OccursBodies(c, k + 1, x) == 0;
    }
  }

  /** The operation made from rebuilt bodies, in front of what follows. */
  lemma OuterOccurs(c: ControlOp, m: Metadata, rest: seq<Operation>, x: Operation)
    ensures Occurs([Outer(c, m)] + rest, x) == OccursBodies(c, 0, x) + Occurs(rest, x)
  {
    OccursConcat([Outer(c, m)], rest, x);
    assert [Outer(c, m)][1..] == [];
    assert Occurs([], x) == 0;
  }

  lemma IfOccurs(e: Expr, a: seq<Operation>, b: MaybeBody, x: Operation)
    ensures OccursBodies(If(e, a, b), 0, x) == Occurs(a, x) + Occurs(b.Ops(), x)
  {
    var c := If(e, a, b);
    assert Bodies(c)[0] == a;
    if b.Present? {
      assert Bodies(c)[1] == b.ops && |Bodies(c)| == 2;
      assert OccursBodies(c, 2, x) == 0;
    } else {
      assert OccursBodies(c, 1, x) == 0;
    }
  }

  lemma LoopOccurs(c: ControlOp, x: Operation)
    requires IsLoop(c)
    ensures OccursBodies(c, 0, x) == Occurs(c.body, x)
  {
    assert Bodies(c)[0] == c.body && |Bodies(c)| == 1;
    assert OccursBodies(c, 1, x) == 0;
  }

  // ---- the walk does not depend on blocks visited elsewhere ---------------------------------------------------

  /** With fewer blocks visited before, a walk returns the same operations and visits the same blocks. */
  lemma {:induction false} ParseFramed(f: Graph, node: nat, stop: Option<nat>, v: set<nat>, w: set<nat>)
    requires Walkable(f) && node < |f| && InGraph(f, v) && w <= v && Parse(f, node, stop, v).Ok?
    ensures var (ops, v') := Parse(f, node, stop, v).value; Parse(f, node, stop, w) == Ok((ops, w + (v' - v)))
    decreases Nodes(f) - v, 0
  {
    hide ParseBlock;
    if Some(node) != stop {
      assert Nodes(f) - (v + {node}) < Nodes(f) - v by {
        assert node in Nodes(f) - v;
      }
      BlockFramed(f, node, stop, v + {node}, w + {node});
      var v' := Parse(f, node, stop, v).value.1;
      assert w + {node} + (v' - (v + {node})) == w + (v' - v);
    } else {
      assert w + (v - v) == w;
    }
  }

  lemma {:induction false} BlockFramed(f: Graph, node: nat, stop: Option<nat>, v: set<nat>, w: set<nat>)
    requires Walkable(f) && node < |f| && InGraph(f, v) && w <= v && ParseBlock(f, node, stop, v).Ok?
    ensures var (ops, v') := ParseBlock(f, node, stop, v).value; ParseBlock(f, node, stop, w) == Ok((ops, w + (v' - v)))
    decreases Nodes(f) - v, 2
  {
    hide Parse, ParseCases, Accepted;
    assert Linked(f, node);
    assert w + (v - v) == w;
    var b := f[node];
    match b.term {
      case None =>
      case Some(Return) =>
      case Some(Jump(d)) => ParseFramed(f, d, stop, v, w);
      case Some(BreakTo(_)) =>
      case Some(ContinueTo(_)) =>
      case Some(Branch(e)) =>
        if b.region.value.IfRegion? {
          IfFramed(f, node, stop, v, w);
        } else {
          LoopFramed(f, node, stop, v, w);
        }
      case Some(ForLoop(_, _, _, _)) => LoopFramed(f, node, stop, v, w);
      case Some(SwitchOn(_)) => SwitchFramed(f, node, stop, v, w);
    }
  }

  lemma Union(w: set<nat>, v: set<nat>, v1: set<nat>, v2: set<nat>)
    requires w <= v <= v1 <= v2
    ensures w + (v1 - v) <= v1 && w + (v1 - v) + (v2 - v1) == w + (v2 - v)
  {
  }

  lemma {:induction false} IfFramed(f: Graph, node: nat, stop: Option<nat>, v: set<nat>, w: set<nat>)
    requires Walkable(f) && node < |f| && InGraph(f, v) && w <= v && ParseBlock(f, node, stop, v).Ok?
    requires f[node].term.Some? && f[node].term.value.Branch? && f[node].region.Some? && f[node].region.value.IfRegion?
    ensures var (ops, v') := ParseBlock(f, node, stop, v).value; ParseBlock(f, node, stop, w) == Ok((ops, w + (v' - v)))
    decreases Nodes(f) - v, 1
  {
    hide Parse, Accepted;
    assert Linked(f, node);
    var r := f[node].region.value;
    var v1 := Parse(f, r.thenEntry, Some(r.merge), v).value.1;
    ParseFramed(f, r.thenEntry, Some(r.merge), v, w);
    var v2 := Parse(f, r.elseEntry, Some(r.merge), v1).value.1;
    Union(w, v, v1, v2);
    ParseFramed(f, r.elseEntry, Some(r.merge), v1, w + (v1 - v));
    Union(w, v, v2, Parse(f, r.merge, stop, v2).value.1);
    ParseFramed(f, r.merge, stop, v2, w + (v2 - v));
  }

  lemma {:induction false} LoopFramed(f: Graph, node: nat, stop: Option<nat>, v: set<nat>, w: set<nat>)
    requires Walkable(f) && node < |f| && InGraph(f, v) && w <= v && ParseBlock(f, node, stop, v).Ok?
    requires f[node].term.Some? && f[node].region.Some?
    requires (f[node].term.value.Branch? && f[node].region.value.WhileRegion?) || f[node].term.value.ForLoop?
    ensures var (ops, v') := ParseBlock(f, node, stop, v).value; ParseBlock(f, node, stop, w) == Ok((ops, w + (v' - v)))
    decreases Nodes(f) - v, 1
  {
    hide Parse, Accepted;
    assert Linked(f, node);
    var r := f[node].region.value;
    var v1 := Parse(f, r.bodyEntry, Some(node), v).value.1;
    ParseFramed(f, r.bodyEntry, Some(node), v, w);
    Union(w, v, v1, Parse(f, r.exit, stop, v1).value.1);
    ParseFramed(f, r.exit, stop, v1, w + (v1 - v));
  }

  lemma {:induction false} SwitchFramed(f: Graph, node: nat, stop: Option<nat>, v: set<nat>, w: set<nat>)
    requires Walkable(f) && node < |f| && InGraph(f, v) && w <= v && ParseBlock(f, node, stop, v).Ok?
    requires f[node].term.Some? && f[node].term.value.SwitchOn?
    ensures var (ops, v') := ParseBlock(f, node, stop, v).value; ParseBlock(f, node, stop, w) == Ok((ops, w + (v' - v)))
    decreases Nodes(f) - v, 2, 0
  {
    hide Parse, ParseCases, Accepted;
    assert Linked(f, node);
    var r := f[node].region.value;
    var v1 := ParseCases(f, r.cases, r.merge, v).value.1;
    CasesFramed(f, r.cases, r.merge, v, w);
    var v2 := Parse(f, r.defaultEntry, Some(r.merge), v1).value.1;
    Union(w, v, v1, v2);
    ParseFramed(f, r.defaultEntry, Some(r.merge), v1, w + (v1 - v));
    Union(w, v, v2, Parse(f, r.merge, stop, v2).value.1);
    ParseFramed(f, r.merge, stop, v2, w + (v2 - v));
  }

  lemma {:induction false} CasesFramed(f: Graph, cases: seq<RegionCase>, merge: nat, v: set<nat>, w: set<nat>)
    requires Walkable(f) && InGraph(f, v) && w <= v && (forall k | 0 <= k < |cases| :: cases[k].entry < |f|)
    requires ParseCases(f, cases, merge, v).Ok?
    ensures var (rebuilt, v') := ParseCases(f, cases, merge, v).value; ParseCases(f, cases, merge, w) == Ok((rebuilt, w + (v' - v)))
    decreases Nodes(f) - v, 1, |cases|
  {
    hide Parse;
    if cases != [] {
      var v1 := Parse(f, cases[0].entry, Some(merge), v).value.1;
      ParseFramed(f, cases[0].entry, Some(merge), v, w);
      Union(w, v, v1, ParseCases(f, cases[1..], merge, v1).value.1);
      CasesFramed(f, cases[1..], merge, v1, w + (v1 - v));
    } else {
      assert w + (v - v) == w;
    }
  }

  // ---- the blocks' operations and the tree's ------------------------------------------------------------------

  /** How often `x` stands between two blocks, in a branch that is rebuilt on its own. */
  function Between(f: Graph, entry: nat, merge: nat, x: Operation): nat
    requires Walkable(f) && entry < |f|
  {
    var r := Parse(f, entry, Some(merge), {});
    if r.Ok? then Occurs(r.value.0, x) else 0
  }

  /** Block `n` does not own a branch that its region marks as absent although `x` stands there. */
  predicate Shows(f: Graph, n: nat, x: Operation)
    requires Walkable(f) && n < |f|
  {
    assert Linked(f, n);
    match (f[n].term, f[n].region)
    case (Some(Branch(_)), Some(IfRegion(_, entry, merge, hasElse, _))) => hasElse || Between(f, entry, merge, x) == 0
    case (Some(SwitchOn(_)), Some(SwitchRegion(_, entry, merge, hasDefault, _))) => hasDefault || Between(f, entry, merge, x) == 0
    case _ => true
  }

  predicate AllShow(f: Graph, blocks: set<nat>, x: Operation)
    requires Walkable(f) && InGraph(f, blocks)
  {
    forall n | n in blocks :: Shows(f, n, x)
  }

  /** The blocks visited between `v` and `v'` list `x` as often as the tree has it, or more often if one of them hides it. */
  ghost predicate Gathers(f: Graph, v: set<nat>, count: nat, v': set<nat>, shown: bool, x: Operation)
    requires Walkable(f) && InGraph(f, v')
  {
    && Listed(f, v, |f|, x) + count <= Listed(f, v', |f|, x)
    && (Listed(f, v, |f|, x) + count == Listed(f, v', |f|, x) <==> shown && AllShow(f, v' - v, x))
  }

  lemma AllShowUnion(f: Graph, v: set<nat>, v1: set<nat>, v2: set<nat>, x: Operation)
    requires Walkable(f) && InGraph(f, v2) && v <= v1 <= v2
    ensures AllShow(f, v2 - v, x) <==> AllShow(f, v1 - v, x) && AllShow(f, v2 - v1, x)
  {
    hide Shows;
  }

  lemma {:induction false} ParseGathers(f: Graph, node: nat, stop: Option<nat>, visited: set<nat>, x: Operation)
    requires Walkable(f) && node < |f| && InGraph(f, visited) && Parse(f, node, stop, visited).Ok?
    ensures var (ops, v) := Parse(f, node, stop, visited).value; Gathers(f, visited, Occurs(ops, x), v, true, x)
    decreases Nodes(f) - visited, 0
  {
    hide ParseBlock, Linked, Listed, Shows;
    assert Occurs([], x) == 0;
    if Some(node) != stop {
      assert Nodes(f) - (visited + {node}) < Nodes(f) - visited by {
        assert node in Nodes(f) - visited;
      }
      BlockGathers(f, node, stop, visited + {node}, x);
      ListedMore(f, visited, node, |f|, x);
      OccursConcat(f[node].ops, ParseBlock(f, node, stop, visited + {node}).value.0, x);
    }
  }

  lemma {:induction false} BlockGathers(f: Graph, node: nat, stop: Option<nat>, visited: set<nat>, x: Operation)
    requires Walkable(f) && node < |f| && InGraph(f, visited) && ParseBlock(f, node, stop, visited).Ok?
    ensures var (ops, v) := ParseBlock(f, node, stop, visited).value; Gathers(f, visited, Occurs(ops, x), v, Shows(f, node, x), x)
    decreases Nodes(f) - visited, 2
  {
    hide Parse, ParseCases, Accepted, Listed, Between;
    assert Linked(f, node);
    BareOccurs(Break, x);
    BareOccurs(Continue, x);
    var b := f[node];
    match b.term {
      case None =>
      case Some(Return) =>
      case Some(Jump(d)) => ParseGathers(f, d, stop, visited, x);
      case Some(BreakTo(_)) =>
      case Some(ContinueTo(_)) =>
      case Some(Branch(e)) =>
        if b.region.value.IfRegion? {
          IfGathers(f, node, stop, visited, x);
        } else {
          LoopGathers(f, node, stop, visited, x);
        }
      case Some(ForLoop(_, _, _, _)) => LoopGathers(f, node, stop, visited, x);
      case Some(SwitchOn(_)) => SwitchGathers(f, node, stop, visited, x);
    }
  }

  lemma BareOccurs(c: ControlOp, x: Operation)
    requires c.Break? || c.Continue?
    ensures Occurs([BareControl(c)], x) == 0 && Occurs([], x) == 0
  {
    assert Bodies(c) == [] && [BareControl(c)][1..] == [];
  }

  lemma {:induction false} IfGathers(f: Graph, node: nat, stop: Option<nat>, visited: set<nat>, x: Operation)
    requires Walkable(f) && node < |f| && InGraph(f, visited) && ParseBlock(f, node, stop, visited).Ok?
    requires f[node].term.Some? && f[node].term.value.Branch? && f[node].region.Some? && f[node].region.value.IfRegion?
    ensures var (ops, v) := ParseBlock(f, node, stop, visited).value; Gathers(f, visited, Occurs(ops, x), v, Shows(f, node, x), x)
    decreases Nodes(f) - visited, 1
  {
    hide Parse, Accepted, Listed, Occurs, OccursBodies, AllShow;
    assert Linked(f, node);
    var e, r := f[node].term.value.condition, f[node].region.value;
    var (thenOps, v1) := Parse(f, r.thenEntry, Some(r.merge), visited).value;
    ParseGathers(f, r.thenEntry, Some(r.merge), visited, x);
    var (elseOps, v2) := Parse(f, r.elseEntry, Some(r.merge), v1).value;
    ParseGathers(f, r.elseEntry, Some(r.merge), v1, x);
    ParseFramed(f, r.elseEntry, Some(r.merge), v1, {});
    ParseGathers(f, r.merge, stop, v2, x);
    AllShowUnion(f, visited, v1, v2, x);
    AllShowUnion(f, visited, v2, Parse(f, r.merge, stop, v2).value.1, x);
    var els := if r.hasElse then Present(elseOps) else Absent;
    BareOccurs(Break, x);
    IfOccurs(e, thenOps, els, x);
    OuterOccurs(If(e, thenOps, els), r.outer, Parse(f, r.merge, stop, v2).value.0, x);
  }

  lemma {:induction false} LoopGathers(f: Graph, node: nat, stop: Option<nat>, visited: set<nat>, x: Operation)
    requires Walkable(f) && node < |f| && InGraph(f, visited) && ParseBlock(f, node, stop, visited).Ok?
    requires f[node].term.Some? && f[node].region.Some?
    requires (f[node].term.value.Branch? && f[node].region.value.WhileRegion?) || f[node].term.value.ForLoop?
    ensures var (ops, v) := ParseBlock(f, node, stop, visited).value; Gathers(f, visited, Occurs(ops, x), v, Shows(f, node, x), x)
    decreases Nodes(f) - visited, 1
  {
    hide Parse, Accepted, Listed, Occurs, OccursBodies, AllShow;
    assert Linked(f, node);
    var k, r := f[node].term.value, f[node].region.value;
    var (body, v1) := Parse(f, r.bodyEntry, Some(node), visited).value;
    ParseGathers(f, r.bodyEntry, Some(node), visited, x);
    ParseGathers(f, r.exit, stop, v1, x);
    AllShowUnion(f, visited, v1, Parse(f, r.exit, stop, v1).value.1, x);
    var c := if k.Branch? then While(k.condition, body) else For(k.loopVar, k.start, k.stop, k.step, body);
    LoopOccurs(c, x);
    OuterOccurs(c, r.outer, Parse(f, r.exit, stop, v1).value.0, x);
  }

  lemma {:induction false} SwitchGathers(f: Graph, node: nat, stop: Option<nat>, visited: set<nat>, x: Operation)
    requires Walkable(f) && node < |f| && InGraph(f, visited) && ParseBlock(f, node, stop, visited).Ok?
    requires f[node].term.Some? && f[node].term.value.SwitchOn?
    ensures var (ops, v) := ParseBlock(f, node, stop, visited).value; Gathers(f, visited, Occurs(ops, x), v, Shows(f, node, x), x)
    decreases Nodes(f) - visited, 2, 0
  {
    hide Parse, ParseCases, Accepted, Listed, Occurs, OccursBodies, AllShow;
    assert Linked(f, node);
    var e, r := f[node].term.value.target, f[node].region.value;
    var (cases, v1) := ParseCases(f, r.cases, r.merge, visited).value;
    CasesGather(f, r.cases, r.merge, visited, x);
    var (defaultOps, v2) := Parse(f, r.defaultEntry, Some(r.merge), v1).value;
    ParseGathers(f, r.defaultEntry, Some(r.merge), v1, x);
    ParseFramed(f, r.defaultEntry, Some(r.merge), v1, {});
    ParseGathers(f, r.merge, stop, v2, x);
    AllShowUnion(f, visited, v1, v2, x);
    AllShowUnion(f, visited, v2, Parse(f, r.merge, stop, v2).value.1, x);
    var c := Switch(e, cases, if r.hasDefault then Present(defaultOps) else Absent);
    BareOccurs(Break, x);
    SwitchOccurs(c, 0, x);
    assert cases[0..] == cases;
    OuterOccurs(c, r.outer, Parse(f, r.merge, stop, v2).value.0, x);
  }

  lemma {:induction false} CasesGather(f: Graph, cases: seq<RegionCase>, merge: nat, visited: set<nat>, x: Operation)
    requires Walkable(f) && InGraph(f, visited) && (forall k | 0 <= k < |cases| :: cases[k].entry < |f|)
    requires ParseCases(f, cases, merge, visited).Ok?
    ensures var (rebuilt, v) := ParseCases(f, cases, merge, visited).value;
            Gathers(f, visited, OccursCases(rebuilt, x), v, true, x)
    decreases Nodes(f) - visited, 1, |cases|
  {
    hide Parse, Listed, Occurs, Shows;
    if cases != [] {
      var v1 := Parse(f, cases[0].entry, Some(merge), visited).value.1;
      ParseGathers(f, cases[0].entry, Some(merge), visited, x);
      CasesGather(f, cases[1..], merge, v1, x);
      AllShowUnion(f, visited, v1, ParseCases(f, cases[1..], merge, v1).value.1, x);
    }
  }

  /**
   No operation of a rebuilt tree was invented or repeated: each stands in the tree at most as often as
   in the blocks, and exactly as often if and only if no branch that is marked absent holds it.
   */
  lemma RebuildConserves(f: Graph, t: Tables, phase: Param, x: Operation)
    requires ToOperations(f, t, phase).Ok?
    ensures var ops := ToOperations(f, t, phase).value;
            && Occurs(ops, x) <= Listed(f, Nodes(f), |f|, x)
            && (Occurs(ops, x) == Listed(f, Nodes(f), |f|, x) <==> forall n | 0 <= n < |f| :: Shows(f, n, x))
  {
    hide Parse, Occurs, Shows;
    ParseGathers(f, 0, None, {}, x);
    NothingListed(f, |f|, x);
    assert Nodes(f) - {} == Nodes(f);
  }

  lemma {:induction false} NothingListed(f: Graph, n: nat, x: Operation)
    requires n <= |f|
    ensures Listed(f, {}, n, x) == 0
  {
    if n > 0 {
      NothingListed(f, n - 1, x);
    }
  }

  // ---- a graph that loses an operation ----------------------------------------------------------------------

  const Always := Apply("true", Bool, [])

  const Hidden := Operation(Gate("x"), [0], [], None)

  function HiddenRegion(): Region {
    IfRegion(1, 2, 3, false, Metadata([], [], None))
  }

  /** A branch whose false side holds a gate although its region says that there is no else body. */
  function HidingGraph(): Graph {
    [Block([], Some(Branch(Always)), [Edge(TrueBranch, 1), Edge(FalseBranch, 2)], Some(HiddenRegion())),
     Block([], Some(Jump(3)), [Edge(Unconditional, 3)], None),
     Block([Hidden], Some(Jump(3)), [Edge(Unconditional, 3)], None),
     Block([], Some(Return), [], None)]
  }

  /** It passes every check and rebuilds without the gate. */
  lemma HiddenElseIsLost()
    ensures var f, t := HidingGraph(), Tables({0}, 0, [], []);
            && ToOperations(f, t, Fixed(0.0)) == Ok([Operation(Control(If(Always, [], Absent)), [], [], None)])
            && Occurs(ToOperations(f, t, Fixed(0.0)).value, Hidden) == 0 && Listed(f, Nodes(f), |f|, Hidden) == 1
  {
    var f, t := HidingGraph(), Tables({0}, 0, [], []);
    var op := Operation(Control(If(Always, [], Absent)), [], [], None);
    forall n | 0 <= n < |f|
      ensures ValidBlock(f, t, n)
    {
      HidingBlockValid(n);
    }
    HidingParsed();
    assert Nodes(f) == {0, 1, 2, 3};
    IfOccurs(Always, [], Absent, Hidden);
    OuterOccurs(If(Always, [], Absent), HiddenRegion().outer, [], Hidden);
    assert [op] + [] == [op] && Occurs([], Hidden) == 0;
    assert [Hidden][1..] == [];
    assert Occurs([Hidden], Hidden) == 1;
    assert Listed(f, Nodes(f), 1, Hidden) == 0 && Listed(f, Nodes(f), 2, Hidden) == 0;
    assert Listed(f, Nodes(f), 3, Hidden) == 1;
  }

  /** One step of the walk. */
  lemma Walked(f: Graph, node: nat, stop: Option<nat>, visited: set<nat>, v1: set<nat>, ops: seq<Operation>, v: set<nat>)
    requires Walkable(f) && node < |f| && InGraph(f, visited) && node !in visited && Some(node) != stop && v1 == visited + {node}
    requires ParseBlock(f, node, stop, v1) == Ok((ops, v))
    ensures Parse(f, node, stop, visited) == Ok((f[node].ops + ops, v))
  {
  }

  lemma HidingParsed()
    requires Walkable(HidingGraph())
    ensures Parse(HidingGraph(), 0, None, {}) == Ok(([Operation(Control(If(Always, [], Absent)), [], [], None)], {0, 1, 2, 3}))
  {
    var f := HidingGraph();
    Walked(f, 1, Some(3), {0}, {0, 1}, [], {0, 1});
    Walked(f, 2, Some(3), {0, 1}, {0, 1, 2}, [], {0, 1, 2});
    Walked(f, 3, None, {0, 1, 2}, {0, 1, 2, 3}, [], {0, 1, 2, 3});
    assert f[1].ops + [] == [] && f[2].ops + [] == [Hidden] && f[3].ops + [] == [];
    HidingHeader();
    var op := Operation(Control(If(Always, [], Absent)), [], [], None);
    Walked(f, 0, None, {}, {0}, [op], {0, 1, 2, 3});
    assert f[0].ops + [op] == [op];
  }

  lemma HidingHeader()
    requires Walkable(HidingGraph())
    requires Parse(HidingGraph(), 1, Some(3), {0}) == Ok(([], {0, 1}))
    requires Parse(HidingGraph(), 2, Some(3), {0, 1}) == Ok(([Hidden], {0, 1, 2}))
    requires Parse(HidingGraph(), 3, None, {0, 1, 2}) == Ok(([], {0, 1, 2, 3}))
    ensures ParseBlock(HidingGraph(), 0, None, {0}) == Ok(([Operation(Control(If(Always, [], Absent)), [], [], None)], {0, 1, 2, 3}))
  {
    hide Parse;
    var f := HidingGraph();
    var op := Operation(Control(If(Always, [], Absent)), [], [], None);
    assert Outer(If(Always, [], Absent), HiddenRegion().outer) == op && [op] + [] == [op];
    assert Linked(f, 0);
  }

  lemma HidingBlockValid(n: nat)
    requires n < 4
    ensures ValidBlock(HidingGraph(), Tables({0}, 0, [], []), n)
  {
    var f := HidingGraph();
    assert f[0].out[0] == Edge(TrueBranch, 1) && f[0].out[1] == Edge(FalseBranch, 2);
    assert Always.Vars() == {} && Always.Values() == {};
  }
}
