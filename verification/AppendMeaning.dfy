/**
 What an append records, and when it succeeds. The new operation and the tables are described field
 by field, without the functions that compute them.
 */
module AppendMeaning {
  import opened Prelude
  import opened Ir
  import opened Placement
  import opened Verifier
  import opened Builder
  import opened BuilderSafety

  // ---- parameters -----------------------------------------------------------------------------------

  /** `p` is how the argument is written down: a number as itself, an expression as its place in the table. */
  predicate Records(a: Argument, p: Param, params: seq<Parameter>) {
    match a
    case Number(v) => p == Fixed(v)
    case Symbolic(x) => p.Index? && p.index < |params| && params[p.index] == x
    case NotFinite => false
  }

  predicate NoRepeats<T(==)>(s: seq<T>) {
    forall i, j | 0 <= i < j < |s| :: s[i] != s[j]
  }

  /** Some entries were added at the end, each different from all before it. */
  predicate Widens<T(==)>(s: seq<T>, s': seq<T>) {
    s <= s' && forall i, j | 0 <= i < j < |s'| && |s| <= j :: s'[i] != s'[j]
  }

  /**
   The tables after interning the symbolic ones among `args`: nothing else is added, nothing is added
   twice, and every new parameter brings its symbols.
   */
  ghost predicate Interns(s: Draft, args: seq<Argument>, s': Draft) {
    && s' == s.(params := s'.params, symbols := s'.symbols)
    && Widens(s.params, s'.params) && Widens(s.symbols, s'.symbols)
    && (forall p :: p in s'.params <==> p in s.params || Symbolic(p) in args)
    && (forall x :: x in s'.symbols <==> x in s.symbols || Brings(s, args, x))
  }

  /** `x` is a symbol of a symbolic argument that `s` does not know. */
  ghost predicate Brings(s: Draft, args: seq<Argument>, x: string) {
    exists p :: Symbolic(p) in args && p !in s.params && x in p.symbols
  }

  lemma {:induction false} SymbolsInterned(symbols: seq<string>, more: seq<string>)
    ensures Widens(symbols, InternedAll(symbols, more))
    ensures forall x :: x in InternedAll(symbols, more) <==> x in symbols || x in more
    decreases |more|
  {
    if more != [] {
      SymbolsInterned(Interned(symbols, more[0]), more[1..]);
      assert forall x :: x in more <==> x == more[0] || x in more[1..];
    }
  }

  lemma ParameterInterned(s: Draft, p: Parameter)
    ensures Interns(s, [Symbolic(p)], AddParameter(s, p))
    ensures var t := AddParameter(s, p); Records(Symbolic(p), Index(IndexOf(t.params, p)), t.params)
  {
    hide InternedAll;
    SymbolsInterned(s.symbols, p.symbols);
    var t := AddParameter(s, p);
    forall x
      ensures x in t.symbols <==> x in s.symbols || Brings(s, [Symbolic(p)], x)
    {
      assert [Symbolic(p)][0] == Symbolic(p);
    }
  }

  lemma InternsChain(s: Draft, a: seq<Argument>, s1: Draft, b: seq<Argument>, s2: Draft)
    requires Interns(s, a, s1) && Interns(s1, b, s2)
    ensures Interns(s, a + b, s2)
  {
    forall x
      ensures x in s2.symbols <==> x in s.symbols || Brings(s, a + b, x)
    {
      if Brings(s, a, x) || Brings(s1, b, x) {
        var p :| (Symbolic(p) in a && p !in s.params && x in p.symbols) || (Symbolic(p) in b && p !in s1.params && x in p.symbols);
        assert Symbolic(p) in a + b && p !in s.params;
      }
      if Brings(s, a + b, x) {
        var p :| Symbolic(p) in a + b && p !in s.params && x in p.symbols;
        assert Symbolic(p) in a ==> Brings(s, a, x);
        assert Symbolic(p) in b ==> Brings(s1, b, x) || Symbolic(p) in a;
      }
    }
  }

  lemma InternsNothing(s: Draft)
    ensures Interns(s, [], s)
  {
  }

  predicate Finite(args: seq<Argument>) {
    NotFinite !in args
  }

  /** Lowering succeeds on finite arguments and records each in the table it leaves; otherwise it names the first bad one. */
  lemma {:induction false} LowerRecords(s: Draft, args: seq<Argument>, from: nat)
    requires from <= |args|
    ensures var (s', r) := Lower(s, args, from);
            && (r.Ok? <==> Finite(args[from..]))
            && (r.Ok? ==> Interns(s, args[from..], s') && |r.value| == |args| - from
                          && forall j | 0 <= j < |r.value| :: Records(args[from + j], r.value[j], s'.params))
            && (r.Err? ==> r.error.InvalidParameter? && from <= r.error.position < |args| && args[r.error.position] == NotFinite
                           && Finite(args[from..r.error.position]) && Interns(s, args[from..r.error.position], s'))
    decreases |args| - from
  {
    hide Interns, NoRepeats, Records, Lower;
    InternsNothing(s);
    LowerEnds(s, args, from);
    if from < |args| {
      var a := args[from];
      var s1 := AfterFirst(s, a);
      var head := if a.Symbolic? then [a] else [];
      if a.Symbolic? {
        ParameterInterned(s, a.parameter);
      }
      assert args[from..] == [a] + args[from + 1..];
      if a != NotFinite {
        LowerRecords(s1, args, from + 1);
        var (s', r) := Lower(s1, args, from + 1);
        var end := if r.Ok? then |args| else r.error.position;
        assert args[from..end] == [a] + args[from + 1..end];
        assert args[from + 1..|args|] == args[from + 1..] && args[from..|args|] == args[from..];
        InternsChain(s, head, s1, args[from + 1..end], s');
        NumberInternsNothing(s, a, args[from + 1..end], s');
        RecordsPrepend(s, args, from);
      } else {
        assert args[from..from] == [];
      }
    }
  }

  lemma LowerEnds(s: Draft, args: seq<Argument>, from: nat)
    requires from <= |args|
    ensures from == |args| ==> Lower(s, args, from) == (s, Ok([]))
    ensures from < |args| && args[from] == NotFinite ==> Lower(s, args, from) == (s, Err(InvalidParameter(from)))
  {
  }

  lemma NumberInternsNothing(s: Draft, a: Argument, rest: seq<Argument>, s': Draft)
    requires a != NotFinite && Interns(s, (if a.Symbolic? then [a] else []) + rest, s')
    ensures Interns(s, [a] + rest, s')
  {
    if a.Number? {
      assert [] + rest == rest;
      forall p
        ensures Symbolic(p) in [a] + rest <==> Symbolic(p) in rest
      {
      }
      forall x
        ensures Brings(s, [a] + rest, x) <==> Brings(s, rest, x)
      {
      }
    }
  }

  function AfterFirst(s: Draft, a: Argument): Draft {
    if a.Symbolic? then AddParameter(s, a.parameter) else s
  }

  /** The record of one more argument in front. */
  lemma RecordsPrepend(s: Draft, args: seq<Argument>, from: nat)
    requires from < |args| && args[from] != NotFinite
    requires var (t, rest) := Lower(AfterFirst(s, args[from]), args, from + 1);
             rest.Ok? ==> |rest.value| == |args| - from - 1
                          && forall j | 0 <= j < |rest.value| :: Records(args[from + 1 + j], rest.value[j], t.params)
    ensures var (t, rest) := Lower(AfterFirst(s, args[from]), args, from + 1);
            var (s', r) := Lower(s, args, from);
            && s' == t && (rest.Ok? <==> r.Ok?) && (rest.Err? ==> r == rest)
            && (r.Ok? ==> |r.value| == |args| - from && forall j | 0 <= j < |r.value| :: Records(args[from + j], r.value[j], s'.params))
  {
    var s1 := AfterFirst(s, args[from]);
    LowerExtends(s1, args, from + 1);
    var (t, rest) := Lower(s1, args, from + 1);
    var (s', r) := Lower(s, args, from);
    if r.Ok? {
      forall j | 0 <= j < |r.value|
        ensures Records(args[from + j], r.value[j], s'.params)
      {
        if j > 0 {
          assert r.value[j] == rest.value[j - 1] && Records(args[from + 1 + (j - 1)], rest.value[j - 1], s'.params);
        } else if args[from].Symbolic? {
          ParameterInterned(s, args[from].parameter);
        }
      }
    }
  }

  // ---- checks ---------------------------------------------------------------------------------------

  /** In the whole tree: known qubits, none for a store, and a bit vector for the result of several. */
  predicate Fits(ops: seq<Operation>, known: seq<nat>)
    decreases ops
  {
    forall k | 0 <= k < |ops| :: FitsOp(ops[k], known)
  }

  predicate FitsOp(op: Operation, known: seq<nat>)
    decreases op
  {
    && (forall q | q in op.qubits :: q in known)
    && match op.instruction
       case Gate(_) => true
       case Data(d) => (d.Store? ==> op.qubits == []) && (d.MeasureBits? ==> d.result.ty.BitVec?)
       case Control(c) => forall k | 0 <= k < |Bodies(c)| :: Fits(Bodies(c)[k], known)
  }

  lemma {:induction false} FirstMissingExactly(qs: seq<nat>, known: seq<nat>)
    ensures FirstMissing(qs, known).None? <==> forall q | q in qs :: q in known
    decreases |qs|
  {
    if qs != [] {
      FirstMissingExactly(qs[1..], known);
      assert forall q :: q in qs <==> q == qs[0] || q in qs[1..];
    }
  }

  lemma {:induction false} HeadsOwned(heads: seq<Expr>, h: Handles)
    ensures CheckHeads(heads, h).None? <==> forall e | e in heads :: h.OwnsExpr(e)
    decreases |heads|
  {
    if heads != [] {
      HeadsOwned(heads[1..], h);
      assert forall e :: e in heads <==> e == heads[0] || e in heads[1..];
    }
  }

  lemma DataFitsOp(op: Operation, h: Handles)
    requires op.instruction.Data? && TypedOp(op, h)
    ensures CheckData(op.instruction.data, |op.qubits|, h).None? <==> FitsOp(op, op.qubits)
  {
  }

  /** On a well-typed and well-placed tree the checks of an append come down to `Fits`. */
  lemma {:induction false} BodyFits(ops: seq<Operation>, s: Draft, p: Verifier.Placing)
    requires Typed(ops, s.Handles()) && Placed(ops, p.breakAllowed, p.continueAllowed)
    ensures CheckBody(ops, s, p).None? <==> Fits(ops, s.qubits)
    decreases ops
  {
    hide TypedOp, PlacedOp, CheckBodyOp, FitsOp;
    if ops != [] {
      TypedHead(ops, s.Handles());
      PlacedHead(ops, p.breakAllowed, p.continueAllowed);
      OpFits(ops[0], s, p, |ops| == 1);
      BodyFits(ops[1..], s, p);
      if FitsOp(ops[0], s.qubits) && Fits(ops[1..], s.qubits) {
        assert forall k | 0 < k < |ops| :: ops[k] == ops[1..][k - 1];
      }
      assert Fits(ops, s.qubits) ==> forall k | 0 <= k < |ops[1..]| :: ops[1..][k] == ops[k + 1] && FitsOp(ops[k + 1], s.qubits);
    }
  }

  lemma {:induction false} OpFits(op: Operation, s: Draft, p: Verifier.Placing, last: bool)
    requires TypedOp(op, s.Handles()) && PlacedOp(op, p.breakAllowed, p.continueAllowed, last)
    ensures CheckBodyOp(op, s, p).None? <==> FitsOp(op, s.qubits)
    decreases op
  {
    hide CheckControl, CheckData, Bodies;
    FirstMissingExactly(op.qubits, s.qubits);
    if op.instruction.Data? {
      DataFitsOp(op, s.Handles());
    } else if op.instruction.Control? {
      ControlFits(op, s, p, last);
    }
  }

  lemma {:induction false} ControlFits(op: Operation, s: Draft, p: Verifier.Placing, last: bool)
    requires op.instruction.Control?
    requires TypedOp(op, s.Handles()) && PlacedOp(op, p.breakAllowed, p.continueAllowed, last)
    ensures var c := op.instruction.control;
            CheckControl(c, s, p).None? <==> forall k | 0 <= k < |Bodies(c)| :: Fits(Bodies(c)[k], s.qubits)
    decreases op, 0
  {
    hide Typed, Placed, Fits, Bodies;
    var c := op.instruction.control;
    if c.Break? || c.Continue? {
      NoBodies(c);
    } else {
      HeadsOwned(Heads(c), s.Handles());
      BodiesFit(c, 0, s, Enter(p, c));
    }
  }

  lemma NoBodies(c: ControlOp)
    requires c.Break? || c.Continue?
    ensures Bodies(c) == []
  {
  }

  lemma {:induction false} BodiesFit(c: ControlOp, k: nat, s: Draft, p: Verifier.Placing)
    requires k <= |Bodies(c)|
    requires forall j | k <= j < |Bodies(c)| :: Typed(Bodies(c)[j], s.Handles()) && Placed(Bodies(c)[j], p.breakAllowed, p.continueAllowed)
    ensures CheckBodies(c, k, s, p).None? <==> forall j | k <= j < |Bodies(c)| :: Fits(Bodies(c)[j], s.qubits)
    decreases c, |Bodies(c)| - k
  {
    hide Typed, Placed, Fits, Bodies, CheckBody;
    if k < |Bodies(c)| {
      BodyFits(Bodies(c)[k], s, p);
      BodiesFit(c, k + 1, s, p);
    }
  }

  /** The parameters and the label of the last operation do not matter to the verifier, nor do the qubits unless it is classical data. */
  lemma {:induction false} VerifyLast(ops: seq<Operation>, a: Operation, b: Operation, h: Handles, st: Verifier.State, p: Verifier.Placing)
    requires a.instruction == b.instruction && (a.instruction.Data? ==> |a.qubits| == |b.qubits|)
    ensures Verify(ops + [a], h, st, p) == Verify(ops + [b], h, st, p)
    decreases |ops|
  {
    hide VerifyControl, VerifyData;
    if ops == [] {
      assert [] + [a] == [a] && [] + [b] == [b] && [a][1..] == [] && [b][1..] == [];
      assert VerifyOp(a, h, st, p, true) == VerifyOp(b, h, st, p, true);
    } else {
      assert (ops + [a])[1..] == ops[1..] + [a] && (ops + [b])[1..] == ops[1..] + [b];
      var r := VerifyOp(ops[0], h, st, p, |ops + [a]| == 1);
      if r.Ok? {
        VerifyLast(ops[1..], a, b, h, r.value, p);
      }
    }
  }

  lemma LastTyped(ops: seq<Operation>, a: Operation, h: Handles, st: Verifier.State, p: Verifier.Placing)
    requires Verify(ops + [a], h, st, p).Ok?
    ensures TypedOp(a, h) && PlacedOp(a, p.breakAllowed, p.continueAllowed, true)
  {
    hide Verify, TypedOp, PlacedOp;
    VerifyCharacterised(ops + [a], h, st, p);
    assert (ops + [a])[|ops|] == a;
  }

  // ---- the main result ------------------------------------------------------------------------------

  /** The whole circuit, with `op` at its end, passes the verifier in the context of the open scopes. */
  predicate VerifiesWith(s: Draft, op: Operation) {
    Verify(s.ops + [op], s.Handles(), Verifier.State({}, {}), Verifier.Placing(s.scopes != [], LoopScope in s.scopes)).Ok?
  }

  /** Matching operand counts, distinct known qubits, finite arguments; for classical operations also the verifier. */
  predicate Appendable(s: Draft, instruction: Instruction, arity: Option<(nat, nat)>, qubits: seq<nat>, args: seq<Argument>) {
    var op := Operation(instruction, qubits, [], None);
    && (arity.Some? ==> |qubits| == arity.value.0 && |args| == arity.value.1)
    && NoRepeats(qubits) && (forall q | q in qubits :: q in s.qubits) && Finite(args)
    && (!instruction.Gate? ==> FitsOp(op, s.qubits) && VerifiesWith(s, op))
  }

  /** Exactly one operation was added, and it records what was given. */
  ghost predicate Appended(s: Draft, instruction: Instruction, qubits: seq<nat>, args: seq<Argument>, tag: Option<string>, s': Draft) {
    && |s'.ops| == |s.ops| + 1
    && var op := s'.ops[|s.ops|];
       && op.instruction == instruction && op.qubits == qubits && op.tag == tag
       && |op.params| == |args| && (forall j | 0 <= j < |args| :: Records(args[j], op.params[j], s'.params))
       && Interns(s.(ops := s.ops + [op]), args, s')
  }

  lemma ScopePlacing(s: Draft)
    ensures s.Placing() == Verifier.Placing(s.scopes != [], LoopScope in s.scopes)
  {
    if s.scopes != [] {
      assert s.scopes[0] in s.scopes && (s.scopes[0] == LoopScope || s.scopes[0] == SwitchScope);
    }
  }

  /** Matching operand counts, distinct known qubits, and operands that fit at every depth. */
  predicate Operands(op: Operation, arity: Option<(nat, nat)>, known: seq<nat>, n: nat) {
    && (arity.Some? ==> |op.qubits| == arity.value.0 && n == arity.value.1)
    && NoRepeats(op.qubits) && (forall q | q in op.qubits :: q in known) && (!op.instruction.Gate? ==> FitsOp(op, known))
  }

  /** The checks made before an append, for a well-typed and well-placed operation. */
  lemma PreChecked(s: Draft, op: Operation, arity: Option<(nat, nat)>, n: nat, last: bool)
    requires !op.instruction.Gate? ==> TypedOp(op, s.Handles()) && PlacedOp(op, s.Placing().breakAllowed, s.Placing().continueAllowed, last)
    ensures PreCheck(s, op.instruction, arity, op.qubits, n).None? <==> Operands(op, arity, s.qubits, n)
  {
    hide CheckControl, CheckData, Verify, TypedOp, PlacedOp, Bodies;
    FirstMissingExactly(op.qubits, s.qubits);
    if op.instruction.Data? {
      DataFitsOp(op, s.Handles());
    } else if op.instruction.Control? {
      ControlFits(op, s, s.Placing(), last);
    }
  }

  lemma InternsBeside(s: Draft, args: seq<Argument>, s': Draft, ops: seq<Operation>)
    requires Interns(s, args, s')
    ensures Interns(s.(ops := ops), args, s'.(ops := ops))
  {
    assert forall x :: Brings(s, args, x) <==> Brings(s.(ops := ops), args, x);
  }

  /** An append succeeds exactly on appendable operands, and then adds the one operation that records them. */
  lemma AppendExactly(s: Draft, instruction: Instruction, arity: Option<(nat, nat)>, qubits: seq<nat>, args: seq<Argument>, tag: Option<string>)
    ensures var (s', e) := AppendOp(s, instruction, arity, qubits, args, tag);
            && (e.None? <==> Appendable(s, instruction, arity, qubits, args))
            && (e.None? ==> Appended(s, instruction, qubits, args, tag, s'))
  {
    hide PreCheck, Verify, FitsOp, NoRepeats, Records, Lower, Interns, TypedOp, PlacedOp;
    var h, st, p := s.Handles(), Verifier.State({}, {}), s.Placing();
    var op := Operation(instruction, qubits, [], None);
    ScopePlacing(s);
    LowerRecords(s, args, 0);
    LowerExtends(s, args, 0);
    assert args[0..] == args;
    if !instruction.Gate? && VerifiesWith(s, op) {
      LastTyped(s.ops, op, h, st, p);
    }
    if instruction.Gate? || VerifiesWith(s, op) {
      PreChecked(s, op, arity, |args|, true);
    }
    var (s1, params) := Lower(s, args, 0);
    if params.Ok? {
      var added := Operation(instruction, qubits, params.value, tag);
      VerifyLast(s.ops, added, op, h, st, p);
      InternsBeside(s, args, s1, s.ops + [added]);
      assert forall j | 0 <= j < |args| :: Records(args[0 + j], params.value[j], s1.params);
    }
  }

  /** What is wrong with the operands when a gate is refused; parameters interned before a bad number stay. */
  ghost predicate Blames(s: Draft, arity: Option<(nat, nat)>, qubits: seq<nat>, args: seq<Argument>, e: BuildError) {
    match e
    case QubitCountMismatch(n, m) => arity.Some? && n == arity.value.0 && m == |qubits| && n != m
    case ParameterCountMismatch(n, m) => arity.Some? && |qubits| == arity.value.0 && n == arity.value.1 && m == |args| && n != m
    case DuplicateQubits => !NoRepeats(qubits)
    case QubitNotFound(q) => NoRepeats(qubits) && q !in s.qubits && exists k :: 0 <= k < |qubits| && qubits[k] == q && forall p | p in qubits[..k] :: p in s.qubits
    case InvalidParameter(k) => NoRepeats(qubits) && k < |args| && args[k] == NotFinite && Finite(args[..k])
    case _ => false
  }

  lemma {:induction false} FirstMissingIs(qs: seq<nat>, known: seq<nat>) returns (k: nat)
    requires FirstMissing(qs, known).Some?
    ensures k < |qs| && qs[k] == FirstMissing(qs, known).value && qs[k] !in known && forall p | p in qs[..k] :: p in known
    decreases |qs|
  {
    if qs[0] !in known {
      k := 0;
    } else {
      var j := FirstMissingIs(qs[1..], known);
      k := j + 1;
      assert qs[..k] == [qs[0]] + qs[1..][..j];
    }
  }

  lemma GateErrors(s: Draft, name: string, arity: Option<(nat, nat)>, qubits: seq<nat>, args: seq<Argument>, tag: Option<string>)
    ensures var (s', e) := AppendOp(s, Gate(name), arity, qubits, args, tag);
            e.Some? ==> Blames(s, arity, qubits, args, e.value) && exists n | 0 <= n <= |args| :: Interns(s, args[..n], s')
  {
    hide Lower, Interns, CheckControl, CheckData, Verify, NoRepeats, Finite;
    LowerRecords(s, args, 0);
    InternsNothing(s);
    assert args[0..] == args && args[..0] == [];
    assert HasDuplicates(qubits) <==> !NoRepeats(qubits) by { SameRepeats(qubits); }
    var missing := FirstMissing(qubits, s.qubits);
    if missing.Some? {
      var k := FirstMissingIs(qubits, s.qubits);
    }
    var r := Lower(s, args, 0).1;
    if r.Err? {
      assert args[0..r.error.position] == args[..r.error.position];
    }
  }

  lemma SameRepeats(qs: seq<nat>)
    ensures HasDuplicates(qs) <==> !NoRepeats(qs)
  {
  }
}
