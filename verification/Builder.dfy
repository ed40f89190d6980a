/**
 The callback builder as a transition function. A circuit is built by commands; the bodies of
 control commands are themselves command scripts, run on the same circuit and split off its
 operation vector when they end. A script stands for what a callback does, including stopping with
 an error of its own and carrying on after a failed call.
 */
module Builder {
  import opened Prelude
  import opened Ir
  import opened Placement
  import opened Verifier

  datatype ScopeKind = LoopScope | SwitchScope

  /** A parameter expression with the symbols in it, or just a number. */
  datatype Parameter = Parameter(expression: string, symbols: seq<string>, number: Option<real>)

  function FromNumber(v: real): Parameter {
    Parameter("", [], Some(v))
  }

  datatype Argument = Symbolic(parameter: Parameter) | Number(value: real) | NotFinite

  datatype BuildError =
    | QubitCountMismatch(expectedQubits: nat, actualQubits: nat)
    | ParameterCountMismatch(expectedParams: nat, actualParams: nat)
    | DuplicateQubits
    | QubitNotFound(qubit: nat)
    | InvalidParameter(position: nat)
    | Handle(handle: VerifyError)
    | Verification(verification: VerifyError)
    | Rejected                   // a type check of a control operation's constructor
    | EmptyMeasurement
    | DefaultAlreadyDefined
    | CallbackError

  /** The circuit under construction. */
  datatype Draft = Draft(
    id: nat,
    qubits: seq<nat>,
    ops: seq<Operation>,
    params: seq<Parameter>,
    symbols: seq<string>,
    vars: seq<ClassicalType>,
    values: seq<ClassicalType>,
    scopes: seq<ScopeKind>,
    phase: Param)                // the global phase, which no builder call changes
  {
    function Handles(): Handles {
      Verifier.Handles(id, vars, values)
    }

    /** Where transfers are allowed, from the enclosing scopes. */
    function Placing(): Placing {
      Verifier.Placing(LoopScope in scopes || SwitchScope in scopes, LoopScope in scopes)
    }

    function Var(k: nat): ClassicalVar
      requires k < |vars|
    {
      ClassicalVar(id, k, vars[k])
    }

    function Value(k: nat): ClassicalValue
      requires k < |values|
    {
      ClassicalValue(id, k, values[k])
    }
  }

  type Outcome = (Draft, Option<BuildError>)

  type Script = seq<Command>

  datatype Command =
    | Append(instruction: Instruction, arity: Option<(nat, nat)>, qubits: seq<nat>, args: seq<Argument>, tag: Option<string>)
    | NewVar(ty: ClassicalType)
    | Store(target: ClassicalVar, value: Expr)
    | Measure(qubit: nat)
    | MeasureBits(qubits: seq<nat>)
    | MeasureInto(qubit: nat, target: ClassicalVar)
    | MeasureBitsInto(qubits: seq<nat>, target: ClassicalVar)
    | If(condition: Expr, thenScript: Script)
    | IfElse(condition: Expr, thenScript: Script, elseScript: Script)
    | While(condition: Expr, body: Script)
    | ForUint(loopVar: ClassicalVar, start: Expr, stop: Expr, step: Expr, body: Script)
    | Switch(selector: Expr, build: seq<CaseCommand>)
    | BreakLoop
    | ContinueLoop
    | Swallow(command: Command)  // the callback ignores the error
    | Raise                      // the callback returns an error

  datatype CaseCommand =
    | Case(value: nat, body: Script)
    | Default(body: Script)
    | SwallowCase(command: CaseCommand)
    | RaiseCase

  // ---- checkpoints --------------------------------------------------------------------------------

  datatype Checkpoint = Checkpoint(ops: nat, params: nat, symbols: nat, vars: nat, values: nat, scopes: nat)

  function Mark(s: Draft): Checkpoint {
    Checkpoint(|s.ops|, |s.params|, |s.symbols|, |s.vars|, |s.values|, |s.scopes|)
  }

  function Truncate<T>(s: seq<T>, n: nat): seq<T> {
    if n <= |s| then s[..n] else s
  }

  function SplitOff<T>(s: seq<T>, n: nat): seq<T> {
    if n <= |s| then s[n..] else []
  }

  function RollbackTo(s: Draft, mark: Checkpoint): Draft {
    Draft(s.id, s.qubits, Truncate(s.ops, mark.ops), Truncate(s.params, mark.params), Truncate(s.symbols, mark.symbols),
          Truncate(s.vars, mark.vars), Truncate(s.values, mark.values), Truncate(s.scopes, mark.scopes), s.phase)
  }

  // ---- checks before an append ------------------------------------------------------------------------

  /** Every handle in the expression must belong to the circuit. */
  function CheckExpr(e: Expr, h: Handles): Option<BuildError> {
    if h.OwnsExpr(e) then None else Some(Handle(UnknownHandle))
  }

  function CheckVar(v: ClassicalVar, h: Handles): Option<BuildError> {
    match h.CheckVar(v)
    case Ok(_) => None
    case Err(e) => Some(Handle(e))
  }

  function CheckData(d: DataOp, numQubits: nat, h: Handles): Option<BuildError> {
    match d
    case Store(target, value) =>
      if h.CheckVar(target).Err? then Some(Handle(h.CheckVar(target).error))
      else if numQubits != 0 then Some(QubitCountMismatch(0, numQubits))
      else if CheckExpr(value, h).Some? then CheckExpr(value, h)
      else if value.Ty() != target.ty then Some(Handle(WrongType)) else None
    case MeasureBit(result) =>
      if h.CheckValue(result).Err? then Some(Handle(h.CheckValue(result).error))
      else if numQubits != 1 then Some(QubitCountMismatch(1, numQubits))
      else if result.ty != Bit then Some(Handle(WrongType)) else None
    case MeasureBits(result) =>
      if h.CheckValue(result).Err? then Some(Handle(h.CheckValue(result).error))
      else if !result.ty.BitVec? then Some(Handle(WrongType))
      else if numQubits != result.ty.width then Some(QubitCountMismatch(result.ty.width, numQubits)) else None
  }

  function CheckHeads(heads: seq<Expr>, h: Handles): Option<BuildError> {
    if heads == [] then None
    else if CheckExpr(heads[0], h).Some? then CheckExpr(heads[0], h)
    else CheckHeads(heads[1..], h)
  }

  function CheckLoopVar(c: ControlOp, h: Handles): Option<BuildError> {
    match c
    case For(v, _, _, _, _) => CheckVar(v, h)
    case _ => None
  }

  /** Ownership, qubits and transfer contexts through the whole operation; order of transfers is not checked here. */
  function CheckControl(c: ControlOp, s: Draft, p: Placing): Option<BuildError>
    decreases c, |Bodies(c)| + 1
  {
    match c
    case Break => if p.breakAllowed then None else Some(Handle(BreakOutsideBody))
    case Continue => if p.continueAllowed then None else Some(Handle(ContinueOutsideLoop))
    case _ =>
      if CheckLoopVar(c, s.Handles()).Some? then CheckLoopVar(c, s.Handles())
      else if CheckHeads(Heads(c), s.Handles()).Some? then CheckHeads(Heads(c), s.Handles())
      else CheckBodies(c, 0, s, Enter(p, c))
  }

  function CheckBodies(c: ControlOp, k: nat, s: Draft, p: Placing): Option<BuildError>
    requires k <= |Bodies(c)|
    decreases c, |Bodies(c)| - k
  {
    if k == |Bodies(c)| then None
    else
      var e := CheckBody(Bodies(c)[k], s, p);
      if e.Some? then e else CheckBodies(c, k + 1, s, p)
  }

  function CheckBody(ops: seq<Operation>, s: Draft, p: Placing): Option<BuildError>
    decreases ops
  {
    if ops == [] then None
    else
      var e := CheckBodyOp(ops[0], s, p);
      if e.Some? then e else CheckBody(ops[1..], s, p)
  }

  function CheckBodyOp(op: Operation, s: Draft, p: Placing): Option<BuildError>
    decreases op
  {
    if FirstMissing(op.qubits, s.qubits).Some? then Some(QubitNotFound(FirstMissing(op.qubits, s.qubits).value))
    else
      match op.instruction
      case Gate(_) => None
      case Data(d) => CheckData(d, |op.qubits|, s.Handles())
      case Control(c) => CheckControl(c, s, p)
  }

  function FirstMissing(qs: seq<nat>, known: seq<nat>): Option<nat> {
    if qs == [] then None else if qs[0] !in known then Some(qs[0]) else FirstMissing(qs[1..], known)
  }

  predicate HasDuplicates(qs: seq<nat>) {
    exists i, j | 0 <= i < j < |qs| :: qs[i] == qs[j]
  }

  // ---- append ---------------------------------------------------------------------------------------

  function IndexOf<T(==)>(s: seq<T>, x: T): (i: nat)
    ensures x in s ==> i < |s| && s[i] == x
    ensures x !in s ==> i == |s|
  {
    if s == [] then 0 else if s[0] == x then 0 else 1 + IndexOf(s[1..], x)
  }

  function Interned<T(==)>(s: seq<T>, x: T): seq<T> {
    if x in s then s else s + [x]
  }

  function InternedAll(symbols: seq<string>, more: seq<string>): seq<string>
    decreases |more|
  {
    if more == [] then symbols else InternedAll(Interned(symbols, more[0]), more[1..])
  }

  /** Interns a parameter and, when it is new, its symbols. */
  function AddParameter(s: Draft, p: Parameter): Draft {
    if p in s.params then s else s.(params := s.params + [p], symbols := InternedAll(s.symbols, p.symbols))
  }

  /** Lowers the arguments one by one; a non-finite number stops, keeping what was interned so far. */
  function Lower(s: Draft, args: seq<Argument>, from: nat): (Draft, Result<seq<Param>, BuildError>)
    requires from <= |args|
    decreases |args| - from
  {
    if from == |args| then (s, Ok([]))
    else
      match args[from]
      case NotFinite => (s, Err(InvalidParameter(from)))
      case Number(v) =>
        var (s', rest) := Lower(s, args, from + 1);
        (s', if rest.Ok? then Ok([Fixed(v)] + rest.value) else rest)
      case Symbolic(p) =>
        var s1 := AddParameter(s, p);
        var (s', rest) := Lower(s1, args, from + 1);
        (s', if rest.Ok? then Ok([Index(IndexOf(s1.params, p))] + rest.value) else rest)
  }

  /** The whole circuit so far, open bodies included, checked in the context of the open scopes. */
  function VerifyBuilder(s: Draft): Result<Verifier.State, VerifyError> {
    Verify(s.ops, s.Handles(), Verifier.State({}, {}), s.Placing())
  }

  function PreCheck(s: Draft, instruction: Instruction, arity: Option<(nat, nat)>, qubits: seq<nat>, numArgs: nat): Option<BuildError> {
    if instruction.Control? && CheckControl(instruction.control, s, s.Placing()).Some? then
      CheckControl(instruction.control, s, s.Placing())
    else if arity.Some? && |qubits| != arity.value.0 then Some(QubitCountMismatch(arity.value.0, |qubits|))
    else if arity.Some? && numArgs != arity.value.1 then Some(ParameterCountMismatch(arity.value.1, numArgs))
    else if HasDuplicates(qubits) then Some(DuplicateQubits)
    else if FirstMissing(qubits, s.qubits).Some? then Some(QubitNotFound(FirstMissing(qubits, s.qubits).value))
    else if instruction.Data? then CheckData(instruction.data, |qubits|, s.Handles())
    else None
  }

  function AppendOp(s: Draft, instruction: Instruction, arity: Option<(nat, nat)>, qubits: seq<nat>, args: seq<Argument>, tag: Option<string>): Outcome {
    var e := PreCheck(s, instruction, arity, qubits, |args|);
    if e.Some? then (s, e)
    else
      var (s1, params) := Lower(s, args, 0);
      if params.Err? then (s1, Some(params.error))
      else
        var s2 := s1.(ops := s1.ops + [Operation(instruction, qubits, params.value, tag)]);
        if instruction.Gate? then (s2, None)
        else
          var v := VerifyBuilder(s2);
          if v.Ok? then (s2, None) else (RollbackTo(s2, Mark(s)), Some(Verification(v.error)))
  }

  /** Data instructions have these fixed arities; measuring several qubits has none. */
  function DataArity(d: DataOp): Option<(nat, nat)> {
    match d
    case Store(_, _) => Some((0, 0))
    case MeasureBit(_) => Some((1, 0))
    case MeasureBits(_) => None
  }

  function AppendData(s: Draft, d: DataOp, qubits: seq<nat>): Outcome {
    AppendOp(s, Data(d), DataArity(d), qubits, [], None)
  }

  function InsertAscending(x: nat, s: seq<nat>): seq<nat> {
    if s == [] || x < s[0] then [x] + s else if x == s[0] then s else [s[0]] + InsertAscending(x, s[1..])
  }

  function InsertAllAscending(xs: seq<nat>, s: seq<nat>): seq<nat>
    decreases |xs|
  {
    if xs == [] then s else InsertAllAscending(xs[1..], InsertAscending(xs[0], s))
  }

  /** The qubits of the operations directly in the bodies, ascending. */
  function UsedQubits(bodies: seq<seq<Operation>>): seq<nat>
    decreases |bodies|
  {
    if bodies == [] then [] else UsedByOps(bodies[0], UsedQubits(bodies[1..]))
  }

  function UsedByOps(ops: seq<Operation>, s: seq<nat>): seq<nat>
    decreases |ops|
  {
    if ops == [] then s else UsedByOps(ops[1..], InsertAllAscending(ops[0].qubits, s))
  }

  /** Constructs the operation, with the constructor's type checks, and appends it. */
  function AppendControl(s: Draft, c: ControlOp): Outcome {
    if !Accepted(c) then (s, Some(Rejected))
    else AppendOp(s, Control(c), None, UsedQubits(Bodies(c)), [], None)
  }

  // ---- measurements -----------------------------------------------------------------------------------

  function AllocateValue(s: Draft, ty: ClassicalType): (Draft, ClassicalValue) {
    (s.(values := s.values + [ty]), ClassicalValue(s.id, |s.values|, ty))
  }

  /** On failure everything since the checkpoint is undone. */
  function OrRollback(o: Outcome, mark: Checkpoint): Outcome {
    if o.1.Some? then (RollbackTo(o.0, mark), o.1) else o
  }

  function DoMeasure(s: Draft, qubit: nat): Outcome {
    var (s1, result) := AllocateValue(s, Bit);
    OrRollback(AppendData(s1, DataOp.MeasureBit(result), [qubit]), Mark(s))
  }

  function DoMeasureBits(s: Draft, qubits: seq<nat>): Outcome {
    if qubits == [] then (s, Some(EmptyMeasurement))
    else
      var (s1, result) := AllocateValue(s, BitVec(|qubits|));
      OrRollback(AppendData(s1, DataOp.MeasureBits(result), qubits), Mark(s))
  }

  function DoStore(s: Draft, target: ClassicalVar, value: Expr): Outcome {
    if CheckVar(target, s.Handles()).Some? then (s, CheckVar(target, s.Handles()))
    else if CheckExpr(value, s.Handles()).Some? then (s, CheckExpr(value, s.Handles()))
    else AppendData(s, DataOp.Store(target, value), [])
  }

  /** A measurement followed by a store of its result, as one step. */
  function ThenStore(s: Draft, measured: Outcome, result: ClassicalValue, target: ClassicalVar): Outcome {
    if measured.1.Some? then measured else OrRollback(DoStore(measured.0, target, ValueRead(result)), Mark(s))
  }

  function DoMeasureInto(s: Draft, qubit: nat, target: ClassicalVar): Outcome {
    if CheckVar(target, s.Handles()).Some? then (s, CheckVar(target, s.Handles()))
    else ThenStore(s, DoMeasure(s, qubit), ClassicalValue(s.id, |s.values|, Bit), target)
  }

  function DoMeasureBitsInto(s: Draft, qubits: seq<nat>, target: ClassicalVar): Outcome {
    if CheckVar(target, s.Handles()).Some? then (s, CheckVar(target, s.Handles()))
    else ThenStore(s, DoMeasureBits(s, qubits), ClassicalValue(s.id, |s.values|, BitVec(|qubits|)), target)
  }

  // ---- scripts ------------------------------------------------------------------------------------------

  function Exec(s: Draft, script: Script): Outcome
    decreases script, 0
  {
    if script == [] then (s, None)
    else
      var o := Step(s, script[0]);
      if o.1.Some? then o else Exec(o.0, script[1..])
  }

  function Opened(s: Draft, scope: Option<ScopeKind>): Draft {
    if scope.None? then s else s.(scopes := s.scopes + [scope.value])
  }

  /** Runs a callback and splits its operations off; on failure everything it did is undone. */
  function BuildBody(s: Draft, scope: Option<ScopeKind>, script: Script): (Draft, Result<seq<Operation>, BuildError>)
    decreases script, 1
  {
    var (s1, e) := Exec(Opened(s, scope), script);
    var s2 := s1.(scopes := Truncate(s1.scopes, |s.scopes|));
    if e.Some? then (RollbackTo(s2, Mark(s)), Err(e.value))
    else (s2.(ops := Truncate(s2.ops, |s.ops|)), Ok(SplitOff(s2.ops, |s.ops|)))
  }

  /** One body, then the operation made from it. */
  function BuildOne(s: Draft, scope: Option<ScopeKind>, script: Script, make: seq<Operation> -> ControlOp): Outcome
    decreases script, 2
  {
    var (s1, body) := BuildBody(s, scope, script);
    OrRollback(if body.Err? then (s1, Some(body.error)) else AppendControl(s1, make(body.value)), Mark(s))
  }

  /** Both bodies of an if/else, the second built while the first is held aside. */
  function BuildTwo(s: Draft, c: Command): Outcome
    requires c.IfElse?
    decreases c, 2
  {
    var (s1, t) := BuildBody(s, None, c.thenScript);
    if t.Err? then OrRollback((s1, Some(t.error)), Mark(s))
    else
      var (s2, e) := BuildBody(s1, None, c.elseScript);
      OrRollback(if e.Err? then (s2, Some(e.error)) else AppendControl(s2, ControlOp.If(c.condition, t.value, Present(e.value))), Mark(s))
  }

  function CheckRange(loopVar: ClassicalVar, start: Expr, stop: Expr, step: Expr, h: Handles): Option<BuildError> {
    if CheckVar(loopVar, h).Some? then CheckVar(loopVar, h)
    else if CheckExpr(start, h).Some? then CheckExpr(start, h)
    else if CheckExpr(stop, h).Some? then CheckExpr(stop, h)
    else CheckExpr(step, h)
  }

  function Step(s: Draft, c: Command): Outcome
    decreases c, 3
  {
    var h := s.Handles();
    match c
    case Append(instruction, arity, qubits, args, tag) =>
      if instruction.Control? && !Accepted(instruction.control) then (s, Some(Rejected))
      else AppendOp(s, instruction, arity, qubits, args, tag)
    case NewVar(ty) => (s.(vars := s.vars + [ty]), None)
    case Store(target, value) => DoStore(s, target, value)
    case Measure(qubit) => DoMeasure(s, qubit)
    case MeasureBits(qubits) => DoMeasureBits(s, qubits)
    case MeasureInto(qubit, target) => DoMeasureInto(s, qubit, target)
    case MeasureBitsInto(qubits, target) => DoMeasureBitsInto(s, qubits, target)
    case If(condition, script) =>
      if CheckExpr(condition, h).Some? then (s, CheckExpr(condition, h))
      else BuildOne(s, None, script, body => ControlOp.If(condition, body, Absent))
    case IfElse(condition, _, _) =>
      if CheckExpr(condition, h).Some? then (s, CheckExpr(condition, h))
      else BuildTwo(s, c)
    case While(condition, script) =>
      if CheckExpr(condition, h).Some? then (s, CheckExpr(condition, h))
      else BuildOne(s, Some(LoopScope), script, body => ControlOp.While(condition, body))
    case ForUint(loopVar, start, stop, step, script) =>
      if CheckRange(loopVar, start, stop, step, h).Some? then (s, CheckRange(loopVar, start, stop, step, h))
      else BuildOne(s, Some(LoopScope), script, body => ControlOp.For(loopVar, start, stop, step, body))
    case Switch(target, build) =>
      if CheckExpr(target, h).Some? then (s, CheckExpr(target, h))
      else
        var (s1, cases, default, e) := Collect(s, build, [], Absent);
        OrRollback(if e.Some? then (s1, e) else AppendControl(s1, ControlOp.Switch(target, cases, default)), Mark(s))
    case BreakLoop => AppendControl(s, Break)
    case ContinueLoop => AppendControl(s, Continue)
    case Swallow(command) => (Step(s, command).0, None)
    case Raise => (s, Some(CallbackError))
  }

  type Collected = (Draft, seq<SwitchCase>, MaybeBody, Option<BuildError>)

  function Collect(s: Draft, build: seq<CaseCommand>, cases: seq<SwitchCase>, default: MaybeBody): Collected
    decreases build, 0
  {
    if build == [] then (s, cases, default, None)
    else
      var r := StepCase(s, build[0], cases, default);
      if r.3.Some? then r else Collect(r.0, build[1..], r.1, r.2)
  }

  function StepCase(s: Draft, c: CaseCommand, cases: seq<SwitchCase>, default: MaybeBody): Collected
    decreases c, 3
  {
    match c
    case Case(value, script) =>
      var (s1, body) := BuildBody(s, Some(SwitchScope), script);
      if body.Err? then (s1, cases, default, Some(body.error)) else (s1, cases + [SwitchCase(value, body.value)], default, None)
    case Default(script) =>
      if default.Present? then (s, cases, default, Some(DefaultAlreadyDefined))
      else
        var (s1, body) := BuildBody(s, Some(SwitchScope), script);
        if body.Err? then (s1, cases, default, Some(body.error)) else (s1, cases, Present(body.value), None)
    case SwallowCase(command) =>
      var r := StepCase(s, command, cases, default);
      (r.0, r.1, r.2, None)
    case RaiseCase => (s, cases, default, Some(CallbackError))
  }

  /** A fresh circuit. */
  function New(id: nat, qubits: seq<nat>): Draft {
    Draft(id, qubits, [], [], [], [], [], [], Fixed(0.0))
  }
}
