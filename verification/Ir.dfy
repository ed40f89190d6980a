/**
 The circuit IR: typed classical handles, side-effect-free expressions, and the tree of
 operations with structured control bodies. Every instruction that is neither classical
 data nor classical control is an opaque symbol.
 */
module Ir {
  import Bits
  import opened Prelude

  datatype ClassicalType = Bit | Bool | UInt(width: nat) | BitVec(width: nat) {
    /** The number of qubits a measurement of this type reads, when it is a measurement type. */
    function MeasurementWidth(): Option<nat> {
      match this
      case Bit => Some(1)
      case BitVec(w) => Some(w)
      case _ => None
    }
  }

  /** A mutable storage slot; `circuit` is the identity of the owning circuit. */
  datatype ClassicalVar = ClassicalVar(circuit: nat, id: nat, ty: ClassicalType)

  /** An immutable measurement result. */
  datatype ClassicalValue = ClassicalValue(circuit: nat, index: nat, ty: ClassicalType)

  /**
   Expressions read variables and values. `Apply` stands for every literal, unary, binary,
   comparison, cast, selection, extraction, concatenation and packing node; the operator
   symbol carries the node's constants.
   */
  datatype Expr =
    | VarRead(v: ClassicalVar)
    | ValueRead(value: ClassicalValue)
    | Apply(op: string, resultTy: ClassicalType, args: seq<Expr>)
  {
    function Ty(): ClassicalType {
      match this
      case VarRead(v) => v.ty
      case ValueRead(v) => v.ty
      case Apply(_, ty, _) => ty
    }

    function Vars(): set<ClassicalVar> {
      match this
      case VarRead(v) => {v}
      case ValueRead(_) => {}
      case Apply(_, _, args) => set a, v | a in args && v in a.Vars() :: v
    }

    function Values(): set<ClassicalValue> {
      match this
      case VarRead(_) => {}
      case ValueRead(v) => {v}
      case Apply(_, _, args) => set a, v | a in args && v in a.Values() :: v
    }
  }

  /** A numeric parameter, or an index into the circuit's interned parameter table. */
  datatype Param = Fixed(value: real) | Index(index: nat)

  datatype DataOp =
    | Store(target: ClassicalVar, value: Expr)
    | MeasureBit(result: ClassicalValue)
    | MeasureBits(result: ClassicalValue)

  datatype Instruction =
    | Gate(name: string)
    | Data(data: DataOp)
    | Control(control: ControlOp)

  datatype MaybeBody = Absent | Present(ops: seq<Operation>) {
    /** An absent body behaves as an empty one wherever only its operations matter. */
    function Ops(): seq<Operation> {
      match this
      case Absent => []
      case Present(ops) => ops
    }
  }

  datatype SwitchCase = SwitchCase(value: nat, body: seq<Operation>)

  datatype ControlOp =
    | If(condition: Expr, thenBody: seq<Operation>, elseBody: MaybeBody)
    | While(condition: Expr, body: seq<Operation>)
    | For(loopVar: ClassicalVar, start: Expr, stop: Expr, step: Expr, body: seq<Operation>)
    | Switch(target: Expr, cases: seq<SwitchCase>, default: MaybeBody)
    | Break
    | Continue

  datatype Operation = Operation(
    instruction: Instruction,
    qubits: seq<nat>,
    params: seq<Param>,
    tag: Option<string>)  // the diagnostic label

  predicate IsLoop(c: ControlOp) {
    c.While? || c.For?
  }

  /** A control operation with bodies, as opposed to `break` and `continue`. */
  predicate Structured(op: Operation) {
    op.instruction.Control? && !op.instruction.control.Break? && !op.instruction.control.Continue?
  }

  /** The structured bodies of a control operation, in the order every pass visits them. */
  function Bodies(c: ControlOp): (r: seq<seq<Operation>>)
    ensures forall k | 0 <= k < |r| :: c decreases to r[k]
  {
    match c
    case If(_, t, Absent) => [t]
    case If(_, t, Present(e)) => [t, e]
    case While(_, b) => [b]
    case For(_, _, _, _, b) => [b]
    case Switch(_, cases, Absent) => CaseBodies(cases)
    case Switch(_, cases, Present(d)) =>
      var cs := CaseBodies(cases);
      assert forall k | 0 <= k < |cs| :: (cs + [d])[k] == cs[k];
      cs + [d]
    case _ => []
  }

  function CaseBodies(cases: seq<SwitchCase>): (r: seq<seq<Operation>>)
    ensures |r| == |cases|
    ensures forall k | 0 <= k < |cases| :: r[k] == cases[k].body && (cases decreases to r[k])
  {
    assert forall k | 0 <= k < |cases| :: (cases decreases to cases[k]) && (cases[k] decreases to cases[k].body);
    seq(|cases|, k requires 0 <= k < |cases| => cases[k].body)
  }

  /** The expressions a control operation evaluates itself, outside its bodies. */
  function Heads(c: ControlOp): seq<Expr> {
    match c
    case If(e, _, _) => [e]
    case While(e, _) => [e]
    case For(_, a, b, s, _) => [a, b, s]
    case Switch(e, _, _) => [e]
    case _ => []
  }

  /** The values read by a control operation's own expressions. */
  function HeadValues(c: ControlOp): set<ClassicalValue> {
    set e, v | e in Heads(c) && v in e.Values() :: v
  }

  // ---- checks made when a control operation is constructed --------------------------------

  /** A case value fits the target width and differs from the values before it. */
  predicate CasesFit(cases: seq<SwitchCase>, width: nat) {
    && (forall k | 0 <= k < |cases| :: width < 128 ==> cases[k].value < Bits.Pow2(width))
    && (forall j, k | 0 <= j < k < |cases| :: cases[j].value != cases[k].value)
  }

  /** The type checks of the constructors of control operations. */
  predicate Accepted(c: ControlOp) {
    match c
    case If(e, _, _) => e.Ty() == Bool
    case While(e, _) => e.Ty() == Bool
    case For(v, a, b, s, _) => v.ty.UInt? && a.Ty() == v.ty && b.Ty() == v.ty && s.Ty() == v.ty
    case Switch(e, cases, _) => e.Ty().UInt? && CasesFit(cases, e.Ty().width)
    case _ => true
  }

  // ---- tables a tree refers to --------------------------------------------------------------

  /** The qubits, the number of interned parameters, and the classical type tables of a circuit. */
  datatype Tables = Tables(qubits: set<nat>, numParams: nat, vars: seq<ClassicalType>, values: seq<ClassicalType>) {
    predicate HasVar(v: ClassicalVar) {
      v.id < |vars| && vars[v.id] == v.ty
    }

    predicate HasValue(v: ClassicalValue) {
      v.index < |values| && values[v.index] == v.ty
    }

    predicate HasExpr(e: Expr) {
      (forall v | v in e.Vars() :: HasVar(v)) && (forall v | v in e.Values() :: HasValue(v))
    }

    predicate HasParam(p: Param) {
      p.Index? ==> p.index < numParams
    }

    predicate HasFields(qs: seq<nat>, ps: seq<Param>) {
      (forall q | q in qs :: q in qubits) && (forall p | p in ps :: HasParam(p))
    }

    predicate HasData(d: DataOp, numQubits: nat) {
      match d
      case Store(v, e) => HasVar(v) && numQubits == 0 && HasExpr(e) && v.ty == e.Ty()
      case MeasureBit(r) => HasValue(r) && numQubits == 1
      case MeasureBits(r) => HasValue(r) && r.ty.MeasurementWidth() == Some(numQubits)
    }

    /** Everything a control operation's header mentions is in the tables. */
    predicate HasHead(c: ControlOp) {
      (forall e | e in Heads(c) :: HasExpr(e)) && (c.For? ==> HasVar(c.loopVar))
    }
  }

  /** A tree whose every operation, at any depth, refers only to the tables and was accepted when constructed. */
  predicate Built(ops: seq<Operation>, t: Tables)
    decreases ops
  {
    forall k | 0 <= k < |ops| :: BuiltOp(ops[k], t)
  }

  predicate BuiltOp(op: Operation, t: Tables)
    decreases op
  {
    && t.HasFields(op.qubits, op.params)
    && match op.instruction
       case Gate(_) => true
       case Data(d) => t.HasData(d, |op.qubits|)
       case Control(c) => Accepted(c) && t.HasHead(c) && forall k | 0 <= k < |Bodies(c)| :: Built(Bodies(c)[k], t)
  }
}
