/** The verifier as the object it is: a walk that updates a set of definitions and a local set of available values. */
module ClassicalVerifierModule {
  import opened Prelude
  import opened Ir
  import opened Verifier

  class ClassicalVerifier {
    const handles: Handles
    var definitions: set<ClassicalValue>

    constructor (h: Handles)
      ensures handles == h && definitions == {}
    {
      handles := h;
      definitions := {};
    }

    /** Records the one definition of `value`; on success it is also available. */
    method DefineValue(value: ClassicalValue, available: set<ClassicalValue>) returns (r: Result<set<ClassicalValue>, VerifyError>)
      modifies this
      ensures match Define(value, State(old(definitions), available))
              case Ok(st) => r == Ok(st.available) && definitions == st.defined
              case Err(e) => r == Err(e)
    {
      if value in definitions {
        return Err(DuplicateDefinition);
      }
      definitions := definitions + {value};
      return Ok(available + {value});
    }

    method VerifyDataOp(d: DataOp, numQubits: nat, available: set<ClassicalValue>) returns (r: Result<set<ClassicalValue>, VerifyError>)
      modifies this
      ensures match VerifyData(d, numQubits, handles, State(old(definitions), available))
              case Ok(st) => r == Ok(st.available) && definitions == st.defined
              case Err(e) => r == Err(e)
    {
      match d {
        case Store(target, value) =>
          var owned := handles.CheckVar(target);
          if owned.Err? {
            return Err(owned.error);
          }
          var readable := VerifyExpr(value, handles, State(definitions, available));
          if readable.Err? {
            return Err(readable.error);
          }
          return if target.ty != value.Ty() then Err(WrongType) else Ok(available);
        case MeasureBit(result) =>
          var owned := handles.CheckValue(result);
          if owned.Err? {
            return Err(owned.error);
          }
          if result.ty != Bit || numQubits != 1 {
            return Err(WrongType);
          }
          r := DefineValue(result, available);
        case MeasureBits(result) =>
          var owned := handles.CheckValue(result);
          if owned.Err? {
            return Err(owned.error);
          }
          if result.ty.MeasurementWidth() != Some(numQubits) {
            return Err(WrongType);
          }
          r := DefineValue(result, available);
      }
    }

    /** Verifies `operations` in order and returns the values available after them. */
    method VerifyOperations(operations: seq<Operation>, entry: set<ClassicalValue>, p: Placing)
      returns (r: Result<set<ClassicalValue>, VerifyError>)
      modifies this
      ensures match Verify(operations, handles, State(old(definitions), entry), p)
              case Ok(st) => r == Ok(st.available) && definitions == st.defined
              case Err(e) => r == Err(e)
      decreases operations
    {
      var available := entry;
      var index := 0;
      while index < |operations|
        invariant index <= |operations|
        invariant Verify(operations, handles, State(old(definitions), entry), p)
               == Verify(operations[index..], handles, State(definitions, available), p)
      {
        var operation := operations[index];
        assert operations[index..][0] == operation && operations[index..][1..] == operations[index + 1..];
        match operation.instruction {
          case Gate(_) =>
          case Data(d) =>
            var after := VerifyDataOp(d, |operation.qubits|, available);
            if after.Err? {
              return Err(after.error);
            }
            available := after.value;
          case Control(Break) =>
            if !p.breakAllowed {
              return Err(BreakOutsideBody);
            }
            if index + 1 != |operations| {
              return Err(NonTerminal);
            }
          case Control(Continue) =>
            if !p.continueAllowed {
              return Err(ContinueOutsideLoop);
            }
            if index + 1 != |operations| {
              return Err(NonTerminal);
            }
          case Control(c) =>
            assert Structured(operation);
            var checked := VerifyControlOp(operation.instruction.control, available, p);
            if checked.Err? {
              return Err(checked.error);
            }
        }
        index := index + 1;
      }
      return Ok(available);
    }

    /** Verifies one structured operation; its bodies add definitions but make nothing available. */
    method VerifyControlOp(c: ControlOp, available: set<ClassicalValue>, p: Placing) returns (r: Result<(), VerifyError>)
      modifies this
      ensures match VerifyControl(c, handles, State(old(definitions), available), p)
              case Ok(st) => r == Ok(()) && definitions == st.defined
              case Err(e) => r == Err(e)
      decreases c
    {
      if c.For? {
        var owned := handles.CheckVar(c.loopVar);
        if owned.Err? {
          return Err(owned.error);
        }
      }
      var heads := Heads(c);
      var k := 0;
      while k < |heads|
        invariant k <= |heads|
        invariant VerifyHeads(heads, handles, State(definitions, available)) == VerifyHeads(heads[k..], handles, State(definitions, available))
      {
        assert heads[k..][0] == heads[k] && heads[k..][1..] == heads[k + 1..];
        var readable := VerifyExpr(heads[k], handles, State(definitions, available));
        if readable.Err? {
          return Err(readable.error);
        }
        k := k + 1;
      }
      var bodies := Bodies(c);
      var inner := Enter(p, c);
      k := 0;
      while k < |bodies|
        invariant k <= |bodies|
        invariant VerifyBodies(c, 0, handles, State(old(definitions), available), inner)
               == VerifyBodies(c, k, handles, State(definitions, available), inner)
      {
        var after := VerifyOperations(bodies[k], available, inner);
        if after.Err? {
          return Err(after.error);
        }
        k := k + 1;
      }
      return Ok(());
    }
  }

  /** Validates a finished circuit: no error, and every entry of the value table defined. */
  method Validate(operations: seq<Operation>, h: Handles) returns (valid: bool)
    ensures valid <==> Valid(operations, h)
  {
    var verifier := new ClassicalVerifier(h);
    var r := verifier.VerifyOperations(operations, {}, Placing(false, false));
    if r.Err? {
      return false;
    }
    var index := 0;
    while index < |h.values|
      invariant index <= |h.values|
      invariant forall k | 0 <= k < index :: ClassicalValue(h.id, k, h.values[k]) in verifier.definitions
    {
      if ClassicalValue(h.id, index, h.values[index]) !in verifier.definitions {
        return false;
      }
      index := index + 1;
    }
    return true;
  }
}
