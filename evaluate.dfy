/**
 * `Stack::evaluate_closure` and `Stack::evaluate_function`: check the arity,
 * build a register file, store the inputs in declaration order, run the
 * instructions in program order, and resolve the outputs by operand kind.
 *
 * The pure functions below say what an evaluation computes; the methods walk the
 * register file step by step and are proved to compute exactly that.
 */
module StackEvaluate {
  import opened Wrappers
  import opened Values
  import opened Process

  /** The input stores, pairwise and in declaration order; the first failing store aborts. */
  function StoreInputs(oracles: Oracles, types: map<Register, ValueType>, file: RegisterFile,
                       registers: seq<Register>, inputs: seq<Value>): Result<RegisterFile, StackError>
    requires |registers| == |inputs|
    decreases |registers|
  {
    if registers == [] then Ok(file)
    else
      var next :- StoreValue(oracles, types, file, registers[0], inputs[0]);
      StoreInputs(oracles, types, next, registers[1..], inputs[1..])
  }

  /** After all stores succeed, the file grew by the declared registers and nothing else changed. */
  lemma {:induction false} StoreInputsFrame(oracles: Oracles, types: map<Register, ValueType>, file: RegisterFile,
                                            registers: seq<Register>, inputs: seq<Value>)
    requires |registers| == |inputs|
    requires StoreInputs(oracles, types, file, registers, inputs).Ok?
    ensures var f := StoreInputs(oracles, types, file, registers, inputs).value;
      && f.caller == file.caller && f.tvk == file.tvk
      && f.values.Keys == file.values.Keys + (set r | r in registers)
      && (forall r :: r in file.values ==> f.values[r] == file.values[r])
    decreases |registers|
  {
    if registers != [] {
      var next := StoreValue(oracles, types, file, registers[0], inputs[0]).value;
      StoreInputsFrame(oracles, types, next, registers[1..], inputs[1..]);
      assert (set r | r in registers) == {registers[0]} + (set r | r in registers[1..]) by {
        assert registers == [registers[0]] + registers[1..];
      }
    }
  }

  /** After all stores succeed, every declared register was unset before and now holds its input. */
  lemma {:induction false} StoreInputsFresh(oracles: Oracles, types: map<Register, ValueType>, file: RegisterFile,
                                            registers: seq<Register>, inputs: seq<Value>)
    requires |registers| == |inputs|
    requires StoreInputs(oracles, types, file, registers, inputs).Ok?
    ensures var f := StoreInputs(oracles, types, file, registers, inputs).value;
      forall i :: 0 <= i < |registers| ==>
        registers[i] !in file.values && registers[i] in f.values && f.values[registers[i]] == inputs[i]
    decreases |registers|
  {
    if registers != [] {
      var next := StoreValue(oracles, types, file, registers[0], inputs[0]).value;
      StoreInputsFresh(oracles, types, next, registers[1..], inputs[1..]);
      StoreInputsFrame(oracles, types, next, registers[1..], inputs[1..]);
      var f := StoreInputs(oracles, types, file, registers, inputs).value;
      forall i | 0 <= i < |registers|
        ensures registers[i] !in file.values && registers[i] in f.values && f.values[registers[i]] == inputs[i]
      {
        if i > 0 { assert registers[i] == registers[1..][i - 1]; }
      }
    }
  }

  /**
   * After all stores succeed, every declared register holds its input, the
   * registers were distinct and previously unset, and nothing else changed.
   */
  lemma {:induction false} StoredInputsAreHeld(oracles: Oracles, types: map<Register, ValueType>, file: RegisterFile,
                                               registers: seq<Register>, inputs: seq<Value>)
    requires |registers| == |inputs|
    requires StoreInputs(oracles, types, file, registers, inputs).Ok?
    ensures var f := StoreInputs(oracles, types, file, registers, inputs).value;
      && f.caller == file.caller && f.tvk == file.tvk
      && f.values.Keys == file.values.Keys + (set r | r in registers)
      && (forall r :: r in file.values ==> f.values[r] == file.values[r])
      && (forall i :: 0 <= i < |registers| ==> registers[i] !in file.values && f.values[registers[i]] == inputs[i])
    ensures forall i, j :: 0 <= i < j < |registers| ==> registers[i] != registers[j]
    decreases |registers|
  {
    StoreInputsFrame(oracles, types, file, registers, inputs);
    StoreInputsFresh(oracles, types, file, registers, inputs);
    if registers != [] {
      var next := StoreValue(oracles, types, file, registers[0], inputs[0]).value;
      StoredInputsAreHeld(oracles, types, next, registers[1..], inputs[1..]);
      forall i, j | 0 <= i < j < |registers| ensures registers[i] != registers[j] {
        assert registers[j] == registers[1..][j - 1];
        if i > 0 { assert registers[i] == registers[1..][i - 1]; }
      }
    }
  }

  /** Storing a prefix and then the rest is storing everything. */
  lemma {:induction false} StoreInputsSplit(oracles: Oracles, types: map<Register, ValueType>, file: RegisterFile,
                                            registers: seq<Register>, inputs: seq<Value>, k: nat)
    requires |registers| == |inputs| && k <= |registers|
    ensures StoreInputs(oracles, types, file, registers, inputs)
            == match StoreInputs(oracles, types, file, registers[..k], inputs[..k])
               case Err(e) => Err(e)
               case Ok(f) => StoreInputs(oracles, types, f, registers[k..], inputs[k..])
    decreases k
  {
    if k > 0 {
      assert registers[..k][1..] == registers[1..][..k - 1] && inputs[..k][1..] == inputs[1..][..k - 1];
      assert registers[k..] == registers[1..][k - 1..] && inputs[k..] == inputs[1..][k - 1..];
      match StoreValue(oracles, types, file, registers[0], inputs[0])
      case Err(_) =>
      case Ok(next) => StoreInputsSplit(oracles, types, next, registers[1..], inputs[1..], k - 1);
    }
  }

  /** The first failing store decides the error; the later inputs are never stored. */
  lemma FirstFailingStoreAborts(oracles: Oracles, types: map<Register, ValueType>, file: RegisterFile,
                                registers: seq<Register>, inputs: seq<Value>, k: nat, before: RegisterFile)
    requires |registers| == |inputs| && k < |registers|
    requires StoreInputs(oracles, types, file, registers[..k], inputs[..k]) == Ok(before)
    requires StoreValue(oracles, types, before, registers[k], inputs[k]).Err?
    ensures StoreInputs(oracles, types, file, registers, inputs)
            == Err(StoreValue(oracles, types, before, registers[k], inputs[k]).error)
  {
    StoreInputsSplit(oracles, types, file, registers, inputs, k);
    assert registers[k..][0] == registers[k] && inputs[k..][0] == inputs[k];
  }

  /** The instructions in program order; the first failing one aborts with an error naming it. */
  function RunInstructions(oracles: Oracles, instructions: seq<Instr>, file: RegisterFile): Result<RegisterFile, StackError>
    decreases |instructions|
  {
    if instructions == [] then Ok(file)
    else
      match oracles.evaluate(instructions[0], file)
      case Err(cause) => Err(InstructionFailed(instructions[0], cause))
      case Ok(next) => RunInstructions(oracles, instructions[1..], next)
  }

  /** Running a prefix and then the rest is running everything. */
  lemma {:induction false} RunInstructionsSplit(oracles: Oracles, instructions: seq<Instr>, file: RegisterFile, k: nat)
    requires k <= |instructions|
    ensures RunInstructions(oracles, instructions, file)
            == match RunInstructions(oracles, instructions[..k], file)
               case Err(e) => Err(e)
               case Ok(f) => RunInstructions(oracles, instructions[k..], f)
    decreases k
  {
    if k > 0 {
      assert instructions[..k][1..] == instructions[1..][..k - 1];
      assert instructions[k..] == instructions[1..][k - 1..];
      match oracles.evaluate(instructions[0], file)
      case Err(_) =>
      case Ok(next) => RunInstructionsSplit(oracles, instructions[1..], next, k - 1);
    }
  }

  /**
   * When instruction k fails after the first k succeeded, the run fails naming
   * instruction k, whatever follows it.
   */
  lemma FirstFailingInstructionAborts(oracles: Oracles, instructions: seq<Instr>, file: RegisterFile,
                                      k: nat, before: RegisterFile, tail: seq<Instr>)
    requires k < |instructions|
    requires RunInstructions(oracles, instructions[..k], file) == Ok(before)
    requires oracles.evaluate(instructions[k], before).Err?
    ensures var failed := Err(InstructionFailed(instructions[k], oracles.evaluate(instructions[k], before).error));
      && RunInstructions(oracles, instructions, file) == failed
      && RunInstructions(oracles, instructions[..k + 1] + tail, file) == failed
  {
    RunInstructionsSplit(oracles, instructions, file, k);
    assert instructions[k..][0] == instructions[k];
    var longer := instructions[..k + 1] + tail;
    assert longer[..k] == instructions[..k];
    assert longer[k..][0] == instructions[k];
    RunInstructionsSplit(oracles, longer, file, k);
  }

  /** One output operand, resolved by its kind. */
  function ResolveOutput(oracles: Oracles, file: RegisterFile, operand: Operand): (r: Result<Value, StackError>)
    ensures operand.LiteralOperand? ==> r == Ok(Plaintext(Literal(operand.literal)))
    ensures operand.RegisterOperand? ==>
      (r.Ok? <==> operand.register in file.values) && (r.Ok? ==> r.value == file.values[operand.register])
    ensures operand.ProgramIdOperand? ==>
      (r.Ok? <==> oracles.toAddress(operand.programId).Ok?)
      && (r.Ok? ==> r.value == Plaintext(Literal(Address(oracles.toAddress(operand.programId).value))))
    ensures operand.Caller? ==>
      (r.Ok? <==> file.caller.Some?) && (r.Ok? ==> r.value == Plaintext(Literal(Address(file.caller.value))))
  {
    match operand
    case LiteralOperand(literal) => Ok(Plaintext(Literal(literal)))
    case RegisterOperand(register) => LoadValue(file, register)
    case ProgramIdOperand(programId) =>
      var address :- oracles.toAddress(programId);
      Ok(Plaintext(Literal(Address(address))))
    case Caller =>
      var address :- CallerOf(file);
      Ok(Plaintext(Literal(Address(address))))
  }

  /**
   * The outputs, in declaration order (`collect` into a `Result`): all resolve, or
   * the error is that of the first operand that does not.
   */
  function ResolveOutputs(oracles: Oracles, file: RegisterFile, operands: seq<Operand>): (r: Result<seq<Value>, StackError>)
    ensures r.Ok? <==> forall i :: 0 <= i < |operands| ==> ResolveOutput(oracles, file, operands[i]).Ok?
    ensures r.Ok? ==>
      && |r.value| == |operands|
      && forall i :: 0 <= i < |operands| ==> r.value[i] == ResolveOutput(oracles, file, operands[i]).value
    ensures r.Err? ==>
      exists k :: && 0 <= k < |operands|
                  && (forall i :: 0 <= i < k ==> ResolveOutput(oracles, file, operands[i]).Ok?)
                  && ResolveOutput(oracles, file, operands[k]) == Err(r.error)
    decreases |operands|
  {
    if operands == [] then Ok([])
    else
      var first :- ResolveOutput(oracles, file, operands[0]);
      var rest :- ResolveOutputs(oracles, file, operands[1..]);
      assert forall i :: 0 < i < |operands| ==> operands[i] == operands[1..][i - 1];
      Ok([first] + rest)
  }

  /** `output_registers`: `Some(r)` exactly for the register operands, one entry per output. */
  function OutputRegisters(operands: seq<Operand>): (r: seq<Option<Register>>)
    ensures |r| == |operands|
    ensures forall i :: 0 <= i < |operands| ==>
      (r[i].Some? <==> operands[i].RegisterOperand?) && (r[i].Some? ==> r[i].value == operands[i].register)
    decreases |operands|
  {
    if operands == [] then []
    else
      var first := if operands[0].RegisterOperand? then Some(operands[0].register) else None;
      [first] + OutputRegisters(operands[1..])
  }

  /** What `evaluate_closure` returns. */
  function ClosureOutputs(stack: Stack, oracles: Oracles, closure: Closure, inputs: seq<Value>,
                          caller: Address, tvk: Field): Result<seq<Value>, StackError>
  {
    if |closure.inputs| != |inputs| then Err(ClosureInputCountMismatch(|closure.inputs|, |inputs|))
    else
      var types :- GetRegisterTypes(stack, closure.name);
      var stored :- StoreInputs(oracles, types, RegisterFile(map[], Some(caller), Some(tvk)),
                                InputRegisters(closure.inputs), inputs);
      var evaluated :- RunInstructions(oracles, closure.instructions, stored);
      ResolveOutputs(oracles, evaluated, OutputOperands(closure.outputs))
  }

  /** What `evaluate_function` returns for the request it takes from the call stack. */
  function FunctionResponse(stack: Stack, oracles: Oracles, request: Request): Result<Response, StackError>
  {
    if request.networkId != stack.networkId then Err(NetworkIdMismatch(stack.networkId, request.networkId))
    else
      var fn :- GetFunction(stack, request.functionName);
      if |fn.inputs| != |request.inputs| then
        Err(FunctionInputCountMismatch(fn.name, stack.programId, |fn.inputs|, |request.inputs|))
      else
        var types :- GetRegisterTypes(stack, fn.name);
        if !oracles.verify(request, fn.inputTypes) then Err(RequestInvalid)
        else
          var stored :- StoreInputs(oracles, types, RegisterFile(map[], Some(request.caller), Some(request.tvk)),
                                    InputRegisters(fn.inputs), request.inputs);
          var evaluated :- RunInstructions(oracles, fn.instructions, stored);
          var operands := OutputOperands(fn.outputs);
          var outputs :- ResolveOutputs(oracles, evaluated, operands);
          oracles.newResponse(ResponseArgs(
            request.networkId, stack.programId, fn.name, |request.inputs|, request.tvk, request.tcm,
            outputs, OutputTypes(fn.outputs), OutputRegisters(operands)))
  }

  /** The `try_for_each` over the input stores. */
  method StoreAll(registers: Registers, oracles: Oracles, inputRegisters: seq<Register>, inputs: seq<Value>)
    returns (r: Result<(), StackError>)
    requires |inputRegisters| == |inputs|
    modifies registers
    ensures var s := StoreInputs(oracles, registers.types, old(registers.File()), inputRegisters, inputs);
      (r.Ok? <==> s.Ok?) && (s.Err? ==> r.error == s.error) && (s.Ok? ==> registers.File() == s.value)
    ensures registers.callStack == old(registers.callStack)
  {
    ghost var start := registers.File();
    for i := 0 to |inputs|
      invariant registers.callStack == old(registers.callStack)
      invariant StoreInputs(oracles, registers.types, start, inputRegisters, inputs)
             == StoreInputs(oracles, registers.types, registers.File(), inputRegisters[i..], inputs[i..])
    {
      assert inputRegisters[i..][1..] == inputRegisters[i + 1..] && inputs[i..][1..] == inputs[i + 1..];
      var stored := registers.Store(oracles, inputRegisters[i], inputs[i]);
      if stored.Err? {
        return Err(stored.error);
      }
    }
    r := Ok(());
  }

  /** The instruction loop. */
  method RunAll(registers: Registers, oracles: Oracles, instructions: seq<Instr>) returns (r: Result<(), StackError>)
    modifies registers
    ensures var s := RunInstructions(oracles, instructions, old(registers.File()));
      (r.Ok? <==> s.Ok?) && (s.Err? ==> r.error == s.error) && (s.Ok? ==> registers.File() == s.value)
    ensures registers.callStack == old(registers.callStack)
  {
    ghost var start := registers.File();
    for i := 0 to |instructions|
      invariant registers.callStack == old(registers.callStack)
      invariant RunInstructions(oracles, instructions, start)
             == RunInstructions(oracles, instructions[i..], registers.File())
    {
      assert instructions[i..][1..] == instructions[i + 1..];
      var evaluated := registers.Evaluate(oracles, instructions[i]);
      if evaluated.Err? {
        return Err(InstructionFailed(instructions[i], evaluated.error));
      }
    }
    r := Ok(());
  }

  /** `Stack::evaluate_closure`. */
  method EvaluateClosure(stack: Stack, oracles: Oracles, closure: Closure, inputs: seq<Value>,
                         callStack: CallStack, caller: Address, tvk: Field)
    returns (r: Result<seq<Value>, StackError>)
    ensures r == ClosureOutputs(stack, oracles, closure, inputs, caller, tvk)
  {
    if |closure.inputs| != |inputs| {
      return Err(ClosureInputCountMismatch(|closure.inputs|, |inputs|));
    }
    var types :- GetRegisterTypes(stack, closure.name);
    var registers := new Registers(callStack, types);
    registers.SetCaller(caller);
    registers.SetTvk(tvk);
    var stored := StoreAll(registers, oracles, InputRegisters(closure.inputs), inputs);
    if stored.Err? {
      return Err(stored.error);
    }
    var evaluated := RunAll(registers, oracles, closure.instructions);
    if evaluated.Err? {
      return Err(evaluated.error);
    }
    r := ResolveOutputs(oracles, registers.File(), OutputOperands(closure.outputs));
  }

  /** The evaluation of one request on a given call stack, after it has been taken from the authorization. */
  method EvaluateRequest(stack: Stack, oracles: Oracles, request: Request, callStack: CallStack)
    returns (r: Result<Response, StackError>)
    ensures r == FunctionResponse(stack, oracles, request)
  {
    if request.networkId != stack.networkId {
      return Err(NetworkIdMismatch(stack.networkId, request.networkId));
    }
    var fn :- GetFunction(stack, request.functionName);
    if |fn.inputs| != |request.inputs| {
      return Err(FunctionInputCountMismatch(fn.name, stack.programId, |fn.inputs|, |request.inputs|));
    }
    var types :- GetRegisterTypes(stack, fn.name);
    var registers := new Registers(callStack, types);
    registers.SetCaller(request.caller);
    registers.SetTvk(request.tvk);
    if !oracles.verify(request, fn.inputTypes) {
      return Err(RequestInvalid);
    }
    var stored := StoreAll(registers, oracles, InputRegisters(fn.inputs), request.inputs);
    if stored.Err? {
      return Err(stored.error);
    }
    var evaluated := RunAll(registers, oracles, fn.instructions);
    if evaluated.Err? {
      return Err(evaluated.error);
    }
    var operands := OutputOperands(fn.outputs);
    var outputs :- ResolveOutputs(oracles, registers.File(), operands);
    var outputRegisters := OutputRegisters(operands);
    r := oracles.newResponse(ResponseArgs(
      request.networkId, stack.programId, fn.name, |request.inputs|, request.tvk, request.tcm,
      outputs, OutputTypes(fn.outputs), outputRegisters));
  }

  /**
   * `Stack::evaluate_function`: `Evaluate` consumes the next request, `Execute`
   * peeks at it and evaluates on a replicated call stack, any other mode is refused.
   */
  method EvaluateFunction(stack: Stack, oracles: Oracles, callStack: CallStack) returns (r: Result<Response, StackError>)
    modifies if callStack.Evaluate? then {callStack.authorization} else {}
    ensures callStack.Evaluate? ==>
      var queue := old(callStack.authorization.requests);
      && r == (if |queue| == 0 then Err(AuthorizationEmpty) else FunctionResponse(stack, oracles, queue[0]))
      && callStack.authorization.requests == (if |queue| == 0 then queue else queue[1..])
    ensures callStack.Execute? ==>
      var queue := callStack.authorization.requests;
      && r == (if |queue| == 0 then Err(AuthorizationEmpty) else FunctionResponse(stack, oracles, queue[0]))
      && unchanged(callStack.authorization)
    ensures !callStack.Evaluate? && !callStack.Execute? ==> r == Err(IllegalOperation)
  {
    var request: Request;
    var registerStack: CallStack;
    match callStack {
      case Evaluate(authorization) =>
        request :- authorization.Next();
        registerStack := callStack;
      case Execute(authorization, _) =>
        request :- authorization.PeekNext();
        registerStack := ReplicateCallStack(callStack);
      case _ =>
        return Err(IllegalOperation);
    }
    r := EvaluateRequest(stack, oracles, request, registerStack);
  }

  /** A closure called with the wrong number of inputs fails with both counts, before any register exists. */
  lemma ClosureArityChecked(stack: Stack, oracles: Oracles, closure: Closure, inputs: seq<Value>, caller: Address, tvk: Field)
    requires |closure.inputs| != |inputs|
    ensures ClosureOutputs(stack, oracles, closure, inputs, caller, tvk)
            == Err(ClosureInputCountMismatch(|closure.inputs|, |inputs|))
  {
  }

  /** A successful closure call returns one value per declared output, in order, each resolved by its kind. */
  lemma ClosureOutputsInOrder(stack: Stack, oracles: Oracles, closure: Closure, inputs: seq<Value>, caller: Address, tvk: Field)
    requires ClosureOutputs(stack, oracles, closure, inputs, caller, tvk).Ok?
    ensures var outputs := ClosureOutputs(stack, oracles, closure, inputs, caller, tvk).value;
      && |outputs| == |closure.outputs|
      && forall i :: 0 <= i < |outputs| && closure.outputs[i].operand.LiteralOperand? ==>
           outputs[i] == Plaintext(Literal(closure.outputs[i].operand.literal))
  {
    var outputs := ClosureOutputs(stack, oracles, closure, inputs, caller, tvk).value;
    var operands := OutputOperands(closure.outputs);
    forall i | 0 <= i < |outputs| && closure.outputs[i].operand.LiteralOperand?
      ensures outputs[i] == Plaintext(Literal(closure.outputs[i].operand.literal))
    {
      assert operands[i] == closure.outputs[i].operand;
    }
  }

  /** A request for another network fails before the function is looked up, whatever the program holds. */
  lemma NetworkCheckedFirst(stack: Stack, oracles: Oracles, request: Request, functions: map<Identifier, Function>)
    requires request.networkId != stack.networkId
    ensures FunctionResponse(stack.(functions := functions), oracles, request)
            == Err(NetworkIdMismatch(stack.networkId, request.networkId))
  {
  }

  /**
   * A request that fails verification is refused with "Request is invalid", and
   * the outcome does not depend on how the stores or instructions would behave.
   */
  lemma InvalidRequestRefusedBeforeStores(stack: Stack, oracles: Oracles, request: Request,
                                          typeMatches: (Value, ValueType) -> bool,
                                          evaluate: (Instr, RegisterFile) -> Result<RegisterFile, string>)
    requires request.networkId == stack.networkId && request.functionName in stack.functions
    requires |stack.functions[request.functionName].inputs| == |request.inputs|
    requires stack.functions[request.functionName].name in stack.registerTypes
    requires !oracles.verify(request, stack.functions[request.functionName].inputTypes)
    ensures FunctionResponse(stack, oracles, request) == Err(RequestInvalid)
    ensures FunctionResponse(stack, oracles.(typeMatches := typeMatches, evaluate := evaluate), request) == Err(RequestInvalid)
  {
  }

  /** A function whose arity differs from the request's fails, naming the function, the program and both counts. */
  lemma FunctionArityChecked(stack: Stack, oracles: Oracles, request: Request)
    requires request.networkId == stack.networkId && request.functionName in stack.functions
    requires |stack.functions[request.functionName].inputs| != |request.inputs|
    ensures var fn := stack.functions[request.functionName];
      FunctionResponse(stack, oracles, request)
        == Err(FunctionInputCountMismatch(fn.name, stack.programId, |fn.inputs|, |request.inputs|))
  {
  }
}
