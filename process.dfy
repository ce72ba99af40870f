/**
 * The process state the stack evaluator and `Stack::authorize` work on: programs,
 * requests, the shared authorization queue, call stacks and the register file.
 *
 * Several of these live in files that are not part of this model (the program
 * and function declarations, `Request`, `Authorization`, `CallStack`,
 * `Registers`); they are given the shape the evaluator relies on. Everything
 * cryptographic or defined elsewhere is a parameter, collected in `Oracles`.
 */
module Process {
  import opened Wrappers
  import opened Bytes
  import opened Values

  type Register = nat
  type Identifier = string
  type ProgramId = string
  type PrivateKey = seq<byte>

  /** What an output statement names. */
  datatype Operand =
    | LiteralOperand(literal: Literal)
    | RegisterOperand(register: Register)
    | ProgramIdOperand(programId: ProgramId)
    | Caller

  datatype InputStatement = InputStatement(register: Register, valueType: ValueType)
  datatype OutputStatement = OutputStatement(operand: Operand, valueType: ValueType)

  /**
   * An instruction of a closure or function body. Its evaluation is a parameter
   * (`Oracles.evaluate`), so only what an error message shows is kept.
   */
  datatype Instr = Instr(text: string)

  datatype Closure = Closure(
    name: Identifier, inputs: seq<InputStatement>, instructions: seq<Instr>, outputs: seq<OutputStatement>)

  /**
   * A function. Its input types are a separate field: `Stack::authorize` checks
   * them against the input statements.
   */
  datatype Function = Function(
    name: Identifier, inputs: seq<InputStatement>, inputTypes: seq<ValueType>,
    instructions: seq<Instr>, outputs: seq<OutputStatement>)

  /** The registers of a list of input statements, in declaration order. */
  function InputRegisters(inputs: seq<InputStatement>): (r: seq<Register>)
    ensures |r| == |inputs| && forall i :: 0 <= i < |inputs| ==> r[i] == inputs[i].register
  {
    if inputs == [] then [] else [inputs[0].register] + InputRegisters(inputs[1..])
  }

  /** The operands of a list of output statements, in declaration order. */
  function OutputOperands(outputs: seq<OutputStatement>): (r: seq<Operand>)
    ensures |r| == |outputs| && forall i :: 0 <= i < |outputs| ==> r[i] == outputs[i].operand
  {
    if outputs == [] then [] else [outputs[0].operand] + OutputOperands(outputs[1..])
  }

  /** The declared types of a list of output statements, in declaration order. */
  function OutputTypes(outputs: seq<OutputStatement>): (r: seq<ValueType>)
    ensures |r| == |outputs| && forall i :: 0 <= i < |outputs| ==> r[i] == outputs[i].valueType
  {
    if outputs == [] then [] else [outputs[0].valueType] + OutputTypes(outputs[1..])
  }

  /** A signed call of a program function. */
  datatype Request = Request(
    caller: Address, networkId: u16, programId: ProgramId, functionName: Identifier,
    inputs: seq<Value>, tvk: Field, tcm: Field)

  /** The errors of evaluation and authorization, one per `bail!`/`ensure!` of the source. */
  datatype StackError =
    | ClosureInputCountMismatch(expected: nat, found: nat)
    | FunctionInputCountMismatch(functionName: Identifier, program: ProgramId, expected: nat, found: nat)
    | InputTypeCountMismatch(functionName: Identifier, program: ProgramId, inputs: nat, types: nat)
    | NoFunctions(program: ProgramId)
    | InvalidFunctionName
    | FunctionNotFound(name: Identifier)
    | RegisterTypesNotFound(name: Identifier)
    | IllegalOperation
    | AuthorizationEmpty
    | NetworkIdMismatch(expectedId: u16, foundId: u16)
    | RequestInvalid
    | RegisterAlreadySet(register: Register)
    | RegisterTypeNotFound(register: Register)
    | RegisterTypeMismatch(register: Register)
    | RegisterNotSet(register: Register)
    | CallerNotSet
    | InstructionFailed(instruction: Instr, cause: string)
    /** An error raised by a collaborator (signing, address derivation, the response). */
    | Collaborator(message: string)

  /**
   * The queue of requests an execution consumes, shared by reference between the
   * call stacks that hold it.
   */
  class Authorization {
    var requests: seq<Request>

    /** `Authorization::new`. */
    constructor(requests: seq<Request>)
      ensures this.requests == requests
    {
      this.requests := requests;
    }

    /** `peek_next`: the front request, or an error when the queue is empty. */
    function PeekNext(): (r: Result<Request, StackError>)
      reads this
      ensures r.Ok? <==> |requests| > 0
      ensures r.Ok? ==> r.value == requests[0]
      ensures r.Err? ==> r.error == AuthorizationEmpty
    {
      if |requests| == 0 then Err(AuthorizationEmpty) else Ok(requests[0])
    }

    /** `next`: remove and return the front request; an empty queue is left as it is. */
    method Next() returns (r: Result<Request, StackError>)
      modifies this
      ensures r == old(PeekNext())
      ensures requests == if r.Ok? then old(requests)[1..] else old(requests)
    {
      if |requests| == 0 {
        return Err(AuthorizationEmpty);
      }
      r := Ok(requests[0]);
      requests := requests[1..];
    }

    /** `push`: append a request at the back. */
    method Push(request: Request)
      modifies this
      ensures requests == old(requests) + [request]
    {
      requests := requests + [request];
    }

    /** `replicate`: a new, unshared queue with the same requests. */
    method Replicate() returns (copy: Authorization)
      ensures fresh(copy) && copy.requests == requests
    {
      copy := new Authorization(requests);
    }
  }

  /** The mode of an evaluation, and the state it carries. */
  datatype CallStack =
    | Authorize(pending: seq<Request>, privateKey: PrivateKey, authorization: Authorization)
    | Synthesize(pending: seq<Request>, privateKey: PrivateKey, authorization: Authorization)
    | CheckDeployment(pending: seq<Request>, privateKey: PrivateKey)
    | Evaluate(authorization: Authorization)
    | Execute(authorization: Authorization, trace: seq<Request>)

  /** A snapshot of the register file: the stored values, the caller and the transition view key. */
  datatype RegisterFile = RegisterFile(values: map<Register, Value>, caller: Option<Address>, tvk: Option<Field>)

  /** The collaborators of the evaluator that are outside this model. */
  datatype Oracles = Oracles(
    /** `matches_register_type`: whether a value has a declared type. */
    typeMatches: (Value, ValueType) -> bool,
    /** `Instruction::evaluate` on the register file. */
    evaluate: (Instr, RegisterFile) -> Result<RegisterFile, string>,
    /** `ProgramID::to_address`. */
    toAddress: ProgramId -> Result<Address, StackError>,
    /** `Request::verify` against the function's input types. */
    verify: (Request, seq<ValueType>) -> bool,
    /** `Response::new`. */
    newResponse: ResponseArgs -> Result<Response, StackError>)

  /** The arguments `evaluate_function` passes to `Response::new`, in order. */
  datatype ResponseArgs = ResponseArgs(
    networkId: u16, programId: ProgramId, functionName: Identifier, numInputs: nat,
    tvk: Field, tcm: Field, outputs: seq<Value>, outputTypes: seq<ValueType>,
    outputRegisters: seq<Option<Register>>)

  /** The response of a function call: the identifiers of its outputs and the outputs. */
  datatype Response = Response(outputIds: seq<Field>, outputs: seq<Value>)

  /** The part of a program's stack the evaluator reads. `networkId` is the network's `N::ID`. */
  datatype Stack = Stack(
    programId: ProgramId, functions: map<Identifier, Function>,
    registerTypes: map<Identifier, map<Register, ValueType>>, networkId: u16)

  /** `Stack::get_function`. */
  function GetFunction(stack: Stack, name: Identifier): (r: Result<Function, StackError>)
    ensures r.Ok? <==> name in stack.functions
    ensures r.Ok? ==> r.value == stack.functions[name]
    ensures r.Err? ==> r.error == FunctionNotFound(name)
  {
    if name in stack.functions then Ok(stack.functions[name]) else Err(FunctionNotFound(name))
  }

  /** `Stack::get_register_types`. */
  function GetRegisterTypes(stack: Stack, name: Identifier): (r: Result<map<Register, ValueType>, StackError>)
    ensures r.Ok? <==> name in stack.registerTypes
    ensures r.Ok? ==> r.value == stack.registerTypes[name]
    ensures r.Err? ==> r.error == RegisterTypesNotFound(name)
  {
    if name in stack.registerTypes then Ok(stack.registerTypes[name]) else Err(RegisterTypesNotFound(name))
  }

  /** `CallStack::replicate`: the same mode with an unshared copy of its authorization. */
  method ReplicateCallStack(callStack: CallStack) returns (copy: CallStack)
    ensures copy.Authorize? == callStack.Authorize? && copy.Synthesize? == callStack.Synthesize?
    ensures copy.CheckDeployment? == callStack.CheckDeployment? && copy.Evaluate? == callStack.Evaluate?
    ensures copy.Execute? == callStack.Execute?
    ensures (copy.Authorize? || copy.Synthesize? || copy.CheckDeployment?) ==>
      copy.pending == callStack.pending && copy.privateKey == callStack.privateKey
    ensures copy.Execute? ==> copy.trace == callStack.trace
    ensures !copy.CheckDeployment? ==>
      fresh(copy.authorization) && copy.authorization.requests == callStack.authorization.requests
  {
    match callStack
    case Authorize(pending, key, authorization) =>
      var a := authorization.Replicate();
      copy := Authorize(pending, key, a);
    case Synthesize(pending, key, authorization) =>
      var a := authorization.Replicate();
      copy := Synthesize(pending, key, a);
    case CheckDeployment(pending, key) =>
      copy := CheckDeployment(pending, key);
    case Evaluate(authorization) =>
      var a := authorization.Replicate();
      copy := Evaluate(a);
    case Execute(authorization, trace) =>
      var a := authorization.Replicate();
      copy := Execute(a, trace);
  }

  /**
   * `Registers::store`: a register is written once, must have a declared type,
   * and the value must have that type.
   */
  function StoreValue(oracles: Oracles, types: map<Register, ValueType>, file: RegisterFile,
                      register: Register, value: Value): (r: Result<RegisterFile, StackError>)
    ensures r.Ok? <==> register !in file.values && register in types && oracles.typeMatches(value, types[register])
    ensures r.Ok? ==> r.value == file.(values := file.values[register := value])
    ensures register in file.values ==> r == Err(RegisterAlreadySet(register))
    ensures register !in file.values && register !in types ==> r == Err(RegisterTypeNotFound(register))
    ensures register !in file.values && register in types && !oracles.typeMatches(value, types[register])
            ==> r == Err(RegisterTypeMismatch(register))
  {
    if register in file.values then Err(RegisterAlreadySet(register))
    else if register !in types then Err(RegisterTypeNotFound(register))
    else if !oracles.typeMatches(value, types[register]) then Err(RegisterTypeMismatch(register))
    else Ok(file.(values := file.values[register := value]))
  }

  /** `Registers::load` of a register operand. */
  function LoadValue(file: RegisterFile, register: Register): (r: Result<Value, StackError>)
    ensures r.Ok? <==> register in file.values
    ensures r.Ok? ==> r.value == file.values[register]
    ensures r.Err? ==> r.error == RegisterNotSet(register)
  {
    if register in file.values then Ok(file.values[register]) else Err(RegisterNotSet(register))
  }

  /** `Registers::caller`. */
  function CallerOf(file: RegisterFile): (r: Result<Address, StackError>)
    ensures r.Ok? <==> file.caller.Some?
    ensures r.Ok? ==> r.value == file.caller.value
  {
    match file.caller
    case Some(a) => Ok(a)
    case None => Err(CallerNotSet)
  }

  /** The register file of one evaluation. */
  class Registers {
    var callStack: CallStack
    const types: map<Register, ValueType>
    var values: map<Register, Value>
    var caller: Option<Address>
    var tvk: Option<Field>

    /** `Registers::new`: no value, caller or view key yet. */
    constructor(callStack: CallStack, types: map<Register, ValueType>)
      ensures this.callStack == callStack && this.types == types
      ensures File() == RegisterFile(map[], None, None)
    {
      this.callStack := callStack;
      this.types := types;
      values := map[];
      caller := None;
      tvk := None;
    }

    function File(): RegisterFile
      reads this
    {
      RegisterFile(values, caller, tvk)
    }

    method SetCaller(address: Address)
      modifies this
      ensures File() == old(File()).(caller := Some(address))
      ensures callStack == old(callStack)
    {
      caller := Some(address);
    }

    method SetTvk(key: Field)
      modifies this
      ensures File() == old(File()).(tvk := Some(key))
      ensures callStack == old(callStack)
    {
      tvk := Some(key);
    }

    /** Store a value; on failure nothing changes. */
    method Store(oracles: Oracles, register: Register, value: Value) returns (r: Result<(), StackError>)
      modifies this
      ensures var s := StoreValue(oracles, types, old(File()), register, value);
        (r.Ok? <==> s.Ok?) && (s.Err? ==> r.error == s.error)
        && File() == (if s.Ok? then s.value else old(File()))
      ensures callStack == old(callStack)
    {
      var s := StoreValue(oracles, types, File(), register, value);
      if s.Err? {
        return Err(s.error);
      }
      values := s.value.values;
      r := Ok(());
    }

    /** Evaluate one instruction on the registers; on failure nothing changes and the cause is returned. */
    method Evaluate(oracles: Oracles, instruction: Instr) returns (r: Result<(), string>)
      modifies this
      ensures var s := oracles.evaluate(instruction, old(File()));
        (r.Ok? <==> s.Ok?) && (s.Err? ==> r.error == s.error)
        && File() == (if s.Ok? then s.value else old(File()))
      ensures callStack == old(callStack)
    {
      var s := oracles.evaluate(instruction, File());
      if s.Err? {
        return Err(s.error);
      }
      values, caller, tvk := s.value.values, s.value.caller, s.value.tvk;
      r := Ok(());
    }
  }
}
