/**
 * `Stack::authorize`: after its guards, one signed top-level request seeds a new
 * authorization; that same object is handed to an `Authorize` call stack, the
 * nested calls add their requests to it, and it is returned.
 */
module StackAuthorize {
  import opened Wrappers
  import opened Values
  import opened Process

  /** The collaborators of `Stack::authorize`; `rng` stands for the random source. */
  datatype AuthorizeOracles = AuthorizeOracles(
    /** The `TryInto<Identifier>` conversion of the function name. */
    toIdentifier: string -> Option<Identifier>,
    /** `Request::sign`. */
    sign: (PrivateKey, ProgramId, Identifier, seq<Value>, seq<ValueType>, nat) -> Result<Request, StackError>,
    /**
     * `execute_function` on an `Authorize` call stack with the given pending
     * requests: its outcome, and the requests of nested calls it adds to the
     * call stack's authorization.
     */
    execute: (seq<Request>, PrivateKey, nat) -> (Result<Response, StackError>, seq<Request>))

  /** The guards of `Stack::authorize` in order, then the signed top-level request. */
  function SignedRequest(stack: Stack, oracles: AuthorizeOracles, privateKey: PrivateKey,
                         functionName: string, inputs: seq<Value>, rng: nat): Result<Request, StackError>
  {
    if |stack.functions| == 0 then Err(NoFunctions(stack.programId))
    else match oracles.toIdentifier(functionName)
      case None => Err(InvalidFunctionName)
      case Some(name) =>
        var fn :- GetFunction(stack, name);
        if |fn.inputs| != |fn.inputTypes| then
          Err(InputTypeCountMismatch(name, stack.programId, |fn.inputs|, |fn.inputTypes|))
        else oracles.sign(privateKey, stack.programId, name, inputs, fn.inputTypes, rng)
  }

  /** A request exists only when every guard passed, and it is the one signed for the named function. */
  lemma SignedOnlyAfterGuards(stack: Stack, oracles: AuthorizeOracles, privateKey: PrivateKey,
                              functionName: string, inputs: seq<Value>, rng: nat)
    requires SignedRequest(stack, oracles, privateKey, functionName, inputs, rng).Ok?
    ensures |stack.functions| > 0
    ensures var name := oracles.toIdentifier(functionName);
      && name.Some? && name.value in stack.functions
      && |stack.functions[name.value].inputs| == |stack.functions[name.value].inputTypes|
      && SignedRequest(stack, oracles, privateKey, functionName, inputs, rng)
         == oracles.sign(privateKey, stack.programId, name.value, inputs, stack.functions[name.value].inputTypes, rng)
  {
  }

  /** A program without functions is refused before anything is signed: the signer does not matter. */
  lemma NoFunctionsRefused(stack: Stack, oracles: AuthorizeOracles, privateKey: PrivateKey,
                           functionName: string, inputs: seq<Value>, rng: nat,
                           sign: (PrivateKey, ProgramId, Identifier, seq<Value>, seq<ValueType>, nat) -> Result<Request, StackError>)
    requires |stack.functions| == 0
    ensures SignedRequest(stack, oracles, privateKey, functionName, inputs, rng) == Err(NoFunctions(stack.programId))
    ensures SignedRequest(stack, oracles.(sign := sign), privateKey, functionName, inputs, rng)
            == Err(NoFunctions(stack.programId))
  {
  }

  /** An unconvertible name, or one the program does not define, is refused. */
  lemma UnknownFunctionRefused(stack: Stack, oracles: AuthorizeOracles, privateKey: PrivateKey,
                               functionName: string, inputs: seq<Value>, rng: nat)
    requires |stack.functions| > 0
    ensures oracles.toIdentifier(functionName).None? ==>
      SignedRequest(stack, oracles, privateKey, functionName, inputs, rng) == Err(InvalidFunctionName)
    ensures oracles.toIdentifier(functionName).Some? && oracles.toIdentifier(functionName).value !in stack.functions ==>
      SignedRequest(stack, oracles, privateKey, functionName, inputs, rng)
        == Err(FunctionNotFound(oracles.toIdentifier(functionName).value))
  {
  }

  /** A function whose input statements and input types differ in number is refused, naming both counts. */
  lemma InputTypeCountChecked(stack: Stack, oracles: AuthorizeOracles, privateKey: PrivateKey,
                              functionName: string, inputs: seq<Value>, rng: nat)
    requires |stack.functions| > 0
    requires oracles.toIdentifier(functionName).Some? && oracles.toIdentifier(functionName).value in stack.functions
    ensures var name := oracles.toIdentifier(functionName).value;
      var fn := stack.functions[name];
      |fn.inputs| != |fn.inputTypes| ==>
        SignedRequest(stack, oracles, privateKey, functionName, inputs, rng)
          == Err(InputTypeCountMismatch(name, stack.programId, |fn.inputs|, |fn.inputTypes|))
  {
  }

  /**
   * `execute_function` on an `Authorize` call stack: the nested requests are
   * pushed, one by one, onto the authorization the call stack holds.
   */
  method ExecuteFunction(oracles: AuthorizeOracles, callStack: CallStack, rng: nat) returns (r: Result<Response, StackError>)
    requires callStack.Authorize?
    modifies callStack.authorization
    ensures var outcome := oracles.execute(callStack.pending, callStack.privateKey, rng);
      && r == outcome.0
      && callStack.authorization.requests == old(callStack.authorization.requests) + outcome.1
  {
    var outcome := oracles.execute(callStack.pending, callStack.privateKey, rng);
    var nested := outcome.1;
    for i := 0 to |nested|
      invariant callStack.authorization.requests == old(callStack.authorization.requests) + nested[..i]
    {
      assert nested[..i + 1] == nested[..i] + [nested[i]];
      callStack.authorization.Push(nested[i]);
    }
    assert nested[..|nested|] == nested;
    r := outcome.0;
  }

  /**
   * `Stack::authorize`. On success the returned authorization is the object the
   * call stack held: the signed request first, then whatever the nested calls added.
   */
  method Authorize(stack: Stack, oracles: AuthorizeOracles, privateKey: PrivateKey,
                   functionName: string, inputs: seq<Value>, rng: nat)
    returns (r: Result<Authorization, StackError>)
    ensures match SignedRequest(stack, oracles, privateKey, functionName, inputs, rng)
      case Err(e) => r == Err(e)
      case Ok(request) =>
        var outcome := oracles.execute([request], privateKey, rng);
        if outcome.0.Err? then r == Err(outcome.0.error)
        else r.Ok? && fresh(r.value) && r.value.requests == [request] + outcome.1
  {
    if |stack.functions| == 0 {
      return Err(NoFunctions(stack.programId));
    }
    var name: Identifier;
    match oracles.toIdentifier(functionName) {
      case None => return Err(InvalidFunctionName);
      case Some(n) => name := n;
    }
    var fn :- GetFunction(stack, name);
    if |fn.inputs| != |fn.inputTypes| {
      return Err(InputTypeCountMismatch(name, stack.programId, |fn.inputs|, |fn.inputTypes|));
    }
    var request :- oracles.sign(privateKey, stack.programId, name, inputs, fn.inputTypes, rng);
    var authorization := new Authorization([request]);
    var callStack := CallStack.Authorize([request], privateKey, authorization);
    var response := ExecuteFunction(oracles, callStack, rng);
    if response.Err? {
      return Err(response.error);
    }
    return Ok(authorization);
  }
}
