# snarkVM instruction engine and data formats, in Dafny

This project models the sequential logic at the core of snarkVM's virtual machine. It covers:

- the instruction catalogue (opcodes, binary and text forms);
- the stack evaluator for closures and functions, with its call-stack modes;
- `Stack::authorize`;
- double-and-add scalar multiplication and its circuit metadata;
- the binary form of a block;
- the framing and field layout of an encrypted record;
- fee amount extraction;
- `to_bits_le` for a circuit boolean.

It proves properties of this model. Cryptography and curve arithmetic are not modelled. Collaborators whose code lives in other files become parameters: records of function values, with ghost predicates for the properties assumed of them. These collaborators are:

- the per-instruction operand codecs, mnemonics and evaluation;
- the field codecs;
- the encryption scheme;
- `Request::sign` and `Request::verify`;
- `Response::new`;
- the block hash.

Modules, one per source file plus shared helpers:

- `Wrappers`: `Option`, `Result`.
- `Bytes`: bytes, little-endian integers, I/O errors, self-delimiting codecs.
- `Values`: literals, plaintexts, values, value types.
- `Circuits`: modes, circuit types, counts.
- `Process`: the program stack, requests, and the `Authorization` and `Registers` classes. Their shape is assumed, because the files defining them are not part of this model.
- `Instructions`, `StackEvaluate`, `StackAuthorize`, `GroupMul`, `BlockBytes`, `EncryptedRecords`, `Fees`, `BooleanToBits`: the core.

State that the source updates in place is modelled as classes:

- The authorization queue is `Process.Authorization`. It is shared by reference, so `Stack::authorize` can return the very object the nested calls appended to.
- The register file is `Process.Registers`.
- A group element updated by `*=` is `GroupMul.Group`.

The loops of the source are methods proved against pure specification functions. These are the input stores, the instruction loop, the double-and-add loop, and the byte loop of `EncryptedRecord::read_le`. `StackAuthorize.ExecuteFunction` also holds a loop, which appends the nested requests. It stands in for `execute_function`, whose code is not part of this model; authorize.rs has no loop of its own.

Flagged behaviour: in `EncryptedRecord::decrypt` the dummy test compares the program id with a clone of itself. That conjunct is always true, so a record counts as a dummy exactly when its value is 0 and its payload is the default. The code's own comment marks this as provisional. The model keeps it as written (`EncryptedRecords.IsDummyAsWritten`) and proves that the program id plays no part (`EncryptedRecords.IsDummyIgnoresProgramId`).

Where the system's design description and the code differ, the model follows the code:

- The design says every variant's text form parses back. The code's parser recognises only `add` and `sub`, and that is what is modelled (`Instructions.ParseRejectsOtherVariants`).
- The design says a function's request is verified before the register file is built. The code builds the register file first, then verifies. The register file is local and dropped on failure, so the outcome is the same.

## Model

| member | source | states |
|---|---|---|
| Instructions.Index | bytecode/src/instructions/mod.rs:83-123 | the opcode of a variant is its 0-based position in declaration order (Add = 0 … Ternary = 15), and is below 16 |
| Instructions.Opcode | bytecode/src/instructions/mod.rs:120-123 | `opcode()` is the declaration index of the instruction's variant |
| Instructions.OpcodeInjective | bytecode/src/instructions/mod.rs:83-123 | two instructions have the same opcode exactly when they are the same variant |
| Instructions.VariantOfCode | bytecode/src/instructions/mod.rs:216-233 | the decoding table yields a variant exactly for tags 0..15, and the variant it yields has that tag as its opcode |
| Instructions.VariantOfCodeInvertsIndex | bytecode/src/instructions/mod.rs:217-232 | the decoding table maps every opcode back to its variant, so the table matches declaration order |
| Instructions.Mnemonic | bytecode/src/instructions/mod.rs:126-146 | no contract of its own: the mnemonic of the instruction's own variant. `Instructions.DispatchIsPerVariant` and `Instructions.MnemonicIdentifiesOpcode` state its properties |
| Instructions.Evaluate | bytecode/src/instructions/mod.rs:148-169 | no contract of its own: the evaluation of the instruction's own variant on the memory. `Instructions.DispatchIsPerVariant` states that no other variant is reached |
| Instructions.MnemonicIdentifiesOpcode | bytecode/src/instructions/mod.rs:127-146 | assuming distinct per-variant mnemonics, two instructions share a mnemonic exactly when they share an opcode |
| Instructions.DispatchIsPerVariant | bytecode/src/instructions/mod.rs:128-168 | `mnemonic` and `evaluate` reach only the instruction's own variant: replacing another variant's implementation changes nothing, and replacing this one's is seen |
| Instructions.Display | bytecode/src/instructions/mod.rs:190-210 | no contract of its own: the mnemonic, one space, the operation's text, then `;`. `Instructions.ParseVariantOfDisplay` is its partner for every variant |
| Instructions.ParseVariantOfDisplay | bytecode/src/instructions/mod.rs:173-210 | for each of the sixteen variants, if the operation's parser reads back its own text form, then the mnemonic-and-space parser of that variant reads the text form of the instruction followed by any tail back into the same instruction. It stops just before the `;` |
| Instructions.ParseVariant | bytecode/src/instructions/mod.rs:179-180 | one parser alternative succeeds only on input that starts with its mnemonic and a space, and then yields that variant |
| Instructions.ParseAlternative | bytecode/src/instructions/mod.rs:176-181 | no contract of its own: the `alt` of `parse`, with `add` tried first and `sub` only when `add` fails |
| Instructions.Parse | bytecode/src/instructions/mod.rs:173-187 | The steps run in order: the sanitizer, the `add`/`sub` alternative, then `;`. A sanitizer error is returned as it is. If the sanitizer succeeds: an error of the alternative is returned; a remainder not starting with `;` fails with that remainder; otherwise the result is the text after the `;` with the parsed instruction. Every success is an `add` or a `sub` whose mnemonic and one space start the sanitized text. Its variant's parser gives `;` followed by the returned remainder. A `sub` is returned only when `add` failed |
| Instructions.ParseDisplayRoundTrip | bytecode/src/instructions/mod.rs:173-210 | for `add` and `sub`, parsing the text form followed by any tail gives the instruction back and leaves exactly the tail. This assumes the operand parser inverts the operand text, mnemonics are distinct and space-free, and the sanitizer leaves such text alone |
| Instructions.ParseRejectsOtherVariants | bytecode/src/instructions/mod.rs:177-181 | the text form of any variant other than `add`/`sub` never parses back to that instruction |
| Instructions.WriteLe | bytecode/src/instructions/mod.rs:239-260 | the encoding is the opcode as a two-byte little-endian tag, followed by exactly the encoding of that variant's operation |
| Instructions.ReadLe | bytecode/src/instructions/mod.rs:214-236 | a failure to read the tag itself (fewer than 2 bytes) is the unchanged end-of-input error; a tag of 16 or more fails with the message naming the code; a decoded instruction's opcode is the tag read |
| Instructions.ReadWriteRoundTrip | bytecode/src/instructions/mod.rs:214-260 | assuming per-variant operand round-trip, decoding an encoded instruction gives it back and leaves the following bytes unread |
| GroupMul.DoubleAndAdd | circuits/types/group/src/mul.rs:171-183 | no contract of its own: the double-then-ternary fold over the bits. `GroupMul.DoubleAndAddIsMultiple` states its value |
| GroupMul.DoubleAndAddIsMultiple | circuits/types/group/src/mul.rs:171-183 | the double-and-add loop's output is base × the big-endian value of the bits |
| GroupMul.Group.MulAssignBits | circuits/types/group/src/mul.rs:171-183 | the loop with its invariant: the new value of the element is the loop function of the old one, that is, old value × big-endian value of the bits |
| GroupMul.Group.MulAssign | circuits/types/group/src/mul.rs:87-97 | `*= scalar` (both forms) multiplies by the scalar, through its big-endian bits, and agrees with `*` |
| GroupMul.BeValueOfToBitsBe | circuits/types/group/src/mul.rs:95 | the big-endian bits of a scalar have the scalar's value |
| GroupMul.MulBits | circuits/types/group/src/mul.rs:99-131 | `Group * bits`, with bits as array or slice, owned or borrowed, is base × big-endian value; an empty slice gives zero |
| GroupMul.BitsMulGroup | circuits/types/group/src/mul.rs:133-163 | `bits * Group` in every form equals the same product |
| GroupMul.MulScalar | circuits/types/group/src/mul.rs:21-53 | `Group * Scalar` in all four owned/borrowed forms is base × scalar |
| GroupMul.ScalarMulGroup | circuits/types/group/src/mul.rs:55-85 | `Scalar * Group` in all four forms is base × scalar |
| GroupMul.MulByZero | circuits/types/group/src/mul.rs:276-289 | a zero scalar or a zero base gives the group zero in `mul` and `mul_assign` forms |
| GroupMul.BitLengthBounds | circuits/types/group/src/mul.rs:193 | a non-zero scalar with k significant bits lies in [2^(k-1), 2^k) |
| GroupMul.MulCount | circuits/types/group/src/mul.rs:189-212 | The count depends on which operands are constant. Constant × constant: (7·(k−1), 0, 0, 0) for a scalar with k ≥ 1 significant bits. Constant base only: (750, 0, 2500, 2500). Constant scalar only: (3·(k−1), 0, 11·(k−1), 11·(k−1)). Neither: (750, 0, 3252, 3252). A zero scalar gives no count in the two constant-scalar cases |
| GroupMul.MulOutputType | circuits/types/group/src/mul.rs:214-219 | the output is constant exactly when both operands are, holding their product; otherwise it is private |
| BooleanToBits.CircuitTypeOf | circuits/types/boolean/src/helpers/to_bits_le.rs:48 | `CircuitType::from` of a boolean is constant exactly for a constant boolean, and then carries that boolean. It is public exactly for a public boolean, and private otherwise |
| BooleanToBits.ToBitsLeRef | circuits/types/boolean/src/helpers/to_bits_le.rs:28-35 | the borrowed form returns exactly one element, equal to the boolean |
| BooleanToBits.ToBitsLe | circuits/types/boolean/src/helpers/to_bits_le.rs:19-26 | the owned form returns exactly one element, equal to the boolean |
| BooleanToBits.OwnedAndBorrowedAgree | circuits/types/boolean/src/helpers/to_bits_le.rs:19-35 | owned and borrowed forms give the same one-element vector, whose bit keeps the value and mode |
| BooleanToBits.ToBitsCount | circuits/types/boolean/src/helpers/to_bits_le.rs:41-43 | the count is (0, 0, 0, 0) for every case |
| BooleanToBits.CircuitTypesOf | circuits/types/boolean/src/helpers/to_bits_le.rs:48 | the circuit types of a list of bits, one per bit, in order |
| BooleanToBits.ToBitsOutputType | circuits/types/boolean/src/helpers/to_bits_le.rs:45-53 | public maps to `[Public]`, private to `[Private]` |
| BooleanToBits.OutputTypeMatchesResult | circuits/types/boolean/src/helpers/to_bits_le.rs:45-53 | for every boolean, the output-type rule gives the circuit types of the bits `to_bits_le` actually returns |
| BlockBytes.CoinbaseBytes | synthesizer/src/block/bytes.rs:70-77 | the coinbase part starts with tag 1 for a solution and 0 for none |
| BlockBytes.WriteLe | synthesizer/src/block/bytes.rs:60-81 | the encoding starts with version byte 0 |
| BlockBytes.ReadCoinbase | synthesizer/src/block/bytes.rs:35-40 | tag 0 reads as no coinbase and consumes nothing more; tag 1 reads one solution; any other tag fails with "Invalid coinbase variant" |
| BlockBytes.ReadLe | synthesizer/src/block/bytes.rs:20-54 | empty input is an end-of-input error; a first byte other than 0 fails with "Invalid block version"; a decoded block's stored hash is the recomputed one |
| BlockBytes.MismatchingHashRejected | synthesizer/src/block/bytes.rs:49-53 | fields that decode but whose recomputed hash differs from the stored one fail with "Mismatching block hash" |
| BlockBytes.CoinbaseRoundTrip | synthesizer/src/block/bytes.rs:35-40 | the coinbase tag and solution written for an optional coinbase read back as that coinbase |
| BlockBytes.ReadFields | synthesizer/src/block/bytes.rs:28-43 | no contract of its own: the field reads after the version byte, in order. `BlockBytes.ReadFieldsOfWritten` is its partner |
| BlockBytes.ReadFieldsOfWritten | synthesizer/src/block/bytes.rs:28-43 | given self-delimiting field codecs, fields are read in the order they are written |
| BlockBytes.ReadWriteRoundTrip | synthesizer/src/block/bytes.rs:20-81 | given self-delimiting field codecs, a block whose hash matches its fields decodes from its encoding to itself, leaving the following bytes |
| EncryptedRecords.New | dpc/src/record/encrypted.rs:46-51 | `new` stores the ciphertext unchanged |
| EncryptedRecords.RecordPlaintext | dpc/src/record/encrypted.rs:66-87 | no contract of its own: the serialized fields in the order `encrypt` appends them. `EncryptedRecords.ParseFieldsOfPlaintext` is its partner |
| EncryptedRecords.Encrypt | dpc/src/record/encrypted.rs:56-102 | The plaintext is program id, value (u64 little-endian), payload, serial number nonce and commitment randomness, concatenated in that order. A plaintext over 65535 bytes stops the encryption with the error `RecordTooLarge`, where the source panics. Otherwise the result is the ciphertext of that plaintext under the owner's key and fresh randomness, returned with the randomness; collaborator errors propagate |
| EncryptedRecords.ParseFields | dpc/src/record/encrypted.rs:109-124 | no contract of its own: the field reads of `decrypt` from a cursor, in order. `EncryptedRecords.ParseFieldsOfPlaintext` is its partner |
| EncryptedRecords.IsDummyAsWritten | dpc/src/record/encrypted.rs:129-132 | no contract of its own: the dummy test as written, including the comparison of the program id with its clone. `EncryptedRecords.IsDummyIgnoresProgramId` states what it amounts to |
| EncryptedRecords.IsDummyIgnoresProgramId | dpc/src/record/encrypted.rs:129-132 | the dummy test holds exactly when value is 0 and payload is the default; its program-id conjunct is always true |
| EncryptedRecords.Decrypt | dpc/src/record/encrypted.rs:105-143 | a decrypted record's dummy flag is "value is 0 and payload is the default" |
| EncryptedRecords.ParseFieldsOfPlaintext | dpc/src/record/encrypted.rs:109-124 | given self-delimiting field codecs, `decrypt` reads the fields in the order `encrypt` concatenates them, and gets them back |
| EncryptedRecords.DecryptEncrypted | dpc/src/record/encrypted.rs:66-143 | decrypting a ciphertext of a record's plaintext, with a view key that decrypts it and derives the owner, yields that record with the dummy flag recomputed |
| EncryptedRecords.WriteLe | dpc/src/record/encrypted.rs:159-165 | the encoding is the ciphertext length cast to u16 (the length modulo 65536) as two little-endian bytes, then exactly the ciphertext |
| EncryptedRecords.Decode | dpc/src/record/encrypted.rs:167-178 | decoding succeeds exactly when the input holds a u16 length n and then at least n bytes. The ciphertext is those n bytes and the rest follows. Otherwise it is an end-of-input error |
| EncryptedRecords.ReadLe | dpc/src/record/encrypted.rs:169-177 | the byte-by-byte loop computes exactly the decoding: a u16 length n, then n bytes in order |
| EncryptedRecords.ReadWriteRoundTrip | dpc/src/record/encrypted.rs:159-178 | a ciphertext of at most 65535 bytes decodes from its encoding to itself, leaving the following bytes |
| EncryptedRecords.LongCiphertextTruncated | dpc/src/record/encrypted.rs:162 | a ciphertext longer than 65535 bytes decodes as its first (length mod 65536) bytes, so it does not round-trip |
| EncryptedRecords.CheckedWriteLe | dpc/src/record/encrypted.rs:161-164 | the length-checked encoding succeeds exactly for ciphertexts of at most 65535 bytes, and what it writes always decodes to the record |
| Fees.From | synthesizer/src/block/transaction/fee/mod.rs:38-41 | `from` stores the transition, the state root and the inclusion proof unchanged |
| Fees.Amount | synthesizer/src/block/transaction/fee/mod.rs:49-55 | The amount exists exactly when there are at least two inputs and input 1 is a public `u64` literal; it is then that literal's value. Otherwise the fee error |
| Fees.IsZero | synthesizer/src/block/transaction/fee/mod.rs:44-46 | `is_zero` succeeds exactly when `amount` does, is true iff the amount is 0, and otherwise carries `amount`'s error |
| Fees.TransitionId | synthesizer/src/block/transaction/fee/mod.rs:58-60 | no contract of its own: the id of the stored transition. `Fees.AccessorsReturnStoredFields` states it |
| Fees.TransitionOf | synthesizer/src/block/transaction/fee/mod.rs:63-65 | no contract of its own: the stored transition. `Fees.AccessorsReturnStoredFields` states it |
| Fees.IntoTransition | synthesizer/src/block/transaction/fee/mod.rs:68-70 | no contract of its own: the stored transition, by value. `Fees.AccessorsReturnStoredFields` states it |
| Fees.GlobalStateRoot | synthesizer/src/block/transaction/fee/mod.rs:73-75 | no contract of its own: the stored global state root. `Fees.AccessorsReturnStoredFields` states it |
| Fees.InclusionProof | synthesizer/src/block/transaction/fee/mod.rs:78-80 | no contract of its own: the stored optional inclusion proof. `Fees.AccessorsReturnStoredFields` states it |
| Fees.Deref | synthesizer/src/block/transaction/fee/mod.rs:83-89 | no contract of its own: `Deref` to the stored transition. `Fees.AccessorsReturnStoredFields` states it |
| Fees.AccessorsReturnStoredFields | synthesizer/src/block/transaction/fee/mod.rs:57-89 | the transition id, `transition`, `into_transition`, `deref`, the state root and the inclusion proof are what `from` stored |
| Fees.AmountOfFeeTransition | synthesizer/src/block/transaction/fee/mod.rs:51-52 | a second input `Public(_, Some(u64 m))` gives amount m and `is_zero` = (m = 0), whatever the other inputs are |
| Process.Authorization.constructor | synthesizer/src/process/stack/authorize.rs:62 | a new authorization holds exactly the given requests |
| Process.Authorization.PeekNext | synthesizer/src/process/stack/evaluate.rs:99 | `peek_next` gives the front request exactly when the queue is non-empty, else the empty-authorization error |
| Process.Authorization.Next | synthesizer/src/process/stack/evaluate.rs:98 | `next` returns what `peek_next` would, and removes exactly that request; an empty queue is left unchanged |
| Process.Authorization.Push | synthesizer/src/process/stack/authorize.rs:70 | appending puts the request at the back and keeps the rest |
| Process.Authorization.Replicate | synthesizer/src/process/stack/evaluate.rs:99 | a replica is a new, unshared queue with the same requests |
| Process.ReplicateCallStack | synthesizer/src/process/stack/evaluate.rs:99 | a replicated call stack keeps its mode and contents, with a new authorization holding the same requests |
| Process.GetFunction | synthesizer/src/process/stack/evaluate.rs:116 | lookup succeeds exactly for a defined function name, else fails naming it |
| Process.GetRegisterTypes | synthesizer/src/process/stack/evaluate.rs:39 | lookup succeeds exactly for a name with register types, else fails naming it |
| Process.StoreValue | synthesizer/src/process/stack/evaluate.rs:49 | A store succeeds exactly for an unset register with a declared type that the value matches. It then sets only that register. Each failure has its own error: an already set register, a register with no declared type, a value of the wrong type |
| Process.LoadValue | synthesizer/src/process/stack/evaluate.rs:71 | a register load succeeds exactly for a set register, giving its value; otherwise it fails naming the register |
| Process.CallerOf | synthesizer/src/process/stack/evaluate.rs:77 | the caller is available exactly when it has been set |
| Process.InputRegisters | synthesizer/src/process/stack/evaluate.rs:47 | the input registers, one per input statement, in declaration order |
| Process.OutputOperands | synthesizer/src/process/stack/evaluate.rs:177 | the output operands, one per output statement, in declaration order |
| Process.OutputTypes | synthesizer/src/process/stack/evaluate.rs:224 | the output types, one per output statement, in declaration order |
| Process.Registers.constructor | synthesizer/src/process/stack/evaluate.rs:39 | new registers hold the call stack and register types, and no value, caller or view key |
| Process.Registers.SetCaller | synthesizer/src/process/stack/evaluate.rs:40 | sets the caller and nothing else |
| Process.Registers.SetTvk | synthesizer/src/process/stack/evaluate.rs:43 | sets the transition view key and nothing else |
| Process.Registers.Store | synthesizer/src/process/stack/evaluate.rs:49 | the register file afterwards is the pure store's result, or unchanged on failure, whose error is returned |
| Process.Registers.Evaluate | synthesizer/src/process/stack/evaluate.rs:56 | one instruction changes the register file as its evaluation says, or leaves it unchanged and returns the cause |
| StackEvaluate.StoreInputs | synthesizer/src/process/stack/evaluate.rs:47-50 | no contract of its own: the pairwise stores of the inputs, in declaration order. The lemmas `StackEvaluate.StoreInputsFrame`, `StoreInputsFresh`, `StoredInputsAreHeld`, `StoreInputsSplit` and `FirstFailingStoreAborts` state its properties |
| StackEvaluate.StoreInputsFrame | synthesizer/src/process/stack/evaluate.rs:47-50 | after all input stores succeed, the register file gained exactly the declared registers. The caller, the transition view key and every previously set register are unchanged |
| StackEvaluate.StoreInputsFresh | synthesizer/src/process/stack/evaluate.rs:47-50 | after all input stores succeed, every declared register was unset before and now holds the input at the same position |
| StackEvaluate.StoredInputsAreHeld | synthesizer/src/process/stack/evaluate.rs:47-50 | after all input stores succeed, each declared register holds its own input (pairwise, in order). The registers were distinct and unset before, and nothing else changed |
| StackEvaluate.StoreInputsSplit | synthesizer/src/process/stack/evaluate.rs:155-158 | storing the first k inputs and then the rest is the same as storing all, in order |
| StackEvaluate.FirstFailingStoreAborts | synthesizer/src/process/stack/evaluate.rs:47-50 | the first failing store decides the error, and later inputs are never stored |
| StackEvaluate.RunInstructions | synthesizer/src/process/stack/evaluate.rs:54-59 | no contract of its own: the instructions run in program order, and the first failure is wrapped with the instruction. `StackEvaluate.RunInstructionsSplit` and `FirstFailingInstructionAborts` state its properties |
| StackEvaluate.RunInstructionsSplit | synthesizer/src/process/stack/evaluate.rs:165-170 | running the first k instructions and then the rest is running all, in program order |
| StackEvaluate.FirstFailingInstructionAborts | synthesizer/src/process/stack/evaluate.rs:54-59 | when instruction k fails after the first k succeeded, the call fails with an error naming instruction k and its cause, whatever instructions follow |
| StackEvaluate.ResolveOutput | synthesizer/src/process/stack/evaluate.rs:66-78 | A literal resolves to itself. A register resolves to its value, and fails exactly when it is unset. A program id resolves to its address, and fails when the address cannot be derived. The caller resolves to the caller's address, and fails when no caller is set |
| StackEvaluate.ResolveOutputs | synthesizer/src/process/stack/evaluate.rs:63-80 | Collecting succeeds exactly when every operand resolves; the result then has one value per operand, in declared order. Otherwise the error is that of the first operand that fails |
| StackEvaluate.OutputRegisters | synthesizer/src/process/stack/evaluate.rs:207-213 | one entry per output: `Some(r)` exactly when the operand is register r, `None` otherwise |
| StackEvaluate.StoreAll | synthesizer/src/process/stack/evaluate.rs:155-158 | the store loop fails exactly when the pure pairwise store fails, with its error, and otherwise leaves its result in the registers |
| StackEvaluate.RunAll | synthesizer/src/process/stack/evaluate.rs:165-170 | the instruction loop fails exactly when the pure run fails, naming the failing instruction, and otherwise leaves its result in the registers |
| StackEvaluate.ClosureOutputs | synthesizer/src/process/stack/evaluate.rs:23-85 | no contract of its own: the specification of `evaluate_closure`. `StackEvaluate.ClosureArityChecked` and `ClosureOutputsInOrder` state its properties |
| StackEvaluate.EvaluateClosure | synthesizer/src/process/stack/evaluate.rs:23-85 | The closure evaluation returns exactly the specified outputs. The order is: arity check; register file with caller and view key; stores; instructions; outputs in order |
| StackEvaluate.ClosureArityChecked | synthesizer/src/process/stack/evaluate.rs:34-36 | a closure given the wrong number of inputs fails with the expected and found counts, before any register exists |
| StackEvaluate.ClosureOutputsInOrder | synthesizer/src/process/stack/evaluate.rs:63-84 | a successful closure returns one value per declared output, literal outputs being their literals |
| StackEvaluate.FunctionResponse | synthesizer/src/process/stack/evaluate.rs:107-226 | no contract of its own: the specification of the evaluation of a request. `StackEvaluate.NetworkCheckedFirst`, `FunctionArityChecked` and `InvalidRequestRefusedBeforeStores` state its properties |
| StackEvaluate.EvaluateRequest | synthesizer/src/process/stack/evaluate.rs:107-226 | The evaluation of a request returns exactly the specified response. The order is: network check; function lookup; arity check; register file; verification; stores; instructions; outputs; output registers; `Response::new` |
| StackEvaluate.EvaluateFunction | synthesizer/src/process/stack/evaluate.rs:92-101 | `Evaluate` consumes the front request and evaluates it. `Execute` peeks at it, leaves the authorization untouched and evaluates on a replicated stack. An empty queue fails. Any other mode fails as an illegal operation |
| StackEvaluate.NetworkCheckedFirst | synthesizer/src/process/stack/evaluate.rs:108-116 | a request for another network fails with both ids before the function is looked up, whatever functions the program has |
| StackEvaluate.InvalidRequestRefusedBeforeStores | synthesizer/src/process/stack/evaluate.rs:147-158 | a request that fails verification is refused as invalid, whatever the stores and instructions would do |
| StackEvaluate.FunctionArityChecked | synthesizer/src/process/stack/evaluate.rs:122-130 | a function whose input count differs from the request's fails, naming the function, the program and both counts |
| StackAuthorize.SignedRequest | synthesizer/src/process/stack/authorize.rs:31-54 | no contract of its own: the guards of `authorize` in order, then `Request::sign`. `StackAuthorize.SignedOnlyAfterGuards` and the three refusal lemmas state its properties |
| StackAuthorize.SignedOnlyAfterGuards | synthesizer/src/process/stack/authorize.rs:31-54 | A request is produced only after every guard passed: the program has functions; the name converts and is defined; the function's input and input-type counts agree. It is the request signed for that function with its input types |
| StackAuthorize.NoFunctionsRefused | synthesizer/src/process/stack/authorize.rs:32 | a program with no functions fails whatever the signer does, so before any signing |
| StackAuthorize.UnknownFunctionRefused | synthesizer/src/process/stack/authorize.rs:35-37 | an unconvertible function name fails as invalid; an undefined one fails as not found |
| StackAuthorize.InputTypeCountChecked | synthesizer/src/process/stack/authorize.rs:41-48 | a function whose inputs and input types differ in number fails, naming the function, the program and both counts |
| StackAuthorize.ExecuteFunction | synthesizer/src/process/stack/authorize.rs:70 | executing under an `Authorize` call stack appends the nested requests, in call order, to the authorization that call stack holds |
| StackAuthorize.Authorize | synthesizer/src/process/stack/authorize.rs:20-78 | Guard and signing failures are returned as they are. On success the result is a fresh authorization that went into the `Authorize` call stack with pending list `[request]`; it holds the signed request first, then every request the nested calls appended. A failing execution returns its error |

## Left out

- Cryptography is not modelled. Its pieces are parameters with no properties beyond those stated as lemma assumptions:
  - account encryption, decryption and randomness generation;
  - `Address::from_view_key`;
  - the record CRH behind `to_hash` (dpc/src/record/encrypted.rs:147-149);
  - the block hash computed by `Block::from`;
  - `Request::sign` and `Request::verify`;
  - `ProgramID::to_address`;
  - `Response::new`.
- `Record::from` at the end of `decrypt` computes the record commitment, which can fail. That step is not modelled: `Decrypt` returns the fields it parsed.
- `Default for EncryptedRecord` is left out: it draws from the thread's random generator and unwraps.
- Instrumentation has no effect on results and is left out: `timer!`, `lap!`, `finish!` and every `web_sys::console` call.
- The Blake2s commitment gadget is not part of this model.
- Curve and field arithmetic are not modelled. The group is the integers under addition, which maps onto any cyclic subgroup. A scalar is a number below 2^251, and its big-endian bits have that width.
- GroupMul.MulCount: for a constant zero scalar, `bits - 1` underflows in the source. The count is `None` there instead of a value.
- The per-variant operand codecs, text forms, parsers, mnemonics and evaluation of the bytecode instructions live in files that are not part of this model. They are parameters, with round-trip and distinctness assumed where a lemma needs them.
- EncryptedRecords.Encrypt: the `assert!` panic on a plaintext over 65535 bytes is modelled as the error `RecordTooLarge`.
- Instructions.Parse: nom's distinction between a recoverable error and a failure is not modelled. When neither alternative matches, the error of the `sub` alternative is returned. The whitespace-and-comment sanitizer is a parameter.
- The files defining `Registers`, `Authorization`, `CallStack`, `Request`, `Function` and the stack are not part of this model, so their shapes are assumed:
  - Registers are plain locators; member access is not modelled.
  - A store is single-assignment and type-checked against the declared register type; the type check is a parameter.
  - `replicate` copies the authorization's requests into a new queue.
  - A function's input types are a field of its own, so the check in `Stack::authorize` can fail.
- Process.Registers: the call stack held by the register file is never read by the modelled instructions.
- `execute_function` is a parameter of `Stack::authorize`, given by its outcome and the requests it appends; requests appended before a failure are not modelled. The `TryInto` conversions of the inputs are not modelled: inputs arrive as values.
- Error messages of the evaluator and of `Stack::authorize` are structured error values carrying the same data, not formatted text. The decoding errors of the byte formats keep their exact messages.
- Writer I/O errors in the encoders are not modelled: encoding is total.
- The span carried by a plaintext literal is not modelled.

## Findings

| source | as written | input that shows it | evidently intended | confidence | as-written member | corrected member |
|---|---|---|---|---|---|---|
| dpc/src/record/encrypted.rs:162 | the length prefix is `self.ciphertext.len() as u16`, which keeps the length modulo 65536 | `EncryptedRecord::new(vec![0; 65536])` writes the prefix [0, 0] and then 65536 zero bytes. Reading that back gives the empty ciphertext and leaves 65536 bytes unread (lemma EncryptedRecords.LongCiphertextTruncated) | a ciphertext longer than 65535 bytes is refused, so that reading always inverts writing | medium, not executed | EncryptedRecords.WriteLe | EncryptedRecords.CheckedWriteLe |
