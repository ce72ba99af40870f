/**
 * The fee of a transaction: the fee transition, the global state root it was
 * proved against and an optional inclusion proof. The amount is read from the
 * transition's second input.
 */
module Fees {
  import opened Wrappers
  import opened Bytes
  import opened Values

  /** A transition input as the fee inspects it. */
  datatype TransitionInput =
    | ConstantInput(id: Field, plaintext: Option<Plaintext>)
    | PublicInput(id: Field, plaintext: Option<Plaintext>)
    | PrivateInput(id: Field, ciphertext: Option<seq<byte>>)
    | RecordInput(serialNumber: Field, tag: Field)
    | ExternalRecordInput(id: Field)

  datatype Transition = Transition(id: Field, programId: string, functionName: string, inputs: seq<TransitionInput>)

  datatype Fee<StateRoot, Proof> = Fee(transition: Transition, globalStateRoot: StateRoot, inclusionProof: Option<Proof>)

  datatype FeeError = FeeAmountMissing

  /** `Fee::from`. */
  function From<StateRoot, Proof>(transition: Transition, globalStateRoot: StateRoot, inclusionProof: Option<Proof>)
    : (r: Fee<StateRoot, Proof>)
    ensures r.transition == transition && r.globalStateRoot == globalStateRoot && r.inclusionProof == inclusionProof
  {
    Fee(transition, globalStateRoot, inclusionProof)
  }

  /** The shape `amount` accepts: a public input holding a `u64` literal. */
  predicate CarriesMicrocredits(input: TransitionInput)
  {
    input.PublicInput? && input.plaintext.Some? && input.plaintext.value.Literal?
    && input.plaintext.value.literal.U64?
  }

  /** `Fee::amount`: the microcredits of the second transition input. */
  function Amount<StateRoot, Proof>(fee: Fee<StateRoot, Proof>): (r: Result<u64, FeeError>)
    ensures r.Ok? <==> |fee.transition.inputs| >= 2 && CarriesMicrocredits(fee.transition.inputs[1])
    ensures r.Ok? ==> fee.transition.inputs[1] == PublicInput(fee.transition.inputs[1].id, Some(Literal(U64(r.value))))
    ensures r.Err? ==> r.error == FeeAmountMissing
  {
    if |fee.transition.inputs| < 2 then Err(FeeAmountMissing)
    else match fee.transition.inputs[1]
      case PublicInput(_, Some(Literal(U64(microcredits)))) => Ok(microcredits)
      case _ => Err(FeeAmountMissing)
  }

  /** `Fee::is_zero`. */
  function IsZero<StateRoot, Proof>(fee: Fee<StateRoot, Proof>): (r: Result<bool, FeeError>)
    ensures r.Ok? <==> Amount(fee).Ok?
    ensures r.Ok? ==> (r.value <==> Amount(fee).value == 0)
    ensures r.Err? ==> r.error == Amount(fee).error
  {
    match Amount(fee)
    case Ok(amount) => Ok(amount == 0)
    case Err(e) => Err(e)
  }

  function TransitionId<StateRoot, Proof>(fee: Fee<StateRoot, Proof>): Field { fee.transition.id }
  function TransitionOf<StateRoot, Proof>(fee: Fee<StateRoot, Proof>): Transition { fee.transition }
  function IntoTransition<StateRoot, Proof>(fee: Fee<StateRoot, Proof>): Transition { fee.transition }
  function GlobalStateRoot<StateRoot, Proof>(fee: Fee<StateRoot, Proof>): StateRoot { fee.globalStateRoot }
  function InclusionProof<StateRoot, Proof>(fee: Fee<StateRoot, Proof>): Option<Proof> { fee.inclusionProof }
  /** `Deref for Fee`: the transition. */
  function Deref<StateRoot, Proof>(fee: Fee<StateRoot, Proof>): Transition { fee.transition }

  /** Every accessor returns what `from` stored. */
  lemma AccessorsReturnStoredFields<StateRoot, Proof>(transition: Transition, root: StateRoot, proof: Option<Proof>)
    ensures var fee := From(transition, root, proof);
      && TransitionId(fee) == transition.id
      && TransitionOf(fee) == transition && IntoTransition(fee) == transition && Deref(fee) == transition
      && GlobalStateRoot(fee) == root && InclusionProof(fee) == proof
  {
  }

  /** A fee transition whose second input is the public `u64` m has amount m, whatever its other inputs are. */
  lemma AmountOfFeeTransition<StateRoot, Proof>(fee: Fee<StateRoot, Proof>, id: Field, m: u64)
    requires |fee.transition.inputs| >= 2 && fee.transition.inputs[1] == PublicInput(id, Some(Literal(U64(m))))
    ensures Amount(fee) == Ok(m)
    ensures IsZero(fee) == Ok(m == 0)
  {
  }
}
