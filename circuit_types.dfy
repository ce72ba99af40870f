/** The bookkeeping types the circuit gadgets share: modes, circuit types and constraint counts. */
module Circuits {

  /** How a circuit variable is allocated. */
  datatype Mode = Constant | Public | Private

  /**
   * `CircuitType<T>`: the kind of a circuit value as the metadata rules see it; a
   * constant carries the circuit value itself.
   */
  datatype CircuitType<T> = Constant(circuit: T) | Public | Private

  /** `Count::is(constants, public, private, constraints)`. */
  datatype Count = Count(constants: nat, publics: nat, privates: nat, constraints: nat)
}
