/** `ToBitsLE` for a circuit boolean: a boolean is its own single little-endian bit. */
module BooleanToBits {
  import opened Circuits

  /** A circuit boolean: how it is allocated and the value it carries. */
  datatype Boolean = Boolean(mode: Mode, value: bool)

  /** `CircuitType::from(&Boolean)`: a constant carries itself; otherwise its mode. */
  function CircuitTypeOf(b: Boolean): (t: CircuitType<Boolean>)
    ensures t.Constant? <==> b.mode == Mode.Constant
    ensures t.Constant? ==> t.circuit == b
    ensures t.Public? <==> b.mode == Mode.Public
  {
    match b.mode
    case Constant => CircuitType.Constant(b)
    case Public => CircuitType.Public
    case Private => CircuitType.Private
  }

  /** `ToBitsLE for &Boolean`: a vector holding a copy of the boolean. */
  function ToBitsLeRef(b: Boolean): (bits: seq<Boolean>)
    ensures |bits| == 1 && bits[0] == b
  {
    [b]
  }

  /** `ToBitsLE for Boolean`: delegates to the borrowed form. */
  function ToBitsLe(b: Boolean): (bits: seq<Boolean>)
    ensures |bits| == 1 && bits[0] == b
  {
    ToBitsLeRef(b)
  }

  /** The owned and borrowed forms agree, and the single bit carries the boolean's value and mode. */
  lemma OwnedAndBorrowedAgree(b: Boolean)
    ensures ToBitsLe(b) == ToBitsLeRef(b) == [b]
    ensures ToBitsLe(b)[0].value == b.value && ToBitsLe(b)[0].mode == b.mode
  {
  }

  /** `Metadata::count`: converting a boolean to bits allocates nothing and adds no constraint. */
  function ToBitsCount(t: CircuitType<Boolean>): (c: Count)
    ensures c.constants == c.publics == c.privates == c.constraints == 0
  {
    Count(0, 0, 0, 0)
  }

  /** The circuit types of a list of circuit values, elementwise. */
  function CircuitTypesOf(bits: seq<Boolean>): (ts: seq<CircuitType<Boolean>>)
    ensures |ts| == |bits|
    ensures forall k :: 0 <= k < |bits| ==> ts[k] == CircuitTypeOf(bits[k])
  {
    if bits == [] then [] else [CircuitTypeOf(bits[0])] + CircuitTypesOf(bits[1..])
  }

  /**
   * `Metadata::output_type`: a constant maps to the circuit types of its own bits;
   * a public or private boolean to a single public or private bit.
   */
  function ToBitsOutputType(t: CircuitType<Boolean>): (r: seq<CircuitType<Boolean>>)
    ensures t.Public? ==> r == [CircuitType.Public]
    ensures t.Private? ==> r == [CircuitType.Private]
  {
    match t
    case Constant(constant) => CircuitTypesOf(ToBitsLe(constant))
    case Public => [CircuitType.Public]
    case Private => [CircuitType.Private]
  }

  /**
   * The output-type rule predicts the result: for every boolean, the circuit types
   * of the bits `to_bits_le` returns are what `output_type` gives for its case.
   */
  lemma OutputTypeMatchesResult(b: Boolean)
    ensures ToBitsOutputType(CircuitTypeOf(b)) == CircuitTypesOf(ToBitsLe(b))
  {
  }
}
