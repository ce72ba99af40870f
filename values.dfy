/**
 * Program values as the evaluator and the fee see them: literals, plaintexts,
 * values and their declared types. Only the shapes the modelled code inspects are
 * distinguished; field and group elements are integers standing for their values.
 */
module Values {
  import opened Bytes

  /** An account or program address, standing for the group element it encodes. */
  type Address = int
  /** A base-field element. */
  type Field = int

  datatype Literal =
    | Address(address: Address)
    | Boolean(boolean: bool)
    | Field(field: Field)
    | Group(group: int)
    | Scalar(scalar: nat)
    | U8(u8: byte)
    | U16(u16: u16)
    | U64(u64: u64)
    | StringLiteral(text: string)

  datatype Plaintext =
    | Literal(literal: Literal)
    | Struct(members: seq<(string, Plaintext)>)

  datatype Value =
    | Plaintext(plaintext: Plaintext)
    | Record(owner: Address, entries: seq<(string, Plaintext)>)

  datatype PlaintextType =
    | LiteralType(literalName: string)
    | StructType(structName: string)

  /** The declared type of an input, output or register. */
  datatype ValueType =
    | Constant(constant: PlaintextType)
    | Public(public: PlaintextType)
    | Private(private: PlaintextType)
    | RecordType(recordName: string)
    | ExternalRecord(locator: string)
}
