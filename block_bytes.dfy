/**
 * The binary form of a block: a version byte, the block hash, the previous hash,
 * the header, the transactions, an optional coinbase solution behind a one-byte
 * tag, and the signature. On decoding, the block hash is recomputed from the other
 * fields and must equal the stored one.
 *
 * The field types and their codecs, and the hash computation of `Block::from`,
 * are collaborators outside this model; they are parameters here.
 */
module BlockBytes {
  import opened Wrappers
  import opened Bytes

  datatype Block<Hash, Header, Txs, Solution, Sig> = Block(
    blockHash: Hash,
    previousHash: Hash,
    header: Header,
    transactions: Txs,
    coinbase: Option<Solution>,
    signature: Sig)

  /**
   * The codecs of the block's fields, and `Block::from`'s computation of the block
   * hash from the other fields (which fails with a message).
   */
  datatype BlockFormat<!Hash, !Header, !Txs, !Solution, !Sig> = BlockFormat(
    hash: Codec<Hash>,
    header: Codec<Header>,
    transactions: Codec<Txs>,
    solution: Codec<Solution>,
    signature: Codec<Sig>,
    computeHash: (Hash, Header, Txs, Option<Solution>, Sig) -> Result<Hash, string>)

  const InvalidVersion := Other("Invalid block version")
  const InvalidCoinbaseVariant := Other("Invalid coinbase variant")
  const MismatchingHash := Other("Mismatching block hash, possible data corruption")

  /** The block hash `Block::from` computes for the block's other fields. */
  function ComputedHash<Hash, Header, Txs, Solution, Sig>(
    format: BlockFormat<Hash, Header, Txs, Solution, Sig>, b: Block<Hash, Header, Txs, Solution, Sig>): Result<Hash, string>
  {
    format.computeHash(b.previousHash, b.header, b.transactions, b.coinbase, b.signature)
  }

  /** A block whose stored hash is the one computed from its other fields. */
  predicate HashMatches<Hash(==), Header, Txs, Solution, Sig>(
    format: BlockFormat<Hash, Header, Txs, Solution, Sig>, b: Block<Hash, Header, Txs, Solution, Sig>)
  {
    ComputedHash(format, b) == Ok(b.blockHash)
  }

  /** The coinbase part of the encoding: tag 0, or tag 1 followed by the solution. */
  function CoinbaseBytes<Hash, Header, Txs, Solution, Sig>(
    format: BlockFormat<Hash, Header, Txs, Solution, Sig>, coinbase: Option<Solution>): (r: seq<byte>)
    ensures |r| >= 1 && r[0] == (if coinbase.Some? then 1 else 0)
  {
    match coinbase
    case None => [0]
    case Some(solution) => [1] + format.solution.write(solution)
  }

  /** `ToBytes for Block`: version 0, then the fields in their fixed order. */
  function WriteLe<Hash, Header, Txs, Solution, Sig>(
    format: BlockFormat<Hash, Header, Txs, Solution, Sig>, b: Block<Hash, Header, Txs, Solution, Sig>): (r: seq<byte>)
    ensures |r| >= 1 && r[0] == 0
  {
    [0]
      + format.hash.write(b.blockHash)
      + format.hash.write(b.previousHash)
      + format.header.write(b.header)
      + format.transactions.write(b.transactions)
      + CoinbaseBytes(format, b.coinbase)
      + format.signature.write(b.signature)
  }

  /** The coinbase after its tag has been read: 0 is none, 1 a solution, anything else an error. */
  function ReadCoinbase<Hash, Header, Txs, Solution, Sig>(
    format: BlockFormat<Hash, Header, Txs, Solution, Sig>, variant: byte, s: seq<byte>)
    : (r: Result<(Option<Solution>, seq<byte>), IoError>)
    ensures variant == 0 ==> r == Ok((None, s))
    ensures variant == 1 ==> (r.Ok? <==> format.solution.read(s).Ok?)
    ensures variant == 1 && r.Ok? ==> r.value == (Some(format.solution.read(s).value.0), format.solution.read(s).value.1)
    ensures variant > 1 ==> r == Err(InvalidCoinbaseVariant)
  {
    match variant
    case 0 => Ok((None, s))
    case 1 =>
      var (solution, rest) :- format.solution.read(s);
      Ok((Some(solution), rest))
    case _ => Err(InvalidCoinbaseVariant)
  }

  /**
   * The fields as they are read, in order, after the version byte: the block
   * carries the stored hash, not yet checked.
   */
  function ReadFields<Hash, Header, Txs, Solution, Sig>(
    format: BlockFormat<Hash, Header, Txs, Solution, Sig>, s: seq<byte>)
    : Result<(Block<Hash, Header, Txs, Solution, Sig>, seq<byte>), IoError>
  {
    var (blockHash, s1) :- format.hash.read(s);
    var (previousHash, s2) :- format.hash.read(s1);
    var (header, s3) :- format.header.read(s2);
    var (transactions, s4) :- format.transactions.read(s3);
    var (variant, s5) :- ReadU8(s4);
    var (coinbase, s6) :- ReadCoinbase(format, variant, s5);
    var (signature, s7) :- format.signature.read(s6);
    Ok((Block(blockHash, previousHash, header, transactions, coinbase, signature), s7))
  }

  /** `FromBytes for Block`: check the version, read the fields, rebuild the block and compare hashes. */
  function ReadLe<Hash(==), Header, Txs, Solution, Sig>(
    format: BlockFormat<Hash, Header, Txs, Solution, Sig>, s: seq<byte>)
    : (r: Result<(Block<Hash, Header, Txs, Solution, Sig>, seq<byte>), IoError>)
    ensures s == [] ==> r == Err(UnexpectedEof)
    ensures s != [] && s[0] != 0 ==> r == Err(InvalidVersion)
    ensures r.Ok? ==> HashMatches(format, r.value.0)
  {
    var (version, s1) :- ReadU8(s);
    if version != 0 then Err(InvalidVersion)
    else
      var (stored, rest) :- ReadFields(format, s1);
      match ComputedHash(format, stored)
      case Err(message) => Err(Other(message))
      case Ok(computed) =>
        var block := stored.(blockHash := computed);
        if stored.blockHash == block.blockHash then Ok((block, rest)) else Err(MismatchingHash)
  }

  /** Fields that decode but whose recomputed hash differs from the stored one are rejected. */
  lemma MismatchingHashRejected<Hash, Header, Txs, Solution, Sig>(
    format: BlockFormat<Hash, Header, Txs, Solution, Sig>, s: seq<byte>)
    requires s != [] && s[0] == 0
    requires ReadFields(format, s[1..]).Ok?
    requires var stored := ReadFields(format, s[1..]).value.0;
      ComputedHash(format, stored).Ok? && ComputedHash(format, stored).value != stored.blockHash
    ensures ReadLe(format, s) == Err(MismatchingHash)
  {
  }

  /** The tag written for a coinbase reads back as that coinbase. */
  lemma CoinbaseRoundTrip<Hash, Header, Txs, Solution(!new), Sig>(
    format: BlockFormat<Hash, Header, Txs, Solution, Sig>, coinbase: Option<Solution>, rest: seq<byte>)
    requires SelfDelimiting(format.solution)
    ensures ReadU8(CoinbaseBytes(format, coinbase) + rest).Ok?
    ensures var (variant, s) := ReadU8(CoinbaseBytes(format, coinbase) + rest).value;
      ReadCoinbase(format, variant, s) == Ok((coinbase, rest))
  {
    match coinbase
    case None =>
      assert ([0] + rest)[1..] == rest;
    case Some(solution) =>
      assert ([1] + format.solution.write(solution) + rest)[1..] == format.solution.write(solution) + rest;
  }

  /** All field codecs of the format are self-delimiting. */
  ghost predicate CodecsSelfDelimiting<Hash(!new), Header(!new), Txs(!new), Solution(!new), Sig(!new)>(
    format: BlockFormat<Hash, Header, Txs, Solution, Sig>)
  {
    && SelfDelimiting(format.hash)
    && SelfDelimiting(format.header)
    && SelfDelimiting(format.transactions)
    && SelfDelimiting(format.solution)
    && SelfDelimiting(format.signature)
  }

  /** Reading the fields back reads them in the order they are written. */
  lemma {:induction false} ReadFieldsOfWritten<Hash(!new), Header(!new), Txs(!new), Solution(!new), Sig(!new)>(
    format: BlockFormat<Hash, Header, Txs, Solution, Sig>, b: Block<Hash, Header, Txs, Solution, Sig>, rest: seq<byte>)
    requires CodecsSelfDelimiting(format)
    ensures ReadFields(format, WriteLe(format, b)[1..] + rest) == Ok((b, rest))
  {
    var w1 := format.hash.write(b.blockHash);
    var w2 := format.hash.write(b.previousHash);
    var w3 := format.header.write(b.header);
    var w4 := format.transactions.write(b.transactions);
    var w5 := CoinbaseBytes(format, b.coinbase);
    var w6 := format.signature.write(b.signature);
    assert WriteLe(format, b)[1..] == w1 + w2 + w3 + w4 + w5 + w6;
    var s := w1 + w2 + w3 + w4 + w5 + w6 + rest;
    assert s == w1 + (w2 + w3 + w4 + w5 + w6 + rest);
    assert format.hash.read(s) == Ok((b.blockHash, w2 + w3 + w4 + w5 + w6 + rest));
    assert w2 + w3 + w4 + w5 + w6 + rest == w2 + (w3 + w4 + w5 + w6 + rest);
    assert w3 + w4 + w5 + w6 + rest == w3 + (w4 + w5 + w6 + rest);
    assert w4 + w5 + w6 + rest == w4 + (w5 + w6 + rest);
    assert w5 + w6 + rest == w5 + (w6 + rest);
    CoinbaseRoundTrip(format, b.coinbase, w6 + rest);
  }

  /** A block whose stored hash is right survives encoding and decoding unchanged. */
  lemma ReadWriteRoundTrip<Hash(!new), Header(!new), Txs(!new), Solution(!new), Sig(!new)>(
    format: BlockFormat<Hash, Header, Txs, Solution, Sig>, b: Block<Hash, Header, Txs, Solution, Sig>, rest: seq<byte>)
    requires CodecsSelfDelimiting(format)
    requires HashMatches(format, b)
    ensures ReadLe(format, WriteLe(format, b) + rest) == Ok((b, rest))
  {
    var s := WriteLe(format, b) + rest;
    assert s[1..] == WriteLe(format, b)[1..] + rest;
    ReadFieldsOfWritten(format, b, rest);
  }
}
