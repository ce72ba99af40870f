/**
 * An encrypted record: the ciphertext of a record's serialized fields, and its
 * length-prefixed binary form.
 *
 * The encryption scheme (randomness generation, encryption, decryption, deriving
 * an address from a view key) and the codecs of the record's field types are
 * collaborators outside this model; they are parameters here. Keys, addresses and
 * randomness are byte strings.
 */
module EncryptedRecords {
  import opened Wrappers
  import opened Bytes

  type Address = seq<byte>
  type ViewKey = seq<byte>

  datatype EncryptedRecord = EncryptedRecord(ciphertext: seq<byte>)

  /** The errors of record encryption and decryption. */
  datatype DpcError =
    | Io(cause: IoError)
    | Crypto(message: string)
    /** The `assert!` on the plaintext length; a panic in the source. */
    | RecordTooLarge

  /** A decrypted record: its fields in serialization order, plus the owner and the dummy flag. */
  datatype Record<ProgramId, Payload, Nonce, Rand> = Record(
    programId: ProgramId,
    owner: Address,
    isDummy: bool,
    value: u64,
    payload: Payload,
    serialNumberNonce: Nonce,
    commitmentRandomness: Rand)

  /** The codecs of the record's field types, and `Payload::default()`. */
  datatype RecordFormat<!ProgramId, !Payload, !Nonce, !Rand> = RecordFormat(
    programId: Codec<ProgramId>,
    payload: Codec<Payload>,
    serialNumberNonce: Codec<Nonce>,
    commitmentRandomness: Codec<Rand>,
    defaultPayload: Payload)

  /**
   * The account encryption scheme. The owner's address serves as its encryption
   * key; `rng` stands for the random source.
   */
  datatype EncryptionScheme = EncryptionScheme(
    generateRandomness: (Address, nat) -> Result<seq<byte>, DpcError>,
    encrypt: (Address, seq<byte>, seq<byte>) -> Result<seq<byte>, DpcError>,
    decrypt: (ViewKey, seq<byte>) -> Result<seq<byte>, DpcError>,
    addressFromViewKey: ViewKey -> Result<Address, DpcError>)

  /** `EncryptedRecord::new`. */
  function New(ciphertext: seq<byte>): (r: EncryptedRecord)
    ensures r.ciphertext == ciphertext
  {
    EncryptedRecord(ciphertext)
  }

  /** The bytes `encrypt` serializes: program id, value, payload, serial number nonce, commitment randomness. */
  function RecordPlaintext<ProgramId, Payload, Nonce, Rand>(
    format: RecordFormat<ProgramId, Payload, Nonce, Rand>, record: Record<ProgramId, Payload, Nonce, Rand>): seq<byte>
  {
    format.programId.write(record.programId)
      + U64Le(record.value)
      + format.payload.write(record.payload)
      + format.serialNumberNonce.write(record.serialNumberNonce)
      + format.commitmentRandomness.write(record.commitmentRandomness)
  }

  /**
   * `EncryptedRecord::encrypt`: serialize the fields one after another, insist on
   * at most 65535 bytes, then encrypt to the owner. Returns the encrypted record
   * and the encryption randomness.
   */
  method Encrypt<ProgramId, Payload, Nonce, Rand>(
    format: RecordFormat<ProgramId, Payload, Nonce, Rand>, scheme: EncryptionScheme,
    record: Record<ProgramId, Payload, Nonce, Rand>, rng: nat)
    returns (r: Result<(EncryptedRecord, seq<byte>), DpcError>)
    ensures var plaintext := RecordPlaintext(format, record);
      if |plaintext| > 0xFFFF then r == Err(RecordTooLarge)
      else match scheme.generateRandomness(record.owner, rng)
        case Err(e) => r == Err(e)
        case Ok(randomness) =>
          match scheme.encrypt(record.owner, randomness, plaintext)
          case Err(e) => r == Err(e)
          case Ok(ciphertext) => r == Ok((New(ciphertext), randomness))
  {
    var bytes: seq<byte> := [];
    bytes := bytes + format.programId.write(record.programId);
    bytes := bytes + U64Le(record.value);
    bytes := bytes + format.payload.write(record.payload);
    bytes := bytes + format.serialNumberNonce.write(record.serialNumberNonce);
    bytes := bytes + format.commitmentRandomness.write(record.commitmentRandomness);
    assert bytes == RecordPlaintext(format, record);
    if |bytes| > 0xFFFF {
      return Err(RecordTooLarge);
    }
    var randomness :- scheme.generateRandomness(record.owner, rng);
    var ciphertext :- scheme.encrypt(record.owner, randomness, bytes);
    return Ok((New(ciphertext), randomness));
  }

  /** The fields `decrypt` reads from the plaintext, in order. */
  datatype Fields<ProgramId, Payload, Nonce, Rand> = Fields(
    programId: ProgramId, value: u64, payload: Payload, serialNumberNonce: Nonce, commitmentRandomness: Rand)

  /** The field reads of `decrypt`, one after another from a cursor; bytes after the last field are ignored. */
  function ParseFields<ProgramId, Payload, Nonce, Rand>(
    format: RecordFormat<ProgramId, Payload, Nonce, Rand>, plaintext: seq<byte>)
    : Result<Fields<ProgramId, Payload, Nonce, Rand>, IoError>
  {
    var (programId, s1) :- format.programId.read(plaintext);
    var (value, s2) :- ReadU64(s1);
    var (payload, s3) :- format.payload.read(s2);
    var (nonce, s4) :- format.serialNumberNonce.read(s3);
    var (randomness, _) :- format.commitmentRandomness.read(s4);
    Ok(Fields(programId, value, payload, nonce, randomness))
  }

  /**
   * The dummy test as the source writes it: the program id is compared with a
   * clone of itself, so that conjunct always holds.
   */
  predicate IsDummyAsWritten<ProgramId(==), Payload(==), Nonce, Rand>(
    format: RecordFormat<ProgramId, Payload, Nonce, Rand>, value: u64, payload: Payload, programId: ProgramId)
  {
    var dummyProgram := programId;
    value == 0 && payload == format.defaultPayload && programId == dummyProgram
  }

  /** The program-id conjunct of the dummy test never matters: only value and payload decide. */
  lemma IsDummyIgnoresProgramId<ProgramId, Payload, Nonce, Rand>(
    format: RecordFormat<ProgramId, Payload, Nonce, Rand>, value: u64, payload: Payload, programId: ProgramId, other: ProgramId)
    ensures IsDummyAsWritten(format, value, payload, programId) <==> value == 0 && payload == format.defaultPayload
    ensures IsDummyAsWritten(format, value, payload, programId) == IsDummyAsWritten(format, value, payload, other)
  {
  }

  /** `EncryptedRecord::decrypt`: decrypt, read the fields in order, derive the owner, compute the dummy flag. */
  function Decrypt<ProgramId(==), Payload(==), Nonce, Rand>(
    format: RecordFormat<ProgramId, Payload, Nonce, Rand>, scheme: EncryptionScheme,
    viewKey: ViewKey, encrypted: EncryptedRecord)
    : (r: Result<Record<ProgramId, Payload, Nonce, Rand>, DpcError>)
    ensures r.Ok? ==> r.value.isDummy == (r.value.value == 0 && r.value.payload == format.defaultPayload)
  {
    var plaintext :- scheme.decrypt(viewKey, encrypted.ciphertext);
    match ParseFields(format, plaintext)
    case Err(e) => Err(Io(e))
    case Ok(fields) =>
      var owner :- scheme.addressFromViewKey(viewKey);
      var isDummy := IsDummyAsWritten(format, fields.value, fields.payload, fields.programId);
      Ok(Record(fields.programId, owner, isDummy, fields.value, fields.payload,
                fields.serialNumberNonce, fields.commitmentRandomness))
  }

  ghost predicate CodecsSelfDelimiting<ProgramId(!new), Payload(!new), Nonce(!new), Rand(!new)>(
    format: RecordFormat<ProgramId, Payload, Nonce, Rand>)
  {
    && SelfDelimiting(format.programId)
    && SelfDelimiting(format.payload)
    && SelfDelimiting(format.serialNumberNonce)
    && SelfDelimiting(format.commitmentRandomness)
  }

  /** `decrypt` reads the fields in the order `encrypt` writes them. */
  lemma {:induction false} ParseFieldsOfPlaintext<ProgramId(!new), Payload(!new), Nonce(!new), Rand(!new)>(
    format: RecordFormat<ProgramId, Payload, Nonce, Rand>, record: Record<ProgramId, Payload, Nonce, Rand>, rest: seq<byte>)
    requires CodecsSelfDelimiting(format)
    ensures ParseFields(format, RecordPlaintext(format, record) + rest)
            == Ok(Fields(record.programId, record.value, record.payload,
                         record.serialNumberNonce, record.commitmentRandomness))
  {
    var w1 := format.programId.write(record.programId);
    var w2 := U64Le(record.value);
    var w3 := format.payload.write(record.payload);
    var w4 := format.serialNumberNonce.write(record.serialNumberNonce);
    var w5 := format.commitmentRandomness.write(record.commitmentRandomness);
    assert RecordPlaintext(format, record) + rest == w1 + (w2 + (w3 + (w4 + (w5 + rest))));
    U64RoundTrip(record.value, w3 + (w4 + (w5 + rest)));
  }

  /**
   * Decrypting a ciphertext of a record's plaintext with a view key of its owner
   * gives back the record, with the dummy flag recomputed.
   */
  lemma DecryptEncrypted<ProgramId(!new), Payload(!new), Nonce(!new), Rand(!new)>(
    format: RecordFormat<ProgramId, Payload, Nonce, Rand>, scheme: EncryptionScheme,
    viewKey: ViewKey, record: Record<ProgramId, Payload, Nonce, Rand>, ciphertext: seq<byte>)
    requires CodecsSelfDelimiting(format)
    requires scheme.decrypt(viewKey, ciphertext) == Ok(RecordPlaintext(format, record))
    requires scheme.addressFromViewKey(viewKey) == Ok(record.owner)
    ensures Decrypt(format, scheme, viewKey, New(ciphertext))
            == Ok(record.(isDummy := record.value == 0 && record.payload == format.defaultPayload))
  {
    ParseFieldsOfPlaintext(format, record, []);
    assert RecordPlaintext(format, record) + [] == RecordPlaintext(format, record);
  }

  /** `ToBytes for EncryptedRecord`: the length cast to `u16` (keeping it modulo 65536), then the bytes. */
  function WriteLe(record: EncryptedRecord): (r: seq<byte>)
    ensures |r| == 2 + |record.ciphertext|
    ensures LeValue(r[..2]) == |record.ciphertext| % 0x1_0000 && r[2..] == record.ciphertext
  {
    var length: u16 := |record.ciphertext| % 0x1_0000;
    assert (U16Le(length) + record.ciphertext)[..2] == U16Le(length);
    U16Le(length) + record.ciphertext
  }

  /** What `FromBytes for EncryptedRecord` computes: a `u16` length n, then exactly n bytes. */
  function Decode(s: seq<byte>): (r: Result<(EncryptedRecord, seq<byte>), IoError>)
    ensures r.Ok? <==> |s| >= 2 && 2 + LeValue(s[..2]) <= |s|
    ensures r.Ok? ==> r.value.0.ciphertext == s[2..2 + LeValue(s[..2])] && r.value.1 == s[2 + LeValue(s[..2])..]
    ensures r.Err? ==> r.error == UnexpectedEof
  {
    match ReadU16(s)
    case Err(e) => Err(e)
    case Ok((length, rest)) =>
      assert s == U16Le(length) + rest;
      assert s[..2] == U16Le(length) && rest == s[2..];
      if |rest| < length then Err(UnexpectedEof)
      else Ok((New(rest[..length]), rest[length..]))
  }

  /** `FromBytes for EncryptedRecord`: the loop that pushes one byte at a time. */
  method ReadLe(s: seq<byte>) returns (r: Result<(EncryptedRecord, seq<byte>), IoError>)
    ensures r == Decode(s)
  {
    var header :- ReadU16(s);
    var length, rest := header.0, header.1;
    assert s == U16Le(length) + rest;
    assert s[..2] == U16Le(length) && rest == s[2..];
    var ciphertext: seq<byte> := [];
    var cursor := rest;
    for i := 0 to length
      invariant i <= |rest|
      invariant ciphertext == rest[..i] && cursor == rest[i..]
    {
      var step :- ReadU8(cursor);
      ciphertext := ciphertext + [step.0];
      cursor := step.1;
    }
    return Ok((New(ciphertext), cursor));
  }

  /** A ciphertext of at most 65535 bytes encodes and decodes to itself. */
  lemma ReadWriteRoundTrip(record: EncryptedRecord, rest: seq<byte>)
    requires |record.ciphertext| <= 0xFFFF
    ensures Decode(WriteLe(record) + rest) == Ok((record, rest))
  {
    var s := WriteLe(record) + rest;
    assert s[..2] == WriteLe(record)[..2];
    assert s[2..2 + |record.ciphertext|] == record.ciphertext;
    assert s[2 + |record.ciphertext|..] == rest;
  }

  /**
   * A longer ciphertext does not survive: its length is written modulo 65536, so
   * decoding stops early. For instance 65536 bytes decode as the empty ciphertext.
   */
  lemma LongCiphertextTruncated(record: EncryptedRecord, rest: seq<byte>)
    requires |record.ciphertext| > 0xFFFF
    ensures var n := |record.ciphertext| % 0x1_0000;
      Decode(WriteLe(record) + rest) == Ok((New(record.ciphertext[..n]), record.ciphertext[n..] + rest))
    ensures Decode(WriteLe(record) + rest) != Ok((record, rest))
  {
    var s := WriteLe(record) + rest;
    var n := |record.ciphertext| % 0x1_0000;
    assert s[..2] == WriteLe(record)[..2];
    assert s[2..2 + n] == record.ciphertext[..n];
    assert s[2 + n..] == record.ciphertext[n..] + rest;
    assert |record.ciphertext[..n]| < |record.ciphertext|;
  }

  /** The length-checked encoding: refuse a ciphertext whose length does not fit in a `u16`. */
  function CheckedWriteLe(record: EncryptedRecord): (r: Result<seq<byte>, IoError>)
    ensures r.Ok? <==> |record.ciphertext| <= 0xFFFF
    ensures r.Ok? ==> forall rest :: Decode(r.value + rest) == Ok((record, rest))
  {
    if |record.ciphertext| > 0xFFFF then Err(Other("ciphertext longer than 65535 bytes"))
    else
      assert forall rest :: Decode(WriteLe(record) + rest) == Ok((record, rest)) by {
        forall rest ensures Decode(WriteLe(record) + rest) == Ok((record, rest)) {
          ReadWriteRoundTrip(record, rest);
        }
      }
      Ok(WriteLe(record))
  }
}
