/**
 * Little-endian byte encodings of fixed-width unsigned integers, the I/O error
 * of the Rust readers, and the notion of a self-delimiting field codec.
 */
module Bytes {
  import opened Wrappers

  type byte = b: int | 0 <= b < 0x100
  type u16 = n: int | 0 <= n < 0x1_0000
  type u64 = n: int | 0 <= n < 0x1_0000_0000_0000_0000

  /** The error a reader returns: the stream ended early, or a message for bad data. */
  datatype IoError = UnexpectedEof | Other(message: string)

  function Pow256(k: nat): (r: nat)
    ensures r >= 1
  {
    if k == 0 then 1 else 0x100 * Pow256(k - 1)
  }

  /** The `k` least significant base-256 digits of `n`, lowest first. */
  function LeBytes(n: nat, k: nat): (r: seq<byte>)
    ensures |r| == k
  {
    if k == 0 then [] else [n % 0x100] + LeBytes(n / 0x100, k - 1)
  }

  /** The number whose base-256 digits, lowest first, are `s`. */
  function LeValue(s: seq<byte>): nat
  {
    if s == [] then 0 else s[0] + 0x100 * LeValue(s[1..])
  }

  /** Encoding then decoding recovers any number that fits in `k` bytes. */
  lemma {:induction false} LeValueOfLeBytes(n: nat, k: nat)
    requires n < Pow256(k)
    ensures LeValue(LeBytes(n, k)) == n
  {
    if k > 0 {
      assert n / 0x100 < Pow256(k - 1);
      LeValueOfLeBytes(n / 0x100, k - 1);
      assert LeBytes(n, k)[1..] == LeBytes(n / 0x100, k - 1);
    }
  }

  /** A little-endian value of `k` bytes is below 256^k. */
  lemma {:induction false} LeValueBound(s: seq<byte>)
    ensures LeValue(s) < Pow256(|s|)
  {
    if s != [] {
      LeValueBound(s[1..]);
    }
  }

  /** `u16::write_le`: two bytes, least significant first. */
  function U16Le(n: u16): (r: seq<byte>)
    ensures |r| == 2 && LeValue(r) == n
  {
    LeValueOfLeBytes(n, 2);
    LeBytes(n, 2)
  }

  /** `u64::write_le`: eight bytes, least significant first. */
  function U64Le(n: u64): (r: seq<byte>)
    ensures |r| == 8 && LeValue(r) == n
  {
    LeValueOfLeBytes(n, 8);
    LeBytes(n, 8)
  }

  /** `u8::read_le`: one byte, or `UnexpectedEof` on an empty stream. */
  function ReadU8(s: seq<byte>): (r: Result<(byte, seq<byte>), IoError>)
    ensures r.Ok? <==> |s| >= 1
    ensures r.Ok? ==> [r.value.0] + r.value.1 == s
  {
    if |s| < 1 then Err(UnexpectedEof) else Ok((s[0], s[1..]))
  }

  /** `u16::read_le`: two bytes, least significant first, or `UnexpectedEof`. */
  function ReadU16(s: seq<byte>): (r: Result<(u16, seq<byte>), IoError>)
    ensures r.Ok? <==> |s| >= 2
    ensures r.Ok? ==> U16Le(r.value.0) + r.value.1 == s
  {
    if |s| < 2 then Err(UnexpectedEof)
    else
      LeValueBound(s[..2]);
      var n: u16 := LeValue(s[..2]);
      assert U16Le(n) == s[..2] by { LeBytesOfLeValue(s[..2]); }
      assert s == s[..2] + s[2..];
      Ok((n, s[2..]))
  }

  /** `u64::read_le`: eight bytes, least significant first, or `UnexpectedEof`. */
  function ReadU64(s: seq<byte>): (r: Result<(u64, seq<byte>), IoError>)
    ensures r.Ok? <==> |s| >= 8
    ensures r.Ok? ==> U64Le(r.value.0) + r.value.1 == s
  {
    if |s| < 8 then Err(UnexpectedEof)
    else
      LeValueBound(s[..8]);
      var n: u64 := LeValue(s[..8]);
      assert U64Le(n) == s[..8] by { LeBytesOfLeValue(s[..8]); }
      assert s == s[..8] + s[8..];
      Ok((n, s[8..]))
  }

  /** Decoding then encoding reproduces the bytes. */
  lemma {:induction false} LeBytesOfLeValue(s: seq<byte>)
    ensures LeBytes(LeValue(s), |s|) == s
  {
    if s != [] {
      DigitSplit(s[0], LeValue(s[1..]));
      LeBytesOfLeValue(s[1..]);
    }
  }

  lemma DigitSplit(d: byte, v: nat)
    ensures (d + 0x100 * v) % 0x100 == d && (d + 0x100 * v) / 0x100 == v
  {
  }

  lemma U16RoundTrip(n: u16, rest: seq<byte>)
    ensures ReadU16(U16Le(n) + rest) == Ok((n, rest))
  {
    var s := U16Le(n) + rest;
    assert s[..2] == U16Le(n);
  }

  lemma U64RoundTrip(n: u64, rest: seq<byte>)
    ensures ReadU64(U64Le(n) + rest) == Ok((n, rest))
  {
    var s := U64Le(n) + rest;
    assert s[..8] == U64Le(n);
  }

  /**
   * A field's `ToBytes`/`FromBytes` pair. Both are collaborators whose code is not
   * part of this model; `SelfDelimiting` is the property the model assumes of them.
   */
  datatype Codec<!T> = Codec(write: T -> seq<byte>, read: seq<byte> -> Result<(T, seq<byte>), IoError>)

  /** Reading what was written returns the value and leaves whatever follows untouched. */
  ghost predicate SelfDelimiting<T(!new)>(c: Codec<T>)
  {
    forall x: T, rest: seq<byte> {:trigger c.read(c.write(x) + rest)} :: c.read(c.write(x) + rest) == Ok((x, rest))
  }
}
