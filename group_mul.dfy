/**
 * Scalar multiplication of a group element by double-and-add, and the metadata
 * (constraint counts and output type) of `Group * Scalar`.
 *
 * The curve group is written additively and modelled as the integers under
 * addition: zero is 0, doubling is `x + x`, adding is `+`. The map `n |-> n * P`
 * sends this model onto the subgroup generated by any point `P`, so every
 * equation proved here holds of the curve points too. Curve and field arithmetic
 * themselves are not part of this model.
 */
module GroupMul {
  import opened Wrappers
  import opened Circuits

  /** `Group::zero()`. */
  function Zero(): int { 0 }

  /** `Group::double`. */
  function DoublePoint(x: int): int { x + x }

  /** `Group::ternary(condition, first, second)`: `first` when the bit is set, else `second`. */
  function Ternary(condition: bool, first: int, second: int): int
  {
    if condition then first else second
  }

  function Pow2(k: nat): (r: nat)
    ensures r >= 1
  {
    if k == 0 then 1 else 2 * Pow2(k - 1)
  }

  /** The number whose binary digits, most significant first, are `bits`. */
  function BeValue(bits: seq<bool>): nat
  {
    if bits == [] then 0
    else 2 * BeValue(bits[..|bits| - 1]) + (if bits[|bits| - 1] then 1 else 0)
  }

  /**
   * The value of `output` once the loop of `mul_assign(&[Boolean])` has consumed
   * `bits`: each step doubles, then adds the base when the bit is set.
   */
  function DoubleAndAdd(base: int, bits: seq<bool>): int
  {
    if bits == [] then Zero()
    else
      var output := DoublePoint(DoubleAndAdd(base, bits[..|bits| - 1]));
      Ternary(bits[|bits| - 1], base + output, output)
  }

  /** Double-and-add computes base times the big-endian value of the bits. */
  lemma {:induction false} DoubleAndAddIsMultiple(base: int, bits: seq<bool>)
    ensures DoubleAndAdd(base, bits) == base * BeValue(bits)
  {
    if bits != [] {
      var front := bits[..|bits| - 1];
      DoubleAndAddIsMultiple(base, front);
      var v := BeValue(front);
      calc {
        DoubleAndAdd(base, bits);
        Ternary(bits[|bits| - 1], base + 2 * (base * v), 2 * (base * v));
        { assert 2 * (base * v) == base * (2 * v); assert base + base * (2 * v) == base * (2 * v + 1); }
        base * (2 * v + (if bits[|bits| - 1] then 1 else 0));
      }
    }
  }

  /** The width in bits of a scalar's big-endian representation (the scalar field size). */
  const ScalarSizeInBits: nat := 251

  /** 2^251, written out. */
  const ScalarBound: nat := 0x800000000000000000000000000000000000000000000000000000000000000

  lemma {:induction false} Pow2Add(a: nat, b: nat)
    ensures Pow2(a + b) == Pow2(a) * Pow2(b)
  {
    if a > 0 {
      Pow2Add(a - 1, b);
      assert Pow2(a + b) == 2 * Pow2(a - 1 + b);
    }
  }

  /** Doubling the exponent squares the power. */
  lemma Pow2Double(k: nat, v: nat)
    requires Pow2(k) == v
    ensures Pow2(k + k) == v * v
  {
    Pow2Add(k, k);
  }

  lemma ScalarBoundIsPow2()
    ensures Pow2(ScalarSizeInBits) == ScalarBound
  {
    assert Pow2(1) == 2;
    Pow2Double(1, 2);
    Pow2Double(2, 4);
    Pow2Double(4, 16);
    Pow2Double(8, 0x100);
    Pow2Double(16, 0x1_0000);
    Pow2Double(32, 0x1_0000_0000);
    Pow2Double(64, 0x1_0000_0000_0000_0000);
    Pow2Add(128, 123);
    Pow2Add(64, 59);
    Pow2Add(32, 27);
    Pow2Add(16, 11);
    Pow2Add(8, 3);
    assert Pow2(3) == 8;
  }

  /** An element of the scalar field, by its canonical value. */
  type Scalar = n: nat | n < ScalarBound

  /** `Scalar::to_bits_be`: the `width` low bits of `n`, most significant first. */
  function ToBitsBe(n: nat, width: nat): (bits: seq<bool>)
    ensures |bits| == width
  {
    if width == 0 then [] else ToBitsBe(n / 2, width - 1) + [n % 2 == 1]
  }

  /** The big-endian bits of a number that fits in `width` bits have exactly that value. */
  lemma {:induction false} BeValueOfToBitsBe(n: nat, width: nat)
    requires n < Pow2(width)
    ensures BeValue(ToBitsBe(n, width)) == n
  {
    if width > 0 {
      var bits := ToBitsBe(n, width);
      assert bits[..|bits| - 1] == ToBitsBe(n / 2, width - 1);
      BeValueOfToBitsBe(n / 2, width - 1);
    }
  }

  /** `Group * &[Boolean]` (and `Group * [Boolean; N]`, which slices the array): run the loop on a copy. */
  function MulBits(base: int, bits: seq<bool>): (r: int)
    ensures r == base * BeValue(bits)
    ensures bits == [] ==> r == Zero()
  {
    DoubleAndAddIsMultiple(base, bits);
    DoubleAndAdd(base, bits)
  }

  /** `&[Boolean] * Group` and `[Boolean; N] * Group`: the operands swapped, the same loop. */
  function BitsMulGroup(bits: seq<bool>, base: int): (r: int)
    ensures r == base * BeValue(bits)
  {
    MulBits(base, bits)
  }

  /** `Group * Scalar` in all four owned/borrowed forms: the loop over the scalar's big-endian bits. */
  function MulScalar(base: int, scalar: Scalar): (r: int)
    ensures r == base * scalar
  {
    ScalarBoundIsPow2();
    BeValueOfToBitsBe(scalar, ScalarSizeInBits);
    MulBits(base, ToBitsBe(scalar, ScalarSizeInBits))
  }

  /** `Scalar * Group` in all four forms: `other * &self`. */
  function ScalarMulGroup(scalar: Scalar, base: int): (r: int)
    ensures r == base * scalar
  {
    MulScalar(base, scalar)
  }

  /** Zero scalar or zero base gives the group zero, in every operator form. */
  lemma MulByZero(base: int, scalar: Scalar)
    ensures MulScalar(base, 0) == ScalarMulGroup(0, base) == Zero()
    ensures MulScalar(Zero(), scalar) == ScalarMulGroup(scalar, Zero()) == Zero()
  {
  }

  /** A group element updated in place by `*=`. */
  class Group {
    var point: int

    constructor (point: int)
      ensures this.point == point
    {
      this.point := point;
    }

    /** `MulAssign<&[Boolean]>`: double-and-add over the bits, most significant first, then overwrite. */
    method MulAssignBits(bits: seq<bool>)
      modifies this
      ensures point == DoubleAndAdd(old(point), bits)
      ensures point == old(point) * BeValue(bits)
    {
      var base := point;
      var output := Zero();
      for i := 0 to |bits|
        invariant output == DoubleAndAdd(base, bits[..i])
      {
        assert bits[..i + 1][..i] == bits[..i];
        output := DoublePoint(output);
        output := Ternary(bits[i], base + output, output);
      }
      assert bits[..|bits|] == bits;
      point := output;
      DoubleAndAddIsMultiple(base, bits);
    }

    /** `MulAssign<&Scalar>` (and `MulAssign<Scalar>`): multiply by the scalar's big-endian bits. */
    method MulAssign(scalar: Scalar)
      modifies this
      ensures point == old(point) * scalar
      ensures point == MulScalar(old(point), scalar)
    {
      MulAssignBits(ToBitsBe(scalar, ScalarSizeInBits));
      ScalarBoundIsPow2();
      BeValueOfToBitsBe(scalar, ScalarSizeInBits);
    }
  }

  /** `BigUint::bits`: the number of significant bits of `n`. */
  function BitLength(n: nat): nat
  {
    if n == 0 then 0 else 1 + BitLength(n / 2)
  }

  /** A non-zero number with `k` significant bits lies in [2^(k-1), 2^k). */
  lemma {:induction false} BitLengthBounds(n: nat)
    requires n > 0
    ensures BitLength(n) >= 1
    ensures Pow2(BitLength(n) - 1) <= n < Pow2(BitLength(n))
  {
    if n > 1 {
      BitLengthBounds(n / 2);
    }
  }

  /**
   * `Metadata::count` of `Group * Scalar`. The two cases with a constant scalar
   * compute `bits - 1` in `u64`, which underflows (a panic) for the zero scalar;
   * that case is `None` here.
   */
  function MulCount(types: (CircuitType<int>, CircuitType<Scalar>)): (r: Option<Count>)
    ensures types.0.Constant? && types.1.Constant? ==>
      var k := BitLength(types.1.circuit);
      && (r.Some? <==> k >= 1)
      && (r.Some? ==> r.value == Count(7 * (k - 1), 0, 0, 0)
                      && Pow2(k - 1) <= types.1.circuit < Pow2(k))
    ensures types.0.Constant? && !types.1.Constant? ==> r == Some(Count(750, 0, 2500, 2500))
    ensures !types.0.Constant? && types.1.Constant? ==>
      var k := BitLength(types.1.circuit);
      && (r.Some? <==> k >= 1)
      && (r.Some? ==> r.value == Count(3 * (k - 1), 0, 11 * (k - 1), 11 * (k - 1))
                      && Pow2(k - 1) <= types.1.circuit < Pow2(k))
    ensures !types.0.Constant? && !types.1.Constant? ==> r == Some(Count(750, 0, 3252, 3252))
  {
    match types
    case (Constant(_), Constant(b)) =>
      if BitLength(b) == 0 then None
      else
        BitLengthBounds(b);
        var k := BitLength(b) - 1;
        Some(Count((3 + 4 + 0) * k, 0, 0, 0))
    case (Constant(_), _) => Some(Count(750, 0, 2500, 2500))
    case (_, Constant(b)) =>
      if BitLength(b) == 0 then None
      else
        BitLengthBounds(b);
        var k := BitLength(b) - 1;
        Some(Count((1 + 2 + 0) * k, 0, (5 + 6 + 0) * k, (5 + 6 + 0) * k))
    case (_, _) => Some(Count(750, 0, 3252, 3252))
  }

  /** `Metadata::output_type` of `Group * Scalar`: constant only for two constants, otherwise private. */
  function MulOutputType(types: (CircuitType<int>, CircuitType<Scalar>)): (r: CircuitType<int>)
    ensures r.Constant? <==> types.0.Constant? && types.1.Constant?
    ensures r.Constant? ==> r.circuit == types.0.circuit * types.1.circuit
    ensures !r.Constant? ==> r.Private?
  {
    match types
    case (Constant(a), Constant(b)) => CircuitType.Constant(MulScalar(a, b))
    case _ => CircuitType.Private
  }
}
