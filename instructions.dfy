/**
 * The instruction catalogue of the bytecode: a tagged union of sixteen variants,
 * their opcodes, and the binary and textual forms of an instruction.
 *
 * Every variant wraps an operation value whose own behaviour (its mnemonic, its
 * operand encoding, its text form, its parser and its evaluation) lives in a file
 * that is not part of this model. Those are supplied as the `Operation` record
 * below, and the properties the model relies on are stated as ghost predicates
 * over it.
 */
module Instructions {
  import opened Wrappers
  import opened Bytes

  /** The variants of `Instruction`, in declaration order. */
  datatype Variant =
    | Add | Div | Double | Equal | GreaterThan | GreaterThanOrEqual | Inv | LessThan
    | LessThanOrEqual | Mul | Neg | NotEqual | Pow | Square | Sub | Ternary

  /** The order in which the variants are declared. */
  const DeclarationOrder: seq<Variant> :=
    [Add, Div, Double, Equal, GreaterThan, GreaterThanOrEqual, Inv, LessThan,
     LessThanOrEqual, Mul, Neg, NotEqual, Pow, Square, Sub, Ternary]

  /** One instruction: which variant it is, and that variant's operation (operands and destination). */
  datatype Instruction<P> = Instruction(variant: Variant, operation: P)

  /** A parse failure, carrying the input the failing parser was given. */
  datatype ParseError = ParseError(input: string)

  /** A parser's outcome: the unconsumed input and the value, or an error. */
  type ParseResult<T> = Result<(string, T), ParseError>

  /**
   * What each variant's operation type provides: its static mnemonic, its text
   * form (the part printed after the mnemonic), its byte codec, its parser, and its
   * evaluation against a memory `M`; plus the whitespace-and-comment sanitizer.
   */
  datatype Operation<!P, !M> = Operation(
    mnemonic: Variant -> string,
    format: (Variant, P) -> string,
    write: (Variant, P) -> seq<byte>,
    read: (Variant, seq<byte>) -> Result<(P, seq<byte>), IoError>,
    parse: (Variant, string) -> ParseResult<P>,
    evaluate: (Variant, P, M) -> M,
    sanitize: string -> ParseResult<()>)

  /** `enum_index`: the position of the variant in declaration order. */
  function Index(v: Variant): (code: u16)
    ensures code < |DeclarationOrder| == 16 && DeclarationOrder[code] == v
  {
    match v
    case Add => 0
    case Div => 1
    case Double => 2
    case Equal => 3
    case GreaterThan => 4
    case GreaterThanOrEqual => 5
    case Inv => 6
    case LessThan => 7
    case LessThanOrEqual => 8
    case Mul => 9
    case Neg => 10
    case NotEqual => 11
    case Pow => 12
    case Square => 13
    case Sub => 14
    case Ternary => 15
  }

  /** `Instruction::opcode`. */
  function Opcode<P>(i: Instruction<P>): (code: u16)
    ensures code < 16 && DeclarationOrder[code] == i.variant
  {
    Index(i.variant)
  }

  /** Distinct variants have distinct opcodes. */
  lemma OpcodeInjective<P>(a: Instruction<P>, b: Instruction<P>)
    ensures Opcode(a) == Opcode(b) <==> a.variant == b.variant
  {
  }

  /** The table `FromBytes::read_le` uses to map a tag to a variant. */
  function VariantOfCode(code: u16): (r: Option<Variant>)
    ensures r.Some? <==> code < 16
    ensures r.Some? ==> Index(r.value) == code
  {
    match code
    case 0 => Some(Add)
    case 1 => Some(Div)
    case 2 => Some(Double)
    case 3 => Some(Equal)
    case 4 => Some(GreaterThan)
    case 5 => Some(GreaterThanOrEqual)
    case 6 => Some(Inv)
    case 7 => Some(LessThan)
    case 8 => Some(LessThanOrEqual)
    case 9 => Some(Mul)
    case 10 => Some(Neg)
    case 11 => Some(NotEqual)
    case 12 => Some(Pow)
    case 13 => Some(Square)
    case 14 => Some(Sub)
    case 15 => Some(Ternary)
    case _ => None
  }

  /** The decoding table is the inverse of the opcode. */
  lemma VariantOfCodeInvertsIndex(v: Variant)
    ensures VariantOfCode(Index(v)) == Some(v)
  {
  }

  /** `Instruction::mnemonic`: the mnemonic of the instruction's own variant. */
  function Mnemonic<P, M>(ops: Operation<P, M>, i: Instruction<P>): string
  {
    ops.mnemonic(i.variant)
  }

  ghost predicate DistinctMnemonics<P, M>(ops: Operation<P, M>)
  {
    forall v: Variant, w: Variant :: v != w ==> ops.mnemonic(v) != ops.mnemonic(w)
  }

  /** With distinct mnemonics, the mnemonic of an instruction identifies its opcode. */
  lemma MnemonicIdentifiesOpcode<P, M>(ops: Operation<P, M>, a: Instruction<P>, b: Instruction<P>)
    requires DistinctMnemonics(ops)
    ensures Mnemonic(ops, a) == Mnemonic(ops, b) <==> Opcode(a) == Opcode(b)
  {
  }

  /** `Instruction::evaluate`: runs the instruction's own variant's evaluation on the memory. */
  function Evaluate<P, M>(ops: Operation<P, M>, i: Instruction<P>, memory: M): M
  {
    ops.evaluate(i.variant, i.operation, memory)
  }

  /** The operation record with variant `w`'s mnemonic and evaluation replaced. */
  function Override<P, M>(ops: Operation<P, M>, w: Variant, mnemonic: string, evaluate: (P, M) -> M): Operation<P, M>
  {
    ops.(mnemonic := v => if v == w then mnemonic else ops.mnemonic(v),
         evaluate := (v, p, m) => if v == w then evaluate(p, m) else ops.evaluate(v, p, m))
  }

  /**
   * Dispatch reaches the instruction's own variant only: changing what another
   * variant does leaves the mnemonic and the evaluation of this one unchanged, and
   * changing this variant's implementation is seen.
   */
  lemma DispatchIsPerVariant<P, M>(ops: Operation<P, M>, i: Instruction<P>, memory: M,
                                   w: Variant, mnemonic: string, evaluate: (P, M) -> M)
    ensures var ops' := Override(ops, w, mnemonic, evaluate);
      if w == i.variant then
        Mnemonic(ops', i) == mnemonic && Evaluate(ops', i, memory) == evaluate(i.operation, memory)
      else
        Mnemonic(ops', i) == Mnemonic(ops, i) && Evaluate(ops', i, memory) == Evaluate(ops, i, memory)
  {
  }

  /** `Display for Instruction`: the mnemonic, a space, the operation, then `;`. */
  function Display<P, M>(ops: Operation<P, M>, i: Instruction<P>): string
  {
    ops.mnemonic(i.variant) + " " + ops.format(i.variant, i.operation) + ";"
  }

  /** `preceded(pair(tag(mnemonic), tag(" ")), parse)` for variant `v`. */
  function ParseVariant<P, M>(ops: Operation<P, M>, v: Variant, s: string): (r: ParseResult<Instruction<P>>)
    ensures r.Ok? ==> r.value.1.variant == v && ops.mnemonic(v) + " " <= s
  {
    var prefix := ops.mnemonic(v) + " ";
    if prefix <= s then
      match ops.parse(v, s[|prefix|..])
      case Ok((rest, p)) => Ok((rest, Instruction(v, p)))
      case Err(e) => Err(e)
    else
      Err(ParseError(s))
  }

  /**
   * The text form of any variant's instruction is read back by that variant's own
   * parser, which stops before the `;`, provided the operation's parser reads back
   * its own text form.
   */
  lemma ParseVariantOfDisplay<P, M>(ops: Operation<P, M>, i: Instruction<P>, tail: string)
    requires ops.parse(i.variant, ops.format(i.variant, i.operation) + ";" + tail)
             == Ok((";" + tail, i.operation))
    ensures ParseVariant(ops, i.variant, Display(ops, i) + tail) == Ok((";" + tail, i))
  {
    var prefix := ops.mnemonic(i.variant) + " ";
    var body := ops.format(i.variant, i.operation) + ";" + tail;
    assert Display(ops, i) + tail == prefix + body;
    assert (prefix + body)[|prefix|..] == body;
  }

  /** The alternative of `Instruction::parse`: `add` first, and `sub` only when `add` fails. */
  function ParseAlternative<P, M>(ops: Operation<P, M>, s: string): ParseResult<Instruction<P>>
  {
    match ParseVariant(ops, Add, s)
    case Ok(x) => Ok(x)
    case Err(_) => ParseVariant(ops, Sub, s)
  }

  /** `Instruction::parse`: skip whitespace and comments, try `add` then `sub`, then require `;`. */
  function Parse<P, M>(ops: Operation<P, M>, s: string): (r: ParseResult<Instruction<P>>)
    ensures ops.sanitize(s).Err? ==> r == Err(ops.sanitize(s).error)
    ensures ops.sanitize(s).Ok? ==>
      var alt := ParseAlternative(ops, ops.sanitize(s).value.0);
      && (alt.Err? ==> r == Err(alt.error))
      && (alt.Ok? && !(";" <= alt.value.0) ==> r == Err(ParseError(alt.value.0)))
      && (alt.Ok? && ";" <= alt.value.0 ==> r == Ok((alt.value.0[1..], alt.value.1)))
    ensures r.Ok? ==>
      && ops.sanitize(s).Ok?
      && var s1 := ops.sanitize(s).value.0;
      && (r.value.1.variant == Add || r.value.1.variant == Sub)
      && ops.mnemonic(r.value.1.variant) + " " <= s1
      && (r.value.1.variant == Sub ==> ParseVariant(ops, Add, s1).Err?)
      && ParseVariant(ops, r.value.1.variant, s1) == Ok((";" + r.value.0, r.value.1))
  {
    match ops.sanitize(s)
    case Err(e) => Err(e)
    case Ok((s1, _)) =>
      match ParseAlternative(ops, s1)
      case Err(e) => Err(e)
      case Ok((s2, instruction)) =>
        if |s2| >= 1 && s2[0] == ';' then
          assert ";" + s2[1..] == s2;
          Ok((s2[1..], instruction))
        else Err(ParseError(s2))
  }

  /** Mnemonics are non-empty, distinct, and contain no space. */
  ghost predicate WellFormedMnemonics<P, M>(ops: Operation<P, M>)
  {
    && DistinctMnemonics(ops)
    && forall v: Variant, k: nat :: k < |ops.mnemonic(v)| ==> ops.mnemonic(v)[k] != ' '
  }

  /** A mnemonic followed by a space is a prefix of another such string only for the same mnemonic. */
  lemma MnemonicTagsDisjoint(a: string, b: string, tail: string)
    requires a != b
    requires forall k: nat :: k < |a| ==> a[k] != ' '
    requires forall k: nat :: k < |b| ==> b[k] != ' '
    ensures !(a + " " <= b + " " + tail)
  {
    var x, y := a + " ", b + " " + tail;
    if |a| < |b| {
      assert x[|a|] != y[|a|];
    } else if |a| == |b| {
      var k :| 0 <= k < |a| && a[k] != b[k];
      assert x[k] != y[k];
    } else {
      assert x[|b|] != y[|b|];
    }
  }

  /**
   * Parsing the text form of an `add` or `sub` instruction gives that instruction
   * back, provided the sanitizer leaves text that starts with a mnemonic alone and
   * the operation's own parser reads back its own text form, stopping at `;`.
   */
  lemma ParseDisplayRoundTrip<P, M>(ops: Operation<P, M>, i: Instruction<P>, tail: string)
    requires i.variant == Add || i.variant == Sub
    requires WellFormedMnemonics(ops)
    requires ops.sanitize(Display(ops, i) + tail) == Ok((Display(ops, i) + tail, ()))
    requires ops.parse(i.variant, ops.format(i.variant, i.operation) + ";" + tail)
             == Ok((";" + tail, i.operation))
    ensures Parse(ops, Display(ops, i) + tail) == Ok((tail, i))
  {
    var s := Display(ops, i) + tail;
    var body := ops.format(i.variant, i.operation) + ";" + tail;
    assert s == ops.mnemonic(i.variant) + " " + body;
    if i.variant == Sub {
      MnemonicTagsDisjoint(ops.mnemonic(Add), ops.mnemonic(Sub), body);
    }
    ParseVariantOfDisplay(ops, i, tail);
    assert (";" + tail)[1..] == tail;
  }

  /** No variant other than `add` and `sub` is ever produced by the parser (an example: `mul`). */
  lemma ParseRejectsOtherVariants<P, M>(ops: Operation<P, M>, i: Instruction<P>, tail: string)
    requires i.variant != Add && i.variant != Sub
    ensures Parse(ops, Display(ops, i) + tail).Err? || Parse(ops, Display(ops, i) + tail).value.1 != i
  {
  }

  /** `ToBytes for Instruction`: the opcode as a little-endian `u16`, then the operation's bytes. */
  function WriteLe<P, M>(ops: Operation<P, M>, i: Instruction<P>): (r: seq<byte>)
    ensures |r| >= 2 && LeValue(r[..2]) == Opcode(i)
    ensures r[2..] == ops.write(i.variant, i.operation)
  {
    var tag := U16Le(Opcode(i));
    assert (tag + ops.write(i.variant, i.operation))[..2] == tag;
    tag + ops.write(i.variant, i.operation)
  }

  /** The decimal digits of `n`, as `format!` prints a number. */
  function DecimalString(n: nat): (s: string)
    ensures |s| >= 1
  {
    var digit := "0123456789"[n % 10];
    if n < 10 then [digit] else DecimalString(n / 10) + [digit]
  }

  /** The message of the error for an unknown opcode tag. */
  function UnknownCodeMessage(code: nat): string
  {
    "FromBytes failed to parse an instruction of code " + DecimalString(code)
  }

  /** `FromBytes for Instruction`: read the `u16` tag, pick the variant, read its operation. */
  function ReadLe<P, M>(ops: Operation<P, M>, s: seq<byte>): (r: Result<(Instruction<P>, seq<byte>), IoError>)
    ensures |s| < 2 ==> r == Err(UnexpectedEof)
    ensures |s| >= 2 && LeValue(s[..2]) >= 16 ==> r == Err(Other(UnknownCodeMessage(LeValue(s[..2]))))
    ensures r.Ok? ==> |s| >= 2 && Opcode(r.value.0) == LeValue(s[..2])
  {
    match ReadU16(s)
    case Err(e) => Err(e)
    case Ok((code, rest)) =>
      assert s[..2] == U16Le(code) by { assert s == U16Le(code) + rest; }
      match VariantOfCode(code)
      case None => Err(Other(UnknownCodeMessage(code)))
      case Some(v) =>
        match ops.read(v, rest)
        case Err(e) => Err(e)
        case Ok((p, rest')) => Ok((Instruction(v, p), rest'))
  }

  /** Every variant's operation codec reads back what it writes and stops there. */
  ghost predicate OperationCodecsRoundTrip<P(!new), M>(ops: Operation<P, M>)
  {
    forall v: Variant, p: P, rest: seq<byte> {:trigger ops.read(v, ops.write(v, p) + rest)} ::
      ops.read(v, ops.write(v, p) + rest) == Ok((p, rest))
  }

  /** Decoding an encoded instruction gives it back and leaves the following bytes unread. */
  lemma ReadWriteRoundTrip<P(!new), M>(ops: Operation<P, M>, i: Instruction<P>, rest: seq<byte>)
    requires OperationCodecsRoundTrip(ops)
    ensures ReadLe(ops, WriteLe(ops, i) + rest) == Ok((i, rest))
  {
    var payload := ops.write(i.variant, i.operation);
    assert WriteLe(ops, i) + rest == U16Le(Opcode(i)) + (payload + rest);
    U16RoundTrip(Opcode(i), payload + rest);
    VariantOfCodeInvertsIndex(i.variant);
  }
}
