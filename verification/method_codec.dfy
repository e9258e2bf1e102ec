/** RBCMethodV1 of rbclib/primitives/method.py: an opcode list as an integer and as 16 padded bytes. */
module MethodCodec {
  import opened Common
  import opened Positional
  import opened HexCodec

  const METHOD_SIZE := 16

  /** A method as its bytes: the number of bytes that follow, then the direction and the opcodes. NONE has none. */
  predicate WellFormed(code: seq<byte>) {
    1 <= |code| <= METHOD_SIZE && code[0] == |code| - 1
  }

  predicate HasOpcodes(code: seq<byte>) { WellFormed(code) && |code| > 1 }

  /** The arguments from which concat_as_int builds an enum member: an int, then one-byte Enum members. */
  function Args(code: seq<byte>): seq<Arg>
    requires code != []
  {
    [IntArg(code[0])] + OpcodeArgs(code[1..])
  }

  function OpcodeArgs(ops: seq<byte>): seq<Arg> {
    if ops == [] then [] else OpcodeArgs(ops[..|ops| - 1]) + [EnumArg(ops[|ops| - 1], 1)]
  }

  function ConcatAsInt(args: seq<Arg>): Result<int> {
    match ArgHexes(args)
    case Raised(e) => Raised(e)
    case Ok(hexes) => IntOfHex(ConcatHexes(hexes))
  }

  /** RBCMethodV1.formatted_hex on the integer of a member. */
  function FormattedHex(value: nat): Result<string> {
    if value == 0 then Ok("0x" + Zeros(2 * METHOD_SIZE))
    else
      var digits := Strip(ToEvenHexOfInt(value));
      match IntOfHex(PySlice(digits, 0, 2))
      case Raised(e) => Raised(e)
      case Ok(opNum) => Ok("0x" + digits + Zeros(2 * (if opNum < METHOD_SIZE then METHOD_SIZE - 1 - opNum else 0)))
  }

  /** RBCMethodV1.from_bytes on the members known to the enum. */
  function FromBytes(members: set<nat>, bytes: seq<byte>): Result<nat> {
    var lenOp := Value(PySlice(bytes, 0, 1), 256);
    var value := Value(PySlice(bytes, 0, lenOp + 1), 256);
    if value in members then Ok(value) else Raised(ValueError)
  }

  // ----- bytes as pairs of hex digits -----

  function Nibbles(bytes: seq<byte>): (ds: seq<nat>)
    ensures |ds| == 2 * |bytes| && DigitsIn(ds, 16)
  {
    if bytes == [] then []
    else
      var b := bytes[|bytes| - 1];
      Nibbles(bytes[..|bytes| - 1]) + [b / 16, b % 16]
  }

  /** bytes.fromhex on an even number of digits. */
  function BytesOf(ds: seq<nat>): (bytes: seq<byte>)
    requires DigitsIn(ds, 16) && |ds| % 2 == 0
    ensures |bytes| == |ds| / 2
  {
    seq(|ds| / 2, i requires 0 <= i < |ds| / 2 => ds[2 * i] * 16 + ds[2 * i + 1])
  }

  lemma {:induction false} BytesOfNibbles(bytes: seq<byte>)
    ensures BytesOf(Nibbles(bytes)) == bytes
  {
    if bytes != [] {
      var init := bytes[..|bytes| - 1];
      BytesOfNibbles(init);
      assert forall i :: 0 <= i < |init| ==> BytesOf(Nibbles(bytes))[i] == BytesOf(Nibbles(init))[i];
      assert bytes == init + [bytes[|bytes| - 1]];
    }
  }

  lemma {:induction false} NibbleValue(bytes: seq<byte>)
    ensures Value(Nibbles(bytes), 16) == Value(bytes, 256)
  {
    if bytes != [] {
      var init, b := bytes[..|bytes| - 1], bytes[|bytes| - 1];
      NibbleValue(init);
      var ds := Nibbles(init);
      var all := ds + [b / 16, b % 16];
      assert all[..|all| - 1] == ds + [b / 16];
      assert (ds + [b / 16])[..|ds|] == ds;
    }
  }

  lemma {:induction false} NibblesConcat(x: seq<byte>, y: seq<byte>)
    ensures Nibbles(x + y) == Nibbles(x) + Nibbles(y)
  {
    if y == [] {
      assert x + y == x;
    } else {
      var y0 := y[..|y| - 1];
      NibblesConcat(x, y0);
      assert (x + y)[..|x + y| - 1] == x + y0;
    }
  }

  lemma NibblesOfOne(b: byte)
    ensures Nibbles([b]) == [b / 16, b % 16]
  {
    assert [b][..0] == [];
  }

  // ----- building the integer -----

  lemma ByteForm(b: byte)
    ensures ZeroFilledHex(b, 1) == Ok("0x" + Chars(Nibbles([b])))
    ensures ToEvenHexOfInt(b) == "0x" + Chars(Nibbles([b]))
  {
    NibblesOfOne(b);
    TwoDigits(b);
    ZeroFilledIsFixedWidth(b, 1);
    EvenHexOfByte(b);
  }

  lemma TwoDigits(b: byte)
    ensures b < Pow(256, 1) && Fixed(b, 16, 2) == [b / 16, b % 16]
  {
    assert Pow(256, 1) == 256 * Pow(256, 0);
    assert Fixed(b, 16, 2) == Fixed(b / 16, 16, 1) + [b % 16];
    assert Fixed(b / 16, 16, 1) == Fixed(b / 16 / 16, 16, 0) + [b / 16 % 16];
  }

  lemma EvenHexOfByte(b: byte)
    ensures ToEvenHexOfInt(b) == "0x" + Chars([b / 16, b % 16])
  {
    if b < 16 {
      assert HexBody(b) == Chars([b]);
      EvenOfOdd([b]);
      assert [b / 16, b % 16] == [0] + [b];
    } else {
      assert HexBody(b) == Chars([b / 16]) + Chars([b % 16]);
      CharsConcat([b / 16], [b % 16]);
    }
  }

  /** An odd number of digits is padded with one zero. */
  lemma EvenOfOdd(short: seq<nat>)
    requires DigitsIn(short, 16) && |short| % 2 == 1
    ensures Even("0x" + Chars(short)) == "0x" + Chars([0] + short)
  {
    StripRemovesOnlyThePrefix(Chars(short));
    CharsConcat([0], short);
    assert Chars([0]) == "0";
    Associative("0x", "0", Chars(short));
    assert "0x" + "0" == "0x0";
  }

  function OpcodeForms(ops: seq<byte>): seq<string> {
    if ops == [] then [] else OpcodeForms(ops[..|ops| - 1]) + ["0x" + Chars(Nibbles([ops[|ops| - 1]]))]
  }

  lemma AnotherHex(args: seq<Arg>, a: Arg, hexes: seq<string>, h: string)
    requires ArgHexes(args) == Ok(hexes) && ArgHex(a) == Ok(h)
    ensures ArgHexes(args + [a]) == Ok(hexes + [h])
  {
    var all := args + [a];
    assert all[..|all| - 1] == args && all[|all| - 1] == a;
  }

  lemma {:induction false} ArgHexesOfCode(first: byte, ops: seq<byte>)
    ensures ArgHexes([IntArg(first)] + OpcodeArgs(ops)) == Ok(["0x" + Chars(Nibbles([first]))] + OpcodeForms(ops))
  {
    var args := [IntArg(first)] + OpcodeArgs(ops);
    var head := "0x" + Chars(Nibbles([first]));
    if ops == [] {
      assert args == [] + [IntArg(first)];
      ByteForm(first);
      AnotherHex([], IntArg(first), [], head);
      assert [] + [head] == [head] + OpcodeForms(ops);
    } else {
      var init, last := ops[..|ops| - 1], ops[|ops| - 1];
      ArgHexesOfCode(first, init);
      ByteForm(last);
      var form := "0x" + Chars(Nibbles([last]));
      AnotherHex([IntArg(first)] + OpcodeArgs(init), EnumArg(last, 1), [head] + OpcodeForms(init), form);
      Associative([IntArg(first)], OpcodeArgs(init), [EnumArg(last, 1)]);
      Associative([head], OpcodeForms(init), [form]);
    }
  }

  lemma {:induction false} StripOpcodes(ops: seq<byte>)
    ensures StripAll(OpcodeForms(ops)) == Chars(Nibbles(ops))
  {
    if ops != [] {
      var init, last := ops[..|ops| - 1], ops[|ops| - 1];
      StripOpcodes(init);
      OneMoreStripped(OpcodeForms(init), "0x" + Chars(Nibbles([last])));
      StripRemovesOnlyThePrefix(Chars(Nibbles([last])));
      NibblesOfOne(last);
      CharsConcat(Nibbles(init), Nibbles([last]));
    }
  }

  /** concat_as_int reads the code as one big-endian number. */
  lemma ConcatAsIntIsBigEndian(code: seq<byte>)
    requires code != []
    ensures ConcatAsInt(Args(code)) == Ok(Value(code, 256))
  {
    var first, ops := code[0], code[1..];
    ArgHexesOfCode(first, ops);
    var head := Chars(Nibbles([first]));
    var forms := ["0x" + head] + OpcodeForms(ops);
    assert forms[1..] == OpcodeForms(ops);
    EvenForm(head);
    StripOpcodes(ops);
    CharsConcat(Nibbles([first]), Nibbles(ops));
    NibblesConcat([first], ops);
    assert [first] + ops == code;
    Associative("0x", head, Chars(Nibbles(ops)));
    ReadPrefixed(Nibbles(code));
    NibbleValue(code);
  }

  lemma ReadPrefixed(ds: seq<nat>)
    requires DigitsIn(ds, 16) && ds != []
    ensures IntOfHex("0x" + Chars(ds)) == Ok(Value(ds, 16))
  {
    PlainHexReads(Chars(ds));
    DigitsChars(ds);
  }

  // ----- the round trip -----

  /** A code's digits: a zero, then a string with no leading zero. */
  lemma ShortDigits(code: seq<byte>) returns (short: seq<nat>)
    requires HasOpcodes(code)
    ensures DigitsIn(short, 16) && |short| == 2 * |code| - 1 && short[0] > 0
    ensures Nibbles(code) == [0] + short && Value(short, 16) == Value(code, 256)
  {
    var first, ops := code[0], code[1..];
    assert [first] + ops == code;
    NibblesConcat([first], ops);
    NibblesOfOne(first);
    short := [first] + Nibbles(ops);
    NibbleValue(code);
    LeadingZero(short, 16);
  }

  /** hex() drops the leading zero of the length byte and to_even_hex puts it back. */
  lemma EvenHexOfCode(code: seq<byte>)
    requires HasOpcodes(code)
    ensures Value(code, 256) > 0
    ensures ToEvenHexOfInt(Value(code, 256)) == "0x" + Chars(Nibbles(code))
  {
    var short := ShortDigits(code);
    PositiveValue(short);
    ShortestIs(short);
    EvenOfOdd(short);
  }

  lemma PositiveValue(ds: seq<nat>)
    requires DigitsIn(ds, 16) && ds != [] && ds[0] > 0
    ensures Value(ds, 16) > 0
  {
    HeadValue(ds, 16);
    MulLe(1, ds[0], Pow(16, |ds| - 1));
  }

  /** A digit string without a leading zero is what hex() prints for its value. */
  lemma ShortestIs(ds: seq<nat>)
    requires DigitsIn(ds, 16) && ds != [] && ds[0] > 0
    ensures HexBody(Value(ds, 16)) == Chars(ds)
  {
    var n := Value(ds, 16);
    HeadValue(ds, 16);
    MulLe(1, ds[0], Pow(16, |ds| - 1));
    FixedValue(ds, 16);
    HexBodyIsShortest(n);
    PaddedBody(n, |ds|);
    if |HexBody(n)| < |ds| {
      PowMonotone(16, |HexBody(n)|, |ds| - 1);
    }
  }

  /** The bytes a "0x" string stands for. */
  function HexBytes(s: string): Option<seq<byte>> {
    if |s| >= 2 && |s| % 2 == 0 && IsHex(s[2..]) then Some(BytesOf(Digits(s[2..]))) else None
  }

  lemma HexBytesOf(digits: string)
    requires IsHex(digits) && |digits| % 2 == 0
    ensures HexBytes("0x" + digits) == Some(BytesOf(Digits(digits)))
  {
    assert ("0x" + digits)[2..] == digits;
  }

  /** formatted_hex of a code's integer is the code itself, zero-filled to 16 bytes. */
  lemma FormattedIsPaddedCode(code: seq<byte>)
    requires WellFormed(code)
    ensures FormattedHex(Value(code, 256)).Ok?
    ensures HexBytes(FormattedHex(Value(code, 256)).value) == Some(code + seq(16 - |code|, _ => 0))
  {
    if |code| == 1 {
      NoneIsZeros(code);
    } else {
      FormattedText(code);
      PaddedHex(code, METHOD_SIZE - |code|);
      HexBytesOf(Chars(Nibbles(code)) + Zeros(2 * (METHOD_SIZE - |code|)));
    }
  }

  /** NONE is written as zeros outright. */
  lemma NoneIsZeros(code: seq<byte>)
    requires WellFormed(code) && |code| == 1
    ensures Value(code, 256) == 0
    ensures HexBytes("0x" + Zeros(2 * METHOD_SIZE)) == Some(code + seq(METHOD_SIZE - 1, _ => 0))
  {
    assert code == [0];
    OneDigit(0, 256);
    PaddedHex([], METHOD_SIZE);
    HexBytesOf(Chars(Nibbles([])) + Zeros(2 * METHOD_SIZE));
    assert Chars(Nibbles([])) + Zeros(2 * METHOD_SIZE) == Zeros(2 * METHOD_SIZE);
    assert [] + seq(METHOD_SIZE, _ => 0) == [0] + seq(METHOD_SIZE - 1, _ => 0);
  }

  lemma FormattedText(code: seq<byte>)
    requires HasOpcodes(code)
    ensures FormattedHex(Value(code, 256)) == Ok("0x" + (Chars(Nibbles(code)) + Zeros(2 * (METHOD_SIZE - |code|))))
  {
    var digits := Chars(Nibbles(code));
    EvenHexOfCode(code);
    StripRemovesOnlyThePrefix(digits);
    FirstByte(code);
    Associative("0x", digits, Zeros(2 * (METHOD_SIZE - |code|)));
  }

  lemma PaddedHex(code: seq<byte>, k: nat)
    ensures var s := Chars(Nibbles(code)) + Zeros(2 * k);
            IsHex(s) && |s| % 2 == 0 && BytesOf(Digits(s)) == code + seq(k, _ => 0)
  {
    var pad: seq<byte> := seq(k, _ => 0);
    ZeroNibbles(k);
    NibblesConcat(code, pad);
    CharsConcat(Nibbles(code), Nibbles(pad));
    DigitsChars(Nibbles(code + pad));
    BytesOfNibbles(code + pad);
  }

  lemma FirstByte(code: seq<byte>)
    requires code != []
    ensures IntOfHex(PySlice(Chars(Nibbles(code)), 0, 2)) == Ok(code[0])
  {
    assert [code[0]] + code[1..] == code;
    NibblesConcat([code[0]], code[1..]);
    var own := Nibbles([code[0]]);
    NibblesOfOne(code[0]);
    CharsConcat(own, Nibbles(code[1..]));
    var s := Chars(Nibbles(code));
    assert PySlice(s, 0, 2) == Chars(own);
    IntOfChars(own);
    NibbleValue([code[0]]);
    OneDigit(code[0], 256);
  }

  lemma {:induction false} ZeroNibbles(k: nat)
    ensures Nibbles(seq(k, _ => 0)) == seq(2 * k, _ => 0)
    ensures Chars(Nibbles(seq(k, _ => 0))) == Zeros(2 * k)
  {
    if k > 0 {
      var bs: seq<byte> := seq(k, _ => 0);
      assert bs[..k - 1] == seq(k - 1, _ => 0);
      ZeroNibbles(k - 1);
    }
  }

  /** formatted_hex of an integer is these bytes. */
  predicate FormatsTo(value: nat, bytes: seq<byte>) {
    match FormattedHex(value)
    case Raised(_) => false
    case Ok(hex) => HexBytes(hex) == Some(bytes)
  }

  /** Integer, padded 16 bytes, integer: every method comes back when the enum knows it. */
  lemma MethodRoundTrip(code: seq<byte>, members: set<nat>) returns (value: nat, bytes: seq<byte>)
    requires WellFormed(code)
    ensures ConcatAsInt(Args(code)) == Ok(value) && |bytes| == METHOD_SIZE && FormatsTo(value, bytes)
    ensures FromBytes(members, bytes) == if value in members then Ok(value) else Raised(ValueError)
  {
    value, bytes := Value(code, 256), code + seq(METHOD_SIZE - |code|, _ => 0);
    ConcatAsIntIsBigEndian(code);
    FormattedIsPaddedCode(code);
    ReadsCode(code, members);
  }

  lemma ReadsCode(code: seq<byte>, members: set<nat>)
    requires WellFormed(code)
    ensures FromBytes(members, code + seq(METHOD_SIZE - |code|, _ => 0))
         == if Value(code, 256) in members then Ok(Value(code, 256)) else Raised(ValueError)
  {
    var bytes: seq<byte> := code + seq(METHOD_SIZE - |code|, _ => 0);
    assert PySlice(bytes, 0, 1) == [code[0]];
    OneDigit(code[0], 256);
    assert PySlice(bytes, 0, |code|) == code;
  }

  /** Distinct opcode lists are distinct integers, whatever their lengths. */
  lemma MethodsAreDistinct(x: seq<byte>, y: seq<byte>)
    requires WellFormed(x) && WellFormed(y) && ConcatAsInt(Args(x)) == ConcatAsInt(Args(y))
    ensures x == y
  {
    ConcatAsIntIsBigEndian(x);
    ConcatAsIntIsBigEndian(y);
    FormattedIsPaddedCode(x);
    FormattedIsPaddedCode(y);
    SamePadded(x, y);
  }

  lemma SamePadded(x: seq<byte>, y: seq<byte>)
    requires WellFormed(x) && WellFormed(y)
    requires x + seq(METHOD_SIZE - |x|, _ => 0) == y + seq(METHOD_SIZE - |y|, _ => 0)
    ensures x == y
  {
    var px: seq<byte>, py: seq<byte> := x + seq(METHOD_SIZE - |x|, _ => 0), y + seq(METHOD_SIZE - |y|, _ => 0);
    assert px[0] == py[0];
    assert |x| == |y|;
    assert x == px[..|x|] && y == py[..|y|];
  }
}
