/** The hex-string helpers of rbclib/utils.py. */
module HexCodec {
  import opened Common
  import opened Positional

  // ----- characters -----

  function HexChar(d: nat): char
    requires d < 16
  {
    if d < 10 then ('0' as int + d) as char else ('a' as int + d - 10) as char
  }

  /** The digit a character stands for in base 16, either case. */
  function HexDigit(c: char): Option<nat> {
    if '0' <= c <= '9' then Some(c as int - '0' as int)
    else if 'a' <= c <= 'f' then Some(c as int - 'a' as int + 10)
    else if 'A' <= c <= 'F' then Some(c as int - 'A' as int + 10)
    else None
  }

  predicate IsHex(s: string) {
    forall i {:trigger HexDigit(s[i])} :: 0 <= i < |s| ==> HexDigit(s[i]).Some?
  }

  function Chars(ds: seq<nat>): (s: string)
    requires DigitsIn(ds, 16)
    ensures |s| == |ds| && IsHex(s)
  {
    seq(|ds|, i requires 0 <= i < |ds| => HexChar(ds[i]))
  }

  function Digits(s: string): (ds: seq<nat>)
    requires IsHex(s)
    ensures |ds| == |s| && DigitsIn(ds, 16)
  {
    seq(|s|, i requires 0 <= i < |s| => HexDigit(s[i]).value)
  }

  lemma DigitsChars(ds: seq<nat>)
    requires DigitsIn(ds, 16)
    ensures Digits(Chars(ds)) == ds
  {
  }

  lemma CharsConcat(x: seq<nat>, y: seq<nat>)
    requires DigitsIn(x, 16) && DigitsIn(y, 16)
    ensures DigitsIn(x + y, 16) && Chars(x + y) == Chars(x) + Chars(y)
  {
  }

  // ----- Python's hex(), int(s, 16), replace("0x", "") and zfill -----

  /** hex(n) without its prefix: no leading zero, except for 0 itself. */
  function HexBody(n: nat): (s: string)
    ensures s != [] && IsHex(s)
  {
    if n < 16 then [HexChar(n)] else HexBody(n / 16) + [HexChar(n % 16)]
  }

  function Hex(n: int): string {
    if n < 0 then "-0x" + HexBody(-n) else "0x" + HexBody(n)
  }

  /** The ASCII characters that int() skips around a number. */
  predicate Blank(c: char) { c == ' ' || 9 <= c as int <= 13 }

  function TrimLeft(s: string): string {
    if s != [] && Blank(s[0]) then TrimLeft(s[1..]) else s
  }

  function TrimRight(s: string): string {
    if s != [] && Blank(s[|s| - 1]) then TrimRight(s[..|s| - 1]) else s
  }

  /** The digits of a numeral, in which a single underscore may stand between two of them. */
  function Ungroup(s: string): (r: Option<string>)
    ensures r.Some? ==> IsHex(r.value) && r.value != []
  {
    if s == [] || HexDigit(s[0]).None? then None
    else if |s| == 1 then Some(s)
    else match Ungroup(if s[1] == '_' then s[2..] else s[1..])
      case None => None
      case Some(rest) => Some([s[0]] + rest)
  }

  /** What follows a "0x" or "0X", after which one underscore is allowed. */
  function AfterPrefix(s: string): string {
    if |s| < 2 || s[0] != '0' || (s[1] != 'x' && s[1] != 'X') then s
    else if |s| > 2 && s[2] == '_' then s[3..]
    else s[2..]
  }

  function Magnitude(s: string): Result<nat> {
    match Ungroup(AfterPrefix(s))
    case None => Raised(ValueError)
    case Some(digits) => Ok(Value(Digits(digits), 16))
  }

  /** int(s, 16) on ASCII text: blanks around it, a sign, a prefix and grouping underscores are accepted. */
  function IntOfHex(s: string): Result<int> {
    var t := TrimRight(TrimLeft(s));
    if t != [] && t[0] == '-' then
      var n: int :- Magnitude(t[1..]);
      Ok(-n)
    else Magnitude(if t != [] && t[0] == '+' then t[1..] else t)
  }

  lemma {:induction false} PlainUngroup(s: string)
    requires IsHex(s) && s != []
    ensures Ungroup(s) == Some(s)
  {
    assert HexDigit(s[0]).Some?;
    if |s| > 1 {
      assert HexDigit(s[1]).Some?;
      PlainUngroup(s[1..]);
      assert [s[0]] + s[1..] == s;
    }
  }

  /** A plain numeral, with or without its prefix, is the number of its digits. */
  lemma PlainHexReads(s: string)
    requires IsHex(s) && s != []
    ensures IntOfHex(s) == Ok(Value(Digits(s), 16)) && IntOfHex("0x" + s) == Ok(Value(Digits(s), 16))
  {
    PlainUngroup(s);
    PlainMagnitude(s);
    assert HexDigit(s[0]).Some? && HexDigit(s[|s| - 1]).Some?;
    PlainTrim(s);
    PlainTrim("0x" + s);
  }

  lemma PlainTrim(s: string)
    requires s != [] && !Blank(s[0]) && !Blank(s[|s| - 1]) && s[0] != '+' && s[0] != '-'
    ensures IntOfHex(s) == Magnitude(s)
  {
    assert TrimRight(TrimLeft(s)) == s;
  }

  lemma PlainMagnitude(s: string)
    requires IsHex(s) && s != [] && Ungroup(s) == Some(s)
    ensures Magnitude(s) == Ok(Value(Digits(s), 16)) && Magnitude("0x" + s) == Ok(Value(Digits(s), 16))
  {
    PlainPrefix(s);
  }

  lemma PlainPrefix(s: string)
    requires IsHex(s) && s != []
    ensures AfterPrefix(s) == s && AfterPrefix("0x" + s) == s
  {
    assert HexDigit(s[0]).Some?;
    if |s| > 1 { assert HexDigit(s[1]).Some?; }
    var t := "0x" + s;
    assert t[2..] == s && t[2] == s[0];
  }

  /** s.replace("0x", ""): every occurrence goes, left to right. */
  function Strip(s: string): string {
    if |s| < 2 then s
    else if s[..2] == "0x" then Strip(s[2..])
    else [s[0]] + Strip(s[1..])
  }

  function Zeros(k: nat): (s: string)
    ensures |s| == k && forall i :: 0 <= i < k ==> s[i] == '0'
  {
    seq(k, _ => '0')
  }

  /** s.zfill(w): the zeros go behind a sign. */
  function ZFill(s: string, w: nat): string {
    if |s| >= w then s
    else if s != [] && (s[0] == '+' || s[0] == '-') then [s[0]] + Zeros(w - |s|) + s[1..]
    else Zeros(w - |s|) + s
  }

  /** No hex digit is an 'x', so only a leading prefix is ever removed. */
  lemma {:induction false} StripRemovesOnlyThePrefix(s: string)
    requires IsHex(s)
    ensures Strip(s) == s && Strip("0x" + s) == s
  {
    StripHex(s);
    var t := "0x" + s;
    assert t[..2] == "0x" && t[2..] == s;
  }

  lemma {:induction false} StripHex(s: string)
    requires IsHex(s)
    ensures Strip(s) == s
  {
    if |s| >= 2 {
      assert HexDigit(s[1]).Some?;
      assert s[..2][1] == s[1];
      assert "0x"[1] == 'x' && s[1] != 'x';
      StripHex(s[1..]);
      assert [s[0]] + s[1..] == s;
    }
  }

  /** hex() is the shortest digit string of its number. */
  lemma {:induction false} HexBodyIsShortest(n: nat)
    ensures Value(Digits(HexBody(n)), 16) == n
    ensures HexBody(n)[0] == '0' <==> n == 0
    ensures n == 0 ==> |HexBody(n)| == 1
    ensures n > 0 ==> Pow(16, |HexBody(n)| - 1) <= n < Pow(16, |HexBody(n)|)
  {
    if n < 16 {
      assert Digits(HexBody(n)) == [n];
      assert [n][..0] == [];
      assert Pow(16, 0) == 1 && Pow(16, 1) == 16;
    } else {
      HexBodyIsShortest(n / 16);
      var hi := HexBody(n / 16);
      assert Digits(HexBody(n)) == Digits(hi) + [n % 16];
      assert (Digits(hi) + [n % 16])[..|hi|] == Digits(hi);
      assert Pow(16, |hi|) == 16 * Pow(16, |hi| - 1);
      assert Pow(16, |hi| + 1) == 16 * Pow(16, |hi|);
    }
  }

  lemma {:induction false} PaddedDigits(n: nat, w: nat)
    requires w >= 1 && n < Pow(16, w)
    ensures |HexBody(n)| <= w
    ensures seq(w - |HexBody(n)|, _ => 0) + Digits(HexBody(n)) == Fixed(n, 16, w)
  {
    HexBodyIsShortest(n);
    if n > 0 { ShorterThan(n, |HexBody(n)|, w); }
    PaddedNumeral(Digits(HexBody(n)), w - |HexBody(n)|, n, w);
  }

  /** A number of k digits, none of them leading, that is below 16^w has at most w. */
  lemma ShorterThan(n: nat, k: nat, w: nat)
    requires k >= 1 && Pow(16, k - 1) <= n < Pow(16, w)
    ensures k <= w
  {
    if k > w { PowMonotone(16, w, k - 1); }
  }

  lemma PaddedNumeral(ds: seq<nat>, pad: nat, n: nat, w: nat)
    requires DigitsIn(ds, 16) && Value(ds, 16) == n < Pow(16, w) && pad + |ds| == w
    ensures seq(pad, _ => 0) + ds == Fixed(n, 16, w)
  {
    PadDigits(ds, pad);
    ValueFixed(n, 16, w);
    ValueInjective(seq(pad, _ => 0) + ds, Fixed(n, 16, w), 16);
  }

  /** A zero-filled hex() is the fixed-width numeral. */
  lemma PaddedBody(n: nat, w: nat)
    requires w >= 1 && n < Pow(16, w)
    ensures ZFill(HexBody(n), w) == Chars(Fixed(n, 16, w))
  {
    PaddedDigits(n, w);
    LowerCaseBody(n);
    var pad := w - |HexBody(n)|;
    var zs: seq<nat> := seq(pad, _ => 0);
    CharsConcat(zs, Digits(HexBody(n)));
    assert Chars(zs) == Zeros(pad);
  }

  lemma {:induction false} LowerCaseBody(n: nat)
    ensures Chars(Digits(HexBody(n))) == HexBody(n)
  {
    if n >= 16 {
      LowerCaseBody(n / 16);
      var hi := HexBody(n / 16);
      assert Digits(HexBody(n)) == Digits(hi) + [n % 16];
      CharsConcat(Digits(hi), [n % 16]);
    }
  }

  lemma {:induction false} PadDigits(ds: seq<nat>, k: nat)
    ensures Value(seq(k, _ => 0) + ds, 16) == Value(ds, 16)
  {
    if k == 0 {
      assert seq(0, _ => 0) + ds == ds;
    } else {
      PadDigits(ds, k - 1);
      assert seq(k, _ => 0) + ds == [0] + (seq(k - 1, _ => 0) + ds);
      LeadingZero(seq(k - 1, _ => 0) + ds, 16);
    }
  }

  // ----- to_even_hex, zero_filled_hex -----

  function ToEvenHexOfString(s: string): string {
    Even(if |s| >= 2 && s[..2] == "0x" then s else "0x" + s)
  }

  function ToEvenHexOfInt(n: int): string {
    Even(Hex(n))
  }

  function Even(hexValue: string): string {
    if |hexValue| % 2 == 1 then "0x0" + Strip(hexValue) else hexValue
  }

  function ZeroFilledHex(n: int, size: nat): Result<string> {
    if n > Pow(256, size) - 1 then Raised(Refused)
    else Ok("0x" + ZFill(Strip(Hex(n)), 2 * size))
  }

  lemma {:induction false} PowSquare(e: nat)
    ensures Pow(256, e) == Pow(16, 2 * e)
  {
    if e > 0 {
      PowSquare(e - 1);
      assert Pow(16, 2 * e) == 16 * (16 * Pow(16, 2 * e - 2));
    }
  }

  /** The field form of a number is its fixed-width numeral, and it is refused exactly on overflow. A field of no bytes
      holds the one digit of 0, and a negative number slips through with its sign. */
  lemma ZeroFilledIsFixedWidth(n: int, size: nat)
    ensures ZeroFilledHex(n, size).Raised? <==> n >= Pow(256, size)
    ensures 0 <= n < Pow(256, size) ==>
      ZeroFilledHex(n, size) == Ok("0x" + if size == 0 then "0" else Chars(Fixed(n, 16, 2 * size)))
    ensures n < 0 ==> ZeroFilledHex(n, size) == Ok("0x" + ZFill("-" + HexBody(-n), 2 * size))
  {
    if 0 <= n < Pow(256, size) {
      StripRemovesOnlyThePrefix(HexBody(n));
      if size == 0 {
        assert HexBody(0) == "0";
      } else {
        PowSquare(size);
        PaddedBody(n, 2 * size);
      }
    }
    if n < 0 { StripSigned(HexBody(-n)); }
  }

  lemma StripSigned(s: string)
    requires IsHex(s)
    ensures Strip("-0x" + s) == "-" + s
  {
    StripRemovesOnlyThePrefix(s);
    var t := "-0x" + s;
    assert t[..2][0] == '-' && t[1..] == "0x" + s;
  }

  // ----- concat_hexes, concat_as_hex -----

  function StripAll(args: seq<string>): string {
    if args == [] then "" else StripAll(args[..|args| - 1]) + Strip(args[|args| - 1])
  }

  function ConcatHexes(args: seq<string>): string {
    if args == [] then "" else ToEvenHexOfString(args[0]) + StripAll(args[1..])
  }

  method ComputeConcatHexes(args: seq<string>) returns (r: string)
    ensures r == ConcatHexes(args)
  {
    r := "";
    for i := 0 to |args|
      invariant r == ConcatHexes(args[..i])
      invariant i > 0 ==> r != ""
    {
      OneMoreHex(args[..i], args[i]);
      assert args[..i + 1] == args[..i] + [args[i]];
      if r == "" {
        r := ToEvenHexOfString(args[i]);
      } else {
        r := r + Strip(args[i]);
      }
    }
    assert args[..|args|] == args;
  }

  lemma OneMoreHex(args: seq<string>, a: string)
    ensures ConcatHexes(args + [a]) == if args == [] then ToEvenHexOfString(a) else ConcatHexes(args) + Strip(a)
    ensures ToEvenHexOfString(a) != ""
  {
    if args == [] {
      assert (args + [a])[1..] == [];
    } else {
      var tail := args[1..];
      assert (args + [a])[1..] == tail + [a];
      OneMoreStripped(tail, a);
      Associative(ToEvenHexOfString(args[0]), StripAll(tail), Strip(a));
    }
  }

  lemma OneMoreStripped(tail: seq<string>, a: string)
    ensures StripAll(tail + [a]) == StripAll(tail) + Strip(a)
  {
    var all := tail + [a];
    assert all[..|all| - 1] == tail && all[|all| - 1] == a;
  }

  lemma Associative<T>(x: seq<T>, y: seq<T>, z: seq<T>)
    ensures x + y + z == x + (y + z)
  {
  }

  /** An argument of concat_as_hex: an Enum member with its size, an int, or a hex string. */
  datatype Arg = EnumArg(value: nat, size: nat) | IntArg(n: int) | StrArg(s: string)

  function ArgHex(a: Arg): Result<string> {
    match a
    case EnumArg(v, size) => ZeroFilledHex(v, size)
    case IntArg(n) => Ok(ToEvenHexOfInt(n))
    case StrArg(s) => Ok(ToEvenHexOfString(s))
  }

  function ArgHexes(args: seq<Arg>): Result<seq<string>> {
    if args == [] then Ok([])
    else match ArgHexes(args[..|args| - 1])
      case Raised(e) => Raised(e)
      case Ok(hexes) =>
        match ArgHex(args[|args| - 1])
        case Raised(e) => Raised(e)
        case Ok(h) => Ok(hexes + [h])
  }

  method ConcatAsHex(args: seq<Arg>) returns (r: Result<string>)
    ensures r == match ArgHexes(args) case Ok(hexes) => Ok(ConcatHexes(hexes)) case Raised(e) => Raised(e)
  {
    var hexes: seq<string> := [];
    for i := 0 to |args|
      invariant ArgHexes(args[..i]) == Ok(hexes)
    {
      assert args[..i + 1][..i] == args[..i];
      match ArgHex(args[i])
      case Ok(h) => hexes := hexes + [h];
      case Raised(e) =>
        RaisedStays(args, i + 1);
        return Raised(e);
    }
    assert args[..|args|] == args;
    var joined := ComputeConcatHexes(hexes);
    r := Ok(joined);
  }

  lemma {:induction false} RaisedStays(args: seq<Arg>, k: nat)
    requires k <= |args| && ArgHexes(args[..k]).Raised?
    ensures ArgHexes(args) == ArgHexes(args[..k])
    decreases |args| - k
  {
    if k < |args| {
      assert args[..k + 1][..k] == args[..k];
      RaisedStays(args, k + 1);
    } else {
      assert args[..k] == args;
    }
  }

  // ----- parser -----

  /** An element type given to parser: a byte count, or an Enum with its size and members. */
  datatype Field = IntField(size: nat) | EnumField(size: nat, members: set<nat>)
  datatype Element = HexForm(s: string) | EnumMember(value: nat)

  function Enc(f: Field, x: int): Result<Element> {
    match f
    case IntField(size) =>
      (match ZeroFilledHex(x, size) case Ok(s) => Ok(HexForm(s)) case Raised(e) => Raised(e))
    case EnumField(_, members) => if x in members then Ok(EnumMember(x)) else Raised(ValueError)
  }

  /** One turn of the loop: the digits between the cursors, as a number, as an element. */
  function ReadField(body: string, f: Field, start: nat): Result<Element> {
    match IntOfHex(PySlice(body, start, start + 2 * f.size))
    case Ok(x) => Enc(f, x)
    case Raised(e) => Raised(e)
  }

  type Reader = (Field, nat) -> Result<Element>

  function ReaderOf(body: string): Reader {
    (f: Field, start: nat) => ReadField(body, f, start)
  }

  /** Where the cursor stands after the first k fields. */
  function Offset(fields: seq<Field>, k: nat): nat
    requires k <= |fields|
  {
    if k == 0 then 0 else Offset(fields, k - 1) + 2 * fields[k - 1].size
  }

  /** The elements read from the first k fields, or the first exception. */
  function ReadAll(read: Reader, fields: seq<Field>, k: nat): Result<seq<Element>>
    requires k <= |fields|
  {
    if k == 0 then Ok([])
    else match ReadAll(read, fields, k - 1)
      case Raised(e) => Raised(e)
      case Ok(es) =>
        match read(fields[k - 1], Offset(fields, k - 1))
        case Raised(e) => Raised(e)
        case Ok(x) => Ok(es + [x])
  }

  function Parsed(hex: string, fields: seq<Field>): Result<seq<Element>> {
    ReadAll(ReaderOf(Strip(hex)), fields, |fields|)
  }

  method Parser(hex: string, fields: seq<Field>) returns (r: Result<seq<Element>>)
    ensures r == Parsed(hex, fields)
  {
    var read := ReaderOf(Strip(hex));
    var start: nat, end: nat := 0, 0;
    var elements: seq<Element> := [];
    for i := 0 to |fields|
      invariant end == Offset(fields, i)
      invariant ReadAll(read, fields, i) == Ok(elements)
    {
      start, end := end, end + 2 * fields[i].size;
      match read(fields[i], start)
      case Ok(x) => elements := elements + [x];
      case Raised(e) =>
        RaisedReaches(read, fields, i + 1);
        return Raised(e);
    }
    r := Ok(elements);
  }

  lemma {:induction false} RaisedReaches(read: Reader, fields: seq<Field>, k: nat)
    requires k <= |fields| && ReadAll(read, fields, k).Raised?
    ensures ReadAll(read, fields, |fields|) == ReadAll(read, fields, k)
    decreases |fields| - k
  {
    if k < |fields| { RaisedReaches(read, fields, k + 1); }
  }

  predicate ReadsAt(read: Reader, fields: seq<Field>, es: seq<Element>, i: nat)
    requires i < |fields| == |es|
  {
    read(fields[i], Offset(fields, i)) == Ok(es[i])
  }

  lemma {:induction false} ReadsEach(read: Reader, fields: seq<Field>, es: seq<Element>, k: nat)
    requires k <= |fields| == |es|
    requires forall i :: 0 <= i < k ==> ReadsAt(read, fields, es, i)
    ensures ReadAll(read, fields, k) == Ok(es[..k])
  {
    if k > 0 {
      ReadsEach(read, fields, es, k - 1);
      assert ReadsAt(read, fields, es, k - 1);
      assert es[..k] == es[..k - 1] + [es[k - 1]];
    }
  }

  /** What a field may carry: a number of its width, and for an Enum one of its members. */
  predicate Fits(f: Field, v: nat) {
    v < Pow(256, f.size) && (f.EnumField? ==> v in f.members)
  }

  predicate AllFit(fields: seq<Field>, values: seq<nat>) {
    && |fields| == |values|
    && forall i {:trigger Fits(fields[i], values[i])} :: 0 <= i < |fields| ==> Fits(fields[i], values[i])
  }

  function Form(f: Field, v: nat): string
    requires Fits(f, v)
  {
    ZeroFilledHex(v, f.size).value
  }

  function ElementOf(f: Field, v: nat): Element
    requires Fits(f, v)
  {
    if f.IntField? then HexForm(Form(f, v)) else EnumMember(v)
  }

  /** The zero_filled_hex forms of a record, one per field. */
  function Forms(fields: seq<Field>, values: seq<nat>): (forms: seq<string>)
    requires AllFit(fields, values)
    ensures |forms| == |fields|
  {
    seq(|fields|, i requires 0 <= i < |fields| => assert Fits(fields[i], values[i]); Form(fields[i], values[i]))
  }

  /** What reading the record back must give. */
  function Elements(fields: seq<Field>, values: seq<nat>): (es: seq<Element>)
    requires AllFit(fields, values)
    ensures |es| == |fields|
  {
    seq(|fields|, i requires 0 <= i < |fields| => assert Fits(fields[i], values[i]); ElementOf(fields[i], values[i]))
  }

  predicate NoEmptyField(fields: seq<Field>) {
    forall i :: 0 <= i < |fields| ==> fields[i].size >= 1
  }

  /** parser undoes the concatenation of zero_filled_hex forms exactly when no field is empty:
      an empty field reads int("", 16), which raises whatever the record holds. */
  lemma ParserInvertsConcat(fields: seq<Field>, values: seq<nat>)
    requires AllFit(fields, values)
    ensures Parsed(ConcatHexes(Forms(fields, values)), fields) == Ok(Elements(fields, values)) <==> NoEmptyField(fields)
  {
    var body := Strip(ConcatHexes(Forms(fields, values)));
    if NoEmptyField(fields) {
      BodyOfForms(fields, values);
      ReadsBack(fields, values);
    } else {
      var k :| 0 <= k < |fields| && fields[k].size == 0;
      EmptyFieldRaises(body, fields, k);
    }
  }

  lemma ReadsBack(fields: seq<Field>, values: seq<nat>)
    requires AllFit(fields, values) && NoEmptyField(fields)
    ensures ReadAll(ReaderOf(Body(fields, values, |fields|)), fields, |fields|) == Ok(Elements(fields, values))
  {
    var body, es := Body(fields, values, |fields|), Elements(fields, values);
    forall i | 0 <= i < |fields|
      ensures ReadsAt(ReaderOf(body), fields, es, i)
    {
      FieldReads(fields, values, |fields|, i);
      assert Fits(fields[i], values[i]);
      assert fields[i].size >= 1;
      ReadOwn(body, Offset(fields, i), fields[i], values[i]);
    }
    ReadsEach(ReaderOf(body), fields, es, |fields|);
    assert es[..|fields|] == es;
  }

  lemma EmptyFieldRaises(body: string, fields: seq<Field>, k: nat)
    requires k < |fields| && fields[k].size == 0
    ensures ReadAll(ReaderOf(body), fields, |fields|).Raised?
  {
    var at := Offset(fields, k);
    EmptyReads(body, fields[k], at);
    RaisedField(ReaderOf(body), fields, k);
  }

  lemma RaisedField(read: Reader, fields: seq<Field>, k: nat)
    requires k < |fields| && read(fields[k], Offset(fields, k)).Raised?
    ensures ReadAll(read, fields, |fields|).Raised?
  {
    RaisedReaches(read, fields, k + 1);
  }

  lemma EmptyReads(body: string, f: Field, at: nat)
    requires f.size == 0
    ensures ReaderOf(body)(f, at).Raised?
  {
    assert PySlice(body, at, at) == "";
    assert IntOfHex("").Raised?;
  }

  /** The digits of one field. */
  function Own(f: Field, v: nat): (s: string)
    ensures |s| == 2 * f.size && IsHex(s)
  {
    Chars(Fixed(v, 16, 2 * f.size))
  }

  /** The digits of the first k fields, field after field. */
  function Body(fields: seq<Field>, values: seq<nat>, k: nat): (s: string)
    requires k <= |fields| == |values|
    ensures |s| == Offset(fields, k) && IsHex(s)
  {
    if k == 0 then ""
    else Body(fields, values, k - 1) + Own(fields[k - 1], values[k - 1])
  }

  lemma {:induction false} FieldReads(fields: seq<Field>, values: seq<nat>, k: nat, i: nat)
    requires i < k <= |fields| == |values|
    ensures Offset(fields, i) + 2 * fields[i].size <= Offset(fields, k)
    ensures PySlice(Body(fields, values, k), Offset(fields, i), Offset(fields, i) + 2 * fields[i].size)
         == Own(fields[i], values[i])
    decreases k
  {
    var before, last := Body(fields, values, k - 1), Own(fields[k - 1], values[k - 1]);
    if i < k - 1 {
      FieldReads(fields, values, k - 1, i);
      SliceOfFront(before, last, Offset(fields, i), Offset(fields, i) + 2 * fields[i].size);
    } else {
      SliceOfBack(before, last);
    }
  }

  lemma SliceOfFront(x: string, y: string, i: nat, j: nat)
    requires i <= j <= |x|
    ensures PySlice(x + y, i, j) == PySlice(x, i, j)
  {
  }

  lemma SliceOfBack(x: string, y: string)
    ensures PySlice(x + y, |x|, |x| + |y|) == y
  {
  }

  lemma ReadOwn(body: string, start: nat, f: Field, v: nat)
    requires Fits(f, v) && f.size >= 1
    requires PySlice(body, start, start + 2 * f.size) == Chars(Fixed(v, 16, 2 * f.size))
    ensures ReadField(body, f, start) == Ok(ElementOf(f, v))
  {
    PowSquare(f.size);
    FixedReads(v, 2 * f.size);
    EncodesOwn(f, v);
    ReadIsEncoded(body, start, f, v, ElementOf(f, v));
  }

  lemma FixedReads(v: nat, w: nat)
    requires w >= 1 && v < Pow(16, w)
    ensures IntOfHex(Chars(Fixed(v, 16, w))) == Ok(v)
  {
    ValueFixed(v, 16, w);
    IntOfChars(Fixed(v, 16, w));
  }

  lemma EncodesOwn(f: Field, v: nat)
    requires Fits(f, v)
    ensures Enc(f, v) == Ok(ElementOf(f, v))
  {
    ZeroFilledIsFixedWidth(v, f.size);
  }

  /** A field that reads as its number becomes its element. */
  lemma ReadIsEncoded(body: string, start: nat, f: Field, v: nat, x: Element)
    requires IntOfHex(PySlice(body, start, start + 2 * f.size)) == Ok(v) && Enc(f, v) == Ok(x)
    ensures ReadField(body, f, start) == Ok(x)
  {
  }

  lemma IntOfChars(ds: seq<nat>)
    requires DigitsIn(ds, 16) && ds != []
    ensures IntOfHex(Chars(ds)) == Ok(Value(ds, 16))
  {
    DigitsChars(ds);
    PlainHexReads(Chars(ds));
  }

  /** Stripped of its prefix, the concatenation is the digits of every field in turn. */
  lemma BodyOfForms(fields: seq<Field>, values: seq<nat>)
    requires AllFit(fields, values) && NoEmptyField(fields)
    ensures Strip(ConcatHexes(Forms(fields, values))) == Body(fields, values, |fields|)
  {
    var forms := Forms(fields, values);
    if fields != [] {
      FormsArePlain(fields, values);
      PlainConcat(forms, Owns(fields, values), |fields|);
      BodyIsJoined(fields, values, |fields|);
      assert forms[..|fields|] == forms;
      StripRemovesOnlyThePrefix(Body(fields, values, |fields|));
    }
  }

  /** The digits of each field. */
  function Owns(fields: seq<Field>, values: seq<nat>): (owns: seq<string>)
    requires |fields| == |values|
    ensures |owns| == |fields|
  {
    seq(|fields|, i requires 0 <= i < |fields| => Own(fields[i], values[i]))
  }

  lemma FormsArePlain(fields: seq<Field>, values: seq<nat>)
    requires AllFit(fields, values) && NoEmptyField(fields)
    ensures forall i :: 0 <= i < |fields| ==> IsPlain(Forms(fields, values)[i], Owns(fields, values)[i])
  {
    forall i | 0 <= i < |fields| ensures IsPlain(Forms(fields, values)[i], Owns(fields, values)[i]) {
      PlainForm(fields, values, i);
    }
  }

  /** A prefix and an even number of hex digits. */
  predicate IsPlain(form: string, own: string) {
    form == "0x" + own && |own| % 2 == 0 && Strip(form) == own
  }

  function Joined(owns: seq<string>, k: nat): string
    requires k <= |owns|
  {
    if k == 0 then "" else Joined(owns, k - 1) + owns[k - 1]
  }

  lemma {:induction false} BodyIsJoined(fields: seq<Field>, values: seq<nat>, k: nat)
    requires k <= |fields| == |values|
    ensures Body(fields, values, k) == Joined(Owns(fields, values), k)
    decreases k
  {
    if k > 0 {
      BodyIsJoined(fields, values, k - 1);
      assert Owns(fields, values)[k - 1] == Own(fields[k - 1], values[k - 1]);
    }
  }

  lemma {:induction false} PlainConcat(forms: seq<string>, owns: seq<string>, k: nat)
    requires |forms| == |owns| && 1 <= k <= |forms| && forall i :: 0 <= i < |forms| ==> IsPlain(forms[i], owns[i])
    ensures ConcatHexes(forms[..k]) == "0x" + Joined(owns, k)
    decreases k
  {
    assert IsPlain(forms[k - 1], owns[k - 1]);
    if k == 1 {
      assert forms[..1] == [forms[0]];
      assert Joined(owns, 0) == "" && Joined(owns, 1) == Joined(owns, 0) + owns[0];
      PlainFirst(forms[..1], forms[0], owns[0]);
    } else {
      PlainConcat(forms, owns, k - 1);
      assert forms[..k] == forms[..k - 1] + [forms[k - 1]];
      PlainNext(forms[..k - 1], forms[..k], Joined(owns, k - 1), forms[k - 1], owns[k - 1]);
    }
  }

  lemma PlainFirst(all: seq<string>, form: string, own: string)
    requires all == [form] && IsPlain(form, own)
    ensures ConcatHexes(all) == "0x" + ("" + own)
  {
    OneMoreHex([], form);
    assert [] + [form] == all && "" + own == own;
    EvenForm(own);
  }

  lemma PlainNext(done: seq<string>, all: seq<string>, text: string, form: string, own: string)
    requires done != [] && ConcatHexes(done) == "0x" + text && Strip(form) == own && all == done + [form]
    ensures ConcatHexes(all) == "0x" + (text + own)
  {
    OneMoreHex(done, form);
    Associative("0x", text, own);
  }

  lemma PlainForm(fields: seq<Field>, values: seq<nat>, i: nat)
    requires AllFit(fields, values) && NoEmptyField(fields) && i < |fields|
    ensures IsPlain(Forms(fields, values)[i], Own(fields[i], values[i]))
  {
    assert Fits(fields[i], values[i]);
    assert fields[i].size >= 1;
    FormIsPlain(fields[i], values[i]);
  }

  lemma FormIsPlain(f: Field, v: nat)
    requires Fits(f, v) && f.size >= 1
    ensures IsPlain(Form(f, v), Own(f, v))
  {
    ZeroFilledIsFixedWidth(v, f.size);
    StripRemovesOnlyThePrefix(Own(f, v));
  }

  lemma EvenForm(digits: string)
    requires |digits| % 2 == 0
    ensures ToEvenHexOfString("0x" + digits) == "0x" + digits
  {
    var s := "0x" + digits;
    assert s[..2] == "0x";
  }
}
