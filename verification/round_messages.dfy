/** The message that a round-up vote signs and that the relaying node rebuilds: the ABI encoding of
    (uint256, address[]) over a sorted relayer list (rbclib/periodic/vsp_feed.py, rbclib/submits.py). */
module RoundMessages {
  import opened Common
  import opened Positional
  import opened HexCodec
  import opened RelayerSets
  import opened SocketMessages
  import opened Signatures

  const ADDRESS_DIGITS := 40

  predicate IsAddress(a: nat) { a < Pow(16, ADDRESS_DIGITS) }

  /** The lower-case text of an address: what eth_abi decodes to, and what str.lower makes of a checksummed one. */
  function AddressText(a: nat): string {
    "0x" + Chars(Fixed(a, 16, ADDRESS_DIGITS))
  }

  function Texts(list: seq<nat>): (ts: seq<string>)
    ensures |ts| == |list|
  {
    seq(|list|, i requires 0 <= i < |list| => AddressText(list[i]))
  }

  predicate AllAddresses(list: seq<nat>) {
    forall a <- list :: IsAddress(a)
  }

  // ----- the encoding -----

  function RoundWords(round: nat, list: seq<nat>): (ws: seq<seq<byte>>)
    ensures |ws| == |list| + 3 && AllWords(ws)
  {
    [Word(round), Word(2 * WORD), Word(|list|)] + seq(|list|, i requires 0 <= i < |list| => Word(list[i]))
  }

  /** eth_abi.encode(["uint256", "address[]"], [round, list]) on the numbers that the addresses are. */
  function EncodeRoundUp(round: nat, list: seq<nat>): seq<byte> {
    Flat(RoundWords(round, list))
  }

  /** The address that a text of the contract's form denotes: "0x" and 40 digits. */
  function ReadAddress(s: string): Result<nat> {
    if |s| == ADDRESS_DIGITS + 2 && s[..2] == "0x" && IsHex(s[2..])
    then Ok(Value(Digits(s[2..]), 16))
    else Raised(ValueError)
  }

  /** The same on address texts, which the encoder must be able to read. */
  function EncodeTexts(round: nat, ts: seq<string>): Result<seq<byte>> {
    if forall i :: 0 <= i < |ts| ==> ReadAddress(ts[i]).Ok?
    then Ok(EncodeRoundUp(round, seq(|ts|, i requires 0 <= i < |ts| => ReadAddress(ts[i]).value)))
    else Raised(ValueError)
  }

  /** What a member signs: the list as the contract answers it, in lower case and sorted. */
  function VoterMessage(round: nat, raw: seq<string>): Result<seq<byte>> {
    EncodeTexts(round, SortedRelayers(raw))
  }

  /** What the relaying node sorts the signatures over: the list as the event carries it, sorted. */
  function RebuiltMessage(round: nat, emitted: seq<nat>): Result<seq<byte>> {
    EncodeTexts(round, Sorted(Texts(emitted)))
  }

  /** Where the encoding holds what: the round, the offset 64 of the list, its length, then an address per word. */
  lemma RoundMessageLayout(round: nat, list: seq<nat>)
    requires round < Pow(256, 32) && |list| < Pow(256, 32) && AllAddresses(list)
    ensures var r := SocketMessages.ReaderOf(EncodeRoundUp(round, list));
      && r.uint(0, 32) == Ok(round) && r.uint(32, 32) == Ok(64) && r.uint(64, 32) == Ok(|list|)
      && forall i :: 0 <= i < |list| ==> r.uint(32 * (i + 3), 20) == Ok(list[i])
  {
    var data, ws := EncodeRoundUp(round, list), RoundWords(round, list);
    FlatHasWords(ws, []);
    assert Flat(ws) + [] == data;
    HeadReads(data, ws, round, |list|);
    forall i | 0 <= i < |list| ensures SocketMessages.ReaderOf(data).uint(32 * (i + 3), 20) == Ok(list[i]) {
      assert list[i] in list && ws[i + 3] == Word(list[i]);
      AddressAt(data, ws, i + 3, list[i]);
    }
  }

  lemma HeadReads(data: seq<byte>, ws: seq<seq<byte>>, round: nat, n: nat)
    requires HasWords(data, ws) && |ws| >= 3 && ws[0] == Word(round) && ws[1] == Word(64) && ws[2] == Word(n)
    requires round < Pow(256, 32) && n < Pow(256, 32)
    ensures var r := SocketMessages.ReaderOf(data);
      r.uint(0, 32) == Ok(round) && r.uint(32, 32) == Ok(64) && r.uint(64, 32) == Ok(n)
  {
    PowMonotone(256, 1, 32);
    UintAt(data, ws, 0, round, 32);
    UintAt(data, ws, 1, 64, 32);
    UintAt(data, ws, 2, n, 32);
  }

  lemma AddressAt(data: seq<byte>, ws: seq<seq<byte>>, k: nat, a: nat)
    requires HasWords(data, ws) && k < |ws| && ws[k] == Word(a) && IsAddress(a)
    ensures SocketMessages.ReaderOf(data).uint(32 * k, 20) == Ok(a)
  {
    PowSquare(20);
    UintAt(data, ws, k, a, 20);
  }

  // ----- the texts in which the contract answers -----

  /** A text of the address in some letter case, as a checksummed one is. */
  predicate Spells(s: string, a: nat) {
    |s| == |AddressText(a)| && forall i :: 0 <= i < |s| ==> SameLetter(s[i], AddressText(a)[i])
  }

  predicate SameLetter(c: char, t: char) { c == t || ('A' <= c <= 'Z' && c as int + 32 == t as int) }

  lemma AddressTextIsLower(a: nat, i: nat)
    requires i < |AddressText(a)|
    ensures !('A' <= AddressText(a)[i] <= 'Z')
  {
    var x := Fixed(a, 16, ADDRESS_DIGITS);
    if i >= 2 { assert AddressText(a)[i] == Chars(x)[i - 2] == HexChar(x[i - 2]); }
  }

  /** str.lower maps exactly the spellings of an address to its lower-case text. */
  lemma SpelledIsLowered(s: string, a: nat)
    ensures Spells(s, a) <==> Lower(s) == AddressText(a)
  {
    var t := AddressText(a);
    forall i | 0 <= i < |s| && i < |t| ensures SameLetter(s[i], t[i]) <==> Lower(s)[i] == t[i] {
      AddressTextIsLower(a, i);
    }
  }

  lemma SpelledLists(raw: seq<string>, listed: seq<nat>)
    requires |raw| == |listed| && forall i :: 0 <= i < |raw| ==> Spells(raw[i], listed[i])
    ensures LowerAll(raw) == Texts(listed)
  {
    forall i | 0 <= i < |raw| ensures LowerAll(raw)[i] == Texts(listed)[i] { SpelledIsLowered(raw[i], listed[i]); }
  }

  // ----- the order of the texts is the order of the addresses -----

  lemma CharOrder(d: nat, e: nat)
    requires d < 16 && e < 16
    ensures HexChar(d) < HexChar(e) <==> d < e
    ensures HexChar(d) == HexChar(e) <==> d == e
  {
  }

  lemma {:induction false} CharsOrder(x: seq<nat>, y: seq<nat>)
    requires DigitsIn(x, 16) && DigitsIn(y, 16) && |x| == |y|
    ensures Less(Codes(Chars(x)), Codes(Chars(y))) <==> Less(x, y)
  {
    if x != [] {
      var s, t := Codes(Chars(x)), Codes(Chars(y));
      CharsOrder(x[1..], y[1..]);
      CharOrder(x[0], y[0]);
      assert s[1..] == Codes(Chars(x[1..])) && t[1..] == Codes(Chars(y[1..]));
      assert s[0] == HexChar(x[0]) as nat && t[0] == HexChar(y[0]) as nat;
    }
  }

  lemma SamePrefix(p: seq<nat>, x: seq<nat>, y: seq<nat>)
    ensures Less(p + x, p + y) <==> Less(x, y)
  {
    if p == [] {
      assert p + x == x && p + y == y;
    } else {
      SamePrefix(p[1..], x, y);
      assert (p + x)[1..] == p[1..] + x && (p + y)[1..] == p[1..] + y;
    }
  }

  /** Dictionary order of the texts is numeric order of the addresses. */
  lemma TextOrder(a: nat, b: nat)
    requires IsAddress(a) && IsAddress(b)
    ensures StrLess(AddressText(a), AddressText(b)) <==> a < b
  {
    var x, y := Fixed(a, 16, ADDRESS_DIGITS), Fixed(b, 16, ADDRESS_DIGITS);
    assert Codes(AddressText(a)) == Codes("0x") + Codes(Chars(x));
    assert Codes(AddressText(b)) == Codes("0x") + Codes(Chars(y));
    SamePrefix(Codes("0x"), Codes(Chars(x)), Codes(Chars(y)));
    CharsOrder(x, y);
    LessIsNumeric(x, y, 16);
    ValueFixed(a, 16, ADDRESS_DIGITS);
    ValueFixed(b, 16, ADDRESS_DIGITS);
  }

  lemma TextNumber(a: nat)
    requires IsAddress(a)
    ensures ReadAddress(AddressText(a)) == Ok(a)
  {
    var x := Fixed(a, 16, ADDRESS_DIGITS);
    var s := AddressText(a);
    assert s[..2] == "0x" && s[2..] == Chars(x);
    DigitsChars(x);
    ValueFixed(a, 16, ADDRESS_DIGITS);
  }

  lemma RemoveOne(s: seq<nat>, j: nat)
    requires j < |s|
    ensures multiset(s[..j] + s[j + 1..]) == multiset(s) - multiset{s[j]}
  {
    assert s == s[..j] + [s[j]] + s[j + 1..];
  }

  lemma {:induction false} TextsPermute(list: seq<nat>, other: seq<nat>)
    requires multiset(list) == multiset(other)
    ensures multiset(Texts(list)) == multiset(Texts(other))
    decreases |list|
  {
    assert |list| == |multiset(list)| && |other| == |multiset(other)|;
    if list != [] {
      assert list[0] in multiset(other);
      var j :| 0 <= j < |other| && other[j] == list[0];
      var rest := other[..j] + other[j + 1..];
      RemoveOne(list, 0);
      assert list[..0] + list[1..] == list[1..];
      RemoveOne(other, j);
      TextsPermute(list[1..], rest);
      TextsSplit(list, other, j);
    }
  }

  lemma TextsSplit(list: seq<nat>, other: seq<nat>, j: nat)
    requires list != [] && j < |other| && other[j] == list[0]
    ensures multiset(Texts(list)) == multiset(Texts(list[1..])) + multiset{AddressText(list[0])}
    ensures multiset(Texts(other)) == multiset(Texts(other[..j] + other[j + 1..])) + multiset{AddressText(list[0])}
  {
    assert Texts(list) == [AddressText(list[0])] + Texts(list[1..]);
    assert Texts(other) == Texts(other[..j]) + [AddressText(list[0])] + Texts(other[j + 1..]);
    assert Texts(other[..j] + other[j + 1..]) == Texts(other[..j]) + Texts(other[j + 1..]);
  }

  ghost predicate NumericallyAscending(list: seq<nat>) {
    forall i, j :: 0 <= i < j < |list| ==> list[i] <= list[j]
  }

  /** Sorting the texts, whatever their order, lists the addresses in ascending numeric order. */
  lemma TextsSortNumerically(list: seq<nat>, ns: seq<nat>)
    requires multiset(list) == multiset(ns) && AllAddresses(ns) && NumericallyAscending(ns)
    ensures Sorted(Texts(list)) == Texts(ns)
  {
    TextsPermute(list, ns);
    SortedSorts(Texts(list));
    forall i, j | 0 <= i < j < |ns| ensures !StrLess(Texts(ns)[j], Texts(ns)[i]) {
      assert ns[i] in ns && ns[j] in ns;
      TextOrder(ns[j], ns[i]);
    }
    AscendingUnique(Sorted(Texts(list)), Texts(ns));
  }

  lemma EncodeOwnTexts(round: nat, list: seq<nat>)
    requires AllAddresses(list)
    ensures EncodeTexts(round, Texts(list)) == Ok(EncodeRoundUp(round, list))
  {
    var ts := Texts(list);
    forall i | 0 <= i < |ts| ensures ReadAddress(ts[i]) == Ok(list[i]) {
      assert list[i] in list;
      TextNumber(list[i]);
    }
    assert seq(|ts|, i requires 0 <= i < |ts| => ReadAddress(ts[i]).value) == list;
  }

  /** A vote signs what the relaying node rebuilds: for every letter case in which the contract answers and every
      order in which it answers or the event lists the relayers, it is the encoding of the ascending list. */
  lemma RoundMessageIsCanonical(round: nat, raw: seq<string>, listed: seq<nat>, emitted: seq<nat>, ns: seq<nat>)
    requires LowerAll(raw) == Texts(listed)
    requires multiset(listed) == multiset(emitted) == multiset(ns) && AllAddresses(ns) && NumericallyAscending(ns)
    ensures VoterMessage(round, raw) == RebuiltMessage(round, emitted) == Ok(EncodeRoundUp(round, ns))
  {
    TextsSortNumerically(listed, ns);
    TextsSortNumerically(emitted, ns);
    EncodeOwnTexts(round, ns);
  }

  // ----- different rounds or lists never share a message -----

  lemma {:induction false} FlatInjective(ws: seq<seq<byte>>, vs: seq<seq<byte>>)
    requires AllWords(ws) && AllWords(vs) && Flat(ws) == Flat(vs)
    ensures ws == vs
  {
    assert |ws| == |vs|;
    forall k | 0 <= k < |ws| ensures ws[k] == vs[k] {
      FlatAt(ws, k);
      FlatAt(vs, k);
    }
  }

  lemma AddressFitsWord(a: nat)
    requires IsAddress(a)
    ensures a < Pow(256, WORD)
  {
    PowSquare(20);
    PowMonotone(256, 20, WORD);
  }

  lemma WordInjective(m: nat, n: nat)
    requires m < Pow(256, WORD) && n < Pow(256, WORD) && Word(m) == Word(n)
    ensures m == n
  {
    FixedInjective(m, n, 256, WORD);
  }

  /** A signature given for one round or one relayer list is over no other round's or list's message. */
  lemma RoundMessagesDiffer(round: nat, list: seq<nat>, round': nat, list': seq<nat>)
    requires round < Pow(256, WORD) && round' < Pow(256, WORD) && AllAddresses(list) && AllAddresses(list')
    ensures EncodeRoundUp(round, list) == EncodeRoundUp(round', list') <==> round == round' && list == list'
  {
    if EncodeRoundUp(round, list) == EncodeRoundUp(round', list') {
      FlatInjective(RoundWords(round, list), RoundWords(round', list'));
      SameWords(round, list, round', list');
    }
  }

  lemma SameWords(round: nat, list: seq<nat>, round': nat, list': seq<nat>)
    requires round < Pow(256, WORD) && round' < Pow(256, WORD) && AllAddresses(list) && AllAddresses(list')
    requires RoundWords(round, list) == RoundWords(round', list')
    ensures round == round' && list == list'
  {
    assert |list| + 3 == |RoundWords(round, list)| == |list'| + 3;
    RoundWordsAt(round, list);
    RoundWordsAt(round', list');
    WordInjective(round, round');
    forall i | 0 <= i < |list| ensures list[i] == list'[i] {
      assert Word(list[i]) == RoundWords(round, list)[i + 3] == Word(list'[i]);
      SameAddress(list[i], list'[i]);
    }
  }

  lemma RoundWordsAt(round: nat, list: seq<nat>)
    ensures RoundWords(round, list)[0] == Word(round)
    ensures forall i :: 0 <= i < |list| ==> RoundWords(round, list)[i + 3] == Word(list[i])
  {
  }

  lemma SameAddress(a: nat, b: nat)
    requires IsAddress(a) && IsAddress(b) && Word(a) == Word(b)
    ensures a == b
  {
    AddressFitsWord(a);
    AddressFitsWord(b);
    WordInjective(a, b);
  }

  // ----- from the votes to the relay -----

  /** A member's vote on a round: it read the list in some order and letter case. */
  ghost predicate VotedOn(c: Crypto, round: nat, emitted: seq<nat>, key: nat, raw: seq<string>, listed: seq<nat>,
                          x: Signature)
  {
    && LowerAll(raw) == Texts(listed) && multiset(listed) == multiset(emitted)
    && VoterMessage(round, raw).Ok? && x == c.sign(key, VoterMessage(round, raw).value)
  }

  /** The parameters of the round relay. */
  datatype RoundSubmit = RoundSubmit(round: nat, relayers: seq<string>, sigs: seq<Signature>)

  /** AggregatedRoundUpSubmit.submit_tuple. */
  method SubmitRound(submit: SubmitWithSig, c: Crypto, round: nat, emitted: seq<nat>) returns (r: Result<RoundSubmit>)
    requires submit.Valid()
    modifies submit
    ensures submit.Valid()
    ensures r == match RebuiltMessage(round, emitted)
                 case Raised(x) => Raised(x)
                 case Ok(msg) =>
                   Ok(RoundSubmit(round, Sorted(Texts(emitted)), Canonical(c, msg, old(submit.Contents()))))
  {
    var relayers := Sorted(Texts(emitted));
    var msg :- EncodeTexts(round, relayers);
    submit.SortSigs(c, msg);
    r := Ok(RoundSubmit(round, relayers, Zip(submit.sigs.r, submit.sigs.s, submit.sigs.v)));
  }

  /** AggregatedRoundUpSubmit over the votes of a round names every voter once, ascending. */
  lemma RoundVotesReachTheRelay(c: Crypto, round: nat, emitted: seq<nat>, ns: seq<nat>, keys: seq<nat>,
                                raws: seq<seq<string>>, lists: seq<seq<nat>>, ss: seq<Signature>)
    requires Lawful(c) && multiset(emitted) == multiset(ns) && AllAddresses(ns) && NumericallyAscending(ns)
    requires |keys| == |raws| == |lists| == |ss|
    requires forall i :: 0 <= i < |ss| ==> VotedOn(c, round, emitted, keys[i], raws[i], lists[i], ss[i])
    ensures RebuiltMessage(round, emitted).Ok?
    ensures var msg := RebuiltMessage(round, emitted).value;
      StrictlyAscending(Recovered(c, msg, Canonical(c, msg, ss)))
      && forall a :: a in Recovered(c, msg, Canonical(c, msg, ss)) <==> AddressOf(c, keys, a)
  {
    TextsSortNumerically(emitted, ns);
    EncodeOwnTexts(round, ns);
    var msg := RebuiltMessage(round, emitted).value;
    forall i | 0 <= i < |ss| ensures ss[i] == c.sign(keys[i], msg) {
      assert VotedOn(c, round, emitted, keys[i], raws[i], lists[i], ss[i]);
      RoundMessageIsCanonical(round, raws[i], lists[i], emitted, ns);
    }
    NoVoterIsLost(c, msg, keys, ss);
  }
}
