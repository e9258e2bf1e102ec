/** Signature collections and their canonical order (rbclib/submits.py). Recovering and signing are parameters. */
module Signatures {
  import opened Common
  import opened Positional
  import opened RelayerSets
  import opened SocketMessages
  import opened RelayerNode
  import opened SocketSteps
  import opened SocketEvents
  import SocketRuns

  datatype Signature = Signature(r: nat, s: nat, v: byte)

  /** ecdsa_recover_address (as the address's hex text), ecdsa_recoverable_sign, and the address of a key. */
  datatype Crypto = Crypto(
    recover: (Signature, seq<byte>) -> string,
    sign: (nat, seq<byte>) -> Signature,
    address: nat -> string)

  ghost predicate Lawful(c: Crypto) {
    forall key: nat, msg: seq<byte> :: c.recover(c.sign(key, msg), msg) == c.address(key)
  }

  // ----- the canonical form -----

  function Recovered(c: Crypto, msg: seq<byte>, ss: seq<Signature>): (signers: seq<string>)
    ensures |signers| == |ss|
  {
    seq(|ss|, i requires 0 <= i < |ss| => c.recover(ss[i], msg))
  }

  /** A signature of ss after which its signer signs no more. */
  ghost predicate LastOfItsSigner(c: Crypto, msg: seq<byte>, ss: seq<Signature>, x: Signature) {
    exists k :: 0 <= k < |ss| && LastAt(c, msg, ss, x, k)
  }

  ghost predicate LastAt(c: Crypto, msg: seq<byte>, ss: seq<Signature>, x: Signature, k: nat)
    requires k < |ss|
  {
    ss[k] == x && forall j :: k < j < |ss| ==> c.recover(ss[j], msg) != c.recover(x, msg)
  }

  /** Ascending by signer, with the signers of ss and no others, each by its last signature. */
  ghost predicate IsCanonical(c: Crypto, msg: seq<byte>, ss: seq<Signature>, out: seq<Signature>) {
    && StrictlyAscending(Recovered(c, msg, out))
    && SameMembers(Recovered(c, msg, out), Recovered(c, msg, ss))
    && forall x <- out :: LastOfItsSigner(c, msg, ss, x)
  }

  ghost predicate SameMembers(s: seq<string>, t: seq<string>) {
    forall x :: x in s <==> x in t
  }

  /** The dict that _sort_sigs fills: a later signature of a signer replaces the earlier one. */
  function Filed(c: Crypto, msg: seq<byte>, ss: seq<Signature>): map<string, Signature> {
    if ss == [] then map[]
    else
      var x := ss[|ss| - 1];
      Filed(c, msg, ss[..|ss| - 1])[c.recover(x, msg) := x]
  }

  /** Its keys in the order of insertion. */
  function Keys(c: Crypto, msg: seq<byte>, ss: seq<Signature>): seq<string> {
    if ss == [] then []
    else
      var before, signer := Keys(c, msg, ss[..|ss| - 1]), c.recover(ss[|ss| - 1], msg);
      if signer in before then before else before + [signer]
  }

  function Pick(d: map<string, Signature>, keys: seq<string>): (out: seq<Signature>)
    requires forall k <- keys :: k in d
    ensures |out| == |keys|
  {
    seq(|keys|, i requires 0 <= i < |keys| => d[keys[i]])
  }

  /** What _sort_sigs leaves; a single signature is left as it is. */
  function Canonical(c: Crypto, msg: seq<byte>, ss: seq<Signature>): seq<Signature> {
    KeysOfDict(c, msg, ss);
    SortedSorts(Keys(c, msg, ss));
    InMultiset(Sorted(Keys(c, msg, ss)), Keys(c, msg, ss));
    if |ss| == 1 then ss else Pick(Filed(c, msg, ss), Sorted(Keys(c, msg, ss)))
  }

  lemma InMultiset(s: seq<string>, t: seq<string>)
    requires multiset(s) == multiset(t)
    ensures SameMembers(s, t)
  {
    assert forall x :: x in s <==> x in multiset(s);
    assert forall x :: x in t <==> x in multiset(t);
  }

  lemma {:induction false} KeysOfDict(c: Crypto, msg: seq<byte>, ss: seq<Signature>)
    ensures Distinct(Keys(c, msg, ss))
    ensures forall k :: k in Keys(c, msg, ss) <==> k in Filed(c, msg, ss)
  {
    if ss != [] { KeysOfDict(c, msg, ss[..|ss| - 1]); }
  }

  lemma {:induction false} SignersFiled(c: Crypto, msg: seq<byte>, ss: seq<Signature>, a: string)
    ensures a in Filed(c, msg, ss) <==> a in Recovered(c, msg, ss)
  {
    if ss != [] {
      var init, x := ss[..|ss| - 1], ss[|ss| - 1];
      SignersFiled(c, msg, init, a);
      assert Recovered(c, msg, ss) == Recovered(c, msg, init) + [c.recover(x, msg)];
    }
  }

  lemma {:induction false} FiledIsLast(c: Crypto, msg: seq<byte>, ss: seq<Signature>, a: string) returns (k: nat)
    requires a in Filed(c, msg, ss)
    ensures k < |ss| && LastAt(c, msg, ss, Filed(c, msg, ss)[a], k) && c.recover(Filed(c, msg, ss)[a], msg) == a
  {
    var init, x := ss[..|ss| - 1], ss[|ss| - 1];
    if c.recover(x, msg) == a {
      k := |ss| - 1;
    } else {
      k := FiledIsLast(c, msg, init, a);
      assert forall j :: 0 <= j < |init| ==> ss[j] == init[j];
    }
  }

  lemma PickedSigners(c: Crypto, msg: seq<byte>, ss: seq<Signature>, keys: seq<string>)
    requires forall k <- keys :: k in Filed(c, msg, ss)
    ensures Recovered(c, msg, Pick(Filed(c, msg, ss), keys)) == keys
    ensures forall x <- Pick(Filed(c, msg, ss), keys) :: LastOfItsSigner(c, msg, ss, x)
  {
    var out := Pick(Filed(c, msg, ss), keys);
    forall i | 0 <= i < |keys| ensures c.recover(out[i], msg) == keys[i] && LastOfItsSigner(c, msg, ss, out[i]) {
      var k := FiledIsLast(c, msg, ss, keys[i]);
    }
  }

  lemma CanonicalMeets(c: Crypto, msg: seq<byte>, ss: seq<Signature>)
    ensures IsCanonical(c, msg, ss, Canonical(c, msg, ss))
  {
    if |ss| == 1 {
      assert LastAt(c, msg, ss, ss[0], 0);
    } else {
      var keys := Sorted(Keys(c, msg, ss));
      KeysOfDict(c, msg, ss);
      SortedDistinct(Keys(c, msg, ss));
      SortedSorts(Keys(c, msg, ss));
      InMultiset(keys, Keys(c, msg, ss));
      PickedSigners(c, msg, ss, keys);
      forall a ensures a in keys <==> a in Recovered(c, msg, ss) { SignersFiled(c, msg, ss, a); }
    }
  }

  lemma {:induction false} StrictUnique(s: seq<string>, t: seq<string>)
    requires StrictlyAscending(s) && StrictlyAscending(t) && SameMembers(s, t)
    ensures s == t
  {
    assert (s != [] ==> s[0] in s) && (t != [] ==> t[0] in t);
    if s != [] {
      StrictHead(s, t);
      assert s == [s[0]] + s[1..] && t == [t[0]] + t[1..];
      StrictTail(s);
      StrictTail(t);
      forall x ensures x in s[1..] <==> x in t[1..] { assert x in s <==> x in t; }
      StrictUnique(s[1..], t[1..]);
    }
  }

  lemma StrictHead(s: seq<string>, t: seq<string>)
    requires StrictlyAscending(s) && StrictlyAscending(t) && SameMembers(s, t) && s != [] && t != []
    ensures s[0] == t[0]
  {
    assert s[0] in s && t[0] in t;
    var i :| 0 <= i < |t| && t[i] == s[0];
    var j :| 0 <= j < |s| && s[j] == t[0];
    StrTotal(s[0], t[0]);
  }

  lemma StrictTail(s: seq<string>)
    requires StrictlyAscending(s) && s != []
    ensures StrictlyAscending(s[1..]) && s[0] !in s[1..]
  {
    forall i | 1 <= i < |s| ensures s[i] != s[0] { StrTotal(s[0], s[i]); }
  }

  lemma LastUnique(c: Crypto, msg: seq<byte>, ss: seq<Signature>, x: Signature, y: Signature)
    requires LastOfItsSigner(c, msg, ss, x) && LastOfItsSigner(c, msg, ss, y) && c.recover(x, msg) == c.recover(y, msg)
    ensures x == y
  {
    var i :| 0 <= i < |ss| && LastAt(c, msg, ss, x, i);
    var j :| 0 <= j < |ss| && LastAt(c, msg, ss, y, j);
  }

  lemma CanonicalUnique(c: Crypto, msg: seq<byte>, ss: seq<Signature>, out: seq<Signature>, out': seq<Signature>)
    requires IsCanonical(c, msg, ss, out) && IsCanonical(c, msg, ss, out')
    ensures out == out'
  {
    StrictUnique(Recovered(c, msg, out), Recovered(c, msg, out'));
    assert |out| == |Recovered(c, msg, out)| == |out'|;
    forall i | 0 <= i < |out| ensures out[i] == out'[i] {
      assert Recovered(c, msg, out)[i] == Recovered(c, msg, out')[i];
      assert out[i] in out && out'[i] in out';
      LastUnique(c, msg, ss, out[i], out'[i]);
    }
  }

  /** The sorted collection is the one collection that meets the description, whatever the size. */
  lemma CanonicalIffDescribed(c: Crypto, msg: seq<byte>, ss: seq<Signature>, out: seq<Signature>)
    ensures out == Canonical(c, msg, ss) <==> IsCanonical(c, msg, ss, out)
  {
    CanonicalMeets(c, msg, ss);
    if IsCanonical(c, msg, ss, out) { CanonicalUnique(c, msg, ss, out, Canonical(c, msg, ss)); }
  }

  lemma DistinctSignersLast(c: Crypto, msg: seq<byte>, ss: seq<Signature>, k: nat)
    requires Distinct(Recovered(c, msg, ss)) && k < |ss|
    ensures LastAt(c, msg, ss, ss[k], k)
  {
    forall j | k < j < |ss| ensures c.recover(ss[j], msg) != c.recover(ss[k], msg) {
      assert Recovered(c, msg, ss)[j] != Recovered(c, msg, ss)[k];
    }
  }

  /** Sorting a second time changes nothing. */
  lemma CanonicalIdempotent(c: Crypto, msg: seq<byte>, ss: seq<Signature>)
    ensures Canonical(c, msg, Canonical(c, msg, ss)) == Canonical(c, msg, ss)
  {
    var out := Canonical(c, msg, ss);
    CanonicalMeets(c, msg, ss);
    StrictIsDistinct(Recovered(c, msg, out));
    forall k | 0 <= k < |out| ensures LastOfItsSigner(c, msg, out, out[k]) { DistinctSignersLast(c, msg, out, k); }
    CanonicalIffDescribed(c, msg, out, out);
  }

  lemma StrictIsDistinct(s: seq<string>)
    requires StrictlyAscending(s)
    ensures Distinct(s)
  {
    forall i, j | 0 <= i < j < |s| ensures s[i] != s[j] { StrTotal(s[i], s[j]); }
  }

  /** With one signature per signer the order in which they were collected does not matter. */
  lemma CanonicalIgnoresOrder(c: Crypto, msg: seq<byte>, ss: seq<Signature>, tt: seq<Signature>)
    requires multiset(ss) == multiset(tt) && Distinct(Recovered(c, msg, ss))
    ensures Canonical(c, msg, ss) == Canonical(c, msg, tt)
  {
    var out := Canonical(c, msg, ss);
    CanonicalMeets(c, msg, ss);
    assert forall x :: x in ss <==> x in multiset(ss);
    assert forall x :: x in tt <==> x in multiset(tt);
    SignersOfSame(c, msg, ss, tt);
    DistinctSignersOfSame(c, msg, ss, tt);
    forall x | x in out ensures LastOfItsSigner(c, msg, tt, x) {
      var i :| 0 <= i < |ss| && LastAt(c, msg, ss, x, i);
      assert x in ss;
      var k :| 0 <= k < |tt| && tt[k] == x;
      DistinctSignersLast(c, msg, tt, k);
    }
    CanonicalIffDescribed(c, msg, tt, out);
  }

  lemma DistinctSignersOfSame(c: Crypto, msg: seq<byte>, ss: seq<Signature>, tt: seq<Signature>)
    requires multiset(ss) == multiset(tt) && Distinct(Recovered(c, msg, ss))
    ensures Distinct(Recovered(c, msg, tt))
  {
    forall i, j | 0 <= i < j < |ss| ensures ss[i] != ss[j] {
      assert Recovered(c, msg, ss)[i] != Recovered(c, msg, ss)[j];
    }
    DistinctByMultiset(ss, tt);
    forall i, j | 0 <= i < j < |tt| ensures c.recover(tt[i], msg) != c.recover(tt[j], msg) {
      assert tt[i] in multiset(ss) && tt[j] in multiset(ss);
      var a :| 0 <= a < |ss| && ss[a] == tt[i];
      var b :| 0 <= b < |ss| && ss[b] == tt[j];
      assert Recovered(c, msg, ss)[a] != Recovered(c, msg, ss)[b];
    }
  }

  lemma SignersOfSame(c: Crypto, msg: seq<byte>, ss: seq<Signature>, tt: seq<Signature>)
    requires forall x :: x in ss <==> x in tt
    ensures SameMembers(Recovered(c, msg, ss), Recovered(c, msg, tt))
  {
    SignersOfMore(c, msg, ss, tt);
    SignersOfMore(c, msg, tt, ss);
  }

  lemma SignersOfMore(c: Crypto, msg: seq<byte>, ss: seq<Signature>, tt: seq<Signature>)
    requires forall x <- ss :: x in tt
    ensures forall a <- Recovered(c, msg, ss) :: a in Recovered(c, msg, tt)
  {
    forall a | a in Recovered(c, msg, ss) ensures a in Recovered(c, msg, tt) {
      var i :| 0 <= i < |ss| && Recovered(c, msg, ss)[i] == a;
      assert ss[i] in tt;
      var k :| 0 <= k < |tt| && tt[k] == ss[i];
      assert Recovered(c, msg, tt)[k] == a;
    }
  }

  // ----- the objects -----

  /** SocketSignature: three parallel lists and their common length, extended in place. */
  class SocketSignature {
    var r: seq<nat>
    var s: seq<nat>
    var v: seq<byte>
    var num: nat

    ghost predicate Valid()
      reads this
    {
      |r| == |s| == |v| == num
    }

    ghost function Contents(): (ss: seq<Signature>)
      requires Valid()
      reads this
      ensures |ss| == num
    {
      Zip(r, s, v)
    }

    constructor Init()
      ensures Valid() && Contents() == []
    {
      r, s, v, num := [], [], [], 0;
    }

    /** The constructor on decoded signatures, whose lists must have one length. */
    static method FromLists(r: seq<nat>, s: seq<nat>, v: seq<byte>) returns (res: Result<SocketSignature>)
      ensures res.Ok? <==> |r| == |s| == |v|
      ensures res.Ok? ==> fresh(res.value) && res.value.Valid() && res.value.Contents() == Zip(r, s, v)
      ensures res.Raised? ==> res.reason == Refused
    {
      if |r| != |s| || |r| != |v| { return Raised(Refused); }
      var sigs := new SocketSignature.Init();
      sigs.r, sigs.s, sigs.v, sigs.num := r, s, v, |r|;
      res := Ok(sigs);
    }

    /** merge_sigs; `other` may be this very collection. */
    method MergeSigs(other: SocketSignature)
      requires Valid() && other.Valid()
      modifies this
      ensures Valid() && Contents() == old(Contents()) + old(other.Contents())
    {
      r := r + other.r;
      s := s + other.s;
      v := v + other.v;
      num := num + other.num;
    }

    method GetSingleSig(index: nat) returns (res: Result<Signature>)
      requires Valid()
      ensures res == if index < num then Ok(Contents()[index]) else Raised(Refused)
    {
      if num <= index { return Raised(Refused); }
      res := Ok(Signature(r[index], s[index], v[index]));
    }
  }

  function Zip(r: seq<nat>, s: seq<nat>, v: seq<byte>): (ss: seq<Signature>)
    requires |r| == |s| == |v|
    ensures |ss| == |r|
  {
    seq(|r|, i requires 0 <= i < |r| => Signature(r[i], s[i], v[i]))
  }

  /** The parameters of the poll method. */
  datatype Poll = Poll(message: SocketMessage, sigs: seq<Signature>, forcedFail: nat)

  class SubmitWithSig {
    var sigs: SocketSignature

    ghost predicate Valid()
      reads this, sigs
    {
      sigs.Valid()
    }

    ghost function Contents(): seq<Signature>
      requires Valid()
      reads this, sigs
    {
      sigs.Contents()
    }

    constructor ()
      ensures Valid() && Contents() == [] && fresh(sigs)
    {
      sigs := new SocketSignature.Init();
    }

    method AddSingleSig(x: Signature)
      requires Valid()
      modifies sigs
      ensures Valid() && Contents() == old(Contents()) + [x]
    {
      var one := SocketSignature.FromLists([x.r], [x.s], [x.v]);
      sigs.MergeSigs(one.value);
    }

    method AddSigs(more: SocketSignature)
      requires Valid() && more.Valid()
      modifies sigs
      ensures Valid() && Contents() == old(Contents()) + old(more.Contents())
    {
      sigs.MergeSigs(more);
    }

    /** add_tuple_sigs: lists of different lengths raise and add nothing. */
    method AddTupleSigs(r: seq<nat>, s: seq<nat>, v: seq<byte>) returns (res: Result<()>)
      requires Valid()
      modifies sigs
      ensures Valid() && (res.Ok? <==> |r| == |s| == |v|) && (res.Raised? ==> res.reason == Refused)
      ensures Contents() == if res.Ok? then old(Contents()) + Zip(r, s, v) else old(Contents())
    {
      var more := SocketSignature.FromLists(r, s, v);
      if more.Raised? { return Raised(more.reason); }
      sigs.MergeSigs(more.value);
      res := Ok(());
    }

    /** _sort_sigs: the collection is rebound to a new one and rebuilt signature by signature. */
    method SortSigs(c: Crypto, msg: seq<byte>)
      requires Valid()
      modifies this
      ensures Valid() && Contents() == Canonical(c, msg, old(Contents()))
      ensures if old(|Contents()|) == 1 then sigs == old(sigs) else fresh(sigs)
    {
      if sigs.num == 1 { return; }
      ghost var ss := Contents();
      var all := sigs;
      sigs := new SocketSignature.Init();
      var dict: map<string, Signature>, order: seq<string> := map[], [];
      for i := 0 to all.num
        invariant all.Valid() && all.Contents() == ss && fresh(sigs) && sigs.Valid() && sigs.Contents() == []
        invariant dict == Filed(c, msg, ss[..i]) && order == Keys(c, msg, ss[..i])
      {
        var one := all.GetSingleSig(i);
        assert ss[..i + 1][..i] == ss[..i];
        var signer := c.recover(one.value, msg);
        dict := dict[signer := one.value];
        if signer !in order { order := order + [signer]; }
      }
      assert ss[..|ss|] == ss;
      KeysOfDict(c, msg, ss);
      SortedSorts(order);
      InMultiset(Sorted(order), order);
      Rebuild(dict, Sorted(order));
    }

    /** The last loop of _sort_sigs. */
    method Rebuild(dict: map<string, Signature>, keys: seq<string>)
      requires Valid() && Contents() == [] && forall k <- keys :: k in dict
      modifies sigs
      ensures Valid() && Contents() == Pick(dict, keys)
    {
      for i := 0 to |keys|
        invariant Valid() && Contents() == Pick(dict, keys)[..i]
      {
        AddSingleSig(dict[keys[i]]);
      }
    }

    /** PollSubmit.submit_tuple. */
    method SubmitTuple(c: Crypto, message: SocketMessage, data: seq<byte>, failOption: bool) returns (p: Poll)
      requires Valid()
      modifies this
      ensures Valid() && p == Poll(message, Canonical(c, data, old(Contents())), if failOption then 1 else 0)
      ensures Contents() == p.sigs
    {
      SortSigs(c, data);
      p := Poll(message, Zip(sigs.r, sigs.s, sigs.v), if failOption then 1 else 0);
    }
  }

  // ----- from the votes to the relay -----

  ghost predicate SignedBy(c: Crypto, msg: seq<byte>, keys: seq<nat>, ss: seq<Signature>) {
    |ss| == |keys| && forall i :: 0 <= i < |ss| ==> ss[i] == c.sign(keys[i], msg)
  }

  ghost predicate AddressOf(c: Crypto, keys: seq<nat>, a: string) {
    exists key <- keys :: c.address(key) == a
  }

  /** Whatever was collected over a message, in any order and with repetitions, the submitted list names every
      voter once, in ascending order, and nobody else. */
  lemma NoVoterIsLost(c: Crypto, msg: seq<byte>, keys: seq<nat>, ss: seq<Signature>)
    requires Lawful(c) && SignedBy(c, msg, keys, ss)
    ensures StrictlyAscending(Recovered(c, msg, Canonical(c, msg, ss)))
    ensures forall a :: a in Recovered(c, msg, Canonical(c, msg, ss)) <==> AddressOf(c, keys, a)
  {
    CanonicalMeets(c, msg, ss);
    forall a ensures a in Recovered(c, msg, ss) <==> AddressOf(c, keys, a) { VotersRecovered(c, msg, keys, ss, a); }
  }

  lemma VotersRecovered(c: Crypto, msg: seq<byte>, keys: seq<nat>, ss: seq<Signature>, a: string)
    requires Lawful(c) && SignedBy(c, msg, keys, ss)
    ensures a in Recovered(c, msg, ss) <==> AddressOf(c, keys, a)
  {
    var signers := Recovered(c, msg, ss);
    forall i | 0 <= i < |ss| ensures signers[i] == c.address(keys[i]) { assert ss[i] == c.sign(keys[i], msg); }
    if a in signers {
      var i :| 0 <= i < |ss| && signers[i] == a;
      assert keys[i] in keys;
    }
    if AddressOf(c, keys, a) {
      var key :| key in keys && c.address(key) == a;
      var i :| 0 <= i < |keys| && keys[i] == key;
      assert signers[i] == a;
    }
  }

  /** A poll of the event's message, signed over its record with the status of SignedFor spliced in. */
  ghost predicate IsVote(cfg: Config, c: Crypto, key: nat, e: SocketEvent, p: Poll)
    reads e, e.detected
  {
    && p.message == e.decoded && p.forcedFail == 0
    && p.sigs == match SignedFor(cfg, e.Value())
                 case None => []
                 case Some(s) => [c.sign(key, ChangeStatus(e.detected.data, Code(s)))]
  }

  /** The vote of one event: build_transaction_param_with_sig and the two other builders that sign. */
  method BuildVote(cfg: Config, c: Crypto, key: nat, e: SocketEvent) returns (p: Poll)
    requires e.Valid() && (e.kind.Requested? || e.kind.Failed? || e.kind.Executed? || e.kind.Reverted?)
    ensures IsVote(cfg, c, key, e, p)
  {
    var data := e.detected.data;
    var submit := new SubmitWithSig();
    if e.kind.Requested? && e.decoded.chain != cfg.bifrost {
      p := submit.SubmitTuple(c, e.decoded, data, false);
      return;
    }
    var msg := data;
    if e.kind.Requested? {
      msg := ChangeStatus(data, Code(Accepted));
    } else if !e.kind.Failed? {
      var next := StatusOf(Code(e.kind) + 2);
      msg := ChangeStatus(data, Code(next.value));
    } else {
      assert Records(e.detected, e.decoded, e.kind);
      OwnStatus(data, e.kind);
    }
    submit.AddSingleSig(c.sign(key, msg));
    p := submit.SubmitTuple(c, e.decoded, data, false);
  }

  /** aggregated_relay: the collected signatures, sorted over the event's own record. */
  method BuildRelaySubmit(c: Crypto, e: SocketEvent, r: seq<nat>, s: seq<nat>, v: seq<byte>) returns (p: Result<Poll>)
    requires e.Valid()
    ensures p == if |r| == |s| == |v| then Ok(Poll(e.decoded, Canonical(c, e.detected.data, Zip(r, s, v)), 0))
                 else Raised(Refused)
  {
    var submit := new SubmitWithSig();
    var _ :- submit.AddTupleSigs(r, s, v);
    assert [] + Zip(r, s, v) == Zip(r, s, v);
    var poll := submit.SubmitTuple(c, e.decoded, e.detected.data, false);
    p := Ok(poll);
  }

  /** Splicing in the status a record already has changes nothing. */
  lemma OwnStatus(data: seq<byte>, s: Status)
    requires |data| >= STATUS_END && ChildOf(FastStatus(data)) == Ok(s)
    ensures ChangeStatus(data, Code(s)) == data
  {
    assert FastStatus(data) == Code(s);
    SpliceJoins(data, data);
  }

  /** Two records of one request: they differ in the status word at most. */
  ghost predicate SameButStatus(x: seq<byte>, y: seq<byte>) {
    && |x| == |y| >= STATUS_END
    && forall i :: 0 <= i < |x| && !(STATUS_START <= i < STATUS_END) ==> x[i] == y[i]
  }

  lemma LogsOfOneRequest(m: SocketMessage, n: SocketMessage)
    requires m.(status := n.status) == n
    ensures SameButStatus(Encode(m), Encode(n))
  {
    SpliceEncoded(m, n.status);
    SpliceShape(Encode(m), n.status);
  }

  /** What one voter signs while handling its log of the request. */
  datatype Ballot = Ballot(key: nat, data: seq<byte>, signedFor: Status)

  function Message(b: Ballot): seq<byte> { ChangeStatus(b.data, Code(b.signedFor)) }

  /** A signature on a ballot of this status, over a log of the request whose record is y. */
  ghost predicate IsBallot(c: Crypto, b: Ballot, y: seq<byte>, kind: Status, x: Signature) {
    SameButStatus(b.data, y) && b.signedFor == kind && x == c.sign(b.key, Message(b))
  }

  /** A vote is over the very bytes of the later log exactly when it was signed for that log's status. */
  lemma VoteMeetsLog(b: Ballot, y: seq<byte>, kind: Status)
    requires SameButStatus(b.data, y) && FastStatus(y) == Code(kind)
    ensures Message(b) == y <==> b.signedFor == kind
  {
    SpliceJoins(b.data, y);
    ByteCodes(b.signedFor);
    PowMonotone(256, 1, WORD);
    SpliceLaws(b.data, Code(b.signedFor), 0);
    CodesDiffer(b.signedFor, kind);
  }

  lemma CodesDiffer(s: Status, t: Status)
    ensures Code(s) == Code(t) <==> s == t
  {
  }

  /** The relaying node sorts the ballots of one status over a log of that status: each recovers its voter there. */
  lemma BallotsReachTheRelay(c: Crypto, y: seq<byte>, kind: Status, ballots: seq<Ballot>, ss: seq<Signature>)
    requires Lawful(c) && FastStatus(y) == Code(kind) && |ballots| == |ss|
    requires forall i :: 0 <= i < |ss| ==> IsBallot(c, ballots[i], y, kind, ss[i])
    ensures NamesVoters(c, y, KeysOf(ballots), ss)
  {
    forall i | 0 <= i < |ss| ensures ss[i] == c.sign(KeysOf(ballots)[i], y) {
      assert IsBallot(c, ballots[i], y, kind, ss[i]);
      VoteMeetsLog(ballots[i], y, kind);
    }
    NoVoterIsLost(c, y, KeysOf(ballots), ss);
  }

  function KeysOf(ballots: seq<Ballot>): (keys: seq<nat>)
    ensures |keys| == |ballots|
  {
    seq(|ballots|, i requires 0 <= i < |ballots| => ballots[i].key)
  }

  /** The canonical form over a message names exactly these voters, each once, in ascending order. */
  ghost predicate NamesVoters(c: Crypto, msg: seq<byte>, keys: seq<nat>, ss: seq<Signature>) {
    && StrictlyAscending(Recovered(c, msg, Canonical(c, msg, ss)))
    && forall a :: a in Recovered(c, msg, Canonical(c, msg, ss)) <==> AddressOf(c, keys, a)
  }

  /** One voter: its configuration and key, the event it handles, and the poll it submits. */
  datatype Voter = Voter(cfg: Config, key: nat, event: SocketEvent, poll: Poll)

  /** The voter's poll is the one BuildVote makes, for the status of the relay and on the same request. */
  ghost predicate VotesFor(c: Crypto, v: Voter, relay: SocketEvent)
    reads v.event, v.event.detected
  {
    && v.event.Valid() && v.event.decoded.(status := relay.decoded.status) == relay.decoded
    && SignedFor(v.cfg, v.event.Value()) == Some(relay.kind)
    && IsVote(v.cfg, c, v.key, v.event, v.poll)
  }

  /** From the votes of the events to the relay: the polls that the voters submit for their logs of a request, collected
      in any order, are sorted by the relaying node over its ACCEPTED or REJECTED log into the list of all voters. */
  lemma VotesReachTheRelay(c: Crypto, voters: seq<Voter>, relay: SocketEvent, keys: seq<nat>, ss: seq<Signature>)
    requires Lawful(c) && relay.Valid() && Relays(relay.kind) && |voters| == |keys| == |ss|
    requires forall i :: 0 <= i < |ss| ==>
      VotesFor(c, voters[i], relay) && keys[i] == voters[i].key && voters[i].poll.sigs == [ss[i]]
    ensures NamesVoters(c, relay.detected.data, keys, ss)
  {
    var y := relay.detected.data;
    assert Records(relay.detected, relay.decoded, relay.kind);
    var ballots := seq(|ss|, i requires 0 <= i < |ss| => BallotOf(voters[i], relay.kind));
    forall i | 0 <= i < |ss| ensures IsBallot(c, ballots[i], y, relay.kind, ss[i]) {
      assert VotesFor(c, voters[i], relay);
      OneBallot(c, voters[i], relay);
    }
    BallotsReachTheRelay(c, y, relay.kind, ballots, ss);
    assert KeysOf(ballots) == keys;
  }

  function BallotOf(v: Voter, kind: Status): Ballot { Ballot(v.key, Encode(v.event.decoded), kind) }

  lemma OneBallot(c: Crypto, v: Voter, relay: SocketEvent)
    requires VotesFor(c, v, relay) && relay.Valid() && |v.poll.sigs| == 1
    ensures IsBallot(c, BallotOf(v, relay.kind), relay.detected.data, relay.kind, v.poll.sigs[0])
  {
    assert Records(relay.detected, relay.decoded, relay.kind);
    assert Records(v.event.detected, v.event.decoded, v.event.kind);
    LogsOfOneRequest(v.event.decoded, relay.decoded);
  }

  // ----- the votes of whole runs -----

  /** What the vote at position p signs: its log's record with the recorded status. */
  function VotedMessage(s: SocketRuns.State, p: nat): seq<byte>
    requires p < |s.log| && s.log[p].Voted? && s.log[p].signed.Some? && s.log[p].id < |s.arrived|
  {
    ChangeStatus(Encode(s.arrived[s.log[p].id].msg), Code(s.log[p].signed.value))
  }

  /** A splice forgets the status it replaces. */
  lemma SameSplice(m: SocketMessage, n: SocketMessage, status: nat)
    requires m.(status := n.status) == n
    ensures ChangeStatus(Encode(n), status) == ChangeStatus(Encode(m), status)
  {
    SpliceEncoded(m, status);
    SpliceEncoded(n, status);
    assert m.(status := status) == n.(status := status);
  }

  lemma VoteOfPop(cfg: Config, init: seq<SocketRuns.Label>, t: SocketRuns.State, l: SocketRuns.Label,
                  s: SocketRuns.State, p: nat)
    returns (e: Event)
    requires SocketRuns.Exec(cfg, SocketRuns.START, init) == Some(t) && SocketRuns.Next(cfg, t, l) == Some(s)
    requires |t.log| <= p < |s.log| && s.log[p].Voted?
    ensures s.log[p].id < |s.arrived| && SocketRuns.Derived(cfg, s.arrived[s.log[p].id], e)
    ensures CallsForVote(cfg, e) && s.log[p].signed == SignedFor(cfg, e)
  {
    SocketRuns.RunsKeepInv(cfg, init);
    e := t.queue[l.id];
    assert SocketRuns.EventInv(cfg, t.log, t.arrived[l.id], e);
    assert s.log[p] in Handle(cfg, e, l.a).value.acts;
    VoteOfStep(cfg, e, l.a, s.log[p]);
  }

  /** A step votes only as it builds. */
  lemma VoteOfStep(cfg: Config, e: Event, a: Answers, act: Act)
    requires Handle(cfg, e, a).Ok? && act in Handle(cfg, e, a).value.acts && act.Voted?
    ensures act.id == e.id && CallsForVote(cfg, e) && act.signed == SignedFor(cfg, e)
  {
    assert e.phase.Send? && Authorised(cfg, e.msg) == Ok(true);
    VotesAreSignedFor(cfg, e, a);
  }

  /** Every vote that a run records was built for an event derived from its log, and it signs that log's own record with
      the recorded status spliced in. */
  lemma {:induction false} VotesAreBuilt(cfg: Config, labels: seq<SocketRuns.Label>, s: SocketRuns.State, p: nat)
    returns (e: Event)
    requires SocketRuns.Exec(cfg, SocketRuns.START, labels) == Some(s) && p < |s.log| && s.log[p].Voted?
    ensures s.log[p].id < |s.arrived| && SocketRuns.Derived(cfg, s.arrived[s.log[p].id], e)
    ensures CallsForVote(cfg, e) && s.log[p].signed == SignedFor(cfg, e)
    ensures s.log[p].signed.Some? ==>
      ChangeStatus(Encode(e.msg), Code(s.log[p].signed.value)) == VotedMessage(s, p)
    decreases |labels|
  {
    var n := |labels| - 1;
    var t := SocketRuns.Exec(cfg, SocketRuns.START, labels[..n]).value;
    if p < |t.log| {
      e := VotesAreBuilt(cfg, labels[..n], t, p);
      assert s.log[p] == t.log[p];
    } else {
      e := VoteOfPop(cfg, labels[..n], t, labels[n], s, p);
    }
    if s.log[p].signed.Some? { SameSplice(s.arrived[s.log[p].id].msg, e.msg, Code(s.log[p].signed.value)); }
  }

  /** A vote somewhere in a relayer's run. */
  datatype Cast = Cast(cfg: Config, labels: seq<SocketRuns.Label>, state: SocketRuns.State, at: nat, key: nat)

  /** It is for this request and this status. */
  ghost predicate CastFor(v: Cast, m: SocketMessage, kind: Status) {
    && SocketRuns.Exec(v.cfg, SocketRuns.START, v.labels) == Some(v.state)
    && v.at < |v.state.log| && v.state.log[v.at].Voted? && v.state.log[v.at].signed == Some(kind)
    && v.state.log[v.at].id < |v.state.arrived| && LogOf(v).(status := m.status) == m
  }

  /** And this signature is over what it signs. */
  ghost predicate Signs(c: Crypto, v: Cast, m: SocketMessage, kind: Status, x: Signature) {
    CastFor(v, m, kind) && x == c.sign(v.key, VotedMessage(v.state, v.at))
  }

  /** The log that the vote answers. */
  function LogOf(v: Cast): SocketMessage
    requires v.at < |v.state.log| && v.state.log[v.at].id < |v.state.arrived|
  {
    v.state.arrived[v.state.log[v.at].id].msg
  }

  /** The same over whole runs: the votes for a status that any relayers cast in any runs, for their logs of one
      request, name their voters over the record of the log that carries the status. */
  lemma RunVotesReachTheRelay(c: Crypto, casts: seq<Cast>, m: SocketMessage, kind: Status, keys: seq<nat>,
                              ss: seq<Signature>)
    requires Lawful(c) && InRange(m) && m.status == Code(kind) && |casts| == |keys| == |ss|
    requires forall i :: 0 <= i < |ss| ==> Signs(c, casts[i], m, kind, ss[i]) && keys[i] == casts[i].key
    ensures NamesVoters(c, Encode(m), keys, ss)
  {
    var ballots := CastBallots(c, casts, m, kind, keys, ss);
    FastStatusOf(m);
    BallotsReachTheRelay(c, Encode(m), kind, ballots, ss);
  }

  lemma CastBallots(c: Crypto, casts: seq<Cast>, m: SocketMessage, kind: Status, keys: seq<nat>, ss: seq<Signature>)
    returns (ballots: seq<Ballot>)
    requires |casts| == |keys| == |ss|
    requires forall i :: 0 <= i < |ss| ==> Signs(c, casts[i], m, kind, ss[i]) && keys[i] == casts[i].key
    ensures |ballots| == |ss| && KeysOf(ballots) == keys
    ensures forall i :: 0 <= i < |ss| ==> IsBallot(c, ballots[i], Encode(m), kind, ss[i])
  {
    ballots := seq(|ss|, i requires 0 <= i < |ss| && Signs(c, casts[i], m, kind, ss[i]) =>
      CastBallot(casts[i], m, kind));
    forall i | 0 <= i < |ss| ensures IsBallot(c, ballots[i], Encode(m), kind, ss[i]) {
      OneCast(c, casts[i], m, kind, ss[i]);
    }
  }

  ghost function CastBallot(v: Cast, m: SocketMessage, kind: Status): Ballot
    requires CastFor(v, m, kind)
  {
    Ballot(v.key, Encode(LogOf(v)), kind)
  }

  lemma OneCast(c: Crypto, v: Cast, m: SocketMessage, kind: Status, x: Signature)
    requires Signs(c, v, m, kind, x)
    ensures IsBallot(c, CastBallot(v, m, kind), Encode(m), kind, x)
  {
    LogsOfOneRequest(LogOf(v), m);
  }
}
