/** Relayer lists as rbclib/utils.py fetches them, the sorted order they define, and primary election. */
module RelayerSets {
  import opened Common
  import opened Positional

  // ----- strings: str.lower and the order of sorted() -----

  function LowerChar(c: char): char {
    if 'A' <= c <= 'Z' then (c as int - 'A' as int + 'a' as int) as char else c
  }

  function Lower(s: string): (t: string)
    ensures |t| == |s|
  {
    seq(|s|, i requires 0 <= i < |s| => LowerChar(s[i]))
  }

  function Codes(s: string): (ds: seq<nat>)
    ensures |ds| == |s|
  {
    seq(|s|, i requires 0 <= i < |s| => s[i] as nat)
  }

  predicate StrLess(x: string, y: string) {
    Less(Codes(x), Codes(y))
  }

  lemma {:induction false} LessTotal(x: seq<nat>, y: seq<nat>)
    ensures Less(x, y) || x == y || Less(y, x)
    ensures !(Less(x, y) && Less(y, x)) && !Less(x, x)
  {
    if x != [] && y != [] {
      LessTotal(x[1..], y[1..]);
      assert x == [x[0]] + x[1..] && y == [y[0]] + y[1..];
    }
    if x != [] { LessIrreflexive(x); }
  }

  lemma {:induction false} LessIrreflexive(x: seq<nat>)
    ensures !Less(x, x)
  {
    if x != [] { LessIrreflexive(x[1..]); }
  }

  lemma {:induction false} LessTransitive(x: seq<nat>, y: seq<nat>, z: seq<nat>)
    requires Less(x, y) && Less(y, z)
    ensures Less(x, z)
  {
    if x != [] && x[0] == y[0] == z[0] { LessTransitive(x[1..], y[1..], z[1..]); }
  }

  lemma CodesInjective(x: string, y: string)
    requires Codes(x) == Codes(y)
    ensures x == y
  {
    assert forall i :: 0 <= i < |x| ==> x[i] == Codes(x)[i] as char && y[i] == Codes(y)[i] as char;
  }

  lemma StrTotal(x: string, y: string)
    ensures StrLess(x, y) || x == y || StrLess(y, x)
    ensures !(StrLess(x, y) && StrLess(y, x)) && !StrLess(x, x)
  {
    LessTotal(Codes(x), Codes(y));
    LessIrreflexive(Codes(x));
    if Codes(x) == Codes(y) { CodesInjective(x, y); }
  }

  lemma StrTransitive(x: string, y: string, z: string)
    requires StrLess(x, y) && StrLess(y, z)
    ensures StrLess(x, z)
  {
    LessTransitive(Codes(x), Codes(y), Codes(z));
  }

  // ----- sorted() on strings -----

  function Insert(x: string, s: seq<string>): seq<string> {
    if s == [] then [x] else if StrLess(s[0], x) then [s[0]] + Insert(x, s[1..]) else [x] + s
  }

  function Sorted(s: seq<string>): seq<string> {
    if s == [] then [] else Insert(s[0], Sorted(s[1..]))
  }

  ghost predicate Ascending(s: seq<string>) {
    forall i, j :: 0 <= i < j < |s| ==> !StrLess(s[j], s[i])
  }

  ghost predicate StrictlyAscending(s: seq<string>) {
    forall i, j :: 0 <= i < j < |s| ==> StrLess(s[i], s[j])
  }

  ghost predicate Distinct<T>(s: seq<T>) {
    forall i, j :: 0 <= i < j < |s| ==> s[i] != s[j]
  }

  lemma {:induction false} InsertMembers(x: string, s: seq<string>)
    ensures multiset(Insert(x, s)) == multiset(s) + multiset{x} && |Insert(x, s)| == |s| + 1
  {
    if s != [] {
      assert s == [s[0]] + s[1..];
      InsertMembers(x, s[1..]);
    }
  }

  lemma {:induction false} InsertKeeps(x: string, s: seq<string>)
    requires Ascending(s)
    ensures Ascending(Insert(x, s))
    decreases |s|
  {
    if s == [] {
    } else if StrLess(s[0], x) {
      InsertKeeps(x, s[1..]);
      InsertMembers(x, s[1..]);
      HeadNotAbove(x, s, Insert(x, s[1..]));
      AscendingCons(s[0], Insert(x, s[1..]));
    } else {
      forall j | 0 <= j < |s| ensures !StrLess(s[j], x) { NoneBelow(x, s, j); }
      AscendingCons(x, s);
    }
  }

  lemma HeadNotAbove(x: string, s: seq<string>, t: seq<string>)
    requires Ascending(s) && s != [] && StrLess(s[0], x) && multiset(t) == multiset(s[1..]) + multiset{x}
    ensures forall j :: 0 <= j < |t| ==> !StrLess(t[j], s[0])
  {
    forall j | 0 <= j < |t| ensures !StrLess(t[j], s[0]) {
      assert t[j] in multiset(t);
      if t[j] == x {
        StrTotal(s[0], x);
      } else {
        assert t[j] in s[1..];
        var k :| 1 <= k < |s| && s[k] == t[j];
      }
    }
  }

  lemma AscendingCons(x: string, s: seq<string>)
    requires Ascending(s) && forall j :: 0 <= j < |s| ==> !StrLess(s[j], x)
    ensures Ascending([x] + s)
  {
  }

  lemma NoneBelow(x: string, s: seq<string>, j: nat)
    requires Ascending(s) && j < |s| && !StrLess(s[0], x)
    ensures !StrLess(s[j], x)
  {
    StrTotal(s[0], s[j]);
    if StrLess(s[0], s[j]) && StrLess(s[j], x) { StrTransitive(s[0], s[j], x); }
  }

  /** sorted() is ascending and keeps every entry with its multiplicity. */
  lemma {:induction false} SortedSorts(s: seq<string>)
    ensures Ascending(Sorted(s)) && multiset(Sorted(s)) == multiset(s) && |Sorted(s)| == |s|
    decreases |s|
  {
    if s != [] {
      var front := Sorted(s[1..]);
      SortedSorts(s[1..]);
      InsertKeeps(s[0], front);
      InsertMembers(s[0], front);
      HeadCounts(s);
    }
  }

  lemma HeadCounts(s: seq<string>)
    requires s != []
    ensures multiset(s) == multiset(s[1..]) + multiset{s[0]}
  {
    assert s == [s[0]] + s[1..];
  }

  /** There is one ascending arrangement of a multiset. */
  lemma {:induction false} AscendingUnique(s: seq<string>, t: seq<string>)
    requires Ascending(s) && Ascending(t) && multiset(s) == multiset(t)
    ensures s == t
  {
    assert |s| == |multiset(s)| && |t| == |multiset(t)|;
    if s != [] {
      SameHead(s, t);
      assert s == [s[0]] + s[1..] && t == [t[0]] + t[1..];
      assert multiset(s[1..]) == multiset(s) - multiset{s[0]};
      assert multiset(t[1..]) == multiset(t) - multiset{t[0]};
      AscendingUnique(s[1..], t[1..]);
    }
  }

  lemma SameHead(s: seq<string>, t: seq<string>)
    requires Ascending(s) && Ascending(t) && multiset(s) == multiset(t) && s != [] && t != []
    ensures s[0] == t[0]
  {
    assert s[0] in multiset(t) && t[0] in multiset(s);
    var i :| 0 <= i < |t| && t[i] == s[0];
    var j :| 0 <= j < |s| && s[j] == t[0];
    StrTotal(s[0], t[0]);
  }

  /** sorted() depends on the entries only, not on the order in which they come. */
  lemma SortedIsCanonical(s: seq<string>, t: seq<string>)
    requires multiset(s) == multiset(t)
    ensures Sorted(s) == Sorted(t)
  {
    SortedSorts(s);
    SortedSorts(t);
    AscendingUnique(Sorted(s), Sorted(t));
  }

  lemma DistinctByMultiset<T>(s: seq<T>, t: seq<T>)
    requires Distinct(s) && multiset(s) == multiset(t)
    ensures Distinct(t)
  {
    forall i, j | 0 <= i < j < |t| ensures t[i] != t[j] {
      if t[i] == t[j] {
        MultiplicityTwo(t, i, j);
        MultiplicityOne(s, t[i]);
      }
    }
  }

  lemma MultiplicityTwo<T>(t: seq<T>, i: nat, j: nat)
    requires i < j < |t| && t[i] == t[j]
    ensures multiset(t)[t[i]] >= 2
  {
    assert t == t[..j] + t[j..];
    assert t[i] in t[..j];
    assert t[j] in t[j..];
    assert multiset(t) == multiset(t[..j]) + multiset(t[j..]);
  }

  lemma {:induction false} MultiplicityOne<T>(s: seq<T>, x: T)
    requires Distinct(s)
    ensures multiset(s)[x] <= 1
  {
    if s != [] {
      assert s == [s[0]] + s[1..];
      MultiplicityOne(s[1..], x);
      if x == s[0] {
        assert forall k :: 0 <= k < |s| - 1 ==> s[1..][k] != x;
        assert x !in s[1..];
      }
    }
  }

  lemma SortedDistinct(s: seq<string>)
    requires Distinct(s)
    ensures StrictlyAscending(Sorted(s)) && Distinct(Sorted(s))
  {
    SortedSorts(s);
    var t := Sorted(s);
    DistinctByMultiset(s, t);
    forall i, j | 0 <= i < j < |t| ensures StrLess(t[i], t[j]) { StrTotal(t[i], t[j]); }
  }

  // ----- relayer lists -----

  /** list.index, with None for the ValueError that fetch_relayer_index turns into None. */
  function IndexOf(s: seq<string>, x: string): (r: Option<nat>)
    ensures r.Some? ==> r.value < |s| && s[r.value] == x && x !in s[..r.value]
    ensures r.None? ==> x !in s
  {
    if s == [] then None
    else if s[0] == x then Some(0)
    else match IndexOf(s[1..], x)
      case None => None
      case Some(i) => Some(i + 1)
  }

  function LowerAll(s: seq<string>): (t: seq<string>)
    ensures |t| == |s|
  {
    seq(|s|, i requires 0 <= i < |s| => Lower(s[i]))
  }

  /** fetch_sorted_relayer_list_lower on the list the contract answers. */
  function SortedRelayers(raw: seq<string>): seq<string> {
    Sorted(LowerAll(raw))
  }

  /** fetch_relayer_index on the list the contract answers. */
  function RelayerIndex(raw: seq<string>, me: string): Option<nat> {
    IndexOf(SortedRelayers(raw), Lower(me))
  }

  /** A relayer has an index exactly when the list names it, in any letter case. */
  lemma IndexedIffListed(raw: seq<string>, me: string)
    ensures RelayerIndex(raw, me).Some? <==> exists i :: 0 <= i < |raw| && Lower(raw[i]) == Lower(me)
  {
    var lows := LowerAll(raw);
    SortedSorts(lows);
    if RelayerIndex(raw, me).Some? {
      assert Lower(me) in multiset(Sorted(lows));
      var i :| 0 <= i < |lows| && lows[i] == Lower(me);
      assert Lower(raw[i]) == Lower(me);
    }
    if i :| 0 <= i < |raw| && Lower(raw[i]) == Lower(me) {
      assert lows[i] == Lower(me);
      assert Lower(me) in multiset(lows);
      assert Lower(me) in multiset(Sorted(lows));
    }
  }

  /** Indices are a bijection between the listed relayers and 0..n-1. */
  lemma IndexIsBijection(raw: seq<string>, k: nat)
    requires Distinct(LowerAll(raw)) && k < |raw|
    ensures exists i :: 0 <= i < |raw| && RelayerIndex(raw, raw[i]) == Some(k)
    ensures forall i, j :: 0 <= i < j < |raw| ==> RelayerIndex(raw, raw[i]) != RelayerIndex(raw, raw[j])
    ensures forall i :: 0 <= i < |raw| ==> RelayerIndex(raw, raw[i]).Some? && RelayerIndex(raw, raw[i]).value < |raw|
  {
    var i := IndexReached(raw, k);
    forall i | 0 <= i < |raw|
      ensures RelayerIndex(raw, raw[i]).Some? && RelayerIndex(raw, raw[i]).value < |raw| && Indexed(raw, i)
    {
      IndexOfListed(raw, i);
    }
    forall i, j | 0 <= i < j < |raw| ensures RelayerIndex(raw, raw[i]) != RelayerIndex(raw, raw[j]) {
      assert Indexed(raw, i) && Indexed(raw, j);
      assert LowerAll(raw)[i] != LowerAll(raw)[j];
    }
  }

  /** The i-th relayer of the list has an index, and the sorted list names it there. */
  predicate Indexed(raw: seq<string>, i: nat)
    requires i < |raw|
  {
    match RelayerIndex(raw, raw[i])
    case None => false
    case Some(n) => n < |raw| == |SortedRelayers(raw)| && SortedRelayers(raw)[n] == LowerAll(raw)[i]
  }

  lemma IndexOfListed(raw: seq<string>, i: nat)
    requires i < |raw|
    ensures Indexed(raw, i)
  {
    SortedSorts(LowerAll(raw));
    IndexedIffListed(raw, raw[i]);
  }

  lemma IndexReached(raw: seq<string>, k: nat) returns (i: nat)
    requires Distinct(LowerAll(raw)) && k < |raw|
    ensures i < |raw| && RelayerIndex(raw, raw[i]) == Some(k)
  {
    var lows, t := LowerAll(raw), SortedRelayers(raw);
    SortedSorts(lows);
    SortedDistinct(lows);
    assert t[k] in multiset(t);
    i :| 0 <= i < |lows| && lows[i] == t[k];
    IndexOfListed(raw, i);
  }

  /** A relayer is primary when its index is the block number modulo a set size. */
  predicate IsPrimary(raw: seq<string>, me: string, block: nat, setSize: nat)
    requires setSize > 0
  {
    RelayerIndex(raw, me) == Some(block % setSize)
  }

  ghost predicate HasPrimary(raw: seq<string>, block: nat, setSize: nat)
    requires setSize > 0
  {
    exists i :: 0 <= i < |raw| && IsPrimary(raw, raw[i], block, setSize)
  }

  ghost predicate AtMostOnePrimary(raw: seq<string>, block: nat, setSize: nat)
    requires setSize > 0
  {
    forall i, j :: 0 <= i < j < |raw| && IsPrimary(raw, raw[i], block, setSize) ==>
      !IsPrimary(raw, raw[j], block, setSize)
  }

  /** Two addresses never hold one index, so at most one of them is primary. */
  lemma ElectedAlone(raw: seq<string>, me: string, you: string, block: nat, setSize: nat)
    requires Lower(me) != Lower(you)
    ensures setSize > 0 && IsPrimary(raw, me, block, setSize) ==> !IsPrimary(raw, you, block, setSize)
  {
  }

  /** RoundUp events elect over the previous round's own list: exactly one primary, always. */
  lemma RoundUpElectsOne(raw: seq<string>, block: nat)
    requires Distinct(LowerAll(raw)) && raw != []
    ensures HasPrimary(raw, block, |raw|) && AtMostOnePrimary(raw, block, |raw|)
  {
    IndexIsBijection(raw, block % |raw|);
  }

  /** Socket events take the index from the event's round but the modulus from the current set: at most one
      primary, and exactly one precisely when the remainder is an index of the event's round. */
  lemma SocketElection(raw: seq<string>, block: nat, currentSize: nat)
    requires Distinct(LowerAll(raw)) && currentSize > 0
    ensures HasPrimary(raw, block, currentSize) <==> block % currentSize < |raw|
    ensures AtMostOnePrimary(raw, block, currentSize)
  {
    if raw != [] { IndexIsBijection(raw, if block % currentSize < |raw| then block % currentSize else 0); }
  }

  /** So every block has its primary exactly when the current set is no larger than the event's. */
  lemma EveryBlockHasPrimary(raw: seq<string>, currentSize: nat)
    requires Distinct(LowerAll(raw)) && currentSize > 0
    ensures (forall block: nat :: HasPrimary(raw, block, currentSize)) <==> currentSize <= |raw|
  {
    forall block: nat
      ensures HasPrimary(raw, block, currentSize) <==> block % currentSize < |raw|
    {
      SocketElection(raw, block, currentSize);
    }
    if currentSize > |raw| {
      assert |raw| % currentSize == |raw|;
      assert !HasPrimary(raw, |raw|, currentSize);
    }
  }
}
