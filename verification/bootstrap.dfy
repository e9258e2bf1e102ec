/** Bootstrap recovery: a log history is folded into one pending event per request
    (RbcEvent.bootstrap, _remove_finalized_rids, extract_latest_event_status). */
module Bootstrap {
  import opened Common
  import opened Positional
  import opened RelayerSets
  import opened SocketMessages
  import opened RelayerNode
  import opened SocketSteps
  import opened SocketEvents
  import SocketRuns

  // ----- what recovery should give, over the messages of the logs -----

  predicate FinalStatus(m: SocketMessage) { m.status == Code(Committed) || m.status == Code(Rollbacked) }

  /** How far a status is along the life of a request: the status number for an inbound one; for an outbound one
      COMMITTED, ROLLBACKED, EXECUTED, REVERTED, ACCEPTED, REJECTED, REQUESTED, FAILED downwards. */
  function LifeRank(cfg: Config, m: SocketMessage): nat {
    if Inbound(cfg, m) then m.status
    else if m.status == Code(Committed) then 8 else if m.status == Code(Rollbacked) then 7
    else if m.status == Code(Executed) then 6 else if m.status == Code(Reverted) then 5
    else if m.status == Code(Accepted) then 4 else if m.status == Code(Rejected) then 3
    else if m.status == Code(Requested) then 2 else 1
  }

  ghost predicate Latest(cfg: Config, ms: seq<SocketMessage>, o: SocketMessage) {
    o in ms && forall n <- ms :: SameRequest(n, o) ==> LifeRank(cfg, n) <= LifeRank(cfg, o)
  }

  ghost predicate Finalised(ms: seq<SocketMessage>, m: SocketMessage) {
    exists n <- ms :: SameRequest(n, m) && FinalStatus(n)
  }

  /** The later filter: recent rounds, and for a fast relayer only ACCEPTED, since the other comparison of the
      source is with the enum class and never equal. */
  predicate Keeps(cfg: Config, minRound: int, m: SocketMessage) {
    m.round >= minRound && (cfg.role.Fast? ==> m.status == Code(Accepted))
  }

  ghost predicate IsRecovery(cfg: Config, ms: seq<SocketMessage>, minRound: int, outs: seq<SocketMessage>) {
    && (forall i, j :: 0 <= i < j < |outs| ==> !SameRequest(outs[i], outs[j]))
    && (forall o <- outs :: Latest(cfg, ms, o) && !FinalStatus(o) && Keeps(cfg, minRound, o))
    && (forall m <- ms :: Latest(cfg, ms, m) && !FinalStatus(m) && Keeps(cfg, minRound, m) ==> Recovers(outs, m))
  }

  /** An outbound request of which only FAILED logs are left: the code looks up REQUESTED in their statuses. */
  ghost predicate OnlyFailed(cfg: Config, ms: seq<SocketMessage>, m: SocketMessage) {
    !Inbound(cfg, m) && forall n <- ms :: SameRequest(n, m) ==> n.status == Code(Failed)
  }

  ghost predicate Raises(cfg: Config, ms: seq<SocketMessage>) {
    exists m <- ms :: m.chain !in cfg.known || OnlyFailed(cfg, ms, m)
  }

  /** The statuses that select_child has a class for. */
  predicate HasClass(m: SocketMessage) { 1 <= m.status <= 8 }

  ghost predicate Classes(ms: seq<SocketMessage>) {
    forall m <- ms :: HasClass(m)
  }

  /** A request voted down whose earlier logs lie before the scanned blocks: recovery raises, although every status has
      its class and the chain is known. */
  lemma FailedHistoryRaises(cfg: Config) returns (ms: seq<SocketMessage>)
    requires cfg.bifrost in cfg.known && cfg.bifrost < Pow(256, INDEX_BYTES)
    ensures Classes(ms) && (forall m <- ms :: m.chain in cfg.known && InRange(m)) && Raises(cfg, ms)
  {
    var m := SocketMessage(cfg.bifrost, 0, 0, Code(Failed), 0, 0, TaskParams(0, 0, 0, 0, 0, []));
    ByteCodes(Failed);
    ms := [m];
    assert OnlyFailed(cfg, ms, m);
  }

  lemma LifeRankInjective(cfg: Config, m: SocketMessage, n: SocketMessage)
    requires 1 <= m.status <= 8 && 1 <= n.status <= 8 && SameRequest(m, n) && LifeRank(cfg, m) == LifeRank(cfg, n)
    ensures m.status == n.status
  {
  }

  lemma {:induction false} LatestExists(cfg: Config, ms: seq<SocketMessage>, m: SocketMessage)
    returns (o: SocketMessage)
    requires m in ms
    ensures Latest(cfg, ms, o) && SameRequest(o, m)
  {
    var i :| 0 <= i < |ms| && ms[i] == m;
    o := m;
    for k := 0 to |ms|
      invariant o in ms && SameRequest(o, m)
      invariant forall n <- ms[..k] :: SameRequest(n, o) ==> LifeRank(cfg, n) <= LifeRank(cfg, o)
    {
      assert ms[..k + 1] == ms[..k] + [ms[k]];
      if SameRequest(ms[k], o) && LifeRank(cfg, ms[k]) > LifeRank(cfg, o) { o := ms[k]; }
    }
    assert ms[..|ms|] == ms;
  }

  lemma RecoveredIsOpen(cfg: Config, ms: seq<SocketMessage>, minRound: int, outs: seq<SocketMessage>,
                        m: SocketMessage, o: SocketMessage)
    requires Classes(ms) && IsRecovery(cfg, ms, minRound, outs) && o in outs && SameRequest(o, m)
    ensures !Finalised(ms, m) && m.round >= minRound
  {
    forall n | n in ms && SameRequest(n, m) ensures !FinalStatus(n) {
      assert SameRequest(n, o);
    }
  }

  lemma OpenIsRecovered(cfg: Config, ms: seq<SocketMessage>, minRound: int, outs: seq<SocketMessage>, m: SocketMessage)
    returns (o: SocketMessage)
    requires IsRecovery(cfg, ms, minRound, outs)
    requires !cfg.role.Fast? && m in ms && !Finalised(ms, m) && m.round >= minRound
    ensures o in outs && SameRequest(o, m)
  {
    var top := LatestExists(cfg, ms, m);
    assert !FinalStatus(top);
    o :| o in outs && SameRequest(o, top);
  }

  ghost predicate Recovers(outs: seq<SocketMessage>, m: SocketMessage) {
    exists o <- outs :: SameRequest(o, m)
  }

  /** A relayer that is not fast recovers exactly the requests that no log finalises and that are recent enough. */
  lemma RecoveredRequests(cfg: Config, ms: seq<SocketMessage>, minRound: int, outs: seq<SocketMessage>,
                          m: SocketMessage)
    requires Classes(ms) && IsRecovery(cfg, ms, minRound, outs) && !cfg.role.Fast? && m in ms
    ensures Recovers(outs, m) <==> !Finalised(ms, m) && m.round >= minRound
  {
    if Recovers(outs, m) {
      var o :| o in outs && SameRequest(o, m);
      RecoveredIsOpen(cfg, ms, minRound, outs, m, o);
    }
    if !Finalised(ms, m) && m.round >= minRound {
      var o := OpenIsRecovered(cfg, ms, minRound, outs, m);
    }
  }

  /** The history of the request holds a log of this status number. */
  ghost predicate Reached(ms: seq<SocketMessage>, m: SocketMessage, status: nat) {
    exists n <- ms :: SameRequest(n, m) && n.status == status
  }

  /** The latest log of an inbound request has its highest status number. */
  lemma LatestInbound(cfg: Config, ms: seq<SocketMessage>, o: SocketMessage)
    requires Latest(cfg, ms, o) && o.chain != cfg.bifrost
    ensures forall n <- ms :: SameRequest(n, o) ==> n.status <= o.status
  {
  }

  /** The latest log of an outbound request is the first there is of COMMITTED (7), ROLLBACKED (8), EXECUTED (3),
      REVERTED (4), ACCEPTED (5), REJECTED (6), REQUESTED (1) and FAILED (2). */
  lemma LatestOutbound(cfg: Config, ms: seq<SocketMessage>, o: SocketMessage)
    requires Latest(cfg, ms, o) && Classes(ms) && o.chain == cfg.bifrost
    ensures o.status == 7 <==> Reached(ms, o, 7)
    ensures o.status == 8 <==> !Reached(ms, o, 7) && Reached(ms, o, 8)
    ensures !Reached(ms, o, 7) && !Reached(ms, o, 8) ==>
      && (Reached(ms, o, 3) ==> o.status == 3)
      && (!Reached(ms, o, 3) && Reached(ms, o, 4) ==> o.status == 4)
    ensures o.status == 5 <==> Reached(ms, o, 5) && forall k <- [7, 8, 3, 4] :: !Reached(ms, o, k)
    ensures o.status == 6 <==> Reached(ms, o, 6) && forall k <- [7, 8, 3, 4, 5] :: !Reached(ms, o, k)
    ensures o.status == 1 <==> Reached(ms, o, 1) && forall k <- [7, 8, 3, 4, 5, 6] :: !Reached(ms, o, k)
    ensures o.status == 2 <==> forall k <- [7, 8, 3, 4, 5, 6, 1] :: !Reached(ms, o, k)
  {
    assert Reached(ms, o, o.status);
  }

  /** In either direction the status that ends a relay ranks above the relay's own class. */
  lemma EndRanksAbove(cfg: Config, m: SocketMessage, n: SocketMessage, kind: Status, end: Status)
    requires SameRequest(m, n) && Relays(kind) && SocketRuns.IsFinal(cfg, m, kind, end)
    requires m.status == Code(kind) && n.status == Code(end)
    ensures LifeRank(cfg, m) < LifeRank(cfg, n)
  {
  }

  /** What is recovered is where the request stands: nothing final is in its history, and a relay class is taken up only
      when no log of the status that ends it is there. */
  lemma RecoveredIsWhereItStands(cfg: Config, ms: seq<SocketMessage>, minRound: int, outs: seq<SocketMessage>,
                                 o: SocketMessage)
    requires Classes(ms) && IsRecovery(cfg, ms, minRound, outs) && o in outs
    ensures !Reached(ms, o, 7) && !Reached(ms, o, 8) && o.round >= minRound && (cfg.role.Fast? ==> o.status == 5)
    ensures o.chain == cfg.bifrost ==>
      && (Reached(ms, o, 3) ==> o.status == 3) && (!Reached(ms, o, 3) && Reached(ms, o, 4) ==> o.status == 4)
      && (o.status == 5 || o.status == 6 ==> !Reached(ms, o, 3) && !Reached(ms, o, 4))
    ensures o.chain != cfg.bifrost ==> forall n <- ms :: SameRequest(n, o) ==> n.status <= o.status
  {
    assert Latest(cfg, ms, o) && !FinalStatus(o) && Keeps(cfg, minRound, o);
    if o.chain == cfg.bifrost { OpenOutbound(cfg, ms, o); } else { OpenInbound(cfg, ms, o); }
  }

  lemma OpenOutbound(cfg: Config, ms: seq<SocketMessage>, o: SocketMessage)
    requires Latest(cfg, ms, o) && Classes(ms) && !FinalStatus(o) && o.chain == cfg.bifrost
    ensures !Reached(ms, o, 7) && !Reached(ms, o, 8)
    ensures (Reached(ms, o, 3) ==> o.status == 3) && (!Reached(ms, o, 3) && Reached(ms, o, 4) ==> o.status == 4)
  {
    LatestOutbound(cfg, ms, o);
  }

  lemma OpenInbound(cfg: Config, ms: seq<SocketMessage>, o: SocketMessage)
    requires Latest(cfg, ms, o) && Classes(ms) && !FinalStatus(o) && o.chain != cfg.bifrost
    ensures !Reached(ms, o, 7) && !Reached(ms, o, 8) && forall n <- ms :: SameRequest(n, o) ==> n.status <= o.status
  {
    LatestInbound(cfg, ms, o);
  }

  /** For every role the latest log of a request decides alone; a fast relayer takes up ACCEPTED ones only. */
  lemma LatestDecides(cfg: Config, ms: seq<SocketMessage>, minRound: int, outs: seq<SocketMessage>, m: SocketMessage)
    requires Classes(ms) && IsRecovery(cfg, ms, minRound, outs) && Latest(cfg, ms, m)
    ensures Recovers(outs, m) <==>
      m.status != 7 && m.status != 8 && m.round >= minRound && (cfg.role.Fast? ==> m.status == 5)
  {
    LatestIsTaken(cfg, ms, minRound, outs, m);
  }

  lemma LatestIsTaken(cfg: Config, ms: seq<SocketMessage>, minRound: int, outs: seq<SocketMessage>, m: SocketMessage)
    requires Classes(ms) && IsRecovery(cfg, ms, minRound, outs) && Latest(cfg, ms, m)
    ensures Recovers(outs, m) <==> !FinalStatus(m) && Keeps(cfg, minRound, m)
  {
    if Recovers(outs, m) {
      var o :| o in outs && SameRequest(o, m);
      SameTaken(cfg, ms, minRound, outs, o, m);
    }
  }

  lemma SameTaken(cfg: Config, ms: seq<SocketMessage>, minRound: int, outs: seq<SocketMessage>,
                  o: SocketMessage, m: SocketMessage)
    requires Classes(ms) && IsRecovery(cfg, ms, minRound, outs) && o in outs && SameRequest(o, m) && Latest(cfg, ms, m)
    ensures !FinalStatus(m) && Keeps(cfg, minRound, m)
  {
    assert Latest(cfg, ms, o) && !FinalStatus(o) && Keeps(cfg, minRound, o);
    OneLatest(cfg, ms, o, m);
  }

  /** What is recovered does not depend on the order of the logs: the same requests with the same statuses. */
  lemma OrderDoesNotMatter(cfg: Config, ms: seq<SocketMessage>, ns: seq<SocketMessage>, minRound: int,
                           outs: seq<SocketMessage>, outs': seq<SocketMessage>, o: SocketMessage)
    requires Classes(ms) && multiset(ms) == multiset(ns)
    requires IsRecovery(cfg, ms, minRound, outs) && IsRecovery(cfg, ns, minRound, outs') && o in outs
    ensures exists o' <- outs' :: SameRequest(o', o) && o'.status == o.status
  {
    LatestElsewhere(cfg, ms, ns, o);
    assert Recovers(outs', o);
    var o' :| o' in outs' && SameRequest(o', o);
    OneLatest(cfg, ns, o, o');
  }

  lemma OneLatest(cfg: Config, ms: seq<SocketMessage>, m: SocketMessage, n: SocketMessage)
    requires Latest(cfg, ms, m) && Latest(cfg, ms, n) && SameRequest(m, n) && Classes(ms)
    ensures m.status == n.status
  {
    LifeRankInjective(cfg, m, n);
  }

  lemma SameMembers(ms: seq<SocketMessage>, ns: seq<SocketMessage>)
    requires multiset(ms) == multiset(ns)
    ensures forall m :: m in ms <==> m in ns
  {
    assert forall m :: m in ms <==> m in multiset(ms);
    assert forall m :: m in ns <==> m in multiset(ns);
  }

  lemma LatestElsewhere(cfg: Config, ms: seq<SocketMessage>, ns: seq<SocketMessage>, o: SocketMessage)
    requires multiset(ms) == multiset(ns) && Latest(cfg, ms, o)
    ensures Latest(cfg, ns, o) && (Classes(ms) ==> Classes(ns))
  {
    SameMembers(ms, ns);
  }

  // ----- the code -----

  function Msgs(es: seq<SocketEvent>): (ms: seq<SocketMessage>)
    ensures |ms| == |es|
  {
    seq(|es|, i requires 0 <= i < |es| => es[i].decoded)
  }

  predicate NotAfter(d: SocketEvent, e: SocketEvent) { Code(d.kind) <= Code(e.kind) }

  ghost predicate Ordered(es: seq<SocketEvent>) {
    forall i, j :: 0 <= i < j < |es| ==> NotAfter(es[i], es[j])
  }

  /** sort_by_event_status. The pairs hold the status number first; how equal numbers are arranged is left open. */
  method SortByEventStatus(arr: seq<SocketEvent>) returns (r: seq<SocketEvent>)
    ensures multiset(r) == multiset(arr) && Ordered(r)
  {
    r := [];
    for i := 0 to |arr|
      invariant multiset(r) == multiset(arr[..i]) && Ordered(r)
    {
      var k := |r|;
      while k > 0 && !NotAfter(r[k - 1], arr[i])
        invariant 0 <= k <= |r|
        invariant forall j :: k <= j < |r| ==> !NotAfter(r[j], arr[i])
      {
        k := k - 1;
      }
      InsertKeepsAll(r, k, arr[i]);
      InsertKeepsOrder(r, k, arr[i], r[..k] + [arr[i]] + r[k..]);
      assert arr[..i + 1] == arr[..i] + [arr[i]];
      r := r[..k] + [arr[i]] + r[k..];
    }
    assert arr[..|arr|] == arr;
  }

  lemma InsertKeepsAll<T>(r: seq<T>, k: nat, x: T)
    requires k <= |r|
    ensures multiset(r[..k] + [x] + r[k..]) == multiset(r) + multiset{x}
  {
    assert r == r[..k] + r[k..];
  }

  lemma InsertKeepsOrder(r: seq<SocketEvent>, k: nat, x: SocketEvent, s: seq<SocketEvent>)
    requires k <= |r| && Ordered(r) && s == r[..k] + [x] + r[k..]
    requires k > 0 ==> NotAfter(r[k - 1], x)
    requires forall j :: k <= j < |r| ==> !NotAfter(r[j], x)
    ensures Ordered(s)
  {
    forall i, j | 0 <= i < j < |s| ensures NotAfter(s[i], s[j]) {
      var a, b := if i < k then i else i - 1, if j <= k then j else j - 1;
      InsertedPair(r, k, x, a, b);
    }
  }

  lemma InsertedPair(r: seq<SocketEvent>, k: nat, x: SocketEvent, a: int, b: int)
    requires k <= |r| && Ordered(r) && (k > 0 ==> NotAfter(r[k - 1], x))
    requires forall j :: k <= j < |r| ==> !NotAfter(r[j], x)
    ensures 0 <= a < b < |r| ==> NotAfter(r[a], r[b])
    ensures 0 <= a < k ==> NotAfter(r[a], x)
    ensures k <= b < |r| ==> NotAfter(x, r[b])
  {
    if 0 <= a < k - 1 { NotAfterThrough(r[a], r[k - 1], x); }
    if k <= b < |r| { NotAfterTotal(r[b], x); }
  }

  lemma NotAfterTotal(d: SocketEvent, e: SocketEvent)
    ensures NotAfter(d, e) || NotAfter(e, d)
  {
  }

  lemma NotAfterThrough(c: SocketEvent, d: SocketEvent, e: SocketEvent)
    requires NotAfter(c, d) && NotAfter(d, e)
    ensures NotAfter(c, e)
  {
  }

  /** list.index of a status: its first position, or ValueError. */
  method IndexOfStatus(es: seq<SocketEvent>, s: Status) returns (r: Option<nat>)
    ensures r.Some? ==> r.value < |es| && es[r.value].kind == s
    ensures r.None? ==> forall e <- es :: e.kind != s
  {
    for i := 0 to |es|
      invariant forall j :: 0 <= j < i ==> es[j].kind != s
    {
      if es[i].kind == s { return Some(i); }
    }
    r := None;
  }

  /** The direction, the class and the identity that the events of one bootstrap group share. */
  ghost predicate IsGroup(es: seq<SocketEvent>) {
    forall e <- es :: OfItsClass(e) && SameRequest(e.decoded, es[0].decoded)
  }

  ghost predicate Has(es: seq<SocketEvent>, s: Status) { exists e <- es :: e.kind == s }

  /** The first status of the list that some event of the group has. */
  ghost predicate IsFirst(s: Status, es: seq<SocketEvent>, list: seq<Status>) {
    exists i :: 0 <= i < |list| && list[i] == s && Has(es, s) && forall j :: 0 <= j < i ==> !Has(es, list[j])
  }

  const OUTBOUND_ORDER := [Committed, Rollbacked, Executed, Reverted, Accepted, Rejected, Requested]

  /** extract_latest_event_status on one request's events. */
  method ExtractLatest(cfg: Config, arr: seq<SocketEvent>) returns (r: Result<SocketEvent>)
    requires arr != [] && IsGroup(arr) && arr[0].decoded.chain in cfg.known
    ensures r.Raised? <==> !Inbound(cfg, arr[0].decoded) && forall e <- arr :: e.kind.Failed?
    ensures r.Ok? ==> r.value in arr && forall e <- arr :: LifeRank(cfg, e.decoded) <= LifeRank(cfg, r.value.decoded)
    ensures r.Ok? && arr[0].decoded.chain != cfg.bifrost ==> forall e <- arr :: Code(e.kind) <= Code(r.value.kind)
    ensures r.Ok? && arr[0].decoded.chain == cfg.bifrost ==> IsFirst(r.value.kind, arr,
      [Committed, Rollbacked, Executed, Reverted, Accepted, Rejected, Requested])
  {
    var sorted := SortByEventStatus(arr);
    assert forall e :: e in sorted <==> e in multiset(sorted);
    assert forall e :: e in arr <==> e in multiset(arr);
    assert |sorted| == |multiset(sorted)| == |arr|;
    assert sorted[0] in sorted;
    var inbound := sorted[0].decoded.chain != cfg.bifrost;
    if inbound { return Ok(sorted[|sorted| - 1]); }
    var found := FirstInOrder(sorted);
    if found.Some? {
      SameFirst(found.value.kind, sorted, arr, OUTBOUND_ORDER);
      FirstRanksHighest(cfg, arr, found.value);
      return Ok(found.value);
    }
    // only FAILED is left, whose branch looks up REQUESTED
    forall e | e in sorted ensures e.kind.Failed? { NotInOrder(e.kind); }
    assert sorted[0] in arr;
    r := Raised(ValueError);
  }

  /** The chain of tests on an outbound request's events. */
  method FirstInOrder(es: seq<SocketEvent>) returns (r: Option<SocketEvent>)
    ensures r.Some? ==> r.value in es && IsFirst(r.value.kind, es, OUTBOUND_ORDER)
    ensures r.None? ==> forall e <- es :: e.kind !in OUTBOUND_ORDER
  {
    for i := 0 to |OUTBOUND_ORDER|
      invariant forall j :: 0 <= j < i ==> !Has(es, OUTBOUND_ORDER[j])
    {
      var at := IndexOfStatus(es, OUTBOUND_ORDER[i]);
      if at.Some? {
        assert es[at.value] in es;
        return Some(es[at.value]);
      }
    }
    r := None;
  }

  lemma SameFirst(s: Status, es: seq<SocketEvent>, ds: seq<SocketEvent>, list: seq<Status>)
    requires IsFirst(s, es, list) && forall e :: e in es <==> e in ds
    ensures IsFirst(s, ds, list)
  {
  }

  lemma FirstRanksHighest(cfg: Config, es: seq<SocketEvent>, o: SocketEvent)
    requires o in es && IsGroup(es) && !Inbound(cfg, es[0].decoded) && IsFirst(o.kind, es, OUTBOUND_ORDER)
    ensures forall e <- es :: LifeRank(cfg, e.decoded) <= LifeRank(cfg, o.decoded)
  {
    var i :| 0 <= i < |OUTBOUND_ORDER| && OUTBOUND_ORDER[i] == o.kind
             && forall j :: 0 <= j < i ==> !Has(es, OUTBOUND_ORDER[j]);
    RankInOrder(cfg, o.decoded, o.kind, i);
    forall e | e in es ensures LifeRank(cfg, e.decoded) <= LifeRank(cfg, o.decoded) {
      assert e.kind !in OUTBOUND_ORDER[..i];
      RankInOrder(cfg, e.decoded, e.kind, i);
    }
  }

  /** The order of the chain of tests is that of LifeRank. */
  lemma RankInOrder(cfg: Config, m: SocketMessage, s: Status, i: nat)
    requires !Inbound(cfg, m) && m.status == Code(s) && 1 <= Code(s) <= 8 && i < |OUTBOUND_ORDER|
    ensures s == OUTBOUND_ORDER[i] ==> LifeRank(cfg, m) == 8 - i
    ensures s !in OUTBOUND_ORDER[..i] ==> LifeRank(cfg, m) <= 8 - i
  {
    assert OUTBOUND_ORDER == [Committed, Rollbacked, Executed, Reverted, Accepted, Rejected, Requested];
    var front := OUTBOUND_ORDER[..i];
    assert (i > 0 ==> front[0] == Committed) && (i > 1 ==> front[1] == Rollbacked) && (i > 2 ==> front[2] == Executed);
    assert (i > 3 ==> front[3] == Reverted) && (i > 4 ==> front[4] == Accepted) && (i > 5 ==> front[5] == Rejected);
  }

  lemma NotInOrder(s: Status)
    requires 1 <= Code(s) <= 8 && s !in OUTBOUND_ORDER
    ensures s.Failed?
  {
    assert OUTBOUND_ORDER == [Committed, Rollbacked, Executed, Reverted, Accepted, Rejected, Requested];
  }

  // ----- grouping by request -----

  type Key = seq<byte>

  function KeyOf(e: SocketEvent): Key { RequestKey(e.decoded) }

  /** Objects as init leaves them: the class is the decoded status. */
  ghost predicate Statuses(es: seq<SocketEvent>) {
    forall e <- es :: OfItsClass(e)
  }

  /** Events under one key belong to one request. */
  ghost predicate KeyLaw(es: seq<SocketEvent>) {
    forall d, e :: d in es && e in es ==> (KeyOf(d) == KeyOf(e) <==> SameRequest(d.decoded, e.decoded))
  }

  /** The dict of the first loop: every event read so far is filed under its key, nothing else is. */
  ghost predicate Filed(groups: map<Key, seq<SocketEvent>>, keys: seq<Key>, es: seq<SocketEvent>) {
    && Distinct(keys) && (forall k :: k in keys <==> k in groups)
    && (forall k :: k in groups ==> groups[k] != [] && forall e <- groups[k] :: e in es && KeyOf(e) == k)
    && (forall e <- es :: KeyOf(e) in groups && e in groups[KeyOf(e)])
  }

  /** The key is injective on what the ABI types can hold. */
  lemma KeysAreRequests(es: seq<SocketEvent>)
    requires forall e <- es :: InRange(e.decoded)
    ensures KeyLaw(es)
  {
    forall d, e | d in es && e in es
      ensures KeyOf(d) == KeyOf(e) <==> SameRequest(d.decoded, e.decoded)
    {
      RequestKeyInjective(d.decoded, e.decoded);
    }
  }

  /** The first loop of _remove_finalized_rids; `keys` is the dict's insertion order. */
  method GroupByRequest(cfg: Config, es: seq<SocketEvent>) returns (r: Result<(map<Key, seq<SocketEvent>>, seq<Key>)>)
    ensures r.Raised? <==> exists e <- es :: e.decoded.chain !in cfg.known
    ensures r.Ok? ==> Filed(r.value.0, r.value.1, es)
  {
    var groups: map<Key, seq<SocketEvent>>, keys: seq<Key> := map[], [];
    for i := 0 to |es|
      invariant Filed(groups, keys, es[..i])
      invariant forall e <- es[..i] :: e.decoded.chain in cfg.known
    {
      var e := es[i];
      assert es[..i + 1] == es[..i] + [e];
      if e.decoded.chain !in cfg.known { return Raised(ValueError); }
      var k := KeyOf(e);
      if k !in groups {
        groups, keys := groups[k := [e]], keys + [k];
      } else {
        groups := groups[k := groups[k] + [e]];
      }
    }
    assert es[..|es|] == es;
    r := Ok((groups, keys));
  }

  ghost predicate Final(e: SocketEvent) { e.kind.Committed? || e.kind.Rollbacked? }

  /** An event that stands for its request: no event of the request is further along. */
  ghost predicate Tops(cfg: Config, es: seq<SocketEvent>, o: SocketEvent) {
    o in es && forall e <- es :: KeyOf(e) == KeyOf(o) ==> LifeRank(cfg, e.decoded) <= LifeRank(cfg, o.decoded)
  }

  ghost predicate OnlyFailedKey(cfg: Config, es: seq<SocketEvent>, k: Key) {
    forall e <- es :: KeyOf(e) == k ==> !Inbound(cfg, e.decoded) && e.kind.Failed?
  }

  ghost predicate Survives(cfg: Config, es: seq<SocketEvent>, keys: seq<Key>, out: seq<SocketEvent>) {
    && DistinctKeys(out)
    && (forall o <- out :: Tops(cfg, es, o) && !Final(o) && KeyOf(o) in keys)
    && (forall k <- keys ::
          (exists o <- out :: KeyOf(o) == k) || exists e <- es :: KeyOf(e) == k && Final(e) && Tops(cfg, es, e))
  }

  /** _remove_finalized_rids: the latest event of each request that has none finalised, in order of appearance. */
  method RemoveFinalizedRids(cfg: Config, es: seq<SocketEvent>)
    returns (r: Result<seq<SocketEvent>>, ghost keys: seq<Key>)
    requires Statuses(es) && KeyLaw(es)
    ensures r.Raised?
       <==> (exists e <- es :: e.decoded.chain !in cfg.known) || exists e <- es :: OnlyFailedKey(cfg, es, KeyOf(e))
    ensures r.Ok? ==> Survives(cfg, es, keys, r.value) && forall e <- es :: KeyOf(e) in keys
  {
    var grouped := GroupByRequest(cfg, es);
    if grouped.Raised? { return Raised(grouped.reason), []; }
    keys := grouped.value.1;
    forall k | k in keys ensures exists e <- es :: KeyOf(e) == k { FiledUnder(es, grouped.value.0, keys, k); }
    r := LatestOpen(cfg, es, grouped.value.0, grouped.value.1);
  }

  /** The second loop of _remove_finalized_rids. */
  method LatestOpen(cfg: Config, ghost es: seq<SocketEvent>, groups: map<Key, seq<SocketEvent>>, order: seq<Key>)
    returns (r: Result<seq<SocketEvent>>)
    requires Filed(groups, order, es) && Statuses(es) && KeyLaw(es) && forall e <- es :: e.decoded.chain in cfg.known
    ensures r.Raised? <==> exists k <- order :: OnlyFailedKey(cfg, es, k)
    ensures r.Ok? ==> Survives(cfg, es, order, r.value)
  {
    var out: seq<SocketEvent> := [];
    for t := 0 to |order|
      invariant OpenUpTo(cfg, es, order, t, out)
    {
      var next := NextOpen(cfg, es, groups, order, t, out);
      if next.Raised? { return Raised(next.reason); }
      out := next.value;
    }
    assert order[..|order|] == order;
    r := Ok(out);
  }

  /** The loop after its first n keys. */
  ghost predicate OpenUpTo(cfg: Config, es: seq<SocketEvent>, order: seq<Key>, n: nat, out: seq<SocketEvent>)
    requires n <= |order|
  {
    Survives(cfg, es, order[..n], out) && forall j :: 0 <= j < n ==> !OnlyFailedKey(cfg, es, order[j])
  }

  /** One round of the second loop. */
  method NextOpen(cfg: Config, ghost es: seq<SocketEvent>, groups: map<Key, seq<SocketEvent>>, order: seq<Key>, t: nat,
                  out: seq<SocketEvent>)
    returns (r: Result<seq<SocketEvent>>)
    requires Filed(groups, order, es) && Statuses(es) && KeyLaw(es) && forall e <- es :: e.decoded.chain in cfg.known
    requires t < |order| && OpenUpTo(cfg, es, order, t, out)
    ensures r.Raised? <==> OnlyFailedKey(cfg, es, order[t])
    ensures r.Ok? ==> OpenUpTo(cfg, es, order, t + 1, r.value)
  {
    var latest := LatestUnder(cfg, es, groups, order, order[t]);
    if latest.Raised? { return Raised(latest.reason); }
    SurvivesNext(cfg, es, order, t, out, latest.value);
    if latest.value.kind == Committed || latest.value.kind == Rollbacked { return Ok(out); }
    r := Ok(out + [latest.value]);
  }

  lemma FiledUnder(es: seq<SocketEvent>, groups: map<Key, seq<SocketEvent>>, keys: seq<Key>, k: Key)
    requires Filed(groups, keys, es) && k in keys
    ensures exists e <- es :: KeyOf(e) == k
  {
    assert groups[k][0] in groups[k];
  }

  lemma SurvivesNext(cfg: Config, es: seq<SocketEvent>, order: seq<Key>, t: nat, out: seq<SocketEvent>, o: SocketEvent)
    requires Distinct(order) && t < |order| && Survives(cfg, es, order[..t], out)
    requires Tops(cfg, es, o) && KeyOf(o) == order[t]
    ensures Survives(cfg, es, order[..t + 1], if Final(o) then out else out + [o])
  {
    assert order[..t + 1] == order[..t] + [KeyOf(o)];
    if Final(o) {
      SurvivesFinal(cfg, es, order[..t], out, o);
    } else {
      SurvivesMore(cfg, es, order[..t], out, o);
    }
  }

  /** A request with a final latest event adds no survivor. */
  lemma SurvivesFinal(cfg: Config, es: seq<SocketEvent>, keys: seq<Key>, out: seq<SocketEvent>, o: SocketEvent)
    requires Survives(cfg, es, keys, out) && Tops(cfg, es, o) && Final(o)
    ensures Survives(cfg, es, keys + [KeyOf(o)], out)
  {
  }

  /** The latest event filed under one key. */
  method LatestUnder(cfg: Config, ghost es: seq<SocketEvent>, groups: map<Key, seq<SocketEvent>>,
                     ghost keys: seq<Key>, k: Key)
    returns (r: Result<SocketEvent>)
    requires Filed(groups, keys, es) && k in groups && Statuses(es) && KeyLaw(es)
    requires forall e <- es :: e.decoded.chain in cfg.known
    ensures r.Raised? <==> OnlyFailedKey(cfg, es, k)
    ensures r.Ok? ==> Tops(cfg, es, r.value) && KeyOf(r.value) == k
  {
    GroupIsWhole(es, groups, keys, k);
    assert groups[k][0] in groups[k];
    r := ExtractLatest(cfg, groups[k]);
  }

  lemma GroupIsWhole(es: seq<SocketEvent>, groups: map<Key, seq<SocketEvent>>, keys: seq<Key>, k: Key)
    requires Filed(groups, keys, es) && k in keys && Statuses(es) && KeyLaw(es)
    ensures groups[k] != [] && IsGroup(groups[k])
    ensures forall e :: e in groups[k] <==> e in es && KeyOf(e) == k
  {
    var g := groups[k];
    assert g[0] in g;
    forall e | e in g ensures OfItsClass(e) && SameRequest(e.decoded, g[0].decoded) {
      assert e in es && g[0] in es;
    }
  }

  lemma SurvivesMore(cfg: Config, es: seq<SocketEvent>, keys: seq<Key>, out: seq<SocketEvent>, o: SocketEvent)
    requires Survives(cfg, es, keys, out) && KeyOf(o) !in keys && Tops(cfg, es, o) && !Final(o)
    ensures Survives(cfg, es, keys + [KeyOf(o)], out + [o])
  {
    var all := out + [o];
    assert forall d :: d in all <==> d in out || d == o;
    forall i, j | 0 <= i < j < |all| ensures KeyOf(all[i]) != KeyOf(all[j]) {
      assert all[i] in out;
    }
  }

  // ----- bootstrap -----

  /** The detected logs hold these messages. */
  ghost predicate Holds(logs: seq<DetectedEvent>, ms: seq<SocketMessage>)
    reads logs
  {
    |logs| == |ms| && forall i :: 0 <= i < |logs| ==> HoldsAt(logs, ms, i)
  }

  ghost predicate HoldsAt(logs: seq<DetectedEvent>, ms: seq<SocketMessage>, i: nat)
    requires i < |logs| == |ms|
    reads logs
  {
    InRange(ms[i]) && logs[i].data == Encode(ms[i])
  }

  /** RbcEvent.init with time lock 0. */
  method MakeOne(cfg: Config, logs: seq<DetectedEvent>, i: nat, ghost ms: seq<SocketMessage>)
    returns (r: Result<SocketEvent>)
    requires Holds(logs, ms) && i < |logs|
    ensures r.Raised? <==> !HasClass(ms[i])
    ensures r.Ok? ==> fresh(r.value) && Made(r.value, logs[i], ms[i]) && Unhandled(r.value)
  {
    assert HoldsAt(logs, ms, i);
    r := SocketEvent.Init(cfg, logs[i], 0, ms[i]);
    if r.Ok? { assert r.value.Value().msg == ms[i]; }
  }

  /** An object as init leaves it: its class is the decoded status. */
  ghost predicate Made(e: SocketEvent, log: DetectedEvent, m: SocketMessage) {
    e.detected == log && e.decoded == m && OfItsClass(e)
  }

  ghost predicate Unhandled(e: SocketEvent)
    reads e
  {
    e.phase.Send? && e.aggregated
  }

  /** Valid, and as new as a run takes it. */
  ghost predicate Queueable(e: SocketEvent)
    reads e, e.detected
  {
    e.Valid() && SocketRuns.IsNew(e.Value(), e.detected.id)
  }

  lemma MadeIsQueueable(e: SocketEvent, logs: seq<DetectedEvent>, ms: seq<SocketMessage>, i: nat)
    requires i < |logs| == |ms| && HoldsAt(logs, ms, i) && Made(e, logs[i], ms[i]) && Unhandled(e)
    ensures Queueable(e)
  {
    FastStatusOf(ms[i]);
    ClassOfCode(e.kind);
  }

  lemma ClassOfCode(s: Status)
    requires 1 <= Code(s) <= 8
    ensures ChildOf(Code(s)) == Ok(s)
  {
  }

  /** Each log is listed once, under a number of its own. */
  ghost predicate DistinctLogs(logs: seq<DetectedEvent>) {
    forall i, j :: 0 <= i < j < |logs| ==> logs[i] != logs[j] && logs[i].id != logs[j].id
  }

  lemma MadeApart(es: seq<SocketEvent>, logs: seq<DetectedEvent>, ms: seq<SocketMessage>, out: seq<SocketEvent>)
    requires |es| == |logs| == |ms| && forall i :: 0 <= i < |ms| ==> Made(es[i], logs[i], ms[i])
    requires DistinctLogs(logs) && DistinctKeys(out) && forall e <- out :: e in es
    ensures Exclusive(out)
  {
    forall i, j | 0 <= i < j < |out| ensures Apart(out[i], out[j]) {
      assert KeyOf(out[i]) != KeyOf(out[j]) && out[i] in es && out[j] in es;
      var a :| 0 <= a < |es| && es[a] == out[i];
      var b :| 0 <= b < |es| && es[b] == out[j];
      assert a != b && Made(es[a], logs[a], ms[a]) && Made(es[b], logs[b], ms[b]);
    }
  }

  ghost predicate OfItsClass(e: SocketEvent) { 1 <= Code(e.kind) <= 8 && e.decoded.status == Code(e.kind) }

  /** The first loop of bootstrap: an object per log, with time lock 0. */
  method Instantiate(cfg: Config, logs: seq<DetectedEvent>, ghost ms: seq<SocketMessage>)
    returns (r: Result<seq<SocketEvent>>)
    requires Holds(logs, ms)
    ensures r.Raised? <==> !Classes(ms)
    ensures r.Ok? ==> |r.value| == |ms| && forall i :: 0 <= i < |ms| ==> Made(r.value[i], logs[i], ms[i])
    ensures r.Ok? ==> forall e <- r.value :: fresh(e) && Unhandled(e)
  {
    var es: seq<SocketEvent> := [];
    for i := 0 to |logs|
      invariant |es| == i
      invariant forall j :: 0 <= j < i ==> Made(es[j], logs[j], ms[j])
      invariant forall e <- es :: fresh(e) && Unhandled(e)
      invariant Classes(ms[..i])
    {
      var e := MakeOne(cfg, logs, i, ms);
      if e.Raised? {
        assert ms[i] in ms;
        return Raised(e.reason);
      }
      assert ms[..i + 1] == ms[..i] + [ms[i]];
      es := es + [e.value];
    }
    assert ms[..|ms|] == ms;
    r := Ok(es);
  }

  /** RbcEvent.bootstrap. It raises on a status without a class, on an unknown source chain, on an outbound
      request whose logs are all FAILED and without a current round; otherwise it returns the recovery. */
  method Recover(cfg: Config, currentRound: Option<int>, logs: seq<DetectedEvent>, now: int,
                 ghost ms: seq<SocketMessage>)
    returns (r: Result<seq<SocketEvent>>)
    requires Holds(logs, ms)
    ensures r.Raised? <==> !Classes(ms) || Raises(cfg, ms) || currentRound.None?
    ensures r.Ok? ==> IsRecovery(cfg, ms, currentRound.value - 6, Msgs(r.value))
    ensures r.Ok? ==> forall e <- r.value :: e.timeLock == now && Queueable(e) && fresh(e) && e.detected in logs
    ensures r.Ok? && DistinctLogs(logs) ==> Exclusive(r.value)
  {
    var es := Instantiate(cfg, logs, ms);
    if es.Raised? { return Raised(es.reason); }
    MadeFromLogs(es.value, logs, ms);
    RaisesByKey(cfg, es.value, ms);
    var open, keys := RemoveFinalizedRids(cfg, es.value);
    if open.Raised? { return Raised(open.reason); }
    if currentRound.None? { return Raised(Refused); }
    KeptIsRecovery(cfg, es.value, ms, keys, open.value, currentRound.value - HISTORY_LIMIT);
    var out := KeepRecent(cfg, currentRound.value - HISTORY_LIMIT, open.value, now);
    KeptAreMade(cfg, currentRound.value - HISTORY_LIMIT, es.value, logs, ms, keys, open.value);
    AllQueueable(es.value, logs, ms, out);
    r := Ok(out);
  }

  /** What is kept are distinct objects of the first loop. */
  lemma KeptAreMade(cfg: Config, minRound: int, es: seq<SocketEvent>, logs: seq<DetectedEvent>, ms: seq<SocketMessage>,
                    keys: seq<Key>, open: seq<SocketEvent>)
    requires |es| == |logs| == |ms| && forall i :: 0 <= i < |ms| ==> Made(es[i], logs[i], ms[i])
    requires Survives(cfg, es, keys, open)
    ensures forall e <- Kept(cfg, minRound, open) :: e in es
    ensures DistinctLogs(logs) ==> Exclusive(Kept(cfg, minRound, open))
  {
    forall e | e in Kept(cfg, minRound, open) ensures e in es {
      InKept(cfg, minRound, open, e);
      assert Tops(cfg, es, e);
    }
    KeptDistinct(cfg, minRound, open);
    if DistinctLogs(logs) { MadeApart(es, logs, ms, Kept(cfg, minRound, open)); }
  }

  lemma AllQueueable(es: seq<SocketEvent>, logs: seq<DetectedEvent>, ms: seq<SocketMessage>, out: seq<SocketEvent>)
    requires Holds(logs, ms) && |es| == |ms| && forall i :: 0 <= i < |ms| ==> Made(es[i], logs[i], ms[i])
    requires forall e <- out :: e in es && Unhandled(e)
    ensures forall e <- out :: Queueable(e)
  {
    forall e | e in out ensures Queueable(e) {
      var i :| 0 <= i < |es| && es[i] == e;
      assert HoldsAt(logs, ms, i);
      MadeIsQueueable(e, logs, ms, i);
    }
  }

  /** What the first loop leaves, in the terms of the grouping. */
  lemma MadeFromLogs(es: seq<SocketEvent>, logs: seq<DetectedEvent>, ms: seq<SocketMessage>)
    requires Holds(logs, ms) && |es| == |ms| && forall i :: 0 <= i < |ms| ==> Made(es[i], logs[i], ms[i])
    ensures Msgs(es) == ms && Statuses(es) && KeyLaw(es) && forall e <- es :: e.detected in logs
  {
    forall e | e in es ensures InRange(e.decoded) && OfItsClass(e) && e.detected in logs {
      var i :| 0 <= i < |es| && es[i] == e;
      assert HoldsAt(logs, ms, i) && Made(es[i], logs[i], ms[i]);
    }
    KeysAreRequests(es);
  }

  /** The last loop of bootstrap: what is kept gets the current time as its lock. */
  method KeepRecent(cfg: Config, minRound: int, es: seq<SocketEvent>, now: int) returns (out: seq<SocketEvent>)
    requires Statuses(es) && forall e <- es :: Unhandled(e)
    modifies (set e | e in es)`timeLock
    ensures out == Kept(cfg, minRound, es) && forall e <- out :: e.timeLock == now && Unhandled(e)
  {
    out := [];
    for i := 0 to |es|
      invariant out == Kept(cfg, minRound, es[..i])
      invariant forall e <- out :: e.timeLock == now
      invariant forall e <- es :: Unhandled(e)
      invariant forall e <- out :: e in es
    {
      assert es[i] in es;
      KeptSnoc(cfg, minRound, es[..i], es[i]);
      assert es[..i + 1] == es[..i] + [es[i]];
      if minRound > es[i].decoded.round { continue; }
      if cfg.role.Fast? && es[i].kind != Accepted { continue; }
      es[i].timeLock := now;
      out := out + [es[i]];
    }
    assert es[..|es|] == es;
  }

  /** The second filter, as a function of the survivors. */
  function Kept(cfg: Config, minRound: int, es: seq<SocketEvent>): seq<SocketEvent> {
    if es == [] then []
    else
      var e := es[|es| - 1];
      Kept(cfg, minRound, es[..|es| - 1]) + if Keeps(cfg, minRound, e.decoded) then [e] else []
  }

  lemma KeptSnoc(cfg: Config, minRound: int, es: seq<SocketEvent>, e: SocketEvent)
    ensures Kept(cfg, minRound, es + [e])
         == Kept(cfg, minRound, es) + if Keeps(cfg, minRound, e.decoded) then [e] else []
  {
    assert (es + [e])[..|es|] == es;
  }

  lemma MsgsMembers(es: seq<SocketEvent>)
    ensures forall e <- es :: e.decoded in Msgs(es)
    ensures forall m <- Msgs(es) :: exists e <- es :: e.decoded == m
  {
    forall e | e in es ensures e.decoded in Msgs(es) {
      var i :| 0 <= i < |es| && es[i] == e;
      assert Msgs(es)[i] == e.decoded;
    }
    forall m | m in Msgs(es) ensures exists e <- es :: e.decoded == m {
      var i :| 0 <= i < |es| && Msgs(es)[i] == m;
      assert es[i] in es;
    }
  }

  lemma RaisesByKey(cfg: Config, es: seq<SocketEvent>, ms: seq<SocketMessage>)
    requires Msgs(es) == ms && Statuses(es) && KeyLaw(es)
    ensures (exists e <- es :: e.decoded.chain !in cfg.known) || (exists e <- es :: OnlyFailedKey(cfg, es, KeyOf(e)))
       <==> Raises(cfg, ms)
  {
    MsgsMembers(es);
    forall e | e in es
      ensures OnlyFailedKey(cfg, es, KeyOf(e)) <==> OnlyFailed(cfg, ms, e.decoded)
    {
      OnlyFailedByKey(cfg, es, ms, e);
    }
  }

  lemma OnlyFailedByKey(cfg: Config, es: seq<SocketEvent>, ms: seq<SocketMessage>, e: SocketEvent)
    requires Msgs(es) == ms && Statuses(es) && KeyLaw(es) && e in es
    ensures OnlyFailedKey(cfg, es, KeyOf(e)) <==> OnlyFailed(cfg, ms, e.decoded)
  {
    MsgsMembers(es);
    if OnlyFailedKey(cfg, es, KeyOf(e)) {
      forall n | n in ms && SameRequest(n, e.decoded) ensures n.status == Code(Failed) {
        var d :| d in es && d.decoded == n;
        assert KeyOf(d) == KeyOf(e);
      }
    }
    if OnlyFailed(cfg, ms, e.decoded) {
      forall d | d in es && KeyOf(d) == KeyOf(e) ensures !Inbound(cfg, d.decoded) && d.kind.Failed? {
        assert SameRequest(d.decoded, e.decoded) && d.decoded in ms;
      }
    }
  }

  lemma TopsIsLatest(cfg: Config, es: seq<SocketEvent>, ms: seq<SocketMessage>, o: SocketEvent)
    requires Msgs(es) == ms && Statuses(es) && KeyLaw(es) && o in es
    ensures Tops(cfg, es, o) <==> Latest(cfg, ms, o.decoded)
  {
    MsgsMembers(es);
    if Tops(cfg, es, o) {
      forall n | n in ms && SameRequest(n, o.decoded) ensures LifeRank(cfg, n) <= LifeRank(cfg, o.decoded) {
        var d :| d in es && d.decoded == n;
      }
    }
  }

  lemma {:induction false} KeptMembers(cfg: Config, minRound: int, es: seq<SocketEvent>)
    ensures forall e :: e in Kept(cfg, minRound, es) <==> e in es && Keeps(cfg, minRound, e.decoded)
  {
    if es != [] {
      KeptMembers(cfg, minRound, es[..|es| - 1]);
      assert es == es[..|es| - 1] + [es[|es| - 1]];
    }
  }

  ghost predicate DistinctKeys(es: seq<SocketEvent>) {
    forall i, j :: 0 <= i < j < |es| ==> KeyOf(es[i]) != KeyOf(es[j])
  }

  lemma InKept(cfg: Config, minRound: int, es: seq<SocketEvent>, e: SocketEvent)
    requires e in Kept(cfg, minRound, es)
    ensures e in es && Keeps(cfg, minRound, e.decoded)
  {
    KeptMembers(cfg, minRound, es);
  }

  lemma {:induction false} KeptDistinct(cfg: Config, minRound: int, es: seq<SocketEvent>)
    requires DistinctKeys(es)
    ensures DistinctKeys(Kept(cfg, minRound, es))
  {
    if es != [] {
      var init, last := es[..|es| - 1], es[|es| - 1];
      KeptDistinct(cfg, minRound, init);
      var kept := Kept(cfg, minRound, init);
      forall i | 0 <= i < |kept| ensures KeyOf(kept[i]) != KeyOf(last) {
        InKept(cfg, minRound, init, kept[i]);
        var a :| 0 <= a < |init| && init[a] == kept[i];
        assert KeyOf(es[a]) != KeyOf(es[|es| - 1]);
      }
    }
  }

  lemma KeptIsRecovery(cfg: Config, es: seq<SocketEvent>, ms: seq<SocketMessage>, keys: seq<Key>,
                       open: seq<SocketEvent>, minRound: int)
    requires Msgs(es) == ms && Statuses(es) && KeyLaw(es) && Survives(cfg, es, keys, open)
    requires forall e <- es :: KeyOf(e) in keys
    ensures IsRecovery(cfg, ms, minRound, Msgs(Kept(cfg, minRound, open)))
  {
    var outs := Msgs(Kept(cfg, minRound, open));
    KeptDistinctRequests(cfg, es, keys, open, minRound);
    forall o | o in outs ensures Latest(cfg, ms, o) && !FinalStatus(o) && Keeps(cfg, minRound, o) {
      KeptIsLatest(cfg, es, ms, keys, open, minRound, o);
    }
    forall m | m in ms && Latest(cfg, ms, m) && !FinalStatus(m) && Keeps(cfg, minRound, m) ensures Recovers(outs, m) {
      LatestSurvives(cfg, es, ms, keys, open, minRound, m);
    }
  }

  lemma KeptDistinctRequests(cfg: Config, es: seq<SocketEvent>, keys: seq<Key>, open: seq<SocketEvent>, minRound: int)
    requires Statuses(es) && KeyLaw(es) && Survives(cfg, es, keys, open)
    ensures var outs := Msgs(Kept(cfg, minRound, open));
            forall i, j :: 0 <= i < j < |outs| ==> !SameRequest(outs[i], outs[j])
  {
    var out := Kept(cfg, minRound, open);
    KeptDistinct(cfg, minRound, open);
    forall o | o in out ensures o in es {
      InKept(cfg, minRound, open, o);
      assert Tops(cfg, es, o);
    }
    DistinctRequests(es, out);
  }

  lemma FinalIsFinalStatus(e: SocketEvent)
    requires OfItsClass(e)
    ensures Final(e) <==> FinalStatus(e.decoded)
  {
  }

  lemma KeptIsLatest(cfg: Config, es: seq<SocketEvent>, ms: seq<SocketMessage>, keys: seq<Key>, open: seq<SocketEvent>,
                     minRound: int, o: SocketMessage)
    requires Msgs(es) == ms && Statuses(es) && KeyLaw(es) && Survives(cfg, es, keys, open)
    requires o in Msgs(Kept(cfg, minRound, open))
    ensures Latest(cfg, ms, o) && !FinalStatus(o) && Keeps(cfg, minRound, o)
  {
    var out := Kept(cfg, minRound, open);
    MsgsMembers(out);
    var e :| e in out && e.decoded == o;
    InKept(cfg, minRound, open, e);
    assert Tops(cfg, es, e) && !Final(e);
    FinalIsFinalStatus(e);
    TopsIsLatest(cfg, es, ms, e);
  }

  lemma DistinctRequests(es: seq<SocketEvent>, out: seq<SocketEvent>)
    requires Statuses(es) && KeyLaw(es) && (forall o <- out :: o in es) && DistinctKeys(out)
    ensures forall i, j :: 0 <= i < j < |out| ==> !SameRequest(Msgs(out)[i], Msgs(out)[j])
  {
    assert forall i :: 0 <= i < |out| ==> out[i] in es;
  }

  lemma LatestSurvives(cfg: Config, es: seq<SocketEvent>, ms: seq<SocketMessage>, keys: seq<Key>,
                       open: seq<SocketEvent>,
                       minRound: int, m: SocketMessage)
    requires Msgs(es) == ms && Statuses(es) && KeyLaw(es) && Survives(cfg, es, keys, open)
    requires forall e <- es :: KeyOf(e) in keys
    requires Latest(cfg, ms, m) && !FinalStatus(m) && Keeps(cfg, minRound, m)
    ensures Recovers(Msgs(Kept(cfg, minRound, open)), m)
  {
    MsgsMembers(es);
    var e :| e in es && e.decoded == m;
    var o := SurvivorOf(cfg, es, ms, keys, open, e);
    KeptMembers(cfg, minRound, open);
    MsgsMembers(Kept(cfg, minRound, open));
    assert o in Kept(cfg, minRound, open);
  }

  /** The survivor of a request whose latest log is not final: as far along, of the same status. */
  lemma SurvivorOf(cfg: Config, es: seq<SocketEvent>, ms: seq<SocketMessage>, keys: seq<Key>, open: seq<SocketEvent>,
                   e: SocketEvent) returns (o: SocketEvent)
    requires Msgs(es) == ms && Statuses(es) && KeyLaw(es) && Survives(cfg, es, keys, open)
    requires e in es && KeyOf(e) in keys && Latest(cfg, ms, e.decoded) && !FinalStatus(e.decoded)
    ensures o in open && SameRequest(o.decoded, e.decoded) && o.decoded.status == e.decoded.status
  {
    forall d | d in es && KeyOf(d) == KeyOf(e) && Tops(cfg, es, d)
      ensures d.decoded.status == e.decoded.status && !Final(d)
    {
      SameAsLatest(cfg, es, ms, d, e);
    }
    o :| o in open && KeyOf(o) == KeyOf(e);
  }

  lemma SameAsLatest(cfg: Config, es: seq<SocketEvent>, ms: seq<SocketMessage>, d: SocketEvent, e: SocketEvent)
    requires Msgs(es) == ms && Statuses(es) && KeyLaw(es) && d in es && e in es && KeyOf(d) == KeyOf(e)
    requires Tops(cfg, es, d) && Latest(cfg, ms, e.decoded) && !FinalStatus(e.decoded)
    ensures d.decoded.status == e.decoded.status && !Final(d)
  {
    TopsIsLatest(cfg, es, ms, d);
    MsgsMembers(es);
    LifeRankInjective(cfg, d.decoded, e.decoded);
    FinalIsFinalStatus(d);
  }
}
