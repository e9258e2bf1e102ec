/** The relayer node: its configuration, the round -> relayer-index cache, and the three places that write it
    (relayer/relayer.py, rbclib/events/rbc_event.py, rbclib/periodic/vsp_feed.py). */
module RelayerNode {
  import opened Common
  import opened RelayerSets
  import opened SocketMessages

  const HISTORY_LIMIT := 6   // BIFROST_VALIDATOR_HISTORY_LIMIT_BLOCKS

  datatype Role = General | Slow | Fast

  /** What does not change while a relayer runs. Chains are named by their index; `history` is the relayer list
      that the authority contract answers for a round, which no later block changes. */
  datatype Config = Config(
    role: Role,
    slowDelaySec: nat,
    callDelaySec: nat,
    bifrost: nat,
    supported: seq<nat>,        // supported_chain_list
    known: set<nat>,            // the members of chain_enum
    instructions: set<nat>,     // the 16-byte instructions RBCMethodV1.from_bytes accepts
    me: string,
    history: int -> seq<string>)

  type Cache = map<int, Option<nat>>

  /** cache.get(k): a cached None reads like an absent key. */
  function Lookup(cache: Cache, k: int): Option<nat> {
    if k in cache then cache[k] else None
  }

  function MyIndex(cfg: Config, round: int): Option<nat> {
    RelayerIndex(cfg.history(round), cfg.me)
  }

  /** What RbcEvent.check_my_event answers; only the configuration and the round's list matter. */
  function Authorised(cfg: Config, m: SocketMessage): Result<bool> {
    if cfg.role.Fast? then Ok(true)
    else if m.chain !in cfg.known then Raised(ValueError)
    else Ok(m.chain in cfg.supported && MyIndex(cfg, m.round).Some?)
  }

  ghost predicate Agrees(cfg: Config, cache: Cache) {
    forall k :: k in cache && cache[k].Some? ==> cache[k] == MyIndex(cfg, k)
  }

  /** An index read from an agreeing cache: the relayer's own in that round, unless there is no entry. */
  predicate IndexAgrees(cfg: Config, round: int, index: Option<nat>) {
    index.None? || index == MyIndex(cfg, round)
  }

  /** Every entry comes from `full`: what a bounded cache may hold after evictions. */
  ghost predicate Within(cache: Cache, full: Cache) {
    forall k :: k in cache ==> k in full && cache[k] == full[k]
  }

  class Relayer {
    const cfg: Config
    const capacity: nat
    var cache: Cache
    var roundCache: int

    constructor (cfg: Config, capacity: nat)
      ensures this.cfg == cfg && this.capacity == capacity && cache == map[] && Agrees(cfg, cache)
    {
      this.cfg, this.capacity := cfg, capacity;
      cache, roundCache := map[], 0;
    }

    /** EventBridge.set_value_by_key; which entries a full cache drops is left open. */
    method SetValueByKey(k: int, v: Option<nat>)
      modifies this`cache
      ensures Within(cache, old(cache)[k := v])
      ensures |old(cache)[k := v]| <= capacity ==> cache == old(cache)[k := v]
    {
      cache := cache[k := v];
      if |cache| > capacity {
        assert k in cache;
        var victim :| victim in cache;
        cache := cache - {victim};
      }
    }

    /** RbcEvent.check_my_event. */
    method CheckMyEvent(m: SocketMessage) returns (r: Result<bool>)
      requires Agrees(cfg, cache)
      modifies this`cache
      ensures r == Authorised(cfg, m)
      ensures Agrees(cfg, cache) && Writes(old(cache), Authorise(m))
    {
      if cfg.role.Fast? { return Ok(true); }
      if m.chain !in cfg.known { return Raised(ValueError); }
      if m.chain !in cfg.supported { return Ok(false); }
      if Lookup(cache, m.round).Some? { return Ok(true); }
      var index := RelayerIndex(cfg.history(m.round), cfg.me);
      if index.Some? {
        SetValueByKey(m.round, index);
        return Ok(true);
      }
      r := Ok(false);
    }

    /** Relayer.register_relayer_auth: the last rounds, members or not. */
    method RegisterRelayerAuth()
      requires Agrees(cfg, cache)
      modifies this`cache
      ensures Agrees(cfg, cache) && Writes(old(cache), Register(roundCache))
    {
      var limit := if HISTORY_LIMIT < roundCache then HISTORY_LIMIT else roundCache;
      ghost var before := cache;
      ghost var entries := IndexList(cfg, roundCache, if limit > 0 then limit else 0);
      RegisterRounds(before, if limit > 0 then limit else 0, entries);
      WindowIsAll(cfg, before, roundCache, entries);
      RegisteredAgrees(cfg, before, roundCache);
      WithinAgrees(cfg, cache, Registered(cfg, before, roundCache));
    }

    /** The loop over the last rounds. */
    method RegisterRounds(ghost before: Cache, limit: nat, ghost entries: seq<Option<nat>>)
      requires cache == before && AreIndices(cfg, roundCache, entries) && |entries| == limit
      modifies this`cache
      ensures Reaches(Window(before, roundCache, entries, limit), Window(before, roundCache, entries, limit))
    {
      for i := 0 to limit
        invariant Reaches(Window(before, roundCache, entries, i), Window(before, roundCache, entries, limit))
      {
        RegisterRound(before, i, entries);
      }
    }

    /** One turn of the loop. */
    method RegisterRound(ghost before: Cache, i: nat, ghost entries: seq<Option<nat>>)
      requires i < |entries| && AreIndices(cfg, roundCache, entries)
      requires Reaches(Window(before, roundCache, entries, i), Window(before, roundCache, entries, |entries|))
      modifies this`cache
      ensures Reaches(Window(before, roundCache, entries, i + 1), Window(before, roundCache, entries, |entries|))
    {
      var index := FetchIndex(i, entries);
      WindowFits(before, roundCache, entries, i + 1, |entries|);
      ghost var full, next := Window(before, roundCache, entries, i), Window(before, roundCache, entries, i + 1);
      SetWithin(roundCache - i, index, full, next, Window(before, roundCache, entries, |entries|));
    }

    /** fetch_relayer_index for the i-th round back. */
    method FetchIndex(i: nat, ghost entries: seq<Option<nat>>) returns (index: Option<nat>)
      requires i < |entries| && AreIndices(cfg, roundCache, entries)
      ensures index == entries[i]
    {
      assert IndexAt(cfg, roundCache, entries, i);
      index := RelayerIndex(cfg.history(roundCache - i), cfg.me);
    }

    /** set_value_by_key on a cache that is to reach `whole`. */
    method SetWithin(k: int, v: Option<nat>, ghost full: Cache, ghost next: Cache, ghost whole: Cache)
      requires Reaches(full, whole) && next == full[k := v] && |next| <= |whole|
      modifies this`cache
      ensures Reaches(next, whole)
    {
      SetValueByKey(k, v);
    }

    /** The cache holds entries of `full` only, and all of them when the whole fits. */
    ghost predicate Reaches(full: Cache, whole: Cache)
      reads this
    {
      Within(cache, full) && (|whole| <= capacity ==> cache == full)
    }

    /** The cache holds what the operation writes, up to evictions, and all of it when it fits. */
    ghost predicate Writes(before: Cache, op: CacheOp)
      reads this
    {
      Reaches(Written(cfg, before, op), Written(cfg, before, op))
    }

    /** The cache write of VSPFeed.build_transaction_params. */
    method FeedRound(round: int) returns (index: Option<nat>)
      requires Agrees(cfg, cache)
      modifies this`cache
      ensures index == MyIndex(cfg, round)
      ensures Agrees(cfg, cache) && Writes(old(cache), Feed(round))
    {
      index := RelayerIndex(cfg.history(round), cfg.me);
      if index.Some? { SetValueByKey(round, index); }
    }

    /** RoundUpEvent.is_previous_relayer: membership of the cache, not of the list. With an index cached for the
        preceding round the relayer is in its list; with no entry the answer is no, in the list or not. */
    method IsPreviousRelayer(round: int) returns (r: bool)
      requires Agrees(cfg, cache)
      ensures r == PreviousRelayer(cfg, cache, round)
      ensures Lookup(cache, round - 1).Some? ==> r && MyIndex(cfg, round - 1).Some?
      ensures !cfg.role.Fast? && round - 1 !in cache ==> !r
    {
      r := cfg.role.Fast? || round - 1 in cache;
    }
  }

  // ----- every interleaving of the three writers -----

  function WindowSize(current: int): int {
    if HISTORY_LIMIT < current then HISTORY_LIMIT else current
  }

  /** The entries are the relayer's indices, or None, in the last rounds. */
  ghost predicate AreIndices(cfg: Config, current: int, entries: seq<Option<nat>>) {
    forall j :: 0 <= j < |entries| ==> IndexAt(cfg, current, entries, j)
  }

  function IndexList(cfg: Config, current: int, n: nat): (entries: seq<Option<nat>>)
    ensures |entries| == n && AreIndices(cfg, current, entries)
  {
    seq(n, j requires 0 <= j < n => MyIndex(cfg, current - j))
  }

  predicate IndexAt(cfg: Config, current: int, entries: seq<Option<nat>>, j: nat)
    requires j < |entries|
  {
    entries[j] == MyIndex(cfg, current - j)
  }

  /** The cache with the entries of the last n rounds written. */
  function Window(cache: Cache, current: int, entries: seq<Option<nat>>, n: nat): Cache
    requires n <= |entries|
  {
    if n == 0 then cache else Window(cache, current, entries, n - 1)[current - n + 1 := entries[n - 1]]
  }

  /** The cache once register_relayer_auth has written its window of rounds. */
  function Registered(cfg: Config, cache: Cache, current: int): Cache {
    cache + map k | current - WindowSize(current) < k <= current :: MyIndex(cfg, k)
  }

  lemma {:induction false} WindowFits(cache: Cache, current: int, entries: seq<Option<nat>>, n: nat, m: nat)
    requires n <= m <= |entries|
    ensures |Window(cache, current, entries, n)| <= |Window(cache, current, entries, m)|
    decreases m
  {
    if n < m {
      WindowFits(cache, current, entries, n, m - 1);
      UpdateFits(Window(cache, current, entries, m - 1), current - m + 1, entries[m - 1]);
    }
  }

  lemma UpdateFits(cache: Cache, k: int, v: Option<nat>)
    ensures |cache| <= |cache[k := v]|
  {
    assert cache[k := v].Keys == cache.Keys + ({k} - cache.Keys);
  }

  lemma {:induction false} WindowAt(cache: Cache, current: int, entries: seq<Option<nat>>, n: nat, k: int)
    requires n <= |entries|
    ensures k in Window(cache, current, entries, n) <==> k in cache || current - n < k <= current
    ensures current - n < k <= current ==> Window(cache, current, entries, n)[k] == entries[current - k]
    ensures k in cache && !(current - n < k <= current) ==> Window(cache, current, entries, n)[k] == cache[k]
    decreases n
  {
    if n > 0 { WindowAt(cache, current, entries, n - 1, k); }
  }

  /** The whole window is the registered cache; before the first round there is none. */
  lemma WindowIsAll(cfg: Config, cache: Cache, current: int, entries: seq<Option<nat>>)
    requires AreIndices(cfg, current, entries)
    requires |entries| == WindowSize(current) || (entries == [] && WindowSize(current) <= 0)
    ensures Window(cache, current, entries, |entries|) == Registered(cfg, cache, current)
  {
    forall k
      ensures k in Window(cache, current, entries, |entries|) <==> k in Registered(cfg, cache, current)
      ensures k in Registered(cfg, cache, current) ==>
        Window(cache, current, entries, |entries|)[k] == Registered(cfg, cache, current)[k]
    {
      WindowAt(cache, current, entries, |entries|, k);
      if current - |entries| < k <= current { assert IndexAt(cfg, current, entries, current - k); }
    }
  }

  lemma WithinAgrees(cfg: Config, cache: Cache, full: Cache)
    requires Within(cache, full) && Agrees(cfg, full)
    ensures Agrees(cfg, cache)
  {
  }

  lemma RegisteredAgrees(cfg: Config, cache: Cache, current: int)
    requires Agrees(cfg, cache)
    ensures Agrees(cfg, Registered(cfg, cache, current))
  {
  }

  datatype CacheOp = Register(current: int) | Authorise(m: SocketMessage) | Feed(round: int) | Evict

  function Written(cfg: Config, cache: Cache, op: CacheOp): Cache {
    match op
    case Register(current) => Registered(cfg, cache, current)
    case Authorise(m) =>
      if !cfg.role.Fast? && m.chain in cfg.known && m.chain in cfg.supported
         && Lookup(cache, m.round).None? && MyIndex(cfg, m.round).Some?
      then cache[m.round := MyIndex(cfg, m.round)] else cache
    case Feed(round) => if MyIndex(cfg, round).Some? then cache[round := MyIndex(cfg, round)] else cache
    case Evict => cache
  }

  /** A run from an empty cache: each operation writes, then anything may be evicted. */
  ghost predicate CacheRun(cfg: Config, ops: seq<CacheOp>, caches: seq<Cache>) {
    && |caches| == |ops| + 1 && caches[0] == map[]
    && forall i :: 0 <= i < |ops| ==> Within(caches[i + 1], Written(cfg, caches[i], ops[i]))
  }

  ghost predicate InWindow(ops: seq<CacheOp>, k: int) {
    exists op <- ops :: op.Register? && op.current - 6 < k <= op.current && k > 0
  }

  /** In every run each cached index is the relayer's index in that round's list, and a cached None comes from
      the startup window of a round that does not list the relayer. */
  lemma {:induction false} CacheAgreesInEveryRun(cfg: Config, ops: seq<CacheOp>, caches: seq<Cache>)
    requires CacheRun(cfg, ops, caches)
    ensures forall i :: 0 <= i < |caches| ==> Agrees(cfg, caches[i])
    ensures forall k :: k in caches[|ops|] && caches[|ops|][k].None? ==> InWindow(ops, k) && MyIndex(cfg, k).None?
  {
    if ops != [] {
      var n := |ops| - 1;
      CacheAgreesInEveryRun(cfg, ops[..n], caches[..n + 1]);
      assert caches[..n + 1][n] == caches[n];
      assert Within(caches[n + 1], Written(cfg, caches[n], ops[n]));
      WriteKeepsAgreement(cfg, caches[n], ops[n]);
      forall i | 0 <= i < |caches| ensures Agrees(cfg, caches[i]) {
        if i <= n { assert caches[..n + 1][i] == caches[i]; }
      }
      forall k | k in caches[n + 1] && caches[n + 1][k].None? ensures InWindow(ops, k) && MyIndex(cfg, k).None? {
        if k in caches[n] && caches[n][k].None? {
          var op :| op in ops[..n] && op.Register? && op.current - 6 < k <= op.current && k > 0;
          assert op in ops;
        } else {
          assert ops[n] in ops;
        }
      }
    }
  }

  lemma WriteKeepsAgreement(cfg: Config, cache: Cache, op: CacheOp)
    requires Agrees(cfg, cache)
    ensures Agrees(cfg, Written(cfg, cache, op))
    ensures forall k :: k in Written(cfg, cache, op) && Written(cfg, cache, op)[k].None? ==>
      || (k in cache && cache[k].None?)
      || (op.Register? && op.current - 6 < k <= op.current && k > 0 && MyIndex(cfg, k).None?)
  {
  }

  /** A fast relayer passes the check, another exactly as a listed relayer of a supported source chain, whatever its
      cache held before; it raises on an unknown chain. */
  lemma AuthorisedIffListed(cfg: Config, m: SocketMessage)
    ensures Authorised(cfg, m).Raised? <==> !cfg.role.Fast? && m.chain !in cfg.known
    ensures Authorised(cfg, m) == Ok(true) <==>
      || cfg.role.Fast?
      || (&& m.chain in cfg.known && m.chain in cfg.supported
          && exists i :: 0 <= i < |cfg.history(m.round)| && Lower(cfg.history(m.round)[i]) == Lower(cfg.me))
  {
    IndexedIffListed(cfg.history(m.round), cfg.me);
  }

  // ----- RoundUpEvent.is_previous_relayer -----

  predicate PreviousRelayer(cfg: Config, cache: Cache, round: int) {
    cfg.role.Fast? || round - 1 in cache
  }

  /** After every run of the cache, the test answers membership of the preceding round exactly when that round's entry
      is an index, or is absent for a relayer outside it: a cached None lets a relayer outside the set pass, and an
      absent entry stops a member. */
  lemma PreviousRelayerIsMember(cfg: Config, ops: seq<CacheOp>, caches: seq<Cache>, round: int)
    requires !cfg.role.Fast? && CacheRun(cfg, ops, caches)
    ensures var cache := caches[|ops|];
      (PreviousRelayer(cfg, cache, round) <==> MyIndex(cfg, round - 1).Some?)
      <==> if round - 1 in cache then cache[round - 1].Some? else MyIndex(cfg, round - 1).None?
  {
    CacheAgreesInEveryRun(cfg, ops, caches);
    var cache := caches[|ops|];
    assert round - 1 in cache && cache[round - 1].Some? ==> cache[round - 1] == MyIndex(cfg, round - 1);
  }

  /** A run in which a member is stopped although nothing was evicted: it registers in round 1, and round 2 ends before
      the next poll. */
  lemma ListedRelayerFails(cfg: Config) returns (ops: seq<CacheOp>, caches: seq<Cache>)
    requires !cfg.role.Fast? && MyIndex(cfg, 2).Some?
    ensures CacheRun(cfg, ops, caches)
    ensures forall i :: 0 <= i < |ops| ==> caches[i + 1] == Written(cfg, caches[i], ops[i])
    ensures !PreviousRelayer(cfg, caches[|ops|], 3)
  {
    ops := [Register(1), Feed(3)];
    var first := Registered(cfg, map[], 1);
    caches := [map[], first, Written(cfg, first, Feed(3))];
  }

  /** Nothing was evicted. */
  ghost predicate KeepsAll(cfg: Config, ops: seq<CacheOp>, caches: seq<Cache>) {
    && |caches| == |ops| + 1 && caches[0] == map[]
    && forall i :: 0 <= i < |ops| ==> caches[i + 1] == Written(cfg, caches[i], ops[i])
  }

  /** The round was fed, or an event of it was checked on a supported source chain. */
  ghost predicate Touched(cfg: Config, ops: seq<CacheOp>, round: int) {
    exists op <- ops :: Touches(cfg, op, round)
  }

  predicate Touches(cfg: Config, op: CacheOp, round: int) {
    match op
    case Feed(k) => k == round
    case Authorise(m) => m.round == round && m.chain in cfg.known && m.chain in cfg.supported
    case _ => false
  }

  /** After a run without evictions a relayer passes the test exactly when the preceding round lay in the startup
      window, or lists it and was fed or met by one of its events. */
  lemma {:induction false} PassesWithoutEvictions(cfg: Config, ops: seq<CacheOp>, caches: seq<Cache>, round: int)
    requires !cfg.role.Fast? && KeepsAll(cfg, ops, caches)
    ensures PreviousRelayer(cfg, caches[|ops|], round)
       <==> InWindow(ops, round - 1) || (MyIndex(cfg, round - 1).Some? && Touched(cfg, ops, round - 1))
  {
    if ops != [] {
      var n := |ops| - 1;
      assert caches[..n + 1][n] == caches[n];
      PassesWithoutEvictions(cfg, ops[..n], caches[..n + 1], round);
      assert ops == ops[..n] + [ops[n]];
      LastWrite(cfg, caches[n], ops[n], round - 1);
      InWindowGrows(ops[..n], ops[n], round - 1);
      TouchedGrows(cfg, ops[..n], ops[n], round - 1);
    }
  }

  lemma LastWrite(cfg: Config, cache: Cache, op: CacheOp, round: int)
    requires !cfg.role.Fast?
    ensures round in Written(cfg, cache, op)
       <==> round in cache || InWindow([op], round) || (MyIndex(cfg, round).Some? && Touches(cfg, op, round))
  {
    assert InWindow([op], round) <==> op.Register? && op.current - 6 < round <= op.current && round > 0 by {
      assert op in [op];
    }
    if op.Register? { RegisteredHas(cfg, cache, op.current, round); }
  }

  lemma RegisteredHas(cfg: Config, cache: Cache, current: int, k: int)
    ensures k in Registered(cfg, cache, current) <==> k in cache || (current - 6 < k <= current && k > 0)
  {
    var window := map j | current - WindowSize(current) < j <= current :: MyIndex(cfg, j);
    assert Registered(cfg, cache, current) == cache + window;
    assert k in window <==> current - WindowSize(current) < k <= current;
  }

  lemma InWindowGrows(ops: seq<CacheOp>, op: CacheOp, round: int)
    ensures InWindow(ops + [op], round) <==> InWindow(ops, round) || InWindow([op], round)
  {
    assert forall o :: o in ops + [op] <==> o in ops || o in [op];
  }

  lemma TouchedGrows(cfg: Config, ops: seq<CacheOp>, op: CacheOp, round: int)
    ensures Touched(cfg, ops + [op], round) <==> Touched(cfg, ops, round) || Touches(cfg, op, round)
  {
    assert forall o :: o in ops + [op] <==> o in ops || o == op;
  }

  /** A run in which an unlisted relayer passes: it registers at startup and the next round is committed. */
  lemma UnlistedRelayerPasses(cfg: Config) returns (ops: seq<CacheOp>, caches: seq<Cache>)
    requires !cfg.role.Fast? && MyIndex(cfg, 1).None?
    ensures CacheRun(cfg, ops, caches) && PreviousRelayer(cfg, caches[|ops|], 2)
  {
    ops := [Register(1)];
    caches := [map[], Registered(cfg, map[], 1)];
  }
}
