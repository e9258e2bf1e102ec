/** RoundUp events as the objects they are: the detected event enqueues one clone of itself per target chain, and a
    clone that waits is changed in place and enqueued again. */
module RoundUpEvents {
  import opened Common
  import opened RelayerSets
  import opened RelayerNode
  import opened RoundUps
  import RoundUpAnswers
  import SocketSteps

  class RoundUpEvent {
    const id: nat
    const block: nat
    const status: nat
    const round: nat
    const updating: seq<nat>        // updating_chains
    var selected: Option<nat>
    var timeLock: int
    var aggregated: bool

    constructor (id: nat, block: nat, status: nat, round: nat, updating: seq<nat>, timeLock: int)
      ensures Value() == RoundUp(id, block, status, round, None, timeLock, true) && this.updating == updating
    {
      this.id, this.block, this.status, this.round, this.updating := id, block, status, round, updating;
      selected, this.timeLock, aggregated := None, timeLock, true;
    }

    function Value(): RoundUp
      reads this
    {
      RoundUp(id, block, status, round, selected, timeLock, aggregated)
    }

    /** __init__ found BIFROST among the supported chains and removed it. */
    predicate Valid(cfg: Config) { Targets(cfg) == Ok(updating) }

    static method Init(cfg: Config, id: nat, block: nat, status: nat, round: nat, timeLock: int, now: int)
      returns (r: Result<RoundUpEvent>)
      ensures match RoundUps.Init(cfg, id, block, status, round, timeLock, now)
              case Raised(x) => r == Raised(x)
              case Ok(v) => r.Ok? && fresh(r.value) && r.value.Valid(cfg) && r.value.Value() == v
      ensures r.Ok? ==>
        r.value.timeLock == if timeLock == 0 || cfg.role.Fast? then 0 else now + 1000 * cfg.slowDelaySec
    {
      var updating :- Targets(cfg);
      var lock := if timeLock == 0 || cfg.role.Fast? then 0 else now + cfg.slowDelaySec * 1000;
      var e := new RoundUpEvent(id, block, status, round, updating, lock);
      r := Ok(e);
    }

    method CloneFor(chain: nat) returns (e: RoundUpEvent)
      ensures fresh(e) && e.updating == updating && e.Value() == Clone(Value(), chain)
    {
      e := new RoundUpEvent(id, block, status, round, updating, timeLock);
      e.selected := Some(chain);
    }

    /** The part of `told` that is read off the node's own cache. */
    function Told(node: Relayer, told: Answers): Answers
      reads this, node
    {
      told.(inCache := round - 1 in node.cache, index := Lookup(node.cache, round - 1))
    }

    /** build_transaction_params: the clones, or the waiting event itself, are appended to the queue. */
    method BuildTransactionParams(node: Relayer, q: RoundUpQueue, delaySec: nat, told: Answers)
      returns (r: Result<bool>, acts: seq<Act>)
      requires Valid(node.cfg) && Agrees(node.cfg, node.cache)
      modifies this`timeLock, this`aggregated, q
      ensures IndexAgrees(node.cfg, round - 1, old(Told(node, told)).index)
      ensures |old(q.items)| <= |q.items| && q.items[..|old(q.items)|] == old(q.items)
      ensures Successors(q.items[|old(q.items)|..])
      ensures forall e <- q.items[|old(q.items)|..] :: e == this || fresh(e)
      ensures match Handle(node.cfg, delaySec, old(Value()), old(Told(node, told)))
              case Raised(x) => r == Raised(x) && q.items == old(q.items)
              case Ok(step) => r.Ok? && acts == step.acts && Values(q.items[|old(q.items)|..]) == step.next
                               && r.value == Sends(step.acts)
      ensures r.Ok? && selected.Some? && RoundUpAnswers.MayAct(node.cfg, old(Value()), old(Told(node, told))) ==>
        (r.value <==> told.seen < round
                      && (RoundUpAnswers.MyTurn(node.cfg, old(Value()), old(Told(node, told))) || !old(aggregated)))
    {
      if selected.Some? { SendsWhenBehind(node.cfg, delaySec, Value(), Told(node, told)); }
      acts := [];
      var s := SocketSteps.StatusOf(status);
      if s.Raised? { return Raised(s.reason), []; }
      if s.value != SocketSteps.NextAuthorityCommitted { return Ok(false), []; }
      var previous := node.IsPreviousRelayer(round);
      if !previous { return Ok(false), [Ignored(id, selected)]; }
      if selected.None? {
        FanOut(q);
        return Ok(false), [FannedOut(id, updating)];
      }
      r, acts := BuildFor(node, q, delaySec, told);
    }

    /** What an event enqueues: objects of its own log, each once. */
    ghost predicate Successors(es: seq<RoundUpEvent>) {
      Distinct(es) && forall e <- es :: e.updating == updating
    }

    /** One clone per target chain. */
    method FanOut(q: RoundUpQueue)
      modifies q
      ensures |old(q.items)| <= |q.items| && q.items[..|old(q.items)|] == old(q.items)
      ensures Successors(q.items[|old(q.items)|..]) && forall e <- q.items[|old(q.items)|..] :: fresh(e)
      ensures Values(q.items[|old(q.items)|..]) == Clones(Value(), updating)
    {
      ghost var before := q.items;
      for i := 0 to |updating|
        invariant |q.items| == |before| + i && q.items[..|before|] == before
        invariant forall j :: 0 <= j < i ==> q.items[|before| + j].Value() == Clone(Value(), updating[j])
        invariant Successors(q.items[|before|..]) && forall e <- q.items[|before|..] :: fresh(e)
      {
        var e := CloneFor(updating[i]);
        ghost var clones := q.items[|before|..];
        q.Enqueue(e);
        assert q.items[|before|..] == clones + [e];
      }
    }

    /** A clone's own chain: it is asked, and sent the set by the primary or after the wait. */
    method BuildFor(node: Relayer, q: RoundUpQueue, delaySec: nat, told: Answers)
      returns (r: Result<bool>, acts: seq<Act>)
      requires Valid(node.cfg) && selected.Some?
      modifies this`timeLock, this`aggregated, q
      ensures |old(q.items)| <= |q.items| && q.items[..|old(q.items)|] == old(q.items)
      ensures q.items[|old(q.items)|..] == [] || q.items[|old(q.items)|..] == [this]
      ensures match HandleFor(node.cfg, delaySec, old(Value()), selected.value, old(Told(node, told)))
              case Raised(x) => r == Raised(x) && q.items == old(q.items)
              case Ok(step) => r.Ok? && acts == step.acts && Values(q.items[|old(q.items)|..]) == step.next
                               && r.value == Sends(step.acts)
    {
      var chain := selected.value;
      var saw := SawRound(id, chain, told.seen, told.now);
      if told.seen >= round { return Ok(false), [saw]; }
      var primary := node.cfg.role.Fast?;
      if !primary {
        var previous := SortedRelayers(node.cfg.history(round - 1));
        SortedLength(node.cfg.history(round - 1));
        if |previous| == 0 { return Raised(ZeroDivision), []; }
        primary := Some(block % |previous|) == Lookup(node.cache, round - 1);
      }
      if primary || !aggregated {
        return Ok(true), [saw, Sent(id, chain, told.seen, round, primary, Lookup(node.cache, round - 1), told.now)];
      }
      timeLock, aggregated := told.now + told.commitTime + 1000 * delaySec, false;
      q.Enqueue(this);
      return Ok(false), [saw];
    }
  }

  /** The transaction, if any, is the last thing a handling does. */
  predicate Sends(acts: seq<Act>) { acts != [] && acts[|acts| - 1].Sent? }

  /** A clone that may act is sent exactly while its chain is behind, by whose turn it is or after a wait. */
  lemma SendsWhenBehind(cfg: Config, delaySec: nat, e: RoundUp, a: Answers)
    requires e.selected.Some?
    ensures RoundUpAnswers.MayAct(cfg, e, a) && Handle(cfg, delaySec, e, a).Ok? ==>
      (Sends(Handle(cfg, delaySec, e, a).value.acts) <==>
        a.seen < e.round && (RoundUpAnswers.MyTurn(cfg, e, a) || !e.aggregated))
  {
    if RoundUpAnswers.MayAct(cfg, e, a) && Handle(cfg, delaySec, e, a).Ok? {
      RoundUpAnswers.RoundDecides(cfg, delaySec, e, a);
    }
  }

  lemma SortedLength(raw: seq<string>)
    ensures |SortedRelayers(raw)| == |raw|
  {
    SortedSorts(LowerAll(raw));
  }

  function Values(es: seq<RoundUpEvent>): (vs: seq<RoundUp>)
    reads es
    ensures |vs| == |es|
  {
    seq(|es|, i requires 0 <= i < |es| reads es => es[i].Value())
  }

  lemma ValuesJoin(xs: seq<RoundUpEvent>, ys: seq<RoundUpEvent>)
    ensures Values(xs + ys) == Values(xs) + Values(ys)
  {
  }

  class RoundUpQueue {
    var items: seq<RoundUpEvent>

    constructor ()
      ensures items == []
    {
      items := [];
    }

    method Enqueue(e: RoundUpEvent)
      modifies this
      ensures items == old(items) + [e]
    {
      items := items + [e];
    }

    method Take(i: nat) returns (e: RoundUpEvent)
      requires i < |items|
      modifies this
      ensures e == old(items)[i] && items == old(items)[..i] + old(items)[i + 1..]
    {
      e := items[i];
      items := items[..i] + items[i + 1..];
    }
  }

  // ----- the queue of a run -----

  /** The dispatcher of one relayer: a node and its queue of distinct events. */
  class RoundUpDispatcher {
    const node: Relayer
    const queue: RoundUpQueue

    constructor (node: Relayer, queue: RoundUpQueue)
      ensures this.node == node && this.queue == queue
    {
      this.node, this.queue := node, queue;
    }

    ghost predicate Valid()
      reads node, queue
    {
      Agrees(node.cfg, node.cache) && Distinct(queue.items) && forall e <- queue.items :: e.Valid(node.cfg)
    }

    /** The objects queued are the events queued in a state of a run. */
    ghost predicate Shows(s: State)
      reads queue, queue.items
    {
      s.queue == Values(queue.items)
    }

    /** A detected log arrives as in a run, or raises where BIFROST is not supported. */
    method Detect(id: nat, block: nat, status: nat, round: nat, timeLock: int, now: int, ghost s: State)
      returns (r: Result<()>, ghost t: State)
      requires Valid() && Shows(s) && id == |s.arrived|
      modifies queue
      ensures Valid() && Shows(t)
      ensures match RoundUps.Init(node.cfg, id, block, status, round, timeLock, now)
              case Raised(x) => r == Raised(x) && t == s
              case Ok(e) => r.Ok? && forall delaySec :: Next(node.cfg, delaySec, s, Arrive(e)) == Some(t)
    {
      var made := RoundUpEvent.Init(node.cfg, id, block, status, round, timeLock, now);
      if made.Raised? { return Raised(made.reason), s; }
      ghost var before := queue.items;
      queue.Enqueue(made.value);
      assert queue.items == before + [made.value];
      var e := made.value.Value();
      assert IsNew(e, |s.arrived|);
      t := s.(arrived := s.arrived + [e], queue := s.queue + [e]);
      r := Ok(());
    }

    /** One dispatch of the due event at position i is the Pop of a run, on a cached index that agrees with the
        preceding round; the other events are untouched. */
    method HandleOne(i: nat, delaySec: nat, told: Answers, ghost s: State)
      returns (r: Result<seq<Act>>, ghost met: Answers, ghost t: State)
      requires Valid() && Shows(s) && i < |queue.items| && told.now >= queue.items[i].timeLock
      modifies queue, queue.items[i]
      ensures Valid()
      ensures met == told.(inCache := met.inCache, index := met.index)
      ensures IndexAgrees(node.cfg, s.queue[i].round - 1, met.index)
      ensures match Next(node.cfg, delaySec, s, Pop(i, met))
              case None => r.Raised?
              case Some(next) => r.Ok? && t == next && Shows(t) && t.log == s.log + Acts(s.queue[i], Step([], r.value))
    {
      ghost var before := queue.items;
      t := s;
      var e := queue.Take(i);
      met := e.Told(node, told);
      ghost var others := queue.items;
      OthersApart(before, i);
      ValuesJoin(before[..i], before[i + 1..]);
      assert Values(others) == s.queue[..i] + s.queue[i + 1..];
      var built, acts := e.BuildTransactionParams(node, queue, delaySec, told);
      if built.Raised? { return Raised(built.reason), met, t; }
      ghost var step := Handle(node.cfg, delaySec, s.queue[i], met).value;
      t := AfterStep(s, i, step);
      r := Ok(acts);
      DistinctJoined(others, queue.items[|others|..]);
      ValuesJoin(others, queue.items[|others|..]);
      assert queue.items == others + queue.items[|others|..];
    }
  }

  lemma DistinctJoined<T>(xs: seq<T>, ys: seq<T>)
    requires Distinct(xs) && Distinct(ys) && forall y <- ys :: y !in xs
    ensures Distinct(xs + ys) && forall e :: e in xs + ys <==> e in xs || e in ys
  {
    forall i, j | 0 <= i < j < |xs + ys| ensures (xs + ys)[i] != (xs + ys)[j] {
      if i < |xs| <= j { assert ys[j - |xs|] in ys && xs[i] in xs; }
    }
  }

  lemma OthersApart(es: seq<RoundUpEvent>, i: nat)
    requires Distinct(es) && i < |es|
    ensures Distinct(es[..i] + es[i + 1..]) && es[i] !in es[..i] + es[i + 1..]
  {
  }

  // ----- bootstrap -----

  /** A detected RoundUp log, decoded. */
  datatype RoundLog = RoundLog(id: nat, block: nat, status: nat, round: nat)

  predicate Committed(log: RoundLog) { log.status == 10 }

  predicate KnownStatus(log: RoundLog) { SocketSteps.StatusOf(log.status).Ok? }

  /** RoundUpEvent.bootstrap: the committed log of the highest round, or none. Of logs with one round any may be
      taken. It raises on an unknown status, and on any log when BIFROST is not supported. */
  method Bootstrap(cfg: Config, logs: seq<RoundLog>) returns (r: Result<Option<RoundUpEvent>>)
    ensures r.Raised? <==> exists log <- logs :: Targets(cfg).Raised? || !KnownStatus(log)
    ensures r.Ok? && r.value.None? ==> forall log <- logs :: !Committed(log)
    ensures r.Ok? && r.value.Some? ==>
      exists log <- logs :: Committed(log) && IsOf(r.value.value, log)
        && forall other <- logs :: Committed(other) ==> other.round <= log.round
    ensures r.Ok? && r.value.Some? ==> fresh(r.value.value) && r.value.value.Valid(cfg)
  {
    var best: Option<RoundUpEvent> := None;
    ghost var at: nat := 0;
    for i := 0 to |logs|
      invariant forall log <- logs[..i] :: Targets(cfg).Ok? && KnownStatus(log)
      invariant best.None? ==> forall log <- logs[..i] :: !Committed(log)
      invariant best.Some? ==> fresh(best.value) && best.value.Valid(cfg)
      invariant best.Some? ==> at < i && Committed(logs[at]) && IsOf(best.value, logs[at])
      invariant best.Some? ==> forall other <- logs[..i] :: Committed(other) ==> other.round <= logs[at].round
    {
      assert logs[..i + 1] == logs[..i] + [logs[i]];
      assert logs[i] in logs;
      var e := RoundUpEvent.Init(cfg, logs[i].id, logs[i].block, logs[i].status, logs[i].round, 0, 0);
      if e.Raised? { return Raised(e.reason); }
      var s := SocketSteps.StatusOf(logs[i].status);
      if s.Raised? { return Raised(s.reason); }
      if s.value == SocketSteps.NextAuthorityCommitted && (best.None? || best.value.round <= logs[i].round) {
        best, at := Some(e.value), i;
      }
    }
    assert logs[..|logs|] == logs;
    if best.Some? { assert logs[at] in logs; }
    r := Ok(best);
  }

  /** The event of a log as bootstrap makes it: due at once and not yet split. */
  ghost predicate IsOf(e: RoundUpEvent, log: RoundLog)
    reads e
  {
    e.Value() == RoundUp(log.id, log.block, log.status, log.round, None, 0, true)
  }
}
