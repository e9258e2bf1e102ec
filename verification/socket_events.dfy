/** The Socket events as the objects they are: queued events share the record of the detected log with the clones
    made from them, and clones rewrite that record in place. */
module SocketEvents {
  import opened Common
  import opened Positional
  import opened RelayerSets
  import opened SocketMessages
  import opened RelayerNode
  import opened SocketSteps
  import SocketRuns
  import SocketAnswers

  datatype Classified = Classified(kind: Status, msg: SocketMessage)

  /** How init classifies a record: the slice names the class, whose constructor compares the decoded status. */
  function Classify(data: seq<byte>): Result<Classified> {
    var kind :- ChildOf(FastStatus(data));
    var m :- Decode(data);
    if m.status == Code(kind) then Ok(Classified(kind, m)) else Raised(Refused)
  }

  /** On encoded messages the constructors never refuse: only a status without a class raises. */
  lemma ClassifyEncoded(m: SocketMessage)
    requires InRange(m)
    ensures Classify(Encode(m))
         == match ChildOf(m.status) case Ok(kind) => Ok(Classified(kind, m)) case Raised(x) => Raised(x)
  {
    FastStatusOf(m);
    DecodeEncode(m);
  }

  /** A spliced record is classified by the status spliced in. */
  lemma SpliceSelectsClass(m: SocketMessage, next: Status)
    requires InRange(m) && 1 <= Code(next) <= 8
    ensures Classify(ChangeStatus(Encode(m), Code(next))) == Ok(Classified(next, m.(status := Code(next))))
  {
    SplicedRecord(Encode(m), m, next);
    ClassifyEncoded(m.(status := Code(next)));
  }

  /** DetectedEvent: the log's identity and its data, which clone_with_other_status overwrites. */
  class DetectedEvent {
    const id: nat
    const block: nat
    var data: seq<byte>

    constructor (id: nat, block: nat, data: seq<byte>)
      ensures this.id == id && this.block == block && this.data == data
    {
      this.id, this.block, this.data := id, block, data;
    }
  }

  ghost predicate Records(d: DetectedEvent, m: SocketMessage, kind: Status)
    reads d
  {
    InRange(m) && d.data == Encode(m) && ChildOf(FastStatus(d.data)) == Ok(kind)
  }

  lemma SplicedRecord(data: seq<byte>, m: SocketMessage, next: Status)
    requires InRange(m) && data == Encode(m)
    ensures InRange(m.(status := Code(next))) && ChangeStatus(data, Code(next)) == Encode(m.(status := Code(next)))
  {
    ByteCodes(next);
    SpliceIsFieldUpdate(m, Code(next));
  }

  class SocketEvent {
    const detected: DetectedEvent
    const decoded: SocketMessage   // decoded when the object was made
    const kind: Status             // the concrete class
    var phase: Phase
    var timeLock: int
    var aggregated: bool

    constructor (detected: DetectedEvent, decoded: SocketMessage, kind: Status, timeLock: int)
      ensures this.detected == detected && this.decoded == decoded && this.kind == kind
      ensures phase == Send && this.timeLock == timeLock && aggregated
    {
      this.detected, this.decoded, this.kind := detected, decoded, kind;
      phase, this.timeLock, aggregated := Send, timeLock, true;
    }

    function Value(): Event
      reads this
    {
      Event(detected.id, detected.block, decoded, kind, phase, timeLock, aggregated)
    }

    /** The record still holds what was decoded, and the class is the status in its bytes. The quantifier ranges over
        the one record; proofs look behind it only where they name Records. */
    ghost predicate Valid()
      reads detected
    {
      forall d {:trigger Records(d, decoded, kind)} :: d in {detected} ==> Records(d, decoded, kind)
    }

    /** RbcEvent.init: the fast slice chooses the class, whose constructor compares it with the decoded status. */
    static method Init(cfg: Config, detected: DetectedEvent, timeLock: int, ghost m: SocketMessage)
      returns (r: Result<SocketEvent>)
      requires InRange(m) && detected.data == Encode(m)
      ensures match SocketSteps.Init(cfg, detected.id, detected.block, m, timeLock)
              case Raised(x) => r == Raised(x)
              case Ok(v) =>
                r.Ok? && fresh(r.value) && r.value.detected == detected && r.value.Valid() && r.value.Value() == v
      ensures r.Ok? ==> r.value.timeLock == timeLock + SocketAnswers.HeldBack(cfg, m.status, timeLock)
    {
      ClassifyEncoded(m);
      FastStatusOf(m);
      SocketAnswers.InitHoldsBack(cfg, detected.id, detected.block, m, timeLock);
      var c :- Classify(detected.data);
      var slow := timeLock != 0 && cfg.role.Slow? && Relays(c.kind);
      var lock := if slow then timeLock + cfg.slowDelaySec * 1000 else timeLock;
      var e := new SocketEvent(detected, c.msg, c.kind, lock);
      r := Ok(e);
    }

    /** ExternalRbcEvent.init, which a fast relayer uses: relays and final statuses only, never held back. */
    static method ExternalInit(detected: DetectedEvent, timeLock: int, ghost m: SocketMessage)
      returns (r: Result<Option<SocketEvent>>)
      requires InRange(m) && detected.data == Encode(m)
      ensures match SocketSteps.ExternalInit(detected.id, detected.block, m, timeLock)
              case Raised(x) => r == Raised(x)
              case Ok(None) => r == Ok(None)
              case Ok(Some(v)) =>
                && r.Ok? && r.value.Some? && fresh(r.value.value) && r.value.value.detected == detected
                && r.value.value.Valid() && r.value.value.Value() == v
      ensures r.Ok? ==> (r.value.Some? <==> 5 <= m.status <= 8)
    {
      ClassifyEncoded(m);
      FastStatusOf(m);
      var status :- StatusOf(FastStatus(detected.data));
      if !Relays(status) && status != Committed && status != Rollbacked { return Ok(Option.None); }
      var c := Classify(detected.data);
      var e := new SocketEvent(detected, c.value.msg, c.value.kind, timeLock);
      r := Ok(Some(e));
    }

    /** clone_with_other_status: the shared record is rewritten, then classified again. */
    method CloneWithOtherStatus(cfg: Config, next: Status, timeLock: int) returns (r: Result<SocketEvent>)
      requires Valid()
      modifies detected
      ensures detected.data == ChangeStatus(old(detected.data), Code(next))
      ensures match SocketSteps.Init(cfg, detected.id, detected.block, decoded.(status := Code(next)), timeLock)
              case Raised(x) => r == Raised(x)
              case Ok(v) =>
                r.Ok? && fresh(r.value) && r.value.detected == detected && r.value.Valid() && r.value.Value() == v
    {
      assert Records(detected, decoded, kind);
      SplicedRecord(detected.data, decoded, next);
      detected.data := ChangeStatus(detected.data, Code(next));
      r := Init(cfg, detected, timeLock, decoded.(status := Code(next)));
    }

    // ----- the handlers -----

    /** What building leaves, against what it must: a transaction, nothing, or the changed event enqueued again. */
    ghost predicate Builds(spec: Result<Built>, was: Event, r: Result<bool>, acts: seq<Act>,
                           before: seq<SocketEvent>, after: seq<SocketEvent>)
      reads this
    {
      match spec
      case Raised(x) => r == Raised(x) && Value() == was && after == before
      case Ok(Tx(done)) => r == Ok(true) && acts == done && Value() == was && after == before
      case Ok(NoTx(again, done)) =>
        && r == Ok(false) && acts == done
        && if again.Some? then Value() == again.value && after == before + [this] else Value() == was && after == before
    }

    /** build_transaction_params; `seen` is the cached index that is_primary_relayer met. The result tells whether a
        transaction was built; a secondary relayer switches to CALL and enqueues itself. */
    method BuildTransactionParams(node: Relayer, q: EventQueue, a: Answers)
      returns (r: Result<bool>, acts: seq<Act>, ghost seen: Option<nat>)
      requires Valid() && Agrees(node.cfg, node.cache)
      modifies this`phase, this`timeLock, node`cache, q
      ensures Agrees(node.cfg, node.cache) && IndexAgrees(node.cfg, decoded.round, seen)
      ensures Builds(BuildSend(node.cfg, old(Value()), a.(index := seen)), old(Value()), r, acts, old(q.items), q.items)
    {
      var cfg := node.cfg;
      acts, seen := [], None;
      var mine := node.CheckMyEvent(decoded);
      if mine.Raised? { return Raised(mine.reason), [], None; }
      if !mine.value { return Ok(false), [], None; }
      if Relays(kind) {
        r, acts, seen := BuildAggregated(node, q, a);
        return;
      }
      if kind.Executed? || kind.Reverted? {
        // build_transaction_param_with_sig: the status two codes further
        return Ok(true), [Voted(detected.id, Some(if kind.Executed? then Accepted else Rejected))], None;
      }
      if decoded.chain !in cfg.known { return Raised(ValueError), [], None; }
      if kind.Requested? {
        var signed := if decoded.chain != cfg.bifrost then Option.None else Some(Accepted);
        return Ok(true), [Voted(detected.id, signed)], None;
      }
      if kind.Failed? && decoded.chain != cfg.bifrost {
        return Ok(true), [Voted(detected.id, Some(Failed))], None;
      }
      r := Ok(false);
    }

    /** _AggregatedRelayEvent.build_transaction_params once the event is known to be the relayer's. */
    method BuildAggregated(node: Relayer, q: EventQueue, a: Answers)
      returns (r: Result<bool>, acts: seq<Act>, ghost seen: Option<nat>)
      requires Valid() && Relays(kind) && Agrees(node.cfg, node.cache)
      requires Authorised(node.cfg, decoded) == Ok(true)
      modifies this`phase, this`timeLock, node`cache, q
      ensures Agrees(node.cfg, node.cache) && IndexAgrees(node.cfg, decoded.round, seen)
      ensures Builds(BuildRelay(node.cfg, old(Value()), a.(index := seen)), old(Value()), r, acts,
                     old(q.items), q.items)
    {
      var cfg := node.cfg;
      acts, seen := [], None;
      // build_call_transaction_params checks the event once more
      var again := node.CheckMyEvent(decoded);
      var chain := TargetChain(cfg, decoded);
      if chain.Raised? { return Raised(chain.reason), [], None; }
      var status := Observed(a.info);
      if status.Raised? { return Raised(status.reason), [], None; }
      var saw := Saw(detected.id, kind, chain.value, status.value, Send, a.now);
      if status.value == Expected(cfg, Value()) { return Ok(false), [saw], None; }
      var index := Lookup(node.cache, decoded.round);
      seen := index;
      var primary := cfg.role.Fast?;
      if !primary {
        if a.currentSize == 0 { return Raised(ZeroDivision), [], seen; }
        primary := index == Some(detected.block % a.currentSize);
      }
      if primary || !aggregated {
        return Ok(true), [saw, Relayed(detected.id, kind, chain.value, primary, index, a.currentSize, a.now)], seen;
      }
      phase, timeLock := Call, timeLock + 1000 * cfg.callDelaySec;
      q.Enqueue(this);
      return Ok(false), [saw], seen;
    }

    /** Exactly one of the three handlers meets a transaction's outcome. */
    method HandleTxResult(node: Relayer, tx: TxOutcome) returns (r: Result<Option<SocketEvent>>)
      requires Valid() && Agrees(node.cfg, node.cache)
      modifies this, detected, node`cache
      ensures Agrees(node.cfg, node.cache) && Returned(OnTx(node.cfg, old(Value()), tx), r)
      ensures r.Ok? && r.value.Some? && r.value.value != this ==> fresh(r.value.value)
    {
      match tx
      case Success => r := HandleTxSuccess(node);
      case Fail => r := HandleTxFail(node);
      case NoReceipt => r := HandleTxNoReceipt(node);
    }

    /** What a handler gives back, against the value it must have. */
    ghost predicate Returned(spec: Result<Option<Event>>, r: Result<Option<SocketEvent>>)
      reads if r.Ok? && r.value.Some? then {r.value.value, r.value.value.detected} else {}
    {
      match spec
      case Raised(x) => r == Raised(x)
      case Ok(None) => r == Ok(None)
      case Ok(Some(v)) => r.Ok? && r.value.Some? && Successor(r.value.value) && r.value.value.Value() == v
    }

    method HandleTxSuccess(node: Relayer) returns (r: Result<Option<SocketEvent>>)
      requires Valid() && Agrees(node.cfg, node.cache)
      modifies this, node`cache
      ensures Agrees(node.cfg, node.cache) && Returned(OnSuccess(node.cfg, old(Value())), r)
      ensures r.Ok? && r.value.Some? ==> r.value.value == this
    {
      var mine := node.CheckMyEvent(decoded);
      if mine.Raised? { return Raised(mine.reason); }
      if !mine.value { return Ok(None); }
      if decoded.chain !in node.cfg.known { return Raised(ValueError); }
      if kind.Requested? && decoded.chain != node.cfg.bifrost {
        phase, timeLock := Call, timeLock + 1000 * node.cfg.callDelaySec;
        return Ok(Some(this));
      }
      r := Ok(None);
    }

    method HandleTxNoReceipt(node: Relayer) returns (r: Result<Option<SocketEvent>>)
      requires Valid() && Agrees(node.cfg, node.cache)
      modifies detected, node`cache
      ensures Agrees(node.cfg, node.cache) && Returned(OnNoReceipt(node.cfg, old(Value())), r)
      ensures r.Ok? && r.value.Some? ==> fresh(r.value.value)
    {
      var mine := node.CheckMyEvent(decoded);
      if mine.Raised? { return Raised(mine.reason); }
      if !mine.value { return Ok(None); }
      if decoded.chain !in node.cfg.known { return Raised(ValueError); }
      r := HandleTxFail(node);
    }

    method HandleTxFail(node: Relayer) returns (r: Result<Option<SocketEvent>>)
      requires Valid() && Agrees(node.cfg, node.cache)
      modifies detected, node`cache
      ensures Agrees(node.cfg, node.cache) && Returned(OnFail(node.cfg, old(Value())), r)
      ensures r.Ok? && r.value.Some? ==> fresh(r.value.value)
    {
      var mine := node.CheckMyEvent(decoded);
      if mine.Raised? { return Raised(mine.reason); }
      if !mine.value { return Ok(None); }
      if kind.Requested? {
        var clone := CloneAs(node.cfg, Failed);
        return Ok(Some(clone));
      }
      if decoded.chain !in node.cfg.known { return Raised(ValueError); }
      if kind.Accepted? && decoded.chain == node.cfg.bifrost {
        var clone := CloneAs(node.cfg, Rejected);
        clone.aggregated := false;
        return Ok(Some(clone));
      }
      r := Ok(None);
    }

    /** clone_with_other_status for a status that has a class. */
    method CloneAs(cfg: Config, next: Status) returns (e: SocketEvent)
      requires Valid() && 1 <= Code(next) <= 8
      modifies detected
      ensures fresh(e) && Successor(e) && Ok(e.Value()) == Clone(cfg, old(Value()), next)
    {
      var clone := CloneWithOtherStatus(cfg, next, timeLock);
      e := clone.value;
    }

    /** An event that may take this one's place in the queue: it holds the same record. */
    ghost predicate Successor(e: SocketEvent)
      reads e, e.detected
    {
      e.detected == detected && e.Valid()
    }

    /** build_call_transaction_params and handle_call_result. */
    method HandleCall(node: Relayer, a: Answers) returns (r: Result<Option<SocketEvent>>, acts: seq<Act>)
      requires Valid() && Agrees(node.cfg, node.cache)
      modifies this, detected, node`cache
      ensures Agrees(node.cfg, node.cache)
      ensures match OnCall(node.cfg, old(Value()), a)
              case Raised(x) => r == Raised(x)
              case Ok(Step(None, done)) => r == Ok(None) && acts == done
              case Ok(Step(Some(v), done)) =>
                r.Ok? && r.value.Some? && acts == done && Successor(r.value.value) && r.value.value.Value() == v
      ensures r.Ok? && r.value.Some? && r.value.value != this ==> fresh(r.value.value)
      ensures r.Ok? && kind.Requested? && Authorised(node.cfg, decoded) == Ok(true) ==>
        && |a.info| > 1 && acts == [Tallied(detected.id, decoded.dstChain, a.info[1], a.quorum, a.now)]
        && (r.value.Some? <==> 0 < a.quorum && a.info[1] < a.quorum)
    {
      if kind.Requested? && Authorised(node.cfg, decoded) == Ok(true) && OnCall(node.cfg, Value(), a).Ok? {
        SocketAnswers.VotesAreRead(node.cfg, Value(), a);
      }
      acts := [];
      var mine := node.CheckMyEvent(decoded);
      if mine.Raised? { return Raised(mine.reason), []; }
      if !mine.value { return Ok(None), []; }
      if kind.Requested? {
        var dst := DstChain(node.cfg, decoded);
        if dst.Raised? { return Raised(dst.reason), []; }
        if |a.info| <= Code(kind) { return Raised(IndexError), []; }
        var votes := a.info[Code(kind)];
        acts := [Tallied(detected.id, dst.value, votes, a.quorum, a.now)];
        if a.quorum == 0 || votes >= a.quorum { return Ok(None), acts; }
        r := HandleTxFail(node);
        return;
      }
      if Relays(kind) {
        var chain := TargetChain(node.cfg, decoded);
        if chain.Raised? { return Raised(chain.reason), []; }
        var status := Observed(a.info);
        if status.Raised? { return Raised(status.reason), []; }
        acts := [Saw(detected.id, kind, chain.value, status.value, Call, a.now)];
        if status.value == Expected(node.cfg, Value()) { return Ok(None), acts; }
        aggregated, phase, timeLock := false, Send, a.now;
        return Ok(Some(this)), acts;
      }
      if decoded.chain !in node.cfg.known { return Raised(ValueError), []; }
      r := Ok(None);
    }

    /** What the dispatcher does with a popped event, up to queueing what comes back. */
    method Run(node: Relayer, q: EventQueue, a: Answers) returns (r: Result<seq<Act>>, ghost seen: Option<nat>)
      requires Valid() && Agrees(node.cfg, node.cache)
      modifies this, detected, node`cache, q
      ensures Agrees(node.cfg, node.cache) && IndexAgrees(node.cfg, decoded.round, seen)
      ensures Runs(Handle(node.cfg, old(Value()), a.(index := seen)), r, old(q.items), q.items)
      ensures forall e <- q.items :: e in old(q.items) || e == this || fresh(e)
    {
      if phase.Send? {
        r, seen := RunSend(node, q, a);
      } else {
        seen := None;
        var back, acts := HandleCall(node, a);
        if back.Raised? { return Raised(back.reason), seen; }
        if back.value.Some? { q.Enqueue(back.value.value); }
        r := Ok(acts);
      }
    }

    method RunSend(node: Relayer, q: EventQueue, a: Answers) returns (r: Result<seq<Act>>, ghost seen: Option<nat>)
      requires Valid() && Agrees(node.cfg, node.cache)
      modifies this, detected, node`cache, q
      ensures Agrees(node.cfg, node.cache) && IndexAgrees(node.cfg, decoded.round, seen)
      ensures Runs(OnSend(node.cfg, old(Value()), a.(index := seen)), r, old(q.items), q.items)
      ensures forall e <- q.items :: e in old(q.items) || e == this || fresh(e)
    {
      var built, acts;
      built, acts, seen := BuildTransactionParams(node, q, a);
      if built.Raised? { return Raised(built.reason), seen; }
      if built.value {
        var back := HandleTxResult(node, a.tx);
        if back.Raised? { return Raised(back.reason), seen; }
        if back.value.Some? { q.Enqueue(back.value.value); }
        if !a.tx.Success? { acts := acts + [TxLost(detected.id, kind)]; }
      }
      r := Ok(acts);
    }

    /** What a run leaves, against the step it must be. */
    ghost predicate Runs(spec: Result<Step>, r: Result<seq<Act>>, before: seq<SocketEvent>, after: seq<SocketEvent>)
      reads after, set e | e in after :: e.detected
    {
      match spec
      case Raised(x) => r == Raised(x) && after == before
      case Ok(step) => r == Ok(step.acts) && Queued(before, after, step.next)
    }

    /** The queue gained an event of the given value that holds this event's record, or nothing. */
    ghost predicate Queued(before: seq<SocketEvent>, after: seq<SocketEvent>, next: Option<Event>)
      reads after, set e | e in after :: e.detected
    {
      match next
      case None => after == before
      case Some(v) =>
        && |after| == |before| + 1 && after[..|before|] == before
        && Successor(after[|before|]) && after[|before|].Value() == v
    }
  }

  /** The relayer's queue of events. */
  class EventQueue {
    var items: seq<SocketEvent>

    constructor ()
      ensures items == []
    {
      items := [];
    }

    method Enqueue(e: SocketEvent)
      modifies this
      ensures items == old(items) + [e]
    {
      items := items + [e];
    }

    /** Takes out one event; which is due first is the dispatcher's business. */
    method Take(i: nat) returns (e: SocketEvent)
      requires i < |items|
      modifies this
      ensures e == old(items)[i] && items == Others(old(items), i)
    {
      e := items[i];
      items := items[..i] + items[i + 1..];
    }
  }

  /** Distinct events hold distinct records of distinct logs. */
  ghost predicate Exclusive(es: seq<SocketEvent>) {
    forall i, j :: 0 <= i < j < |es| ==> Apart(es[i], es[j])
  }

  predicate Apart(d: SocketEvent, e: SocketEvent) {
    d != e && d.detected != e.detected && d.detected.id != e.detected.id
  }

  /** All but the one at i. */
  function Others<T>(s: seq<T>, i: nat): seq<T>
    requires i < |s|
  {
    s[..i] + s[i + 1..]
  }

  lemma ExclusiveWithout(es: seq<SocketEvent>, i: nat)
    requires Exclusive(es) && i < |es|
    ensures Exclusive(Others(es, i)) && forall e <- Others(es, i) :: Apart(e, es[i])
    ensures |Others(es, i)| == |es| - 1 && forall k :: 0 <= k < |es| - 1 ==> Others(es, i)[k] == es[Skip(k, i)]
  {
  }

  lemma ExclusiveWith(es: seq<SocketEvent>, f: SocketEvent)
    requires Exclusive(es) && forall e <- es :: Apart(e, f)
    ensures Exclusive(es + [f])
  {
  }

  /** Removing an event and queueing one that holds its record keeps the others apart from it. */
  lemma ExclusiveRejoined(others: seq<SocketEvent>, after: seq<SocketEvent>, e: SocketEvent)
    requires Exclusive(others) && forall o <- others :: Apart(o, e)
    requires Rejoins(others, after, e)
    ensures Exclusive(after)
  {
    if after != others {
      var f := after[|others|];
      assert after == others + [f];
      forall o | o in others ensures Apart(o, f) { assert Apart(o, e); }
    }
  }

  predicate Rejoins(others: seq<SocketEvent>, after: seq<SocketEvent>, e: SocketEvent) {
    after == others
    || (&& |after| == |others| + 1 && after[..|others|] == others
        && after[|others|].detected == e.detected && after[|others|] !in others)
  }

  function Skip(k: nat, i: nat): nat { if k < i then k else k + 1 }

  /** The dispatcher of one relayer: a node and its queue. */
  class Dispatcher {
    const node: Relayer
    const queue: EventQueue

    constructor (node: Relayer, queue: EventQueue)
      ensures this.node == node && this.queue == queue
    {
      this.node, this.queue := node, queue;
    }

    /** Every queued event is valid and owns its record: no two share one, although clones rewrite them in place. */
    ghost predicate Valid()
      reads this, node, queue, queue.items, set e | e in queue.items :: e.detected
    {
      && Agrees(node.cfg, node.cache)
      && (forall i :: 0 <= i < |queue.items| ==> queue.items[i].Valid())
      && Exclusive(queue.items)
    }

    function Values(): (vs: seq<Event>)
      reads queue, queue.items
      ensures |vs| == |queue.items|
    {
      seq(|queue.items|, i requires 0 <= i < |queue.items| reads queue, queue.items => queue.items[i].Value())
    }

    /** Queues the event of a newly detected log. */
    method Detect(detected: DetectedEvent, timeLock: int, ghost m: SocketMessage) returns (r: Result<SocketEvent>)
      requires Valid() && InRange(m) && detected.data == Encode(m)
      requires forall e <- queue.items :: e.detected != detected && e.detected.id != detected.id
      modifies queue
      ensures Valid()
      ensures match SocketSteps.Init(node.cfg, detected.id, detected.block, m, timeLock)
              case Raised(x) => r == Raised(x) && queue.items == old(queue.items)
              case Ok(v) => r.Ok? && Values() == old(Values()) + [v]
    {
      r := SocketEvent.Init(node.cfg, detected, timeLock, m);
      if r.Ok? { Append(r.value); }
    }

    /** Queues an event whose record no queued event holds. */
    method Append(e: SocketEvent)
      requires Valid() && e.Valid() && forall o <- queue.items :: Apart(o, e)
      modifies queue
      ensures Valid() && Values() == old(Values()) + [e.Value()]
    {
      ghost var before, values := queue.items, Values();
      queue.Enqueue(e);
      assert queue.items == before + [e];
      ExclusiveWith(before, e);
      assert Values() == values + [e.Value()];
    }

    /** Takes the event at position i out and runs it; the others are untouched. */
    method PopAndRun(i: nat, a: Answers) returns (r: Result<seq<Act>>, ghost seen: Option<nat>)
      requires Valid() && i < |queue.items|
      modifies queue, node`cache, queue.items[i], queue.items[i].detected
      ensures Agrees(node.cfg, node.cache) && IndexAgrees(node.cfg, old(queue.items)[i].decoded.round, seen)
      ensures var others := Others(old(queue.items), i);
              && (forall k :: 0 <= k < |others| ==>
                    others[k].Valid() && others[k].Value() == old(queue.items[Skip(k, i)].Value()))
              && Rejoins(others, queue.items, old(queue.items)[i])
              && old(queue.items)[i].Runs(Handle(node.cfg, old(queue.items[i].Value()), a.(index := seen)), r, others,
                                          queue.items)
    {
      ghost var before := queue.items;
      var e := queue.Take(i);
      ghost var others := queue.items;
      ExclusiveWithout(before, i);
      r, seen := e.Run(node, queue, a);
      forall k | 0 <= k < |others|
        ensures others[k].Valid() && others[k].Value() == old(before[Skip(k, i)].Value())
      {
        assert Apart(others[k], e) && old(before[Skip(k, i)].Valid());
      }
    }

    /** One handling of the event at position i. */
    method HandleOne(i: nat, a: Answers) returns (r: Result<seq<Act>>, ghost seen: Option<nat>)
      requires Valid() && i < |queue.items|
      modifies queue, node`cache, queue.items[i], queue.items[i].detected
      ensures Valid() && IndexAgrees(node.cfg, old(queue.items)[i].decoded.round, seen)
      ensures match Handle(node.cfg, old(queue.items[i].Value()), a.(index := seen))
              case Raised(x) => r == Raised(x)
              case Ok(step) => r == Ok(step.acts) && Values() == Replaced(old(Values()), i, step.next)
    {
      ghost var before, values := queue.items, Values();
      ExclusiveWithout(before, i);
      r, seen := PopAndRun(i, a);
      ghost var others := Others(before, i);
      ValuesReplaced(others, values, i);
      ValidRejoined(others, before[i]);
    }

    lemma ValidRejoined(others: seq<SocketEvent>, e: SocketEvent)
      requires Agrees(node.cfg, node.cache) && Exclusive(others) && (forall o <- others :: Apart(o, e) && o.Valid())
      requires Rejoins(others, queue.items, e) && (queue.items != others ==> queue.items[|others|].Valid())
      ensures Valid()
    {
      ExclusiveRejoined(others, queue.items, e);
    }

    lemma ValuesReplaced(others: seq<SocketEvent>, vs: seq<Event>, i: nat)
      requires i < |vs| == |others| + 1 && forall k :: 0 <= k < |others| ==> others[k].Value() == vs[Skip(k, i)]
      ensures queue.items == others ==> Values() == Replaced(vs, i, None)
      ensures |queue.items| == |others| + 1 && queue.items[..|others|] == others
              ==> Values() == Replaced(vs, i, Some(queue.items[|others|].Value()))
    {
      if |queue.items| == |others| + 1 && queue.items[..|others|] == others {
        assert queue.items == others + [queue.items[|others|]];
      }
    }
  }

  /** The queue once the event at i has been handled: it is out, its successor, if any, at the end. */
  function Replaced(vs: seq<Event>, i: nat, next: Option<Event>): seq<Event>
    requires i < |vs|
  {
    Others(vs, i) + if next.Some? then [next.value] else []
  }

  lemma ByteCodes(s: Status)
    ensures Code(s) < Pow(256, STATUS_BYTES)
  {
    assert Pow(256, 1) == 256 * Pow(256, 0);
  }

  /** The cached decode, the live decode and the class agree for as long as an event is valid. */
  lemma ValidEventsAgree(e: SocketEvent)
    requires e.Valid()
    ensures Decode(e.detected.data) == Ok(e.decoded) && ChildOf(e.decoded.status) == Ok(e.kind)
  {
    assert Records(e.detected, e.decoded, e.kind);
    DecodeEncode(e.decoded);
    FastStatusOf(e.decoded);
  }

  // ----- the queue of a run -----

  ghost predicate DistinctIds(vs: seq<Event>) {
    forall i, j :: 0 <= i < j < |vs| ==> vs[i].id != vs[j].id
  }

  /** The queued events by the log they come from, as SocketRuns keeps them. */
  ghost function Pending(vs: seq<Event>): map<nat, Event>
    requires DistinctIds(vs)
  {
    map k | 0 <= k < |vs| :: vs[k].id := vs[k]
  }

  lemma ReplacedMembers(vs: seq<Event>, i: nat, next: Option<Event>, v: Event)
    requires i < |vs| && DistinctIds(vs)
    ensures v in Replaced(vs, i, next) <==> (v in vs && v.id != vs[i].id) || next == Some(v)
  {
    var ws := Replaced(vs, i, next);
    assert forall k :: 0 <= k < |vs| - 1 ==> ws[k] == vs[Skip(k, i)];
    if v in vs && v.id != vs[i].id {
      var k :| 0 <= k < |vs| && vs[k] == v;
      assert ws[if k < i then k else k - 1] == v;
    }
    if next == Some(v) { assert ws[|vs| - 1] == v; }
  }

  lemma ReplacedDistinct(vs: seq<Event>, i: nat, next: Option<Event>)
    requires i < |vs| && DistinctIds(vs) && (next.Some? ==> next.value.id == vs[i].id)
    ensures DistinctIds(Replaced(vs, i, next))
  {
    var ws := Replaced(vs, i, next);
    assert forall k :: 0 <= k < |vs| - 1 ==> ws[k] == vs[Skip(k, i)];
  }

  function Moved(q: map<nat, Event>, id: nat, next: Option<Event>): map<nat, Event> {
    if next.Some? then q[id := next.value] else q - {id}
  }

  lemma PendingReplaced(vs: seq<Event>, i: nat, next: Option<Event>)
    requires i < |vs| && DistinctIds(vs) && (next.Some? ==> next.value.id == vs[i].id)
    ensures DistinctIds(Replaced(vs, i, next)) && Pending(Replaced(vs, i, next)) == Moved(Pending(vs), vs[i].id, next)
  {
    ReplacedDistinct(vs, i, next);
    AllStillPending(vs, i, next);
    NoOthersPending(vs, i, next);
  }

  lemma AllStillPending(vs: seq<Event>, i: nat, next: Option<Event>)
    requires i < |vs| && DistinctIds(vs) && DistinctIds(Replaced(vs, i, next))
    requires next.Some? ==> next.value.id == vs[i].id
    ensures var p, q := Pending(Replaced(vs, i, next)), Moved(Pending(vs), vs[i].id, next);
            forall id :: id in q ==> id in p && p[id] == q[id]
  {
    forall id | id in Moved(Pending(vs), vs[i].id, next)
      ensures id in Pending(Replaced(vs, i, next))
      ensures Pending(Replaced(vs, i, next))[id] == Moved(Pending(vs), vs[i].id, next)[id]
    {
      StillPending(vs, i, next, id);
    }
  }

  lemma NoOthersPending(vs: seq<Event>, i: nat, next: Option<Event>)
    requires i < |vs| && DistinctIds(vs) && DistinctIds(Replaced(vs, i, next))
    requires next.Some? ==> next.value.id == vs[i].id
    ensures Pending(Replaced(vs, i, next)).Keys <= Moved(Pending(vs), vs[i].id, next).Keys
  {
    forall id | id in Pending(Replaced(vs, i, next)) ensures id in Moved(Pending(vs), vs[i].id, next) {
      NothingElsePending(vs, i, next, id);
    }
  }

  lemma NothingElsePending(vs: seq<Event>, i: nat, next: Option<Event>, id: nat)
    requires i < |vs| && DistinctIds(vs) && DistinctIds(Replaced(vs, i, next))
    requires (next.Some? ==> next.value.id == vs[i].id) && id in Pending(Replaced(vs, i, next))
    ensures id in Moved(Pending(vs), vs[i].id, next)
  {
    ReplacedMembers(vs, i, next, Pending(Replaced(vs, i, next))[id]);
  }

  lemma StillPending(vs: seq<Event>, i: nat, next: Option<Event>, id: nat)
    requires i < |vs| && DistinctIds(vs) && DistinctIds(Replaced(vs, i, next))
    requires (next.Some? ==> next.value.id == vs[i].id) && id in Moved(Pending(vs), vs[i].id, next)
    ensures id in Pending(Replaced(vs, i, next))
    ensures Pending(Replaced(vs, i, next))[id] == Moved(Pending(vs), vs[i].id, next)[id]
  {
    ReplacedMembers(vs, i, next, Moved(Pending(vs), vs[i].id, next)[id]);
  }

  /** HandleOne is the Pop of a run: the queue it leaves is the one the run goes on with. */
  lemma HandleOneIsPop(cfg: Config, s: SocketRuns.State, vs: seq<Event>, i: nat, a: Answers, step: Step)
    requires i < |vs| && DistinctIds(vs) && s.queue == Pending(vs)
    requires a.now >= vs[i].timeLock && Handle(cfg, vs[i], a) == Ok(step)
    ensures DistinctIds(Replaced(vs, i, step.next))
    ensures SocketRuns.Next(cfg, s, SocketRuns.Pop(vs[i].id, a))
         == Some(s.(queue := Pending(Replaced(vs, i, step.next)), log := s.log + [Handled(vs[i].id)] + step.acts))
  {
    HandleKeepsId(cfg, vs[i], a);
    PendingReplaced(vs, i, step.next);
    assert s.queue[vs[i].id] == vs[i];
  }
}
