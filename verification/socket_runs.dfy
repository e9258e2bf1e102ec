/** Whole runs of one relayer over Socket events: any logs, any handling order, any chain answers. */
module SocketRuns {
  import opened Common
  import opened RelayerSets
  import opened SocketMessages
  import opened RelayerNode
  import opened SocketSteps

  /** `arrived` holds every detected event as it was queued, `log` everything the relayer did since. */
  datatype State = State(arrived: seq<Event>, queue: map<nat, Event>, log: seq<Act>)

  const START := State([], map[], [])

  datatype Label = Arrive(e: Event) | Pop(id: nat, a: Answers)

  /** An event as init or bootstrap hands it to the queue. */
  predicate IsNew(e: Event, id: nat) {
    e.id == id && ChildOf(e.msg.status) == Ok(e.kind) && e.phase.Send? && e.aggregated
  }

  function AfterStep(s: State, id: nat, step: Step): State {
    s.(queue := if step.next.Some? then s.queue[id := step.next.value] else s.queue - {id},
       log := s.log + [Handled(id)] + step.acts)
  }

  /** One move; None where it is not enabled or raises, which ends a run. */
  function Next(cfg: Config, s: State, l: Label): Option<State> {
    match l
    case Arrive(e) =>
      if IsNew(e, |s.arrived|) && e.id !in s.queue
      then Some(s.(arrived := s.arrived + [e], queue := s.queue[e.id := e])) else None
    case Pop(id, a) =>
      if id in s.queue && a.now >= s.queue[id].timeLock && Handle(cfg, s.queue[id], a).Ok?
      then Some(AfterStep(s, id, Handle(cfg, s.queue[id], a).value)) else None
  }

  function Exec(cfg: Config, s: State, labels: seq<Label>): Option<State> {
    if labels == [] then Some(s)
    else match Exec(cfg, s, labels[..|labels| - 1])
      case None => None
      case Some(t) => Next(cfg, t, labels[|labels| - 1])
  }

  /** init, the external init and the clone all produce events that Arrive accepts. */
  lemma InitsAreNew(cfg: Config, id: nat, block: nat, m: SocketMessage, timeLock: int)
    ensures var e := Init(cfg, id, block, m, timeLock); e.Ok? ==> IsNew(e.value, id)
    ensures var e := ExternalInit(id, block, m, timeLock); e.Ok? && e.value.Some? ==> IsNew(e.value.value, id)
  {
  }

  // ----- facts about a log -----

  /** The status that ends a relay of `kind`: two codes further for an inbound request (COMMITTED, ROLLBACKED),
      two codes back for an outbound one (EXECUTED, REVERTED). */
  predicate IsFinal(cfg: Config, m: SocketMessage, kind: Status, status: Status) {
    Code(status) == if Inbound(cfg, m) then Code(kind) + 2 else Code(kind) - 2
  }

  /** Relays go back to the source of an inbound request and on to the destination of an outbound one. */
  function RelayChain(cfg: Config, m: SocketMessage): nat {
    if Inbound(cfg, m) then m.chain else m.dstChain
  }

  ghost predicate SawFinal(cfg: Config, log: seq<Act>, o: Event, kind: Status) {
    exists act <- log :: act.Saw? && act.id == o.id && act.kind == kind
                         && act.chain == RelayChain(cfg, o.msg) && IsFinal(cfg, o.msg, kind, act.status)
  }

  ghost predicate HasRelay(log: seq<Act>, id: nat, kind: Status) {
    exists act <- log :: act.Relayed? && act.id == id && act.kind == kind
  }

  /** A query of the target chain in the CALL phase that did not find the final status, made between two instants. */
  ghost predicate MissedBetween(cfg: Config, log: seq<Act>, o: Event, kind: Status, from: int, to: int) {
    exists act <- log :: act.Saw? && act.id == o.id && act.kind == kind && act.chain == RelayChain(cfg, o.msg)
                         && !IsFinal(cfg, o.msg, kind, act.status) && act.phase.Call? && from <= act.now <= to
  }

  /** A vote transaction that did not succeed, or a tally below a non-zero quorum taken from an instant on. */
  ghost predicate VoteFailed(log: seq<Act>, id: nat, from: int) {
    || TxLost(id, Requested) in log
    || exists act <- log :: act.Tallied? && act.id == id && act.votes < act.quorum && from <= act.now
  }

  /** The status the event arrived with, FAILED derived from REQUESTED, or, outbound, REJECTED from ACCEPTED. */
  predicate MayBecome(cfg: Config, o: Event, kind: Status) {
    || kind == o.kind
    || (o.kind.Requested? && kind.Failed?)
    || (o.kind.Accepted? && kind.Rejected? && !Inbound(cfg, o.msg))
  }

  function CallTime(cfg: Config, o: Event): int {
    o.timeLock + 1000 * cfg.callDelaySec
  }

  /** An event keeps its log's identity; only the status field may have moved, and its class follows it. */
  predicate Derived(cfg: Config, o: Event, e: Event) {
    && e.id == o.id && e.block == o.block
    && e.msg == o.msg.(status := Code(e.kind)) && 1 <= Code(e.kind) <= 8
    && MayBecome(cfg, o, e.kind)
  }

  /** Why a relayer that is not primary may relay at time `now`. */
  ghost predicate Justified(cfg: Config, log: seq<Act>, o: Event, kind: Status, now: int) {
    || MissedBetween(cfg, log, o, kind, CallTime(cfg, o), now)
    || (o.kind.Accepted? && kind.Rejected? && HasRelay(log, o.id, Accepted) && TxLost(o.id, Accepted) in log)
  }

  ghost predicate RelayEventInv(cfg: Config, log: seq<Act>, o: Event, e: Event) {
    && (!e.aggregated ==> e.phase.Send? && Justified(cfg, log, o, e.kind, e.timeLock))
    && (e.aggregated ==> e.kind == o.kind && e.timeLock == if e.phase.Call? then CallTime(cfg, o) else o.timeLock)
    && !HasRelay(log, e.id, e.kind)
    && (e.kind.Accepted? ==> !HasRelay(log, e.id, Rejected))
  }

  /** What holds of each queued event. */
  ghost predicate EventInv(cfg: Config, log: seq<Act>, o: Event, e: Event) {
    && Derived(cfg, o, e)
    && (Relays(e.kind) ==> RelayEventInv(cfg, log, o, e))
    && (Relays(o.kind) && e.kind != o.kind ==> HasRelay(log, o.id, o.kind) && TxLost(o.id, o.kind) in log)
    && (e.kind.Requested? ==> e.timeLock == if e.phase.Call? then CallTime(cfg, o) else o.timeLock)
    && (e.kind.Failed? && o.kind.Requested? ==> VoteFailed(log, o.id, CallTime(cfg, o)))
    && (e.kind.Failed? ==> e.phase.Send?)
  }

  /** A relay made as primary: the cached index met the block number's remainder by the size of the current set. */
  predicate DecidedPrimary(cfg: Config, o: Event, act: Act)
    requires act.Relayed?
  {
    cfg.role.Fast? || (act.size > 0 && act.index == Some(o.block % act.size))
  }

  /** The act at position p, if a relay, is the first of its event and status, goes to the chain the request came
      from or is bound for, and is made by a primary or for a reason recorded before it. */
  ghost predicate SoundRelay(cfg: Config, arrived: seq<Event>, log: seq<Act>, p: nat)
    requires p < |log| && log[p].Relayed?
  {
    && !HasRelay(log[..p], log[p].id, log[p].kind)
    && log[p].id < |arrived|
    && var o := arrived[log[p].id];
    && log[p].chain == RelayChain(cfg, o.msg) && MayBecome(cfg, o, log[p].kind)
    && (if log[p].primary then DecidedPrimary(cfg, o, log[p]) else Justified(cfg, log[..p], o, log[p].kind, log[p].now))
  }

  /** What a vote may sign, given the log its event arrived with and what happened since. */
  ghost predicate VoteAllowed(cfg: Config, o: Event, signed: Option<Status>, log: seq<Act>) {
    match signed
    case None => o.kind.Requested? && Inbound(cfg, o.msg)
    case Some(Accepted) => o.kind.Executed? || (o.kind.Requested? && !Inbound(cfg, o.msg))
    case Some(Rejected) => o.kind.Reverted?
    case Some(Failed) =>
      Inbound(cfg, o.msg) && (o.kind.Failed? || (o.kind.Requested? && VoteFailed(log, o.id, CallTime(cfg, o))))
    case _ => false
  }

  ghost predicate SoundVote(cfg: Config, arrived: seq<Event>, log: seq<Act>, p: nat)
    requires p < |log| && log[p].Voted?
  {
    log[p].id < |arrived| && VoteAllowed(cfg, arrived[log[p].id], log[p].signed, log[..p])
  }

  ghost predicate SoundAt(cfg: Config, arrived: seq<Event>, log: seq<Act>, p: nat)
    requires p < |log|
  {
    && (log[p].Relayed? ==> SoundRelay(cfg, arrived, log, p))
    && (log[p].Voted? ==> SoundVote(cfg, arrived, log, p))
  }

  ghost predicate ActsSound(cfg: Config, arrived: seq<Event>, log: seq<Act>) {
    forall p :: 0 <= p < |log| ==> SoundAt(cfg, arrived, log, p)
  }

  /** The relay classes an event has had so far: that of its log, and REJECTED once an outbound relay of its ACCEPTED
      class did not succeed. */
  ghost predicate Became(cfg: Config, log: seq<Act>, o: Event, kind: Status) {
    && Relays(kind)
    && (kind == o.kind || (o.kind.Accepted? && !Inbound(cfg, o.msg) && TxLost(o.id, Accepted) in log))
  }

  /** The event is queued in this class, or the final status of the class was seen, or a relay was built for it. */
  ghost predicate Accounted(cfg: Config, s: State, id: nat, kind: Status)
    requires id < |s.arrived|
  {
    || (id in s.queue && s.queue[id].kind == kind)
    || SawFinal(cfg, s.log, s.arrived[id], kind)
    || HasRelay(s.log, id, kind)
  }

  /** In every relay class it has had, an authorised event is accounted for. */
  ghost predicate NotLost(cfg: Config, s: State, id: nat)
    requires id < |s.arrived|
  {
    Authorised(cfg, s.arrived[id].msg) == Ok(true) ==>
      forall kind :: Became(cfg, s.log, s.arrived[id], kind) ==> Accounted(cfg, s, id, kind)
  }

  function RankOf(cfg: Config, queue: map<nat, Event>, id: nat): nat {
    if id in queue then Rank(cfg, queue[id]) else 0
  }

  /** What holds of each arrival: its relays are not lost, and its handlings are paid for by its rank. */
  ghost predicate InAccount(cfg: Config, s: State, id: nat)
    requires id < |s.arrived|
  {
    && NotLost(cfg, s, id)
    && multiset(s.log)[Handled(id)] + RankOf(cfg, s.queue, id) <= Rank(cfg, s.arrived[id])
  }

  ghost predicate Inv(cfg: Config, s: State) {
    && (forall id {:trigger id in s.queue} :: id in s.queue ==>
          id < |s.arrived| && EventInv(cfg, s.log, s.arrived[id], s.queue[id]))
    && (forall id {:trigger s.arrived[id]} :: 0 <= id < |s.arrived| ==>
          s.arrived[id].id == id && s.arrived[id].phase.Send?)
    && (forall id :: 0 <= id < |s.arrived| ==> InAccount(cfg, s, id))
    && (forall act <- s.log :: act.id < |s.arrived|)
    && ActsSound(cfg, s.arrived, s.log)
  }

  // ----- one handling -----

  /** What a handling may record of its own event. */
  ghost predicate OwnAct(cfg: Config, log: seq<Act>, o: Event, e: Event, now: int, act: Act) {
    && act.id == e.id && !act.Handled?
    && (act.Relayed? ==> Relays(e.kind) && act.kind == e.kind && act.now == now && act.chain == RelayChain(cfg, o.msg)
                         && (if act.primary then DecidedPrimary(cfg, o, act) else !e.aggregated))
    && (act.Voted? ==> VoteAllowed(cfg, o, act.signed, log))
  }

  lemma StepActs(cfg: Config, log: seq<Act>, o: Event, e: Event, a: Answers)
    requires EventInv(cfg, log, o, e) && Handle(cfg, e, a).Ok?
    ensures var acts := Handle(cfg, e, a).value.acts;
            && (forall act <- acts :: OwnAct(cfg, log, o, e, a.now, act))
            && (forall i, j :: 0 <= i < j < |acts| && acts[i].Relayed? ==> !acts[j].Relayed?)
  {
    if e.phase.Send? { SendActs(cfg, log, o, e, a); } else { CallActs(cfg, log, o, e, a); }
  }

  lemma SendActs(cfg: Config, log: seq<Act>, o: Event, e: Event, a: Answers)
    requires EventInv(cfg, log, o, e) && OnSend(cfg, e, a).Ok?
    ensures var acts := OnSend(cfg, e, a).value.acts;
            && (forall act <- acts :: OwnAct(cfg, log, o, e, a.now, act))
            && (forall i, j :: 0 <= i < j < |acts| && acts[i].Relayed? ==> !acts[j].Relayed?)
  {
  }

  lemma CallActs(cfg: Config, log: seq<Act>, o: Event, e: Event, a: Answers)
    requires EventInv(cfg, log, o, e) && OnCall(cfg, e, a).Ok?
    ensures forall act <- OnCall(cfg, e, a).value.acts :: OwnAct(cfg, log, o, e, a.now, act) && !act.Relayed?
  {
  }

  lemma StepIdentity(cfg: Config, o: Event, e: Event, a: Answers)
    requires Derived(cfg, o, e) && Handle(cfg, e, a).Ok? && Handle(cfg, e, a).value.next.Some?
    ensures Derived(cfg, o, Handle(cfg, e, a).value.next.value)
  {
  }

  /** A relay event that leaves, or changes its status, has been seen final or has been relayed. */
  lemma StepLeaves(cfg: Config, o: Event, e: Event, a: Answers)
    requires Derived(cfg, o, e)
    requires Handle(cfg, e, a).Ok? && Relays(e.kind) && Authorised(cfg, e.msg) == Ok(true)
    requires var next := Handle(cfg, e, a).value.next; next.None? || next.value.kind != e.kind
    ensures var step := Handle(cfg, e, a).value;
            HasRelay(step.acts, e.id, e.kind) || (step.next.None? && SawFinal(cfg, step.acts, o, e.kind))
  {
    var acts := Handle(cfg, e, a).value.acts;
    assert acts[0] in acts;
    if |acts| > 1 { assert acts[1] in acts; }
  }

  /** The outbound ACCEPTED event whose relay did not succeed comes back REJECTED at once. */
  lemma LostComesBackRejected(cfg: Config, o: Event, e: Event, a: Answers)
    requires Derived(cfg, o, e) && Handle(cfg, e, a).Ok? && !Inbound(cfg, o.msg)
    requires Authorised(cfg, e.msg) == Ok(true) && TxLost(e.id, Accepted) in Handle(cfg, e, a).value.acts
    ensures e.kind.Accepted?
    ensures var next := Handle(cfg, e, a).value.next; next.Some? && next.value.kind.Rejected?
  {
  }

  lemma LogGrows(log: seq<Act>, more: seq<Act>)
    ensures forall act :: act in log + more <==> act in log || act in more
  {
  }

  lemma FactsGrow(cfg: Config, log: seq<Act>, more: seq<Act>, o: Event)
    ensures forall k :: HasRelay(log + more, o.id, k) <==> HasRelay(log, o.id, k) || HasRelay(more, o.id, k)
    ensures forall k :: SawFinal(cfg, log + more, o, k) <==> SawFinal(cfg, log, o, k) || SawFinal(cfg, more, o, k)
    ensures forall k, t, u :: MissedBetween(cfg, log, o, k, t, u) ==> MissedBetween(cfg, log + more, o, k, t, u)
    ensures forall k, t, u :: MissedBetween(cfg, more, o, k, t, u) ==> MissedBetween(cfg, log + more, o, k, t, u)
    ensures forall t :: VoteFailed(log, o.id, t) || VoteFailed(more, o.id, t) ==> VoteFailed(log + more, o.id, t)
    ensures forall k, u :: Justified(cfg, log, o, k, u) ==> Justified(cfg, log + more, o, k, u)
  {
    LogGrows(log, more);
  }

  /** The successor of a handled event meets the per-event invariant over the longer log. */
  lemma StepKeepsEvent(cfg: Config, log: seq<Act>, o: Event, e: Event, a: Answers)
    requires EventInv(cfg, log, o, e) && a.now >= e.timeLock
    requires Handle(cfg, e, a).Ok? && Handle(cfg, e, a).value.next.Some?
    ensures EventInv(cfg, log + [Handled(e.id)] + Handle(cfg, e, a).value.acts, o, Handle(cfg, e, a).value.next.value)
  {
    var step := Handle(cfg, e, a).value;
    var f := step.next.value;
    var more := [Handled(e.id)] + step.acts;
    assert log + [Handled(e.id)] + step.acts == log + more;
    StepIdentity(cfg, o, e, a);
    FactsGrow(cfg, log, more, o);
    FactsGrow(cfg, [Handled(e.id)], step.acts, o);
    if Relays(e.kind) {
      if f.kind == e.kind {
        StepSameKind(cfg, log, o, e, a);
      } else {
        SenderRelays(cfg, o, e, a);
      }
    } else {
      RequestedGoesOn(cfg, log, o, e, a);
    }
  }

  /** A REQUESTED event comes back in the CALL phase, or as FAILED for a recorded reason; no other class comes back. */
  lemma RequestedGoesOn(cfg: Config, log: seq<Act>, o: Event, e: Event, a: Answers)
    requires EventInv(cfg, log, o, e) && !Relays(e.kind) && a.now >= e.timeLock
    requires Handle(cfg, e, a).Ok? && Handle(cfg, e, a).value.next.Some?
    ensures var step := Handle(cfg, e, a).value; var f := step.next.value;
            && e.kind.Requested? && o.kind.Requested?
            && (f.kind.Failed? || (f.kind.Requested? && f.phase.Call? && f.timeLock == CallTime(cfg, o)))
            && (f.kind.Failed? ==> f.phase.Send? && VoteFailed(step.acts, o.id, CallTime(cfg, o)))
  {
    var acts := Handle(cfg, e, a).value.acts;
    if e.phase.Call? { assert acts[0] in acts; }
    if |acts| > 1 { assert acts[1] in acts; }
  }

  /** An ACCEPTED event that comes back REJECTED was relayed and its transaction failed. */
  lemma SenderRelays(cfg: Config, o: Event, e: Event, a: Answers)
    requires Derived(cfg, o, e) && Handle(cfg, e, a).Ok? && Relays(e.kind)
    requires Handle(cfg, e, a).value.next.Some? && Handle(cfg, e, a).value.next.value.kind != e.kind
    ensures var step := Handle(cfg, e, a).value;
            && e.kind.Accepted? && o.kind.Accepted? && e.phase.Send?
            && HasRelay(step.acts, o.id, Accepted) && TxLost(o.id, Accepted) in step.acts
            && !HasRelay(step.acts, o.id, Rejected)
            && step.next.value.kind.Rejected? && !step.next.value.aggregated && step.next.value.phase.Send?
  {
    var acts := Handle(cfg, e, a).value.acts;
    assert acts[1] in acts && acts[2] in acts;
  }

  /** A relay event that comes back as itself moved between the two phases and sent nothing. */
  lemma StepSameKind(cfg: Config, log: seq<Act>, o: Event, e: Event, a: Answers)
    requires EventInv(cfg, log, o, e) && Relays(e.kind) && Handle(cfg, e, a).Ok?
    requires Handle(cfg, e, a).value.next.Some? && Handle(cfg, e, a).value.next.value.kind == e.kind
    requires a.now >= e.timeLock
    ensures var step := Handle(cfg, e, a).value; var f := step.next.value;
            && (forall k :: !HasRelay(step.acts, o.id, k))
            && (f.aggregated ==> e.aggregated && e.phase.Send? && f.phase.Call? && f.timeLock == CallTime(cfg, o))
            && (!f.aggregated ==> e.aggregated && e.phase.Call? && f.phase.Send? && f.timeLock == a.now
                                  && MissedBetween(cfg, step.acts, o, e.kind, CallTime(cfg, o), a.now))
  {
    var acts := Handle(cfg, e, a).value.acts;
    assert acts[0] in acts;
  }

  /** Acts on other events leave an event's invariant alone. */
  lemma OthersKeepEvent(cfg: Config, log: seq<Act>, more: seq<Act>, o: Event, e: Event)
    requires EventInv(cfg, log, o, e) && forall act <- more :: act.id != o.id
    ensures EventInv(cfg, log + more, o, e)
  {
    FactsGrow(cfg, log, more, o);
  }

  // ----- the invariant over runs -----

  lemma ArriveKeepsInv(cfg: Config, s: State, e: Event)
    requires Inv(cfg, s) && Next(cfg, s, Arrive(e)).Some?
    ensures Inv(cfg, Next(cfg, s, Arrive(e)).value)
  {
    var t := Next(cfg, s, Arrive(e)).value;
    ArriveKeepsQueue(cfg, s, e);
    forall id | 0 <= id < |t.arrived| ensures InAccount(cfg, t, id) { ArriveKeepsAccount(cfg, s, e, id); }
    ArrivalKeepsActs(cfg, s.arrived, s.log, e);
  }

  lemma ArriveKeepsQueue(cfg: Config, s: State, e: Event)
    requires Inv(cfg, s) && Next(cfg, s, Arrive(e)).Some?
    ensures var t := Next(cfg, s, Arrive(e)).value;
            forall i {:trigger i in t.queue} :: i in t.queue ==>
              i < |t.arrived| && EventInv(cfg, t.log, t.arrived[i], t.queue[i])
  {
    NewEventInv(cfg, s.log, e);
  }

  lemma ArriveKeepsAccount(cfg: Config, s: State, e: Event, id: nat)
    requires Inv(cfg, s) && Next(cfg, s, Arrive(e)).Some? && id <= |s.arrived|
    ensures InAccount(cfg, Next(cfg, s, Arrive(e)).value, id)
  {
    var t := Next(cfg, s, Arrive(e)).value;
    if id < |s.arrived| {
      assert InAccount(cfg, s, id);
      assert t.log == s.log + [];
      UntouchedIsNotLost(cfg, s, t, [], id);
    } else {
      assert Handled(id) !in s.log;
    }
  }

  /** Acts of other events leave an event's account alone. */
  lemma UntouchedIsNotLost(cfg: Config, s: State, t: State, more: seq<Act>, id: nat)
    requires id < |s.arrived| && s.arrived[id].id == id && NotLost(cfg, s, id)
    requires id < |t.arrived| && t.arrived[id] == s.arrived[id] && t.log == s.log + more
    requires (id in s.queue ==> id in t.queue && t.queue[id] == s.queue[id]) && forall act <- more :: act.id != id
    ensures NotLost(cfg, t, id)
  {
    FactsGrow(cfg, s.log, more, s.arrived[id]);
    if Authorised(cfg, s.arrived[id].msg) == Ok(true) {
      forall kind | Became(cfg, t.log, t.arrived[id], kind) ensures Accounted(cfg, t, id, kind) {
        assert Became(cfg, s.log, s.arrived[id], kind) && Accounted(cfg, s, id, kind);
      }
    }
  }

  lemma NewEventInv(cfg: Config, log: seq<Act>, e: Event)
    requires IsNew(e, e.id) && forall act <- log :: act.id != e.id
    ensures EventInv(cfg, log, e, e)
  {
  }

  lemma ArrivalKeepsActs(cfg: Config, arrived: seq<Event>, log: seq<Act>, e: Event)
    requires ActsSound(cfg, arrived, log)
    ensures ActsSound(cfg, arrived + [e], log)
  {
    forall p | 0 <= p < |log| ensures SoundAt(cfg, arrived + [e], log, p) {
      assert SoundAt(cfg, arrived, log, p);
    }
  }

  lemma PopKeepsActs(cfg: Config, s: State, id: nat, a: Answers)
    requires Inv(cfg, s) && Next(cfg, s, Pop(id, a)).Some?
    ensures ActsSound(cfg, s.arrived, Next(cfg, s, Pop(id, a)).value.log)
  {
    var e := s.queue[id];
    var acts := Handle(cfg, e, a).value.acts;
    assert EventInv(cfg, s.log, s.arrived[id], e);
    StepActs(cfg, s.log, s.arrived[id], e, a);
    ActsExtend(cfg, s.arrived, s.log, acts, e, a.now);
  }

  /** Acts stay sound when a popped event's acts are appended. */
  lemma ActsExtend(cfg: Config, arrived: seq<Event>, log: seq<Act>, acts: seq<Act>, e: Event, now: int)
    requires ActsSound(cfg, arrived, log)
    requires e.id < |arrived| && EventInv(cfg, log, arrived[e.id], e) && e.timeLock <= now
    requires forall act <- acts :: OwnAct(cfg, log, arrived[e.id], e, now, act)
    requires forall i, j :: 0 <= i < j < |acts| && acts[i].Relayed? ==> !acts[j].Relayed?
    ensures ActsSound(cfg, arrived, log + [Handled(e.id)] + acts)
  {
    var all, n := log + [Handled(e.id)] + acts, |log|;
    forall p | 0 <= p < |all| ensures SoundAt(cfg, arrived, all, p) {
      if p < n {
        assert all[p] == log[p] && all[..p] == log[..p];
        assert SoundAt(cfg, arrived, log, p);
      } else if p > n {
        assert all[p] == acts[p - n - 1] && all[p] in acts;
        NewActSound(cfg, arrived, log, acts, e, now, p - n - 1);
        assert all[..p] == log + ([Handled(e.id)] + acts[..p - n - 1]);
      }
    }
  }

  lemma NewActSound(cfg: Config, arrived: seq<Event>, log: seq<Act>, acts: seq<Act>, e: Event, now: int, i: nat)
    requires i < |acts| && e.id < |arrived| && EventInv(cfg, log, arrived[e.id], e) && e.timeLock <= now
    requires OwnAct(cfg, log, arrived[e.id], e, now, acts[i])
    requires forall act <- acts :: act.id == e.id
    requires forall i, j :: 0 <= i < j < |acts| && acts[i].Relayed? ==> !acts[j].Relayed?
    ensures var before := log + ([Handled(e.id)] + acts[..i]); var o := arrived[e.id];
            && (acts[i].Relayed? ==> && !HasRelay(before, e.id, acts[i].kind) && MayBecome(cfg, o, acts[i].kind)
                                     && (if acts[i].primary then DecidedPrimary(cfg, o, acts[i])
                                         else Justified(cfg, before, o, acts[i].kind, now)))
            && (acts[i].Voted? ==> VoteAllowed(cfg, o, acts[i].signed, before))
  {
    var o, more := arrived[e.id], [Handled(e.id)] + acts[..i];
    FactsGrow(cfg, log, more, o);
    if acts[i].Relayed? {
      assert !HasRelay(more, e.id, e.kind);
      if !acts[i].primary { LaterIsJustified(cfg, log, o, e.kind, e.timeLock, now); }
    }
  }

  lemma LaterIsJustified(cfg: Config, log: seq<Act>, o: Event, kind: Status, t: int, u: int)
    requires Justified(cfg, log, o, kind, t) && t <= u
    ensures Justified(cfg, log, o, kind, u)
  {
    if MissedBetween(cfg, log, o, kind, CallTime(cfg, o), t) {
      assert MissedBetween(cfg, log, o, kind, CallTime(cfg, o), u);
    }
  }

  lemma PopKeepsQueue(cfg: Config, s: State, id: nat, a: Answers)
    requires Inv(cfg, s) && Next(cfg, s, Pop(id, a)).Some?
    ensures var t := Next(cfg, s, Pop(id, a)).value;
            forall i {:trigger i in t.queue} :: i in t.queue ==>
              i < |t.arrived| && EventInv(cfg, t.log, t.arrived[i], t.queue[i])
  {
    var t := Next(cfg, s, Pop(id, a)).value;
    var more := [Handled(id)] + Handle(cfg, s.queue[id], a).value.acts;
    PopActs(cfg, s, id, a);
    assert EventInv(cfg, s.log, s.arrived[id], s.queue[id]);
    forall i | i in t.queue ensures i < |t.arrived| && EventInv(cfg, t.log, t.arrived[i], t.queue[i]) {
      if i == id {
        StepKeepsEvent(cfg, s.log, s.arrived[id], s.queue[id], a);
      } else {
        OthersKeepEvent(cfg, s.log, more, s.arrived[i], s.queue[i]);
      }
    }
  }

  lemma PopKeepsCount(cfg: Config, s: State, id: nat, a: Answers, i: nat)
    requires Inv(cfg, s) && Next(cfg, s, Pop(id, a)).Some? && i < |s.arrived|
    ensures var t := Next(cfg, s, Pop(id, a)).value;
            multiset(t.log)[Handled(i)] + RankOf(cfg, t.queue, i) <= Rank(cfg, t.arrived[i])
  {
    var t := Next(cfg, s, Pop(id, a)).value;
    var e := s.queue[id];
    var acts := Handle(cfg, e, a).value.acts;
    var more := [Handled(id)] + acts;
    assert EventInv(cfg, s.log, s.arrived[id], e);
    StepActs(cfg, s.log, s.arrived[id], e, a);
    assert t.log == s.log + more;
    assert Handled(i) !in acts;
    assert multiset(t.log) == multiset(s.log) + multiset(more);
    assert multiset(more) == multiset{Handled(id)} + multiset(acts);
    assert i == s.arrived[i].id && InAccount(cfg, s, i);
    if i == id && t.queue.Keys == s.queue.Keys { StepDecreasesRank(cfg, e, a); }
  }

  /** A pop of another event leaves the account alone. */
  lemma OthersLoseNone(cfg: Config, s: State, id: nat, a: Answers, i: nat)
    requires Inv(cfg, s) && Next(cfg, s, Pop(id, a)).Some? && i < |s.arrived| && i != id
    ensures NotLost(cfg, Next(cfg, s, Pop(id, a)).value, i)
  {
    var t := Next(cfg, s, Pop(id, a)).value;
    PopActs(cfg, s, id, a);
    assert InAccount(cfg, s, i);
    UntouchedIsNotLost(cfg, s, t, [Handled(id)] + Handle(cfg, s.queue[id], a).value.acts, i);
  }

  /** A pop only records acts of its own event. */
  lemma PopActs(cfg: Config, s: State, id: nat, a: Answers)
    requires Inv(cfg, s) && Next(cfg, s, Pop(id, a)).Some?
    ensures var more := [Handled(id)] + Handle(cfg, s.queue[id], a).value.acts;
            Next(cfg, s, Pop(id, a)).value.log == s.log + more && forall act <- more :: act.id == id
  {
    assert EventInv(cfg, s.log, s.arrived[id], s.queue[id]);
    StepActs(cfg, s.log, s.arrived[id], s.queue[id], a);
  }

  /** The popped event is accounted for in every class it has had, the one it may take now included. */
  lemma PoppedIsAccounted(cfg: Config, s: State, id: nat, a: Answers, kind: Status)
    requires Inv(cfg, s) && Next(cfg, s, Pop(id, a)).Some? && Authorised(cfg, s.arrived[id].msg) == Ok(true)
    requires Became(cfg, Next(cfg, s, Pop(id, a)).value.log, s.arrived[id], kind)
    ensures Accounted(cfg, Next(cfg, s, Pop(id, a)).value, id, kind)
  {
    var t := Next(cfg, s, Pop(id, a)).value;
    var o, e := s.arrived[id], s.queue[id];
    var acts := Handle(cfg, e, a).value.acts;
    assert EventInv(cfg, s.log, o, e) && InAccount(cfg, s, id);
    assert Authorised(cfg, e.msg) == Ok(true);
    assert t.log == s.log + ([Handled(id)] + acts);
    FactsGrow(cfg, s.log, [Handled(id)] + acts, o);
    FactsGrow(cfg, [Handled(id)], acts, o);
    if Became(cfg, s.log, o, kind) {
      assert Accounted(cfg, s, id, kind);
      if e.kind == kind && !(id in t.queue && t.queue[id].kind == kind) { StepLeaves(cfg, o, e, a); }
    } else {
      assert TxLost(id, Accepted) in acts;
      LostComesBackRejected(cfg, o, e, a);
    }
  }

  lemma PopKeepsInv(cfg: Config, s: State, id: nat, a: Answers)
    requires Inv(cfg, s) && Next(cfg, s, Pop(id, a)).Some?
    ensures Inv(cfg, Next(cfg, s, Pop(id, a)).value)
  {
    var t := Next(cfg, s, Pop(id, a)).value;
    PopKeepsQueue(cfg, s, id, a);
    PopKeepsActs(cfg, s, id, a);
    assert EventInv(cfg, s.log, s.arrived[id], s.queue[id]);
    StepActs(cfg, s.log, s.arrived[id], s.queue[id], a);
    forall i | 0 <= i < |t.arrived| ensures InAccount(cfg, t, i) {
      assert InAccount(cfg, s, i);
      PopKeepsCount(cfg, s, id, a, i);
      if i != id {
        OthersLoseNone(cfg, s, id, a, i);
      } else if Authorised(cfg, s.arrived[id].msg) == Ok(true) {
        forall kind | Became(cfg, t.log, t.arrived[id], kind) ensures Accounted(cfg, t, id, kind) {
          PoppedIsAccounted(cfg, s, id, a, kind);
        }
      }
    }
  }

  /** Every reachable state satisfies the invariant. */
  lemma {:induction false} RunsKeepInv(cfg: Config, labels: seq<Label>)
    requires Exec(cfg, START, labels).Some?
    ensures Inv(cfg, Exec(cfg, START, labels).value)
  {
    if labels != [] {
      var init := labels[..|labels| - 1];
      RunsKeepInv(cfg, init);
      var s := Exec(cfg, START, init).value;
      match labels[|labels| - 1]
      case Arrive(e) => ArriveKeepsInv(cfg, s, e);
      case Pop(id, a) => PopKeepsInv(cfg, s, id, a);
    }
  }

  // ----- what every run guarantees -----

  function PopsOf(labels: seq<Label>, id: nat): nat {
    if labels == [] then 0
    else
      var n := |labels| - 1;
      PopsOf(labels[..n], id) + if labels[n].Pop? && labels[n].id == id then 1 else 0
  }

  lemma {:induction false} PopsAreHandlings(cfg: Config, labels: seq<Label>, id: nat)
    requires Exec(cfg, START, labels).Some?
    ensures multiset(Exec(cfg, START, labels).value.log)[Handled(id)] == PopsOf(labels, id)
  {
    if labels != [] {
      var init, last := labels[..|labels| - 1], labels[|labels| - 1];
      PopsAreHandlings(cfg, init, id);
      RunsKeepInv(cfg, init);
      var s := Exec(cfg, START, init).value;
      if last.Pop? {
        var acts := Handle(cfg, s.queue[last.id], last.a).value.acts;
        assert EventInv(cfg, s.log, s.arrived[last.id], s.queue[last.id]);
        StepActs(cfg, s.log, s.arrived[last.id], s.queue[last.id], last.a);
        assert Handled(id) !in acts;
        assert multiset(s.log + [Handled(last.id)] + acts)
            == multiset(s.log) + multiset{Handled(last.id)} + multiset(acts);
      }
    }
  }

  /** An event and its successors are handled at most Rank times: 3 for REQUESTED, 4 for ACCEPTED. */
  lemma HandlingsAreBounded(cfg: Config, labels: seq<Label>, s: State, id: nat)
    requires Exec(cfg, START, labels) == Some(s) && id < |s.arrived|
    ensures PopsOf(labels, id) <= Rank(cfg, s.arrived[id]) <= 4
    ensures s.arrived[id].kind.Requested? ==> PopsOf(labels, id) <= 3
  {
    RunsKeepInv(cfg, labels);
    PopsAreHandlings(cfg, labels, id);
    assert InAccount(cfg, s, id);
  }

  function QueueRank(cfg: Config, queue: map<nat, Event>, n: nat): nat {
    if n == 0 then 0 else QueueRank(cfg, queue, n - 1) + RankOf(cfg, queue, n - 1)
  }

  lemma {:induction false} QueueRankDrops(cfg: Config, q: map<nat, Event>, r: map<nat, Event>, n: nat, id: nat)
    requires forall i :: i != id ==> RankOf(cfg, q, i) == RankOf(cfg, r, i)
    ensures QueueRank(cfg, r, n) == QueueRank(cfg, q, n) + if id < n then RankOf(cfg, r, id) - RankOf(cfg, q, id) else 0
  {
    if n > 0 { QueueRankDrops(cfg, q, r, n - 1, id); }
  }

  /** With no new logs the queue empties: whatever is answered, only so many handlings can follow. */
  lemma {:induction false} QueueEmpties(cfg: Config, s: State, labels: seq<Label>)
    requires Exec(cfg, s, labels).Some? && forall l <- labels :: l.Pop?
    requires forall id :: id in s.queue ==> id < |s.arrived|
    ensures var t := Exec(cfg, s, labels).value;
            t.arrived == s.arrived && t.queue.Keys <= s.queue.Keys
            && |labels| + QueueRank(cfg, t.queue, |s.arrived|) <= QueueRank(cfg, s.queue, |s.arrived|)
  {
    if labels != [] {
      var init, last := labels[..|labels| - 1], labels[|labels| - 1];
      QueueEmpties(cfg, s, init);
      var t := Exec(cfg, s, init).value;
      var u := Next(cfg, t, last).value;
      assert last in labels;
      if u.queue.Keys == t.queue.Keys { StepDecreasesRank(cfg, t.queue[last.id], last.a); }
      QueueRankDrops(cfg, t.queue, u.queue, |s.arrived|, last.id);
    }
  }

  /** An authorised event, in each relay class it has had, is queued in that class until the class's final status was
      seen on the target chain or this relayer built a relay for it: the ACCEPTED or REJECTED class of its log, and the
      REJECTED class an outbound ACCEPTED event takes when its relay does not succeed. */
  lemma NoRelayIsLost(cfg: Config, labels: seq<Label>, s: State, id: nat, kind: Status)
    requires Exec(cfg, START, labels) == Some(s) && id < |s.arrived|
    requires Became(cfg, s.log, s.arrived[id], kind) && Authorised(cfg, s.arrived[id].msg) == Ok(true)
    ensures || (id in s.queue && s.queue[id].kind == kind)
            || SawFinal(cfg, s.log, s.arrived[id], kind)
            || HasRelay(s.log, id, kind)
  {
    RunsKeepInv(cfg, labels);
    assert InAccount(cfg, s, id) && Accounted(cfg, s, id, kind);
  }

  /** No queued relay event escapes that account: its class is one its event has had. */
  lemma QueuedRelaysAreKnown(cfg: Config, labels: seq<Label>, s: State, id: nat)
    requires Exec(cfg, START, labels) == Some(s) && id in s.queue && Relays(s.queue[id].kind)
    ensures id < |s.arrived| && Became(cfg, s.log, s.arrived[id], s.queue[id].kind)
  {
    RunsKeepInv(cfg, labels);
    assert EventInv(cfg, s.log, s.arrived[id], s.queue[id]) && s.arrived[id].id == id;
  }

  /** Relays go to the request's own chain. One by a relayer that is not primary follows a query of that chain that
      missed, made no earlier than the event's time lock plus the call delay, or a failed relay of the ACCEPTED event
      that became REJECTED. */
  lemma SecondaryWaits(cfg: Config, labels: seq<Label>, s: State, p: nat)
    requires Exec(cfg, START, labels) == Some(s) && p < |s.log| && s.log[p].Relayed?
    ensures s.log[p].id < |s.arrived|
    ensures var o := s.arrived[s.log[p].id];
            && s.log[p].chain == RelayChain(cfg, o.msg)
            && (|| s.log[p].primary
                || MissedBetween(cfg, s.log[..p], o, s.log[p].kind, CallTime(cfg, o), s.log[p].now)
                || (o.kind.Accepted? && s.log[p].kind.Rejected? && HasRelay(s.log[..p], o.id, Accepted)
                    && TxLost(o.id, Accepted) in s.log[..p]))
  {
    RunsKeepInv(cfg, labels);
    assert SoundAt(cfg, s.arrived, s.log, p);
  }

  /** A relay made as primary on an index that agrees with the round's list is made by the relayer that is elected for
      the block in a set of that size. */
  lemma PrimaryRelayIsElected(cfg: Config, labels: seq<Label>, s: State, p: nat)
    requires Exec(cfg, START, labels) == Some(s) && p < |s.log|
    requires s.log[p].Relayed? && s.log[p].primary && !cfg.role.Fast?
    ensures s.log[p].id < |s.arrived| && s.log[p].size > 0
    ensures var o := s.arrived[s.log[p].id];
            IndexAgrees(cfg, o.msg.round, s.log[p].index) ==>
              IsPrimary(cfg.history(o.msg.round), cfg.me, o.block, s.log[p].size)
  {
    RunsKeepInv(cfg, labels);
    assert SoundAt(cfg, s.arrived, s.log, p);
  }

  /** Two relayers of a round that read one current set never both relay a log as primary: in no two runs of theirs, at
      no two moments, on whatever agreeing caches. */
  lemma OnePrimaryRelays(cfg: Config, labels: seq<Label>, s: State, p: nat,
                         cfg': Config, labels': seq<Label>, s': State, p': nat)
    requires Exec(cfg, START, labels) == Some(s) && p < |s.log|
    requires s.log[p].Relayed? && s.log[p].id < |s.arrived|
    requires Exec(cfg', START, labels') == Some(s') && p' < |s'.log|
    requires s'.log[p'].Relayed? && s'.log[p'].id < |s'.arrived|
    requires !cfg.role.Fast? && !cfg'.role.Fast? && Lower(cfg.me) != Lower(cfg'.me) && s.log[p].size == s'.log[p'].size
    requires var o, o' := s.arrived[s.log[p].id], s'.arrived[s'.log[p'].id];
             && o.block == o'.block && o.msg.round == o'.msg.round
             && cfg.history(o.msg.round) == cfg'.history(o.msg.round)
             && IndexAgrees(cfg, o.msg.round, s.log[p].index) && IndexAgrees(cfg', o.msg.round, s'.log[p'].index)
    ensures !(s.log[p].primary && s'.log[p'].primary)
  {
    var o := s.arrived[s.log[p].id];
    if s.log[p].primary { PrimaryRelayIsElected(cfg, labels, s, p); }
    if s'.log[p'].primary { PrimaryRelayIsElected(cfg', labels', s', p'); }
    ElectedAlone(cfg.history(o.msg.round), cfg.me, cfg'.me, o.block, s.log[p].size);
  }

  /** The first handling of a relay event by the elected relayer, when nothing is final yet. */
  lemma PrimaryRun(cfg: Config, e: Event, index: nat, size: nat) returns (labels: seq<Label>, s: State)
    requires IsNew(e, 0) && Relays(e.kind)
    requires Routable(cfg, e.msg) && !cfg.role.Fast? && Authorised(cfg, e.msg) == Ok(true)
    requires size > 0 && index == e.block % size
    ensures Exec(cfg, START, labels) == Some(s) && s.arrived == [e] && |s.log| == 3
    ensures s.log[2] == Relayed(0, e.kind, RelayChain(cfg, e.msg), true, Some(index), size, e.timeLock)
  {
    var a := Answers(e.timeLock, [0, 0], 1, size, Some(index), Success);
    labels := [Arrive(e), Pop(0, a)];
    var one := Next(cfg, START, Arrive(e)).value;
    assert labels[..1] == [Arrive(e)] && labels[..1][..0] == [];
    assert Exec(cfg, START, labels[..1]) == Some(one);
    WellFormedNeverRaises(cfg, e, a);
    assert StatusOf(0) == Ok(NoStatus);
    var step := Handle(cfg, e, a).value;
    assert |step.acts| == 2;
    assert step.acts[1] == Relayed(0, e.kind, RelayChain(cfg, e.msg), true, Some(index), size, e.timeLock);
    s := AfterStep(one, 0, step);
  }

  /** On different current sets two relayers can both be primary for one block: at block 7, index 1 in a set of 3 and
      index 2 in a set of 5. */
  lemma TwoPrimariesOnTwoSets(cfg: Config, cfg': Config, e: Event)
    returns (labels: seq<Label>, s: State, labels': seq<Label>, s': State)
    requires IsNew(e, 0) && Relays(e.kind) && e.block == 7
    requires Routable(cfg, e.msg) && !cfg.role.Fast? && Authorised(cfg, e.msg) == Ok(true)
    requires Routable(cfg', e.msg) && !cfg'.role.Fast? && Authorised(cfg', e.msg) == Ok(true)
    requires MyIndex(cfg, e.msg.round) == Some(1) && MyIndex(cfg', e.msg.round) == Some(2)
    ensures Exec(cfg, START, labels) == Some(s) && Exec(cfg', START, labels') == Some(s')
    ensures s.arrived == s'.arrived == [e]
    ensures |s.log| == |s'.log| == 3 && s.log[2].Relayed? && s'.log[2].Relayed? && s.log[2].primary && s'.log[2].primary
    ensures IndexAgrees(cfg, e.msg.round, s.log[2].index) && IndexAgrees(cfg', e.msg.round, s'.log[2].index)
    ensures s.log[2].size == 3 && s'.log[2].size == 5
  {
    labels, s := PrimaryRun(cfg, e, 1, 3);
    labels', s' := PrimaryRun(cfg', e, 2, 5);
  }

  /** A vote signs what the arrived log calls for; FAILED is signed for a REQUESTED log only after its vote
      transaction was lost or its tally fell short of the quorum. */
  lemma VotesFollowLogs(cfg: Config, labels: seq<Label>, s: State, p: nat)
    requires Exec(cfg, START, labels) == Some(s) && p < |s.log| && s.log[p].Voted?
    ensures s.log[p].id < |s.arrived| && VoteAllowed(cfg, s.arrived[s.log[p].id], s.log[p].signed, s.log[..p])
  {
    RunsKeepInv(cfg, labels);
    assert SoundAt(cfg, s.arrived, s.log, p);
  }

  // ----- votes are cast -----

  /** An authorised log that calls for a vote is queued as it arrived, or its vote is recorded. */
  ghost predicate VoteDue(cfg: Config, s: State, id: nat)
    requires id < |s.arrived|
  {
    var o := s.arrived[id];
    Authorised(cfg, o.msg) == Ok(true) && CallsForVote(cfg, o) ==>
      (id in s.queue && s.queue[id] == o) || Voted(id, SignedFor(cfg, o)) in s.log
  }

  /** The vote of an inbound REQUESTED log did not go through: its transaction was lost, or the tally fell short. */
  ghost predicate RequestFailed(log: seq<Act>, id: nat) {
    TxLost(id, Requested) in log || exists act <- log :: FellShort(act, id)
  }

  predicate FellShort(act: Act, id: nat) { act.Tallied? && act.id == id && act.votes < act.quorum }

  /** Then the event is queued as FAILED, or its FAILED vote is recorded. */
  ghost predicate FailureDue(cfg: Config, s: State, id: nat)
    requires id < |s.arrived|
  {
    var o := s.arrived[id];
    Authorised(cfg, o.msg) == Ok(true) && o.kind.Requested? && Inbound(cfg, o.msg) && RequestFailed(s.log, id) ==>
      (id in s.queue && s.queue[id].kind.Failed?) || Voted(id, Some(Failed)) in s.log
  }

  ghost predicate VotesDue(cfg: Config, s: State) {
    forall id :: 0 <= id < |s.arrived| ==> VoteDue(cfg, s, id) && FailureDue(cfg, s, id)
  }

  lemma RequestFailedSplits(log: seq<Act>, more: seq<Act>, id: nat)
    ensures RequestFailed(log + more, id) <==> RequestFailed(log, id) || RequestFailed(more, id)
  {
    LogGrows(log, more);
  }

  lemma FirstSendVotes(cfg: Config, e: Event, a: Answers)
    requires e.phase.Send? && Authorised(cfg, e.msg) == Ok(true) && CallsForVote(cfg, e) && Handle(cfg, e, a).Ok?
    ensures Voted(e.id, SignedFor(cfg, e)) in Handle(cfg, e, a).value.acts
  {
    VotesAreSignedFor(cfg, e, a);
    var acts := Handle(cfg, e, a).value.acts;
    assert acts[0] in acts;
  }

  /** A failed request comes back as FAILED at once. */
  lemma FailureComesBack(cfg: Config, e: Event, a: Answers)
    requires Handle(cfg, e, a).Ok? && Authorised(cfg, e.msg) == Ok(true)
    requires RequestFailed(Handle(cfg, e, a).value.acts, e.id)
    ensures var next := Handle(cfg, e, a).value.next; next.Some? && next.value.kind.Failed?
  {
    if e.phase.Send? { LostComesBackFailed(cfg, e, a); } else { ShortComesBackFailed(cfg, e, a); }
  }

  lemma LostComesBackFailed(cfg: Config, e: Event, a: Answers)
    requires OnSend(cfg, e, a).Ok? && Authorised(cfg, e.msg) == Ok(true)
    requires RequestFailed(OnSend(cfg, e, a).value.acts, e.id)
    ensures var next := OnSend(cfg, e, a).value.next; next.Some? && next.value.kind.Failed?
  {
    var built := BuildSend(cfg, e, a).value;
    BuildingFailsNothing(cfg, e, a);
    LogGrows(built.acts, [TxLost(e.id, e.kind)]);
    FailedRequest(cfg, e, a.tx);
  }

  lemma BuildingFailsNothing(cfg: Config, e: Event, a: Answers)
    requires BuildSend(cfg, e, a).Ok? && Authorised(cfg, e.msg) == Ok(true)
    ensures !RequestFailed(BuildSend(cfg, e, a).value.acts, e.id)
  {
    if CallsForVote(cfg, e) { VotesAreSignedFor(cfg, e, a); }
  }

  lemma FailedRequest(cfg: Config, e: Event, tx: TxOutcome)
    requires Authorised(cfg, e.msg) == Ok(true) && e.kind.Requested? && !tx.Success? && OnTx(cfg, e, tx).Ok?
    ensures OnTx(cfg, e, tx).value.Some? && OnTx(cfg, e, tx).value.value.kind.Failed?
  {
  }

  lemma ShortComesBackFailed(cfg: Config, e: Event, a: Answers)
    requires OnCall(cfg, e, a).Ok? && Authorised(cfg, e.msg) == Ok(true)
    requires RequestFailed(OnCall(cfg, e, a).value.acts, e.id)
    ensures var next := OnCall(cfg, e, a).value.next; next.Some? && next.value.kind.Failed?
  {
  }

  /** A pop of another event leaves its votes alone. */
  lemma OthersKeepVotes(cfg: Config, s: State, id: nat, a: Answers, i: nat)
    requires Inv(cfg, s) && Next(cfg, s, Pop(id, a)).Some? && i < |s.arrived| && i != id
    requires VoteDue(cfg, s, i) && FailureDue(cfg, s, i)
    ensures var t := Next(cfg, s, Pop(id, a)).value; VoteDue(cfg, t, i) && FailureDue(cfg, t, i)
  {
    PopActs(cfg, s, id, a);
    RequestFailedSplits(s.log, [Handled(id)] + Handle(cfg, s.queue[id], a).value.acts, i);
  }

  lemma PopCastsVote(cfg: Config, s: State, id: nat, a: Answers)
    requires Inv(cfg, s) && Next(cfg, s, Pop(id, a)).Some? && id < |s.arrived| && VoteDue(cfg, s, id)
    ensures VoteDue(cfg, Next(cfg, s, Pop(id, a)).value, id)
  {
    var e := s.queue[id];
    assert EventInv(cfg, s.log, s.arrived[id], e);
    if e == s.arrived[id] && Authorised(cfg, e.msg) == Ok(true) && CallsForVote(cfg, e) {
      FirstSendVotes(cfg, e, a);
    }
  }

  lemma PopCastsFailure(cfg: Config, s: State, id: nat, a: Answers)
    requires Inv(cfg, s) && Next(cfg, s, Pop(id, a)).Some? && id < |s.arrived| && FailureDue(cfg, s, id)
    ensures FailureDue(cfg, Next(cfg, s, Pop(id, a)).value, id)
  {
    var o, e := s.arrived[id], s.queue[id];
    var acts := Handle(cfg, e, a).value.acts;
    assert EventInv(cfg, s.log, o, e);
    PopActs(cfg, s, id, a);
    RequestFailedSplits(s.log, [Handled(id)] + acts, id);
    RequestFailedSplits([Handled(id)], acts, id);
    if Authorised(cfg, o.msg) == Ok(true) && Inbound(cfg, o.msg) {
      assert Authorised(cfg, e.msg) == Ok(true) && Inbound(cfg, e.msg);
      if e.kind.Failed? { FirstSendVotes(cfg, e, a); }
      if RequestFailed(acts, id) { FailureComesBack(cfg, e, a); }
    }
  }

  lemma {:induction false} RunsKeepVotes(cfg: Config, labels: seq<Label>)
    requires Exec(cfg, START, labels).Some?
    ensures VotesDue(cfg, Exec(cfg, START, labels).value)
  {
    if labels != [] {
      var init := labels[..|labels| - 1];
      RunsKeepVotes(cfg, init);
      RunsKeepInv(cfg, init);
      var s := Exec(cfg, START, init).value;
      match labels[|labels| - 1]
      case Arrive(e) => ArriveKeepsVotes(cfg, s, e);
      case Pop(id, a) =>
        var t := Next(cfg, s, Pop(id, a)).value;
        forall i | 0 <= i < |t.arrived| ensures VoteDue(cfg, t, i) && FailureDue(cfg, t, i) {
          assert VoteDue(cfg, s, i) && FailureDue(cfg, s, i);
          if i != id {
            OthersKeepVotes(cfg, s, id, a, i);
          } else {
            PopCastsVote(cfg, s, id, a);
            PopCastsFailure(cfg, s, id, a);
          }
        }
    }
  }

  lemma ArriveKeepsVotes(cfg: Config, s: State, e: Event)
    requires Inv(cfg, s) && VotesDue(cfg, s) && Next(cfg, s, Arrive(e)).Some?
    ensures VotesDue(cfg, Next(cfg, s, Arrive(e)).value)
  {
    var t := Next(cfg, s, Arrive(e)).value;
    forall i | 0 <= i < |t.arrived| ensures VoteDue(cfg, t, i) && FailureDue(cfg, t, i) {
      if i < |s.arrived| { assert VoteDue(cfg, s, i) && FailureDue(cfg, s, i); }
    }
  }

  /** No vote is lost: an authorised REQUESTED, EXECUTED, REVERTED or inbound FAILED log leaves the state in which it
      arrived only by casting its vote, and an inbound REQUESTED one whose vote failed goes on as FAILED until that is
      voted. */
  lemma NoVoteIsLost(cfg: Config, labels: seq<Label>, s: State, id: nat)
    requires Exec(cfg, START, labels) == Some(s) && id < |s.arrived| && Authorised(cfg, s.arrived[id].msg) == Ok(true)
    ensures CallsForVote(cfg, s.arrived[id]) ==>
              (id in s.queue && s.queue[id] == s.arrived[id]) || Voted(id, SignedFor(cfg, s.arrived[id])) in s.log
    ensures s.arrived[id].kind.Requested? && Inbound(cfg, s.arrived[id].msg) && RequestFailed(s.log, id) ==>
              (id in s.queue && s.queue[id].kind.Failed?) || Voted(id, Some(Failed)) in s.log
  {
    RunsKeepVotes(cfg, labels);
    assert VoteDue(cfg, s, id) && FailureDue(cfg, s, id);
  }

  /** No status of an event is relayed twice. */
  lemma RelayedOnce(cfg: Config, labels: seq<Label>, s: State, p: nat, q: nat)
    requires Exec(cfg, START, labels) == Some(s) && p < q < |s.log|
    requires s.log[p].Relayed? && s.log[q].Relayed? && s.log[p].id == s.log[q].id
    ensures s.log[p].kind != s.log[q].kind
  {
    RunsKeepInv(cfg, labels);
    assert SoundAt(cfg, s.arrived, s.log, q);
    assert s.log[..q][p] == s.log[p] && s.log[p] in s.log[..q];
  }

  /** A queued event is its log with at most the status moved, along the two derivations the handlers make;
      its class is the status its message carries, and its request id and direction are the log's. */
  lemma IdentityIsKept(cfg: Config, labels: seq<Label>, s: State, id: nat)
    requires Exec(cfg, START, labels) == Some(s) && id in s.queue
    ensures id < |s.arrived|
    ensures var o, e := s.arrived[id], s.queue[id];
            && ChildOf(e.msg.status) == Ok(e.kind)
            && e.msg == o.msg.(status := e.msg.status) && e.id == id && e.block == o.block
            && SameRequest(e.msg, o.msg) && Inbound(cfg, e.msg) == Inbound(cfg, o.msg)
            && MayBecome(cfg, o, e.kind)
  {
    RunsKeepInv(cfg, labels);
    assert EventInv(cfg, s.log, s.arrived[id], s.queue[id]);
  }

  // ----- no run gets stuck -----

  /** The relayer has managers for both chains of the request, and the instruction is known. */
  predicate Routable(cfg: Config, m: SocketMessage) {
    && m.chain in cfg.known && m.dstChain in cfg.known && m.instruction in cfg.instructions
    && m.chain in cfg.supported && m.dstChain in cfg.supported
  }

  /** Answers of the contracts' shape: a known status, a vote count for REQUESTED, a current set that is not empty. */
  predicate WellFormed(a: Answers) {
    |a.info| > Code(Requested) && a.info[0] <= Code(NextAuthorityCommitted) && a.currentSize > 0
  }

  lemma WellFormedNeverRaises(cfg: Config, e: Event, a: Answers)
    requires Routable(cfg, e.msg) && WellFormed(a)
    ensures Handle(cfg, e, a).Ok?
  {
    assert e.msg.(status := Code(Failed)).chain == e.msg.chain;
    KnownStatus(a.info[0]);
  }

  lemma KnownStatus(n: nat)
    ensures StatusOf(n).Ok? <==> n <= Code(NextAuthorityCommitted)
  {
  }

  /** In every run each due event whose log names supported chains and a known instruction can be handled, whatever
      well-formed answers come: nothing raises, so with QueueEmpties every such run reaches an empty queue. */
  lemma DueEventsAreHandled(cfg: Config, labels: seq<Label>, s: State, id: nat, a: Answers)
    requires Exec(cfg, START, labels) == Some(s) && id in s.queue && a.now >= s.queue[id].timeLock
    ensures id < |s.arrived|
    ensures Routable(cfg, s.arrived[id].msg) && WellFormed(a) ==> Next(cfg, s, Pop(id, a)).Some?
  {
    IdentityIsKept(cfg, labels, s, id);
    if Routable(cfg, s.arrived[id].msg) && WellFormed(a) { WellFormedNeverRaises(cfg, s.queue[id], a); }
  }

  // ----- the bounds are reached -----

  /** Answers that keep an event in the relayer's hands: nothing is final, nobody is primary, transactions fail. */
  function Stubborn(e: Event): Answers {
    Answers(e.timeLock, [0, 0], 1, 1, None, if e.kind.Requested? then Success else Fail)
  }

  /** For every authorised event that another relayer should relay there is a run of exactly Rank handlings. */
  lemma LongestLife(cfg: Config, e: Event) returns (labels: seq<Label>)
    requires IsNew(e, 0) && Routable(cfg, e.msg) && !cfg.role.Fast? && Authorised(cfg, e.msg) == Ok(true)
    requires Relays(e.kind) || (e.kind.Requested? && Inbound(cfg, e.msg))
    ensures Exec(cfg, START, labels).Some? && Exec(cfg, START, labels).value.queue == map[]
    ensures PopsOf(labels, 0) == Rank(cfg, e)
  {
    labels := [Arrive(e)];
    var s := Next(cfg, START, Arrive(e)).value;
    assert labels[..0] == [];
    assert Exec(cfg, START, labels) == Some(s);
    assert PopsOf(labels, 0) == 0;
    ghost var cur := e;
    while s.queue != map[]
      invariant Exec(cfg, START, labels) == Some(s)
      invariant s.queue == map[] || s.queue == map[0 := cur]
      invariant s.queue == map[0 := cur] ==> Rank(cfg, cur) + PopsOf(labels, 0) == Rank(cfg, e)
      invariant s.queue == map[] ==> PopsOf(labels, 0) == Rank(cfg, e)
      invariant cur.id == 0 && cur.msg == e.msg.(status := Code(cur.kind))
      invariant Relays(cur.kind) || ((cur.kind.Requested? || cur.kind.Failed?) && Inbound(cfg, e.msg))
      invariant cur.kind.Failed? ==> cur.phase.Send?
      invariant Relays(cur.kind) && cur.phase.Call? ==> cur.aggregated
      decreases if s.queue == map[] then 0 else Rank(cfg, cur)
    {
      var step := StubbornStep(cfg, cur);
      var l := Pop(0, Stubborn(cur));
      assert 0 in s.queue && s.queue[0] == cur;
      var t := AfterStep(s, 0, step);
      assert Next(cfg, s, l) == Some(t);
      assert (labels + [l])[..|labels|] == labels;
      labels := labels + [l];
      s := t;
      if step.next.Some? {
        cur := step.next.value;
        assert s.queue == map[0 := cur];
      } else {
        assert s.queue == map[];
      }
    }
  }

  lemma StubbornStep(cfg: Config, e: Event) returns (step: Step)
    requires e.id == 0 && e.msg.status == Code(e.kind) && Routable(cfg, e.msg)
    requires !cfg.role.Fast? && Authorised(cfg, e.msg) == Ok(true)
    requires Relays(e.kind) || (e.kind.Requested? && Inbound(cfg, e.msg)) || (e.kind.Failed? && Inbound(cfg, e.msg))
    requires e.kind.Failed? ==> e.phase.Send?
    requires Relays(e.kind) && e.phase.Call? ==> e.aggregated
    ensures Handle(cfg, e, Stubborn(e)) == Ok(step)
    ensures if step.next.Some? then
              && Rank(cfg, step.next.value) == Rank(cfg, e) - 1
              && step.next.value.id == 0 && step.next.value.msg == e.msg.(status := Code(step.next.value.kind))
              && (|| Relays(step.next.value.kind)
                  || (Inbound(cfg, e.msg) && (step.next.value.kind.Requested? || step.next.value.kind.Failed?)))
              && (step.next.value.kind.Failed? ==> step.next.value.phase.Send?)
              && (Relays(step.next.value.kind) && step.next.value.phase.Call? ==> step.next.value.aggregated)
            else Rank(cfg, e) == 1
  {
    assert StatusOf(0) == Ok(NoStatus);
    assert Authorised(cfg, e.msg.(status := Code(Failed))) == Authorised(cfg, e.msg);
    step := Handle(cfg, e, Stubborn(e)).value;
  }
}
