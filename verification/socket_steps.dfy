/** One handling of a Socket event (rbclib/events/rbc_event.py), as functions of the event and of what the
    chains answer. The dispatcher pops an event; in the SEND phase it builds a transaction and reports its
    outcome, in the CALL phase it queries a contract and hands the answer over; an event that comes back is
    put in the queue again. */
module SocketSteps {
  import opened Common
  import opened RelayerSets
  import opened SocketMessages
  import opened RelayerNode

  datatype Status =
    | NoStatus | Requested | Failed | Executed | Reverted | Accepted | Rejected | Committed | Rollbacked
    | NextAuthorityRelayed | NextAuthorityCommitted

  function Code(s: Status): nat {
    match s
    case NoStatus => 0
    case Requested => 1
    case Failed => 2
    case Executed => 3
    case Reverted => 4
    case Accepted => 5
    case Rejected => 6
    case Committed => 7
    case Rollbacked => 8
    case NextAuthorityRelayed => 9
    case NextAuthorityCommitted => 10
  }

  /** ChainEventStatus(n). */
  function StatusOf(n: nat): (r: Result<Status>)
    ensures forall s :: r == Ok(s) <==> Code(s) == n
  {
    if n == 0 then Ok(NoStatus) else if n == 1 then Ok(Requested) else if n == 2 then Ok(Failed)
    else if n == 3 then Ok(Executed) else if n == 4 then Ok(Reverted) else if n == 5 then Ok(Accepted)
    else if n == 6 then Ok(Rejected) else if n == 7 then Ok(Committed) else if n == 8 then Ok(Rollbacked)
    else if n == 9 then Ok(NextAuthorityRelayed) else if n == 10 then Ok(NextAuthorityCommitted)
    else Raised(ValueError)
  }

  /** RbcEvent.select_child; calling the None it returns for the other statuses is a TypeError. */
  function ChildOf(n: nat): Result<Status> {
    var s :- StatusOf(n);
    if 1 <= Code(s) <= 8 then Ok(s) else Raised(TypeError)
  }

  datatype Phase = Send | Call

  /** A queued event. `id` names the detected log; `kind` is the class that init selected. */
  datatype Event = Event(
    id: nat, block: nat, msg: SocketMessage, kind: Status, phase: Phase, timeLock: int, aggregated: bool)

  predicate Relays(kind: Status) { kind.Accepted? || kind.Rejected? }

  predicate Inbound(cfg: Config, m: SocketMessage) { m.chain != cfg.bifrost }

  /** RbcEvent.init on a decoded message. */
  function Init(cfg: Config, id: nat, block: nat, m: SocketMessage, timeLock: int): Result<Event> {
    var kind :- ChildOf(m.status);
    var slow := timeLock != 0 && cfg.role.Slow? && Relays(kind);
    var lock := if slow then timeLock + cfg.slowDelaySec * 1000 else timeLock;
    Ok(Event(id, block, m, kind, Send, lock, true))
  }

  /** ExternalRbcEvent.init, which a fast relayer registers instead: other statuses give no event. */
  function ExternalInit(id: nat, block: nat, m: SocketMessage, timeLock: int): Result<Option<Event>> {
    var s :- StatusOf(m.status);
    if Relays(s) || s.Committed? || s.Rollbacked?
    then Ok(Some(Event(id, block, m, s, Send, timeLock, true)))
    else Ok(None)
  }

  /** clone_with_other_status: the same record with another status, classified again. */
  function Clone(cfg: Config, e: Event, next: Status): Result<Event> {
    Init(cfg, e.id, e.block, e.msg.(status := Code(next)), e.timeLock)
  }

  // ----- what one step may be told -----

  datatype TxOutcome = Success | Fail | NoReceipt

  /** The clock, the chains' answers and the cached index that one handling meets; all arbitrary. */
  datatype Answers = Answers(
    now: int,
    info: seq<nat>,          // get_request: the current status, then the votes per status
    quorum: nat,
    currentSize: nat,        // size of the current relayer set
    index: Option<nat>,      // get_value_by_key(rnd) at that moment
    tx: TxOutcome)

  /** What a step did: a vote and the status it signed, a transaction that did not succeed, a tally of votes,
      a status read from a chain, a relay to a chain with the cached index and the set size that it was decided on. */
  datatype Act =
    | Handled(id: nat)
    | Voted(id: nat, signed: Option<Status>)
    | TxLost(id: nat, kind: Status)
    | Tallied(id: nat, chain: nat, votes: nat, quorum: nat, now: int)
    | Saw(id: nat, kind: Status, chain: nat, status: Status, phase: Phase, now: int)
    | Relayed(id: nat, kind: Status, chain: nat, primary: bool, index: Option<nat>, size: nat, now: int)

  datatype Built = NoTx(requeued: Option<Event>, acts: seq<Act>) | Tx(acts: seq<Act>)
  datatype Step = Step(next: Option<Event>, acts: seq<Act>)

  /** src_chain: chain_enum.from_bytes raises on an index it does not know. */
  function SrcChain(cfg: Config, m: SocketMessage): Result<nat> {
    if m.chain in cfg.known then Ok(m.chain) else Raised(ValueError)
  }

  /** dst_chain: both halves of the instruction must be known. */
  function DstChain(cfg: Config, m: SocketMessage): Result<nat> {
    if m.dstChain in cfg.known && m.instruction in cfg.instructions then Ok(m.dstChain) else Raised(ValueError)
  }

  /** The chain a relay goes to and its status is read from. */
  function TargetChain(cfg: Config, m: SocketMessage): Result<nat> {
    var src :- SrcChain(cfg, m);
    if Inbound(cfg, m) then Ok(src) else DstChain(cfg, m)
  }

  /** check_already_done: the status there, and the final one expected of this event. */
  function Expected(cfg: Config, e: Event): Status {
    if e.kind.Accepted? then (if Inbound(cfg, e.msg) then Committed else Executed)
    else (if Inbound(cfg, e.msg) then Rollbacked else Reverted)
  }

  function Observed(info: seq<nat>): Result<Status> {
    if info == [] then Raised(IndexError) else StatusOf(info[0])
  }

  function Primary(cfg: Config, e: Event, a: Answers): Result<bool> {
    if cfg.role.Fast? then Ok(true)
    else if a.currentSize == 0 then Raised(ZeroDivision)
    else Ok(a.index == Some(e.block % a.currentSize))
  }

  function Later(cfg: Config, e: Event): Event {
    e.(phase := Call, timeLock := e.timeLock + 1000 * cfg.callDelaySec)
  }

  // ----- build_transaction_params -----

  function BuildRelay(cfg: Config, e: Event, a: Answers): Result<Built> {
    var chain :- TargetChain(cfg, e.msg);
    var seen :- Observed(a.info);
    var saw := Saw(e.id, e.kind, chain, seen, Send, a.now);
    if seen == Expected(cfg, e) then Ok(NoTx(None, [saw]))
    else
      var primary :- Primary(cfg, e, a);
      if primary || !e.aggregated
      then Ok(Tx([saw, Relayed(e.id, e.kind, chain, primary, a.index, a.currentSize, a.now)]))
      else Ok(NoTx(Some(Later(cfg, e)), [saw]))
  }

  function BuildSend(cfg: Config, e: Event, a: Answers): Result<Built> {
    var mine :- Authorised(cfg, e.msg);
    if !mine then Ok(NoTx(None, []))
    else match e.kind
      case Requested =>
        var _ :- SrcChain(cfg, e.msg);
        Ok(Tx([Voted(e.id, if Inbound(cfg, e.msg) then None else Some(Accepted))]))
      case Failed =>
        var _ :- SrcChain(cfg, e.msg);
        if Inbound(cfg, e.msg) then Ok(Tx([Voted(e.id, Some(Failed))])) else Ok(NoTx(None, []))
      case Executed => Ok(Tx([Voted(e.id, Some(Accepted))]))
      case Reverted => Ok(Tx([Voted(e.id, Some(Rejected))]))
      case Accepted => BuildRelay(cfg, e, a)
      case Rejected => BuildRelay(cfg, e, a)
      case _ =>
        var _ :- SrcChain(cfg, e.msg);
        Ok(NoTx(None, []))
  }

  /** The status that an event's own vote is signed for; an inbound REQUESTED is voted without a signature. */
  function SignedFor(cfg: Config, e: Event): Option<Status> {
    match e.kind
    case Requested => if Inbound(cfg, e.msg) then None else Some(Accepted)
    case Failed => Some(Failed)
    case Executed => Some(Accepted)
    case Reverted => Some(Rejected)
    case _ => None
  }

  /** The classes that vote. */
  predicate CallsForVote(cfg: Config, e: Event) {
    e.kind.Requested? || e.kind.Executed? || e.kind.Reverted? || (e.kind.Failed? && Inbound(cfg, e.msg))
  }

  /** A transaction is a vote exactly of the classes that vote, and then it records the status that is signed. */
  lemma VotesAreSignedFor(cfg: Config, e: Event, a: Answers)
    requires BuildSend(cfg, e, a).Ok? && Authorised(cfg, e.msg) == Ok(true)
    ensures CallsForVote(cfg, e) <==> BuildSend(cfg, e, a) == Ok(Tx([Voted(e.id, SignedFor(cfg, e))]))
    ensures !CallsForVote(cfg, e) && BuildSend(cfg, e, a).value.Tx? ==>
      forall act <- BuildSend(cfg, e, a).value.acts :: !act.Voted?
  {
  }

  // ----- handle_tx_result_success / fail / no_receipt -----

  function OnSuccess(cfg: Config, e: Event): Result<Option<Event>> {
    var mine :- Authorised(cfg, e.msg);
    if !mine then Ok(None)
    else
      var _ :- SrcChain(cfg, e.msg);
      if e.kind.Requested? && Inbound(cfg, e.msg) then Ok(Some(Later(cfg, e))) else Ok(None)
  }

  function OnFail(cfg: Config, e: Event): Result<Option<Event>> {
    var mine :- Authorised(cfg, e.msg);
    if !mine then Ok(None)
    else if e.kind.Requested? then
      var c :- Clone(cfg, e, Failed);
      Ok(Some(c))
    else
      var _ :- SrcChain(cfg, e.msg);
      if e.kind.Accepted? && !Inbound(cfg, e.msg) then
        var c :- Clone(cfg, e, Rejected);
        Ok(Some(c.(aggregated := false)))
      else Ok(None)
  }

  function OnNoReceipt(cfg: Config, e: Event): Result<Option<Event>> {
    var mine :- Authorised(cfg, e.msg);
    if !mine then Ok(None)
    else
      var _ :- SrcChain(cfg, e.msg);
      OnFail(cfg, e)
  }

  function OnTx(cfg: Config, e: Event, tx: TxOutcome): Result<Option<Event>> {
    match tx
    case Success => OnSuccess(cfg, e)
    case Fail => OnFail(cfg, e)
    case NoReceipt => OnNoReceipt(cfg, e)
  }

  // ----- build_call_transaction_params, then handle_call_result -----

  function OnCallRequested(cfg: Config, e: Event, a: Answers): Result<Step> {
    var dst :- DstChain(cfg, e.msg);
    if |a.info| <= Code(e.kind) then Raised(IndexError)
    else
      var votes := a.info[Code(e.kind)];
      var tally := Tallied(e.id, dst, votes, a.quorum, a.now);
      if a.quorum == 0 || votes >= a.quorum then Ok(Step(None, [tally]))
      else
        var next :- OnFail(cfg, e);
        Ok(Step(next, [tally]))
  }

  function OnCallRelay(cfg: Config, e: Event, a: Answers): Result<Step> {
    var chain :- TargetChain(cfg, e.msg);
    var seen :- Observed(a.info);
    var saw := Saw(e.id, e.kind, chain, seen, Call, a.now);
    if seen == Expected(cfg, e) then Ok(Step(None, [saw]))
    else Ok(Step(Some(e.(aggregated := false, phase := Send, timeLock := a.now)), [saw]))
  }

  function OnCall(cfg: Config, e: Event, a: Answers): Result<Step> {
    var mine :- Authorised(cfg, e.msg);
    if !mine then Ok(Step(None, []))
    else if e.kind.Requested? then OnCallRequested(cfg, e, a)
    else if Relays(e.kind) then OnCallRelay(cfg, e, a)
    else
      var _ :- SrcChain(cfg, e.msg);
      Ok(Step(None, []))
  }

  // ----- the whole handling -----

  function OnSend(cfg: Config, e: Event, a: Answers): Result<Step> {
    var built :- BuildSend(cfg, e, a);
    match built
    case NoTx(requeued, acts) => Ok(Step(requeued, acts))
    case Tx(acts) =>
      var next :- OnTx(cfg, e, a.tx);
      Ok(Step(next, if a.tx.Success? then acts else acts + [TxLost(e.id, e.kind)]))
  }

  /** One handling of a popped event: what it did and which event, if any, is queued in its place. */
  function Handle(cfg: Config, e: Event, a: Answers): Result<Step> {
    if e.phase.Send? then OnSend(cfg, e, a) else OnCall(cfg, e, a)
  }

  // ----- the measure -----

  /** How many handlings an event can still meet, its successors included. */
  function Rank(cfg: Config, e: Event): (r: nat)
    ensures 1 <= r <= 4
  {
    var retry := if Inbound(cfg, e.msg) then 0 else 1;
    match e.kind
    case Requested => if e.phase.Send? && Inbound(cfg, e.msg) then 3 else 2
    case Accepted => retry + (if e.phase.Call? then 2 else if e.aggregated then 3 else 1)
    case Rejected => if e.phase.Call? then 2 else if e.aggregated then 3 else 1
    case _ => 1
  }

  /** Whatever the chains answer, a handling either drops the event or replaces it by one of smaller rank. */
  lemma StepDecreasesRank(cfg: Config, e: Event, a: Answers)
    requires Handle(cfg, e, a).Ok? && Handle(cfg, e, a).value.next.Some?
    ensures Rank(cfg, Handle(cfg, e, a).value.next.value) < Rank(cfg, e)
  {
    if e.phase.Send? { SendDecreasesRank(cfg, e, a); } else { CallDecreasesRank(cfg, e, a); }
  }

  lemma SendDecreasesRank(cfg: Config, e: Event, a: Answers)
    requires e.phase.Send? && OnSend(cfg, e, a).Ok? && OnSend(cfg, e, a).value.next.Some?
    ensures Rank(cfg, OnSend(cfg, e, a).value.next.value) < Rank(cfg, e)
  {
  }

  lemma CallDecreasesRank(cfg: Config, e: Event, a: Answers)
    requires e.phase.Call? && OnCall(cfg, e, a).Ok? && OnCall(cfg, e, a).value.next.Some?
    ensures Rank(cfg, OnCall(cfg, e, a).value.next.value) < Rank(cfg, e)
  {
  }

  lemma HandleKeepsId(cfg: Config, e: Event, a: Answers)
    ensures Handle(cfg, e, a).Ok? && Handle(cfg, e, a).value.next.Some? ==>
      Handle(cfg, e, a).value.next.value.id == e.id
  {
  }
}
