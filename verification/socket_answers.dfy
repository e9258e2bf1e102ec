/** Runs over Socket events against what the relayer is told: every act follows from the answers of the very handling
    that records it, and those answers decide what becomes of the event. */
module SocketAnswers {
  import opened Common
  import opened RelayerSets
  import opened SocketMessages
  import opened RelayerNode
  import opened SocketSteps
  import opened SocketRuns

  // ----- one handling -----

  /** The status number that ends a relay: COMMITTED or ROLLBACKED at the source of an inbound request, EXECUTED or
      REVERTED at the destination of an outbound one. */
  predicate Ended(cfg: Config, e: Event, n: nat) {
    n == if e.kind.Accepted? then (if Inbound(cfg, e.msg) then 7 else 3) else if Inbound(cfg, e.msg) then 8 else 4
  }

  /** The relayer whose turn it is: a fast one always, another when its cached index is the block number's remainder. */
  predicate MyTurn(cfg: Config, e: Event, a: Answers) {
    cfg.role.Fast? || (a.currentSize > 0 && a.index == Some(e.block % a.currentSize))
  }

  /** The event of a clone: the status is rewritten, and the slow relayer waits again before a relay. */
  function Reclassified(cfg: Config, e: Event, kind: Status): Event {
    var delay := if e.timeLock != 0 && cfg.role.Slow? && Relays(kind) then 1000 * cfg.slowDelaySec else 0;
    Event(e.id, e.block, e.msg.(status := Code(kind)), kind, Send, e.timeLock + delay, true)
  }

  /** A relayer that may not act on the request does nothing but let the event go. */
  lemma StrangerLetsGo(cfg: Config, e: Event, a: Answers)
    requires Authorised(cfg, e.msg) == Ok(false)
    ensures Handle(cfg, e, a) == Ok(Step(None, []))
  {
  }

  /** The votes on the destination chain decide a REQUESTED event: fewer than a non-zero quorum make it FAILED. */
  lemma TallyDecides(cfg: Config, e: Event, a: Answers)
    requires e.kind.Requested? && e.phase.Call? && Authorised(cfg, e.msg) == Ok(true) && Handle(cfg, e, a).Ok?
    ensures |a.info| > 1
    ensures Handle(cfg, e, a).value.acts == [Tallied(e.id, e.msg.dstChain, a.info[1], a.quorum, a.now)]
    ensures Handle(cfg, e, a).value.next
         == if 0 < a.quorum && a.info[1] < a.quorum then Some(Reclassified(cfg, e, Failed)) else None
  {
    VotesAreRead(cfg, e, a);
  }

  /** The votes are those at position 1 of the answer, the number of REQUESTED. */
  lemma VotesAreRead(cfg: Config, e: Event, a: Answers)
    requires e.kind.Requested? && Authorised(cfg, e.msg) == Ok(true) && OnCall(cfg, e, a).Ok?
    ensures |a.info| > 1
    ensures OnCall(cfg, e, a).value.acts == [Tallied(e.id, e.msg.dstChain, a.info[1], a.quorum, a.now)]
    ensures OnCall(cfg, e, a).value.next
         == if 0 < a.quorum && a.info[1] < a.quorum then Some(Reclassified(cfg, e, Failed)) else None
  {
  }

  /** The outcome of the vote decides a new one: an inbound event waits for its tally, a lost vote makes it FAILED. */
  lemma VoteOutcomeDecides(cfg: Config, e: Event, a: Answers)
    requires e.kind.Requested? && e.phase.Send? && Authorised(cfg, e.msg) == Ok(true) && Handle(cfg, e, a).Ok?
    ensures TxLost(e.id, Requested) in Handle(cfg, e, a).value.acts <==> !a.tx.Success?
    ensures Handle(cfg, e, a).value.next
         == if !a.tx.Success? then Some(Reclassified(cfg, e, Failed))
            else if e.msg.chain != cfg.bifrost
            then Some(e.(phase := Call, timeLock := e.timeLock + 1000 * cfg.callDelaySec))
            else None
  {
  }

  /** FAILED, EXECUTED, REVERTED and the final classes are handled once. */
  lemma OthersLeaveAtOnce(cfg: Config, e: Event, a: Answers)
    requires !e.kind.Requested? && !Relays(e.kind) && Handle(cfg, e, a).Ok?
    ensures Handle(cfg, e, a).value.next == None
  {
  }

  /** The status on the target chain decides a relay event before it is sent: an ended relay is dropped, whose turn it
      is relays, and another waits for the call delay. */
  lemma StatusDecidesRelay(cfg: Config, e: Event, a: Answers)
    requires Relays(e.kind) && e.phase.Send? && Authorised(cfg, e.msg) == Ok(true) && Handle(cfg, e, a).Ok?
    ensures |a.info| > 0 && a.info[0] <= 10
    ensures var step := Handle(cfg, e, a).value;
      var saw := Saw(e.id, e.kind, RelayChain(cfg, e.msg), StatusOf(a.info[0]).value, Send, a.now);
      var relayed := Relayed(e.id, e.kind, RelayChain(cfg, e.msg), MyTurn(cfg, e, a), a.index, a.currentSize, a.now);
      if Ended(cfg, e, a.info[0]) then step == Step(None, [saw])
      else if MyTurn(cfg, e, a) || !e.aggregated then
        step.acts == [saw, relayed] + if a.tx.Success? then [] else [TxLost(e.id, e.kind)]
      else step == Step(Some(e.(phase := Call, timeLock := e.timeLock + 1000 * cfg.callDelaySec)), [saw])
  {
    KnownStatus(a.info[0]);
  }

  /** After a relay only the outbound ACCEPTED event whose transaction did not succeed comes back, as REJECTED. */
  lemma RelayOutcomeDecides(cfg: Config, e: Event, a: Answers)
    requires Relays(e.kind) && e.phase.Send? && Authorised(cfg, e.msg) == Ok(true) && Handle(cfg, e, a).Ok?
    requires |a.info| > 0 && !Ended(cfg, e, a.info[0]) && (MyTurn(cfg, e, a) || !e.aggregated)
    ensures Handle(cfg, e, a).value.next
         == if !a.tx.Success? && e.kind.Accepted? && e.msg.chain == cfg.bifrost
            then Some(Reclassified(cfg, e, Rejected).(aggregated := false)) else None
  {
  }

  /** The status decides again after the wait: an ended relay is dropped, another is due for sending at once. */
  lemma StatusDecidesCall(cfg: Config, e: Event, a: Answers)
    requires Relays(e.kind) && e.phase.Call? && Authorised(cfg, e.msg) == Ok(true) && Handle(cfg, e, a).Ok?
    ensures |a.info| > 0 && a.info[0] <= 10
    ensures var saw := Saw(e.id, e.kind, RelayChain(cfg, e.msg), StatusOf(a.info[0]).value, Call, a.now);
      var again := e.(phase := Send, timeLock := a.now, aggregated := false);
      Handle(cfg, e, a).value == Step(if Ended(cfg, e, a.info[0]) then None else Some(again), [saw])
  {
    KnownStatus(a.info[0]);
  }

  /** Who may act: a fast relayer on everything, another on the requests of supported chains in the rounds it serves. */
  predicate Serves(cfg: Config, m: SocketMessage) {
    cfg.role.Fast? || (m.chain in cfg.supported && RelayerIndex(cfg.history(m.round), cfg.me).Some?)
  }

  predicate KnownTarget(cfg: Config, m: SocketMessage) {
    && m.chain in cfg.known
    && (m.chain != cfg.bifrost || (m.dstChain in cfg.known && m.instruction in cfg.instructions))
  }

  /** The status in the answer is readable, and whose turn it is can be told when it must be. */
  predicate Answerable(cfg: Config, e: Event, a: Answers) {
    && |a.info| > 0 && a.info[0] <= 10
    && (e.phase.Send? && !cfg.role.Fast? && !Ended(cfg, e, a.info[0]) ==> a.currentSize > 0)
  }

  /** Everything on which a handling raises: an unknown chain or instruction where it is read, or a malformed answer. */
  lemma HandleRaisesIff(cfg: Config, e: Event, a: Answers)
    requires 1 <= Code(e.kind) <= 8
    ensures Handle(cfg, e, a).Raised? <==>
      (!cfg.role.Fast? && e.msg.chain !in cfg.known) || (Serves(cfg, e.msg) && RaisesOn(cfg, e, a))
  {
    KnownStatus(if |a.info| > 0 then a.info[0] else 0);
    if e.phase.Send? { SendRaisesIff(cfg, e, a); } else { CallRaisesIff(cfg, e, a); }
  }

  lemma SendRaisesIff(cfg: Config, e: Event, a: Answers)
    requires 1 <= Code(e.kind) <= 8 && e.phase.Send?
    requires |a.info| > 0 ==> (StatusOf(a.info[0]).Ok? <==> a.info[0] <= 10)
    ensures OnSend(cfg, e, a).Raised? <==>
      (!cfg.role.Fast? && e.msg.chain !in cfg.known) || (Serves(cfg, e.msg) && RaisesOn(cfg, e, a))
  {
  }

  lemma CallRaisesIff(cfg: Config, e: Event, a: Answers)
    requires 1 <= Code(e.kind) <= 8 && e.phase.Call?
    requires |a.info| > 0 ==> (StatusOf(a.info[0]).Ok? <==> a.info[0] <= 10)
    ensures OnCall(cfg, e, a).Raised? <==>
      (!cfg.role.Fast? && e.msg.chain !in cfg.known) || (Serves(cfg, e.msg) && RaisesOn(cfg, e, a))
  {
  }

  predicate RaisesOn(cfg: Config, e: Event, a: Answers) {
    if Relays(e.kind) then !KnownTarget(cfg, e.msg) || !Answerable(cfg, e, a)
    else if e.kind.Requested? && e.phase.Call?
    then e.msg.dstChain !in cfg.known || e.msg.instruction !in cfg.instructions || |a.info| <= 1
    else e.msg.chain !in cfg.known
  }

  // ----- where the acts of a run come from -----

  /** The k-th move of the run, made in state t, pops an event and records the act at position p. */
  ghost predicate RecordsAct(cfg: Config, labels: seq<Label>, s: State, p: nat, k: nat, t: State) {
    && k < |labels| && labels[k].Pop? && p < |s.log| && Exec(cfg, START, labels[..k]) == Some(t)
    && Next(cfg, t, labels[k]).Some? && t.log <= s.log && t.arrived <= s.arrived && labels[k].id < |t.arrived|
    && s.log[p].id == labels[k].id
    && var acts := [Handled(labels[k].id)] + Handle(cfg, t.queue[labels[k].id], labels[k].a).value.acts;
       && |t.log| <= p < |t.log| + |acts| <= |s.log| && s.log[|t.log|..|t.log| + |acts|] == acts
       && s.log[p] == acts[p - |t.log|]
  }

  /** Every act of a run is recorded by one of its moves. */
  lemma {:induction false} ActsAreRecorded(cfg: Config, labels: seq<Label>, s: State, p: nat)
    returns (k: nat, t: State)
    requires Exec(cfg, START, labels) == Some(s) && p < |s.log|
    ensures RecordsAct(cfg, labels, s, p, k, t)
    decreases |labels|
  {
    var n := |labels| - 1;
    var u := Exec(cfg, START, labels[..n]).value;
    if p < |u.log| {
      k, t := ActsAreRecorded(cfg, labels[..n], u, p);
      RecordStays(cfg, labels, u, s, p, k, t);
    } else {
      k, t := n, u;
      RunsKeepInv(cfg, labels[..n]);
      NewActIsRecorded(cfg, u, labels[n].id, labels[n].a, s, p);
    }
  }

  lemma NewActIsRecorded(cfg: Config, t: State, id: nat, a: Answers, s: State, p: nat)
    requires Inv(cfg, t) && Next(cfg, t, Pop(id, a)) == Some(s) && |t.log| <= p < |s.log|
    ensures t.log <= s.log && t.arrived == s.arrived && id < |t.arrived| && s.log[p].id == id
    ensures var acts := [Handled(id)] + Handle(cfg, t.queue[id], a).value.acts;
      p < |t.log| + |acts| == |s.log| && s.log[|t.log|..] == acts && s.log[p] == acts[p - |t.log|]
  {
    PopActs(cfg, t, id, a);
    assert s.log[p] in [Handled(id)] + Handle(cfg, t.queue[id], a).value.acts;
  }

  lemma RecordStays(cfg: Config, labels: seq<Label>, u: State, s: State, p: nat, k: nat, t: State)
    requires labels != [] && Exec(cfg, START, labels[..|labels| - 1]) == Some(u) && Exec(cfg, START, labels) == Some(s)
    requires RecordsAct(cfg, labels[..|labels| - 1], u, p, k, t)
    ensures RecordsAct(cfg, labels, s, p, k, t)
  {
    var n := |labels| - 1;
    OneMoveGrows(cfg, u, labels[n], s);
    assert labels[..n][..k] == labels[..k] && labels[..n][k] == labels[k];
    var acts := [Handled(labels[k].id)] + Handle(cfg, t.queue[labels[k].id], labels[k].a).value.acts;
    assert s.log[|t.log|..|t.log| + |acts|] == u.log[|t.log|..|t.log| + |acts|];
  }

  lemma OneMoveGrows(cfg: Config, t: State, l: Label, s: State)
    requires Next(cfg, t, l) == Some(s)
    ensures t.log <= s.log && t.arrived <= s.arrived
  {
  }

  /** What an act says of the answers that its handling was given. */
  predicate FromAnswers(act: Act, a: Answers) {
    match act
    case Tallied(_, _, votes, quorum, now) => |a.info| > 1 && votes == a.info[1] && quorum == a.quorum && now == a.now
    case Saw(_, _, _, status, _, now) => |a.info| > 0 && Code(status) == a.info[0] && now == a.now
    case Relayed(_, _, _, _, index, size, now) => index == a.index && size == a.currentSize && now == a.now
    case TxLost(_, _) => !a.tx.Success?
    case _ => true
  }

  lemma StepFromAnswers(cfg: Config, e: Event, a: Answers, act: Act)
    requires Handle(cfg, e, a).Ok? && act in Handle(cfg, e, a).value.acts
    ensures FromAnswers(act, a)
  {
  }

  /** In every run each tally, each status seen, each relay and each lost transaction is what the answers of one
      handling of that event said. */
  lemma AnswersAreRecorded(cfg: Config, labels: seq<Label>, s: State, p: nat)
    requires Exec(cfg, START, labels) == Some(s) && p < |s.log|
    ensures exists k :: 0 <= k < |labels| && labels[k].Pop? && labels[k].id == s.log[p].id
                        && FromAnswers(s.log[p], labels[k].a)
  {
    var k, t := ActsAreRecorded(cfg, labels, s, p);
    if !s.log[p].Handled? { StepFromAnswers(cfg, t.queue[labels[k].id], labels[k].a, s.log[p]); }
  }

  // ----- which answers fail a request -----

  /** The k-th move is told that the log's REQUESTED vote was lost, or that it has fewer votes than a quorum. */
  ghost predicate RequestFails(cfg: Config, labels: seq<Label>, id: nat, k: nat) {
    && k < |labels| && labels[k].Pop? && labels[k].id == id
    && match Exec(cfg, START, labels[..k])
       case None => false
       case Some(t) => id in t.queue && t.queue[id].kind.Requested? && FailsOn(t.queue[id].phase, labels[k].a)
  }

  predicate FailsOn(phase: Phase, a: Answers) {
    if phase.Send? then !a.tx.Success? else |a.info| > 1 && a.info[1] < a.quorum
  }

  predicate Fails(act: Act, id: nat) { act == TxLost(id, Requested) || FellShort(act, id) }

  lemma FailuresComeFromAnswers(cfg: Config, e: Event, a: Answers, act: Act)
    requires Handle(cfg, e, a).Ok? && act in Handle(cfg, e, a).value.acts && Fails(act, e.id)
    ensures e.kind.Requested? && FailsOn(e.phase, a)
  {
  }

  lemma AnswersFail(cfg: Config, e: Event, a: Answers)
    requires Handle(cfg, e, a).Ok? && Authorised(cfg, e.msg) == Ok(true) && e.kind.Requested? && FailsOn(e.phase, a)
    ensures RequestFailed(Handle(cfg, e, a).value.acts, e.id)
  {
    var acts := Handle(cfg, e, a).value.acts;
    if e.phase.Call? {
      TallyDecides(cfg, e, a);
      assert acts[0] in acts && FellShort(acts[0], e.id);
    } else {
      VoteOutcomeDecides(cfg, e, a);
    }
  }

  /** The log only grows along a run. */
  lemma {:induction false} PrefixLog(cfg: Config, labels: seq<Label>, k: nat)
    requires k <= |labels| && Exec(cfg, START, labels).Some?
    ensures Exec(cfg, START, labels[..k]).Some?
    ensures var t, s := Exec(cfg, START, labels[..k]).value, Exec(cfg, START, labels).value;
      t.log <= s.log && t.arrived <= s.arrived
    decreases |labels|
  {
    if k == |labels| {
      assert labels[..k] == labels;
    } else {
      var n := |labels| - 1;
      PrefixLog(cfg, labels[..n], k);
      assert labels[..n][..k] == labels[..k];
      OneMoveGrows(cfg, Exec(cfg, START, labels[..n]).value, labels[n], Exec(cfg, START, labels).value);
    }
  }

  lemma FailureIsRecorded(cfg: Config, labels: seq<Label>, s: State, id: nat, k: nat)
    requires Exec(cfg, START, labels) == Some(s) && id < |s.arrived| && Authorised(cfg, s.arrived[id].msg) == Ok(true)
    requires RequestFails(cfg, labels, id, k)
    ensures RequestFailed(s.log, id)
  {
    var t := Exec(cfg, START, labels[..k]).value;
    var e, a := t.queue[id], labels[k].a;
    PrefixLog(cfg, labels, k);
    IdentityIsKept(cfg, labels[..k], t, id);
    MoveStays(cfg, labels, k, t, s);
    AnswersFail(cfg, e, a);
    FailureStays(Handle(cfg, e, a).value.acts, s.log, id);
  }

  /** What a move of the run records stays in its log. */
  lemma MoveStays(cfg: Config, labels: seq<Label>, k: nat, t: State, s: State)
    requires k < |labels| && Exec(cfg, START, labels[..k]) == Some(t) && Exec(cfg, START, labels) == Some(s)
    requires labels[k].Pop?
    ensures Next(cfg, t, labels[k]).Some?
    ensures forall act <- Handle(cfg, t.queue[labels[k].id], labels[k].a).value.acts :: act in s.log
  {
    PrefixLog(cfg, labels, k + 1);
    assert labels[..k + 1][..k] == labels[..k];
    var u := Exec(cfg, START, labels[..k + 1]).value;
    assert forall act <- u.log :: act in s.log;
  }

  lemma FailureStays(acts: seq<Act>, log: seq<Act>, id: nat)
    requires RequestFailed(acts, id) && forall act <- acts :: act in log
    ensures RequestFailed(log, id)
  {
    if act :| act in acts && FellShort(act, id) { assert act in log; }
  }

  lemma FailureHasAnswers(cfg: Config, labels: seq<Label>, s: State, p: nat) returns (k: nat)
    requires Exec(cfg, START, labels) == Some(s) && p < |s.log| && Fails(s.log[p], s.log[p].id)
    ensures RequestFails(cfg, labels, s.log[p].id, k)
  {
    var t;
    k, t := ActsAreRecorded(cfg, labels, s, p);
    IdentityIsKept(cfg, labels[..k], t, labels[k].id);
    FailuresComeFromAnswers(cfg, t.queue[labels[k].id], labels[k].a, s.log[p]);
  }

  lemma FailureAmong(log: seq<Act>, id: nat, from: int) returns (p: nat)
    requires VoteFailed(log, id, from)
    ensures p < |log| && log[p].id == id && Fails(log[p], id)
  {
    var act :| act in log && act.id == id && Fails(act, id);
    p :| 0 <= p < |log| && log[p] == act;
  }

  lemma FailedVoteHasAnswers(cfg: Config, labels: seq<Label>, s: State, id: nat, p: nat) returns (k: nat)
    requires Exec(cfg, START, labels) == Some(s) && p < |s.log| && s.log[p] == Voted(id, Some(Failed))
    requires id < |s.arrived| && s.arrived[id].kind.Requested?
    ensures RequestFails(cfg, labels, id, k)
  {
    VotesFollowLogs(cfg, labels, s, p);
    RunsKeepInv(cfg, labels);
    FailedIsAllowed(cfg, s.arrived[id], s.log[..p]);
    var q := FailureAmong(s.log[..p], id, CallTime(cfg, s.arrived[id]));
    assert s.log[..p][q] == s.log[q];
    k := FailureHasAnswers(cfg, labels, s, q);
  }

  lemma FailedIsAllowed(cfg: Config, o: Event, log: seq<Act>)
    requires VoteAllowed(cfg, o, Some(Failed), log) && o.kind.Requested?
    ensures VoteFailed(log, o.id, CallTime(cfg, o))
  {
  }

  /** Once an inbound request is handled to its end, FAILED has been voted on it if and only if its vote was lost or the
      votes counted on its destination chain fell short of the quorum. */
  lemma FailedVotesFollowAnswers(cfg: Config, labels: seq<Label>, s: State, id: nat)
    requires Exec(cfg, START, labels) == Some(s) && id < |s.arrived| && id !in s.queue
    requires s.arrived[id].kind.Requested? && Inbound(cfg, s.arrived[id].msg)
    requires Authorised(cfg, s.arrived[id].msg) == Ok(true)
    ensures Voted(id, Some(Failed)) in s.log <==> exists k :: RequestFails(cfg, labels, id, k)
  {
    if Voted(id, Some(Failed)) in s.log {
      var p :| 0 <= p < |s.log| && s.log[p] == Voted(id, Some(Failed));
      var k := FailedVoteHasAnswers(cfg, labels, s, id, p);
    }
    if k :| RequestFails(cfg, labels, id, k) {
      FailureIsRecorded(cfg, labels, s, id, k);
      NoVoteIsLost(cfg, labels, s, id);
    }
  }

  /** In a run, the pop of a REQUESTED event that waits for its tally leaves it FAILED if and only if the votes counted
      are fewer than a non-zero quorum, and lets go of it otherwise. */
  lemma TallyDecidesPop(cfg: Config, labels: seq<Label>, s: State, id: nat, a: Answers, t: State)
    requires Exec(cfg, START, labels) == Some(s) && Next(cfg, s, Pop(id, a)) == Some(t)
    requires s.queue[id].kind.Requested? && s.queue[id].phase.Call? && Authorised(cfg, s.queue[id].msg) == Ok(true)
    ensures |a.info| > 1
    ensures id in t.queue <==> 0 < a.quorum && a.info[1] < a.quorum
    ensures id in t.queue ==> t.queue[id].kind.Failed? && t.queue[id].msg.status == 2 && t.queue[id].phase.Send?
    ensures t.log == s.log + [Handled(id), Tallied(id, s.queue[id].msg.dstChain, a.info[1], a.quorum, a.now)]
  {
    IdentityIsKept(cfg, labels, s, id);
    TallyDecides(cfg, s.queue[id], a);
  }

  // ----- relays answer an unfinished status -----

  /** Each relay directly follows, in the same handling, the sight of a status on its target chain that is not the final
      one of its class. */
  lemma RelaysAnswerUnfinished(cfg: Config, labels: seq<Label>, s: State, p: nat)
    requires Exec(cfg, START, labels) == Some(s) && p < |s.log| && s.log[p].Relayed?
    ensures p > 0 && s.log[p - 1].Saw?
    ensures var saw, relayed := s.log[p - 1], s.log[p];
      && saw.id == relayed.id && saw.kind == relayed.kind && saw.chain == relayed.chain && saw.now == relayed.now
      && saw.id < |s.arrived| && !IsFinal(cfg, s.arrived[saw.id].msg, saw.kind, saw.status)
  {
    var k, t := ActsAreRecorded(cfg, labels, s, p);
    RelayRecorded(cfg, labels, s, p, k, t);
    SameEnd(cfg, labels[..k], t, labels[k].id, s.log[p - 1]);
  }

  lemma RelayRecorded(cfg: Config, labels: seq<Label>, s: State, p: nat, k: nat, t: State)
    requires RecordsAct(cfg, labels, s, p, k, t) && s.log[p].Relayed?
    ensures p > 0 && s.log[p - 1].Saw? && s.log[p].id == labels[k].id
    ensures SeenUnfinished(cfg, t.queue[labels[k].id], s.log[p - 1], s.log[p])
  {
    var e, a, i := t.queue[labels[k].id], labels[k].a, p - |t.log| - 1;
    assert s.log[p] == Handle(cfg, e, a).value.acts[i];
    RelayComesSecond(cfg, e, a, i);
    EarlierAct(cfg, labels, s, p, k, t);
  }

  /** The relay answers a sight of an unfinished status on its own chain, at the same instant. */
  predicate SeenUnfinished(cfg: Config, e: Event, saw: Act, relayed: Act) {
    && saw.Saw? && relayed.Relayed? && saw.id == relayed.id == e.id && saw.kind == relayed.kind == e.kind
    && saw.chain == relayed.chain && saw.now == relayed.now && !IsFinal(cfg, e.msg, e.kind, saw.status)
  }

  /** An event ends where its log ends. */
  lemma SameEnd(cfg: Config, labels: seq<Label>, t: State, id: nat, saw: Act)
    requires Exec(cfg, START, labels) == Some(t) && id in t.queue && saw.Saw?
    ensures id < |t.arrived|
    ensures IsFinal(cfg, t.arrived[id].msg, saw.kind, saw.status) <==>
      IsFinal(cfg, t.queue[id].msg, saw.kind, saw.status)
  {
    IdentityIsKept(cfg, labels, t, id);
  }

  lemma EarlierAct(cfg: Config, labels: seq<Label>, s: State, p: nat, k: nat, t: State)
    requires RecordsAct(cfg, labels, s, p, k, t) && p > |t.log| + 1
    ensures s.log[p - 1] == Handle(cfg, t.queue[labels[k].id], labels[k].a).value.acts[p - |t.log| - 2]
  {
    var acts := [Handled(labels[k].id)] + Handle(cfg, t.queue[labels[k].id], labels[k].a).value.acts;
    assert s.log[|t.log|..|t.log| + |acts|][p - 1 - |t.log|] == s.log[p - 1];
  }

  lemma RelayComesSecond(cfg: Config, e: Event, a: Answers, i: nat)
    requires Handle(cfg, e, a).Ok? && i < |Handle(cfg, e, a).value.acts| && Handle(cfg, e, a).value.acts[i].Relayed?
    ensures i == 1 && Relays(e.kind)
    ensures SeenUnfinished(cfg, e, Handle(cfg, e, a).value.acts[0], Handle(cfg, e, a).value.acts[1])
  {
  }

  // ----- strangers -----

  /** In every run a relayer records nothing on a request that it may not act on, besides having popped its log. */
  lemma StrangersDoNothing(cfg: Config, labels: seq<Label>, s: State, p: nat)
    requires Exec(cfg, START, labels) == Some(s) && p < |s.log| && s.log[p].id < |s.arrived|
    requires Authorised(cfg, s.arrived[s.log[p].id].msg) == Ok(false)
    ensures s.log[p].Handled?
  {
    var k, t := ActsAreRecorded(cfg, labels, s, p);
    IdentityIsKept(cfg, labels[..k], t, labels[k].id);
    StrangerLetsGo(cfg, t.queue[labels[k].id], labels[k].a);
  }

  // ----- when an event may be handled -----

  /** How long init holds back the event of a log detected at a time: only a slow relayer waits, only before a relay,
      and not at startup, where the time given is 0. */
  function HeldBack(cfg: Config, status: nat, time: int): nat {
    if cfg.role.Slow? && (status == 5 || status == 6) && time != 0 then 1000 * cfg.slowDelaySec else 0
  }

  lemma InitHoldsBack(cfg: Config, id: nat, block: nat, m: SocketMessage, time: int)
    ensures Init(cfg, id, block, m, time).Ok? <==> 1 <= m.status <= 8
    ensures Init(cfg, id, block, m, time).Ok? ==>
      Init(cfg, id, block, m, time).value.timeLock == time + HeldBack(cfg, m.status, time)
  {
    KnownStatus(m.status);
  }

  /** A fast relayer registers only relays and final statuses, and never waits. */
  lemma ExternalInitSelects(id: nat, block: nat, m: SocketMessage, time: int)
    requires m.status <= 10
    ensures ExternalInit(id, block, m, time).Ok?
    ensures ExternalInit(id, block, m, time).value.Some? <==> 5 <= m.status <= 8
    ensures 5 <= m.status <= 8 ==> ExternalInit(id, block, m, time).value.value.timeLock == time
  {
    KnownStatus(m.status);
  }

  ghost predicate LocksRise(s: State) {
    forall id {:trigger id in s.queue} :: id in s.queue ==>
      id < |s.arrived| && s.queue[id].timeLock >= s.arrived[id].timeLock
  }

  lemma StepRaisesLock(cfg: Config, e: Event, a: Answers)
    requires Handle(cfg, e, a).Ok? && Handle(cfg, e, a).value.next.Some? && a.now >= e.timeLock
    ensures Handle(cfg, e, a).value.next.value.timeLock >= e.timeLock
  {
  }

  lemma {:induction false} RunsRaiseLocks(cfg: Config, labels: seq<Label>)
    requires Exec(cfg, START, labels).Some?
    ensures LocksRise(Exec(cfg, START, labels).value)
  {
    if labels != [] {
      var n := |labels| - 1;
      RunsRaiseLocks(cfg, labels[..n]);
      var t := Exec(cfg, START, labels[..n]).value;
      if labels[n].Pop? {
        var e := t.queue[labels[n].id];
        if Handle(cfg, e, labels[n].a).value.next.Some? { StepRaisesLock(cfg, e, labels[n].a); }
      }
    }
  }

  /** The instant of an act that looks at a chain or sends to it. */
  predicate MadeAt(act: Act, now: int) {
    match act
    case Tallied(_, _, _, _, t) => t == now
    case Saw(_, _, _, _, _, t) => t == now
    case Relayed(_, _, _, _, _, _, t) => t == now
    case _ => false
  }

  lemma StepIsTimely(cfg: Config, e: Event, a: Answers, act: Act, now: int)
    requires Handle(cfg, e, a).Ok? && act in Handle(cfg, e, a).value.acts && MadeAt(act, now)
    ensures now == a.now
  {
  }

  /** No run looks at a chain, or relays, for an event before the time lock it arrived with. */
  lemma NothingIsEarly(cfg: Config, labels: seq<Label>, s: State, p: nat, now: int)
    requires Exec(cfg, START, labels) == Some(s) && p < |s.log| && MadeAt(s.log[p], now)
    ensures s.log[p].id < |s.arrived| && now >= s.arrived[s.log[p].id].timeLock
  {
    var k, t := ActsAreRecorded(cfg, labels, s, p);
    var id, a := labels[k].id, labels[k].a;
    RunsRaiseLocks(cfg, labels[..k]);
    assert id in t.queue;
    StepIsTimely(cfg, t.queue[id], a, s.log[p], now);
  }

  /** In every run a slow relayer does nothing about an ACCEPTED or REJECTED log that it detected at a time other than 0
      before its delay is over. */
  lemma SlowRelayerWaits(cfg: Config, labels: seq<Label>, s: State, p: nat, now: int, time: int)
    requires Exec(cfg, START, labels) == Some(s) && p < |s.log| && MadeAt(s.log[p], now) && s.log[p].id < |s.arrived|
    requires var o := s.arrived[s.log[p].id]; Init(cfg, o.id, o.block, o.msg, time) == Ok(o)
    requires cfg.role.Slow? && time != 0 && s.arrived[s.log[p].id].msg.status in {5, 6}
    ensures now >= time + 1000 * cfg.slowDelaySec
  {
    var o := s.arrived[s.log[p].id];
    NothingIsEarly(cfg, labels, s, p, now);
    InitHoldsBack(cfg, o.id, o.block, o.msg, time);
  }

  /** From then on, and every other event from its detection on, it can be popped whenever its handling does not raise:
      while a log is queued as it was detected, only the hold-back stands against its pop. */
  lemma DetectedIsDue(cfg: Config, s: State, id: nat, block: nat, m: SocketMessage, time: int, a: Answers)
    requires id in s.queue && Init(cfg, id, block, m, time) == Ok(s.queue[id])
    ensures Next(cfg, s, Pop(id, a)).Some? <==>
      && Handle(cfg, s.queue[id], a).Ok?
      && a.now >= time + if cfg.role.Slow? && m.status in {5, 6} && time != 0 then 1000 * cfg.slowDelaySec else 0
  {
    InitHoldsBack(cfg, id, block, m, time);
  }

  // ----- whose turn it is relays -----

  /** Whose turn it is, a fast relayer whatever its index, relays an unfinished request at the first handling, at the
      very instant the event is due. */
  lemma WhoseTurnRelays(cfg: Config, e: Event, a: Answers) returns (labels: seq<Label>, s: State)
    requires IsNew(e, 0) && Relays(e.kind) && Routable(cfg, e.msg) && Authorised(cfg, e.msg) == Ok(true)
    requires |a.info| > 0 && a.info[0] <= 10 && !Ended(cfg, e, a.info[0]) && MyTurn(cfg, e, a) && a.now == e.timeLock
    ensures Exec(cfg, START, labels) == Some(s) && s.arrived == [e] && |s.log| >= 3
    ensures s.log[2] == Relayed(0, e.kind, RelayChain(cfg, e.msg), true, a.index, a.currentSize, e.timeLock)
  {
    labels := [Arrive(e), Pop(0, a)];
    var one := Next(cfg, START, Arrive(e)).value;
    assert labels[..1] == [Arrive(e)] && labels[..1][..0] == [];
    assert Exec(cfg, START, labels[..1]) == Some(one);
    HandleRaisesIff(cfg, e, a);
    StatusDecidesRelay(cfg, e, a);
    var step := Handle(cfg, e, a).value;
    assert step.acts[1] == Relayed(0, e.kind, RelayChain(cfg, e.msg), true, a.index, a.currentSize, e.timeLock);
    s := AfterStep(one, 0, step);
  }
}
