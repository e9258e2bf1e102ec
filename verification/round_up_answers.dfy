/** Runs over RoundUp events against what the chains answer: every act follows from the answers of the handling that
    records it, and those answers decide what becomes of a clone. */
module RoundUpAnswers {
  import opened Common
  import opened RelayerSets
  import opened RelayerNode
  import opened RoundUps
  import SocketSteps

  // ----- one handling -----

  /** The relayer whose turn it is: a fast one always, another when its cached index is the block number's remainder by
      the size of the preceding set. */
  predicate MyTurn(cfg: Config, e: RoundUp, a: Answers) {
    || cfg.role.Fast?
    || (cfg.history(e.round - 1) != [] && a.index == Some(e.block % |cfg.history(e.round - 1)|))
  }

  /** The event is for a committed set, and the relayer's cache lets it act. */
  predicate MayAct(cfg: Config, e: RoundUp, a: Answers) { e.status == 10 && (cfg.role.Fast? || a.inCache) }

  /** Other events are dropped: one of another status silently, one without a cache entry as ignored. */
  lemma OthersAreDropped(cfg: Config, delaySec: nat, e: RoundUp, a: Answers)
    requires !MayAct(cfg, e, a) && e.status <= 10
    ensures Handle(cfg, delaySec, e, a)
         == Ok(Step([], if e.status == 10 then [Ignored(e.id, e.selected)] else []))
  {
    KnownStatus(e.status);
  }

  lemma KnownStatus(n: nat)
    ensures SocketSteps.StatusOf(n).Ok? <==> n <= 10
    ensures SocketSteps.StatusOf(n) == Ok(SocketSteps.NextAuthorityCommitted) <==> n == 10
  {
  }

  /** The detected event is replaced by a clone for each target chain, as new as it is. */
  lemma LogIsSplit(cfg: Config, delaySec: nat, e: RoundUp, a: Answers)
    requires MayAct(cfg, e, a) && e.selected.None? && Targets(cfg).Ok?
    ensures Handle(cfg, delaySec, e, a).Ok?
    ensures var step, chains := Handle(cfg, delaySec, e, a).value, Targets(cfg).value;
      && step.acts == [FannedOut(e.id, chains)] && |step.next| == |chains|
      && forall i :: 0 <= i < |chains| ==>
           step.next[i] == RoundUp(e.id, e.block, e.status, e.round, Some(chains[i]), e.timeLock, true)
  {
    KnownStatus(e.status);
  }

  /** The round that its chain answers decides a clone: at its own round or beyond it is dropped, behind that whose turn
      it is sends the set, and another waits. */
  lemma RoundDecides(cfg: Config, delaySec: nat, e: RoundUp, a: Answers)
    requires MayAct(cfg, e, a) && e.selected.Some? && Handle(cfg, delaySec, e, a).Ok?
    ensures var step := Handle(cfg, delaySec, e, a).value;
      var chain := e.selected.value;
      var saw := SawRound(e.id, chain, a.seen, a.now);
      if a.seen >= e.round then step == Step([], [saw])
      else if MyTurn(cfg, e, a) || !e.aggregated
      then step == Step([], [saw, Sent(e.id, chain, a.seen, e.round, MyTurn(cfg, e, a), a.index, a.now)])
      else step == Step([e.(timeLock := a.now + a.commitTime + 1000 * delaySec, aggregated := false)], [saw])
  {
    KnownStatus(e.status);
  }

  /** Everything on which a handling raises. */
  lemma HandleRaisesIff(cfg: Config, delaySec: nat, e: RoundUp, a: Answers)
    ensures Handle(cfg, delaySec, e, a).Raised? <==>
      || e.status > 10
      || (MayAct(cfg, e, a) &&
          if e.selected.None? then cfg.bifrost !in cfg.supported
          else a.seen < e.round && !cfg.role.Fast? && cfg.history(e.round - 1) == [])
  {
    KnownStatus(e.status);
    WithoutRemoves(cfg.supported, cfg.bifrost);
  }

  // ----- where the acts of a run come from -----

  /** What an act says of the answers that its handling was given. */
  predicate FromAnswers(act: Act, a: Answers) {
    match act
    case Ignored(_, _) => !a.inCache
    case SawRound(_, _, seen, now) => seen == a.seen && now == a.now
    case Sent(_, _, seen, _, _, index, now) => seen == a.seen && index == a.index && now == a.now
    case _ => true
  }

  lemma StepFromAnswers(cfg: Config, delaySec: nat, e: RoundUp, a: Answers, act: Act)
    requires Handle(cfg, delaySec, e, a).Ok? && act in Acts(e, Handle(cfg, delaySec, e, a).value)
    ensures act.id == e.id && FromAnswers(act, a)
    ensures act.SawRound? ==> e.selected == Some(act.chain)
  {
  }

  /** The k-th move, made in state t, pops an event and records the act at position p. */
  ghost predicate RecordsAct(cfg: Config, delaySec: nat, labels: seq<Label>, s: State, p: nat, k: nat, t: State) {
    && k < |labels| && labels[k].Pop? && p < |s.log| && Exec(cfg, delaySec, START, labels[..k]) == Some(t)
    && Next(cfg, delaySec, t, labels[k]).Some? && t.arrived <= s.arrived
    && var e := t.queue[labels[k].i];
       s.log[p].id == e.id && s.log[p] in Acts(e, Handle(cfg, delaySec, e, labels[k].a).value)
  }

  /** Every act of a run is recorded by one of its moves. */
  lemma {:induction false} ActsAreRecorded(cfg: Config, delaySec: nat, labels: seq<Label>, s: State, p: nat)
    returns (k: nat, t: State)
    requires Exec(cfg, delaySec, START, labels) == Some(s) && p < |s.log|
    ensures RecordsAct(cfg, delaySec, labels, s, p, k, t)
    decreases |labels|
  {
    var n := |labels| - 1;
    var u := Exec(cfg, delaySec, START, labels[..n]).value;
    if p < |u.log| {
      k, t := ActsAreRecorded(cfg, delaySec, labels[..n], u, p);
      assert labels[..n][..k] == labels[..k] && s.log[p] == u.log[p];
    } else {
      k, t := n, u;
      NewActIsRecorded(cfg, delaySec, u, labels[n].i, labels[n].a, s, p);
    }
  }

  lemma NewActIsRecorded(cfg: Config, delaySec: nat, t: State, i: nat, a: Answers, s: State, p: nat)
    requires Next(cfg, delaySec, t, Pop(i, a)) == Some(s) && |t.log| <= p < |s.log|
    ensures t.arrived == s.arrived && s.log[p].id == t.queue[i].id
    ensures s.log[p] in Acts(t.queue[i], Handle(cfg, delaySec, t.queue[i], a).value)
  {
    var acts := Acts(t.queue[i], Handle(cfg, delaySec, t.queue[i], a).value);
    assert s.log[p] == acts[p - |t.log|];
    StepFromAnswers(cfg, delaySec, t.queue[i], a, s.log[p]);
  }

  /** In every run each round seen and each set sent is what the chain answered in one handling of that log. */
  lemma AnswersAreRecorded(cfg: Config, delaySec: nat, labels: seq<Label>, s: State, p: nat)
    requires Exec(cfg, delaySec, START, labels) == Some(s) && p < |s.log|
    ensures exists k :: 0 <= k < |labels| && labels[k].Pop? && FromAnswers(s.log[p], labels[k].a)
  {
    var k, t := ActsAreRecorded(cfg, delaySec, labels, s, p);
    StepFromAnswers(cfg, delaySec, t.queue[labels[k].i], labels[k].a, s.log[p]);
  }

  // ----- only a chain's own answer settles it -----

  /** The k-th move pops the log's clone for the chain and is answered its round or a later one. */
  ghost predicate AnsweredAtRound(cfg: Config, delaySec: nat, labels: seq<Label>, id: nat, round: nat, chain: nat,
                                  k: nat)
  {
    && k < |labels| && labels[k].Pop? && labels[k].a.seen >= round
    && match Exec(cfg, delaySec, START, labels[..k])
       case None => false
       case Some(t) =>
         labels[k].i < |t.queue| && t.queue[labels[k].i].id == id && t.queue[labels[k].i].selected == Some(chain)
  }

  ghost predicate WasSent(log: seq<Act>, id: nat, chain: nat) {
    exists act <- log :: act.Sent? && act.id == id && act.chain == chain
  }

  /** In every run a committed set is, for each target chain, pending, or was sent there, or the chain itself answered
      its round or a later one to the clone for it, or the set was dropped for want of a cache entry. A chain that is
      behind is never taken for one that has the set. */
  lemma ChainsBehindAreServed(cfg: Config, delaySec: nat, labels: seq<Label>, s: State, id: nat, chain: nat)
    requires Exec(cfg, delaySec, START, labels) == Some(s) && id < |s.arrived| && Carried(cfg, s.arrived[id], chain)
    ensures || Pending(s, id, chain) || WasSent(s.log, id, chain) || Dropped(s.log, id, chain)
            || exists k :: AnsweredAtRound(cfg, delaySec, labels, id, s.arrived[id].round, chain, k)
  {
    NoChainIsForgotten(cfg, delaySec, labels);
    var round := s.arrived[id].round;
    if !Pending(s, id, chain) && !Dropped(s.log, id, chain) && !WasSent(s.log, id, chain) {
      var act :| act in s.log && Delivers(act, id, round, chain);
      var p :| 0 <= p < |s.log| && s.log[p] == act;
      var k, t := ActsAreRecorded(cfg, delaySec, labels, s, p);
      StepFromAnswers(cfg, delaySec, t.queue[labels[k].i], labels[k].a, act);
      assert AnsweredAtRound(cfg, delaySec, labels, id, round, chain, k);
    }
  }

  // ----- when an event may be handled -----

  /** How long init holds back a new log: every relayer that is not fast waits, unless the time given is 0. */
  lemma InitHoldsBack(cfg: Config, id: nat, block: nat, status: nat, round: nat, time: int, now: int)
    ensures Init(cfg, id, block, status, round, time, now).Ok? <==> cfg.bifrost in cfg.supported
    ensures Init(cfg, id, block, status, round, time, now).Ok? ==>
      Init(cfg, id, block, status, round, time, now).value.timeLock
        == if cfg.role.Fast? || time == 0 then 0 else now + 1000 * cfg.slowDelaySec
  {
    WithoutRemoves(cfg.supported, cfg.bifrost);
  }

  ghost predicate LocksRise(s: State) {
    forall e <- s.queue :: e.id < |s.arrived| && s.arrived[e.id].timeLock <= e.timeLock
  }

  lemma StepRaisesLock(cfg: Config, delaySec: nat, e: RoundUp, a: Answers, f: RoundUp)
    requires Handle(cfg, delaySec, e, a).Ok? && a.now >= e.timeLock && f in Handle(cfg, delaySec, e, a).value.next
    ensures f.id == e.id && f.timeLock >= e.timeLock
  {
  }

  lemma {:induction false} RunsRaiseLocks(cfg: Config, delaySec: nat, labels: seq<Label>)
    requires Exec(cfg, delaySec, START, labels).Some?
    ensures LocksRise(Exec(cfg, delaySec, START, labels).value)
  {
    if labels != [] {
      var n := |labels| - 1;
      RunsRaiseLocks(cfg, delaySec, labels[..n]);
      var t := Exec(cfg, delaySec, START, labels[..n]).value;
      if labels[n].Pop? { PopRaisesLocks(cfg, delaySec, t, labels[n].i, labels[n].a); }
    }
  }

  lemma PopRaisesLocks(cfg: Config, delaySec: nat, t: State, i: nat, a: Answers)
    requires LocksRise(t) && Next(cfg, delaySec, t, Pop(i, a)).Some?
    ensures LocksRise(Next(cfg, delaySec, t, Pop(i, a)).value)
  {
    var step := Handle(cfg, delaySec, t.queue[i], a).value;
    AfterMembers(t, i, step);
    assert t.queue[i] in t.queue;
    forall f | f in step.next ensures f.id == t.queue[i].id && f.timeLock >= t.queue[i].timeLock {
      StepRaisesLock(cfg, delaySec, t.queue[i], a, f);
    }
  }

  /** The instant of an act that looks at a chain or sends to it. */
  predicate MadeAt(act: Act, now: int) {
    match act
    case SawRound(_, _, _, t) => t == now
    case Sent(_, _, _, _, _, _, t) => t == now
    case _ => false
  }

  /** No run looks at a chain, or sends to it, before the time lock that the log arrived with. */
  lemma NothingIsEarly(cfg: Config, delaySec: nat, labels: seq<Label>, s: State, p: nat, now: int)
    requires Exec(cfg, delaySec, START, labels) == Some(s) && p < |s.log| && MadeAt(s.log[p], now)
    ensures s.log[p].id < |s.arrived| && now >= s.arrived[s.log[p].id].timeLock
  {
    var k, t := ActsAreRecorded(cfg, delaySec, labels, s, p);
    RunsRaiseLocks(cfg, delaySec, labels[..k]);
    assert t.queue[labels[k].i] in t.queue;
    StepFromAnswers(cfg, delaySec, t.queue[labels[k].i], labels[k].a, s.log[p]);
  }

  /** In every run a relayer that is not fast does nothing about a log that it detected while running before its delay
      is over. */
  lemma RelayerWaits(cfg: Config, delaySec: nat, labels: seq<Label>, s: State, p: nat, now: int, time: int, from: int)
    requires Exec(cfg, delaySec, START, labels) == Some(s) && p < |s.log| && MadeAt(s.log[p], now)
    requires s.log[p].id < |s.arrived| && !cfg.role.Fast? && time != 0
    requires var o := s.arrived[s.log[p].id];
      Init(cfg, o.id, o.block, o.status, o.round, time, from) == Ok(o)
    ensures now >= from + 1000 * cfg.slowDelaySec
  {
    var o := s.arrived[s.log[p].id];
    NothingIsEarly(cfg, delaySec, labels, s, p, now);
    InitHoldsBack(cfg, o.id, o.block, o.status, o.round, time, from);
  }

  /** While a log is queued as it was detected, only that delay stands against its pop. */
  lemma DetectedIsDue(cfg: Config, delaySec: nat, s: State, i: nat, id: nat, block: nat, status: nat, round: nat,
                      time: int, from: int, a: Answers)
    requires i < |s.queue| && Init(cfg, id, block, status, round, time, from) == Ok(s.queue[i])
    ensures Next(cfg, delaySec, s, Pop(i, a)).Some? <==>
      && Handle(cfg, delaySec, s.queue[i], a).Ok?
      && a.now >= if cfg.role.Fast? || time == 0 then 0 else from + 1000 * cfg.slowDelaySec
  {
    InitHoldsBack(cfg, id, block, status, round, time, from);
  }

  // ----- whose turn it is sends -----

  /** For every committed set and every target chain that answers an earlier round there is a run in which whose turn it
      is sends the set to that chain: the log is split, then the clone for the chain is handled. */
  lemma WhoseTurnSends(cfg: Config, delaySec: nat, e: RoundUp, chain: nat, a: Answers)
    returns (labels: seq<Label>, s: State)
    requires IsNew(e, 0) && Carried(cfg, e, chain) && MayAct(cfg, e, a) && MyTurn(cfg, e, a)
    requires a.seen < e.round && a.now >= e.timeLock
    ensures Exec(cfg, delaySec, START, labels) == Some(s) && s.arrived == [e]
    ensures s.log != [] && s.log[|s.log| - 1] == Sent(0, chain, a.seen, e.round, true, a.index, a.now)
  {
    LogIsSplit(cfg, delaySec, e, a);
    SplitRun(cfg, delaySec, e, a);
    var t := SplitState(cfg, delaySec, e, a);
    var i := CloneFor(cfg, delaySec, e, chain, a, t);
    s := CloneSends(cfg, delaySec, t, i, chain, a);
    labels := [Arrive(e), Pop(0, a), Pop(i, a)];
    assert labels[..2] == [Arrive(e), Pop(0, a)];
  }

  lemma CloneFor(cfg: Config, delaySec: nat, e: RoundUp, chain: nat, a: Answers, t: State) returns (i: nat)
    requires Carried(cfg, e, chain) && MayAct(cfg, e, a) && e.selected.None?
    requires Handle(cfg, delaySec, e, a).Ok? && t == SplitState(cfg, delaySec, e, a)
    ensures i < |t.queue|
    ensures t.queue[i] == RoundUp(e.id, e.block, e.status, e.round, Some(chain), e.timeLock, true)
  {
    LogIsSplit(cfg, delaySec, e, a);
    i :| 0 <= i < |Targets(cfg).value| && Targets(cfg).value[i] == chain;
  }

  lemma CloneSends(cfg: Config, delaySec: nat, t: State, i: nat, chain: nat, a: Answers) returns (s: State)
    requires i < |t.queue| && t.queue[i].selected == Some(chain) && MayAct(cfg, t.queue[i], a)
    requires MyTurn(cfg, t.queue[i], a) && a.seen < t.queue[i].round && a.now >= t.queue[i].timeLock
    ensures Next(cfg, delaySec, t, Pop(i, a)) == Some(s) && s.arrived == t.arrived && s.log != []
    ensures s.log[|s.log| - 1] == Sent(t.queue[i].id, chain, a.seen, t.queue[i].round, true, a.index, a.now)
  {
    HandleRaisesIff(cfg, delaySec, t.queue[i], a);
    RoundDecides(cfg, delaySec, t.queue[i], a);
    s := AfterStep(t, i, Handle(cfg, delaySec, t.queue[i], a).value);
  }

  lemma SplitRun(cfg: Config, delaySec: nat, e: RoundUp, a: Answers)
    requires IsNew(e, 0) && Handle(cfg, delaySec, e, a).Ok? && a.now >= e.timeLock
    ensures Exec(cfg, delaySec, START, [Arrive(e), Pop(0, a)]) == Some(SplitState(cfg, delaySec, e, a))
  {
    var labels, one := [Arrive(e), Pop(0, a)], State([e], [e], []);
    assert labels[..1] == [Arrive(e)] && labels[..1][..0] == [];
    assert START.arrived + [e] == [e] && START.queue + [e] == [e];
    assert Exec(cfg, delaySec, START, labels[..1]) == Some(one);
    var step := Handle(cfg, delaySec, e, a).value;
    assert [e][..0] + [e][1..] + step.next == step.next;
    assert AfterStep(one, 0, step) == SplitState(cfg, delaySec, e, a);
  }

  /** The state after the log has been split. */
  function SplitState(cfg: Config, delaySec: nat, e: RoundUp, a: Answers): State
    requires Handle(cfg, delaySec, e, a).Ok?
  {
    var step := Handle(cfg, delaySec, e, a).value;
    State([e], step.next, Acts(e, step))
  }
}
