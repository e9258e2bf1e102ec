/** The periodic round feed (rbclib/periodic/vsp_feed.py): an endless chain of clones that polls BIFROST's round and
    votes for each new relayer set. */
module VspFeeds {
  import opened Common
  import opened Positional
  import opened RelayerSets
  import opened SocketMessages
  import opened RelayerNode
  import opened Signatures
  import opened RoundMessages

  // ----- where a feed starts -----

  /** 2 ** 256 - 1, from which fetch_bottom_round starts. */
  const NO_ROUND: nat := Pow(256, WORD) - 1

  ghost predicate IsBottom(chains: seq<nat>, latest: nat -> nat, bottom: nat) {
    && (forall c <- chains :: bottom <= latest(c))
    && bottom <= NO_ROUND
    && (bottom == NO_ROUND || exists c <- chains :: latest(c) == bottom)
  }

  /** fetch_bottom_round; `latest` is what each chain answers. */
  method FetchBottomRound(chains: seq<nat>, latest: nat -> nat) returns (bottom: nat)
    ensures IsBottom(chains, latest, bottom)
  {
    bottom := NO_ROUND;
    for i := 0 to |chains|
      invariant IsBottom(chains[..i], latest, bottom)
    {
      assert chains[..i + 1] == chains[..i] + [chains[i]];
      var round := latest(chains[i]);
      if bottom > round { bottom := round; }
    }
    assert chains[..|chains|] == chains;
  }

  /** A uint256 answer from every chain and at least one chain make the bottom the least answer. */
  lemma BottomIsMinimum(chains: seq<nat>, latest: nat -> nat, bottom: nat)
    requires chains != [] && forall c <- chains :: latest(c) <= NO_ROUND
    ensures IsBottom(chains, latest, bottom)
       <==> (forall c <- chains :: bottom <= latest(c)) && exists c <- chains :: latest(c) == bottom
  {
    if IsBottom(chains, latest, bottom) && bottom == NO_ROUND {
      assert chains[0] in chains;
      assert latest(chains[0]) == bottom;
    }
  }

  // ----- one poll -----

  /** What one poll reads: BIFROST's latest round and its current relayer list. */
  datatype Poll = Poll(round: nat, relayers: seq<string>)

  /** A vote on a round: the round, the sorted list and one signature over both. */
  datatype RoundVote = RoundVote(round: nat, relayers: seq<string>, sig: Signature)

  function Max(x: nat, y: nat): nat { if x < y then y else x }

  /** Only a relayer of the preceding round votes. */
  predicate Votes(cfg: Config, current: nat, p: Poll) {
    current < p.round && MyIndex(cfg, p.round - 1).Some?
  }

  function VoteOn(c: Crypto, key: nat, p: Poll): Result<RoundVote> {
    var msg :- VoterMessage(p.round, p.relayers);
    Ok(RoundVote(p.round, SortedRelayers(p.relayers), c.sign(key, msg)))
  }

  /** A list as the contract answers it, in any order and letter case, is that of these ascending addresses. */
  ghost predicate ListsAs(raw: seq<string>, listed: seq<nat>, ns: seq<nat>) {
    && |raw| == |listed| && (forall i :: 0 <= i < |raw| ==> Spells(raw[i], listed[i]))
    && multiset(listed) == multiset(ns) && AllAddresses(ns) && NumericallyAscending(ns)
  }

  /** The vote is on the poll's round; it carries the ascending list, whatever the order and case of the answer, and
      signs exactly that list with the round. */
  ghost predicate StandsFor(c: Crypto, key: nat, p: Poll, v: RoundVote) {
    && v.round == p.round
    && forall listed, ns :: ListsAs(p.relayers, listed, ns) ==>
         v.relayers == Texts(ns) && v.sig == c.sign(key, EncodeRoundUp(p.round, ns))
  }

  lemma VoteStands(c: Crypto, key: nat, p: Poll, v: RoundVote)
    requires VoteOn(c, key, p) == Ok(v)
    ensures StandsFor(c, key, p, v)
  {
    forall listed, ns | ListsAs(p.relayers, listed, ns)
      ensures v.relayers == Texts(ns) && v.sig == c.sign(key, EncodeRoundUp(p.round, ns))
    {
      SpelledLists(p.relayers, listed);
      RoundMessageIsCanonical(p.round, p.relayers, listed, ns, ns);
      TextsSortNumerically(listed, ns);
    }
  }

  /** A member votes on every list of addresses. */
  lemma ListsAreVoted(c: Crypto, key: nat, p: Poll, listed: seq<nat>, ns: seq<nat>)
    requires ListsAs(p.relayers, listed, ns)
    ensures VoteOn(c, key, p).Ok?
  {
    SpelledLists(p.relayers, listed);
    RoundMessageIsCanonical(p.round, p.relayers, listed, ns, ns);
  }

  /** The vote of a relayer of the preceding round, and none of another. */
  function VoteOfMember(cfg: Config, c: Crypto, key: nat, p: Poll): Result<Option<RoundVote>> {
    if RelayerIndex(cfg.history(p.round - 1), cfg.me).None? then Ok(None)
    else
      var vote :- VoteOn(c, key, p);
      Ok(Some(vote))
  }

  /** A period of 0 stands for the configured one. */
  function Period(checkPeriodSec: nat, periodSec: nat): nat {
    if periodSec == 0 then checkPeriodSec else periodSec
  }

  class VspFeed {
    const checkPeriodSec: nat   // validator_set_check_period_sec
    const periodSec: nat
    const timeLock: int
    var currentRound: nat

    constructor (checkPeriodSec: nat, periodSec: nat, timeLock: int, round: nat)
      ensures this.checkPeriodSec == checkPeriodSec && this.periodSec == Period(checkPeriodSec, periodSec)
      ensures this.timeLock == timeLock && currentRound == round
    {
      this.checkPeriodSec, this.periodSec := checkPeriodSec, if periodSec == 0 then checkPeriodSec else periodSec;
      this.timeLock, currentRound := timeLock, round;
    }

    /** A period of 0 is left only where the configured one is 0 too. */
    predicate Periodic() { periodSec == 0 ==> checkPeriodSec == 0 }

    /** __init__ without a round. BIFROST is removed from a list that nobody else reads, which only raises when it is
        not there; every supported chain is polled, BIFROST too. */
    static method Begin(cfg: Config, checkPeriodSec: nat, periodSec: nat, timeLock: int, latest: nat -> nat)
      returns (r: Result<VspFeed>)
      ensures r.Ok? <==> cfg.bifrost in cfg.supported
      ensures r.Raised? ==> r.reason == ValueError
      ensures r.Ok? ==> fresh(r.value) && IsBottom(cfg.supported, latest, r.value.currentRound)
      ensures r.Ok? ==> r.value.currentRound <= latest(cfg.bifrost)
      ensures r.Ok? ==> r.value.periodSec == Period(checkPeriodSec, periodSec) && r.value.timeLock == timeLock
      ensures r.Ok? ==> r.value.Periodic()
    {
      if cfg.bifrost !in cfg.supported { return Raised(ValueError); }
      var bottom := FetchBottomRound(cfg.supported, latest);
      var feed := new VspFeed(checkPeriodSec, periodSec, timeLock, bottom);
      r := Ok(feed);
    }

    /** build_transaction_params: the round is taken over, the cache fed, and a member of the preceding round votes. */
    method BuildTransactionParams(node: Relayer, c: Crypto, key: nat, p: Poll) returns (r: Result<Option<RoundVote>>)
      requires Agrees(node.cfg, node.cache)
      modifies this`currentRound, node`cache
      ensures currentRound == Max(old(currentRound), p.round)
      ensures Agrees(node.cfg, node.cache)
      ensures if old(currentRound) < p.round then node.Writes(old(node.cache), Feed(p.round))
              else node.cache == old(node.cache)
      ensures !Votes(node.cfg, old(currentRound), p) ==> r == Ok(None)
      ensures Votes(node.cfg, old(currentRound), p) ==>
        r == match VoteOn(c, key, p) case Raised(x) => Raised(x) case Ok(v) => Ok(Some(v))
      ensures r.Ok? && r.value.Some? ==> StandsFor(c, key, p, r.value.value)
    {
      if currentRound >= p.round { return Ok(None); }
      currentRound := p.round;
      var index := node.FeedRound(p.round);
      r := VoteOfMember(node.cfg, c, key, p);
      if r.Ok? && r.value.Some? { VoteStands(c, key, p, r.value.value); }
    }

    /** clone_next. */
    method CloneNext() returns (next: VspFeed)
      requires Periodic()
      ensures fresh(next) && next.currentRound == currentRound && next.Periodic()
      ensures next.periodSec == periodSec && next.timeLock == timeLock + periodSec * 1000
    {
      next := new VspFeed(checkPeriodSec, periodSec, timeLock + periodSec * 1000, currentRound);
    }
  }

  // ----- the chain of clones -----

  /** current_round after some polls. */
  function Current(start: nat, polls: seq<Poll>): nat {
    if polls == [] then start else Max(Current(start, polls[..|polls| - 1]), polls[|polls| - 1].round)
  }

  /** The votes of a chain of clones that starts at a round; it ends where a vote cannot be encoded. */
  function VotesOf(cfg: Config, c: Crypto, key: nat, start: nat, polls: seq<Poll>): Result<seq<RoundVote>> {
    if polls == [] then Ok([])
    else
      var n := |polls| - 1;
      var before :- VotesOf(cfg, c, key, start, polls[..n]);
      if !Votes(cfg, Current(start, polls[..n]), polls[n]) then Ok(before)
      else
        var v :- VoteOn(c, key, polls[n]);
        Ok(before + [v])
  }

  /** The feed as it runs: each poll is handled by one object, whose clone handles the next. */
  method RunFeed(first: VspFeed, node: Relayer, c: Crypto, key: nat, polls: seq<Poll>)
    returns (r: Result<seq<RoundVote>>, last: VspFeed)
    requires Agrees(node.cfg, node.cache) && first.Periodic()
    modifies first`currentRound, node`cache
    ensures r.Ok? <==> VotesOf(node.cfg, c, key, old(first.currentRound), polls).Ok?
    ensures r.Ok? ==> r == VotesOf(node.cfg, c, key, old(first.currentRound), polls)
    ensures r.Ok? ==> forall v <- r.value :: StandsForSome(c, key, polls, v)
    ensures r.Ok? ==> last.currentRound == Current(old(first.currentRound), polls)
    ensures r.Ok? ==> last.periodSec == first.periodSec
    ensures r.Ok? ==> last.timeLock == LockAfter(first.timeLock, first.periodSec, |polls|)
    ensures Agrees(node.cfg, node.cache)
  {
    last := first;
    ghost var start := first.currentRound;
    var votes: seq<RoundVote> := [];
    for i := 0 to |polls|
      invariant (last == first || fresh(last)) && last.Periodic() && last.periodSec == first.periodSec
      invariant last.timeLock == LockAfter(first.timeLock, first.periodSec, i)
      invariant last.currentRound == Current(start, polls[..i]) && Agrees(node.cfg, node.cache)
      invariant VotesOf(node.cfg, c, key, start, polls[..i]) == Ok(votes)
    {
      var more, next := PollOnce(last, node, c, key, polls, i, start, votes);
      if more.Raised? { return Raised(more.reason), last; }
      LockAdvances(first.timeLock, first.periodSec, i);
      votes, last := more.value, next;
    }
    assert polls[..|polls|] == polls;
    FeedVotesStand(node.cfg, c, key, start, polls);
    r := Ok(votes);
  }

  ghost predicate StandsForSome(c: Crypto, key: nat, polls: seq<Poll>, v: RoundVote) {
    exists p <- polls :: StandsFor(c, key, p, v)
  }

  lemma StandsStill(c: Crypto, key: nat, polls: seq<Poll>, more: seq<Poll>, v: RoundVote)
    requires StandsForSome(c, key, polls, v) && forall p <- polls :: p in more
    ensures StandsForSome(c, key, more, v)
  {
  }

  /** Every vote of a feed stands for one of its polls. */
  lemma {:induction false} FeedVotesStand(cfg: Config, c: Crypto, key: nat, start: nat, polls: seq<Poll>)
    requires VotesOf(cfg, c, key, start, polls).Ok?
    ensures forall v <- VotesOf(cfg, c, key, start, polls).value :: StandsForSome(c, key, polls, v)
  {
    if polls != [] {
      var n := |polls| - 1;
      FeedVotesStand(cfg, c, key, start, polls[..n]);
      forall v | v in VotesOf(cfg, c, key, start, polls).value ensures StandsForSome(c, key, polls, v) {
        if v in VotesOf(cfg, c, key, start, polls[..n]).value {
          StandsStill(c, key, polls[..n], polls, v);
        } else {
          assert polls[n] in polls;
          VoteStands(c, key, polls[n], v);
        }
      }
    }
  }

  // ----- from the feeds to the round relay -----

  /** A member's feed: its configuration and key, where it starts, and what it polls. */
  datatype MemberFeed = MemberFeed(cfg: Config, key: nat, start: nat, polls: seq<Poll>)

  /** Each poll of the round that the feed makes lists the same set, in some order and letter case. */
  ghost predicate PollsList(f: MemberFeed, round: nat, ns: seq<nat>) {
    forall p <- f.polls :: p.round == round ==> exists listed :: ListsAs(p.relayers, listed, ns)
  }

  /** One of the feed's votes is on the round and bears this signature. */
  ghost predicate FeedSigned(c: Crypto, f: MemberFeed, round: nat, x: Signature) {
    && VotesOf(f.cfg, c, f.key, f.start, f.polls).Ok?
    && exists v <- VotesOf(f.cfg, c, f.key, f.start, f.polls).value :: v.round == round && v.sig == x
  }

  lemma FeedSigns(c: Crypto, f: MemberFeed, round: nat, ns: seq<nat>, x: Signature)
    requires FeedSigned(c, f, round, x) && PollsList(f, round, ns)
    ensures x == c.sign(f.key, EncodeRoundUp(round, ns))
  {
    var v :| v in VotesOf(f.cfg, c, f.key, f.start, f.polls).value && v.round == round && v.sig == x;
    FeedVotesStand(f.cfg, c, f.key, f.start, f.polls);
    assert StandsForSome(c, f.key, f.polls, v);
    var p :| p in f.polls && StandsFor(c, f.key, p, v);
    var listed :| ListsAs(p.relayers, listed, ns);
  }

  /** What one feed signs on a round recovers its relayer over the message that the relaying node rebuilds from the
      event's list. */
  lemma FeedVoteIsRecovered(c: Crypto, f: MemberFeed, round: nat, emitted: seq<nat>, ns: seq<nat>, x: Signature)
    requires Lawful(c) && FeedSigned(c, f, round, x) && PollsList(f, round, ns)
    requires multiset(emitted) == multiset(ns) && AllAddresses(ns) && NumericallyAscending(ns)
    ensures RebuiltMessage(round, emitted) == Ok(EncodeRoundUp(round, ns))
    ensures c.recover(x, RebuiltMessage(round, emitted).value) == c.address(f.key)
  {
    FeedSigns(c, f, round, ns, x);
    TextsSortNumerically(emitted, ns);
    EncodeOwnTexts(round, ns);
  }

  /** The votes that the feeds of any members cast on a round, collected in any order, are sorted by the relaying node
      over the message that it rebuilds into the list of exactly their relayers, each once, ascending. */
  lemma FeedVotesReachTheRelay(c: Crypto, round: nat, emitted: seq<nat>, ns: seq<nat>, feeds: seq<MemberFeed>,
                               keys: seq<nat>, ss: seq<Signature>)
    requires Lawful(c) && multiset(emitted) == multiset(ns) && AllAddresses(ns) && NumericallyAscending(ns)
    requires |feeds| == |keys| == |ss|
    requires forall i :: 0 <= i < |ss| ==>
      FeedSigned(c, feeds[i], round, ss[i]) && PollsList(feeds[i], round, ns) && keys[i] == feeds[i].key
    ensures RebuiltMessage(round, emitted).Ok? && NamesVoters(c, RebuiltMessage(round, emitted).value, keys, ss)
  {
    TextsSortNumerically(emitted, ns);
    EncodeOwnTexts(round, ns);
    var msg := EncodeRoundUp(round, ns);
    forall i | 0 <= i < |ss| ensures ss[i] == c.sign(keys[i], msg) { FeedSigns(c, feeds[i], round, ns, ss[i]); }
    NoVoterIsLost(c, msg, keys, ss);
  }

  /** The time lock after so many clones. */
  function LockAfter(timeLock: int, periodSec: nat, n: nat): int { timeLock + n * (periodSec * 1000) }

  lemma LockAdvances(timeLock: int, periodSec: nat, n: nat)
    ensures LockAfter(timeLock, periodSec, n + 1) == LockAfter(timeLock, periodSec, n) + periodSec * 1000
  {
  }

  /** One poll: the object handles it and its clone goes on. */
  method PollOnce(feed: VspFeed, node: Relayer, c: Crypto, key: nat, polls: seq<Poll>, i: nat, ghost start: nat,
                  votes: seq<RoundVote>)
    returns (r: Result<seq<RoundVote>>, next: VspFeed)
    requires Agrees(node.cfg, node.cache) && feed.Periodic() && i < |polls|
    requires feed.currentRound == Current(start, polls[..i])
    requires VotesOf(node.cfg, c, key, start, polls[..i]) == Ok(votes)
    modifies feed`currentRound, node`cache
    ensures Agrees(node.cfg, node.cache)
    ensures r.Raised? ==> VotesOf(node.cfg, c, key, start, polls).Raised?
    ensures r.Ok? ==> VotesOf(node.cfg, c, key, start, polls[..i + 1]) == r
    ensures r.Ok? ==> fresh(next) && next.currentRound == Current(start, polls[..i + 1]) && next.Periodic()
    ensures r.Ok? ==> next.periodSec == feed.periodSec && next.timeLock == feed.timeLock + feed.periodSec * 1000
  {
    assert polls[..i + 1][..i] == polls[..i];
    var v := feed.BuildTransactionParams(node, c, key, polls[i]);
    if v.Raised? {
      RaisedStays(node.cfg, c, key, start, polls, i + 1);
      return Raised(v.reason), feed;
    }
    next := feed.CloneNext();
    r := Ok(if v.value.Some? then votes + [v.value.value] else votes);
  }

  lemma {:induction false} RaisedStays(cfg: Config, c: Crypto, key: nat, start: nat, polls: seq<Poll>, i: nat)
    requires i <= |polls| && VotesOf(cfg, c, key, start, polls[..i]).Raised?
    ensures VotesOf(cfg, c, key, start, polls).Raised?
    decreases |polls|
  {
    if i < |polls| {
      assert polls[..|polls| - 1][..i] == polls[..i];
      RaisedStays(cfg, c, key, start, polls[..|polls| - 1], i);
    } else {
      assert polls[..i] == polls;
    }
  }

  /** current_round never decreases: it is the highest of the start and the polls. */
  lemma {:induction false} CurrentIsHighest(start: nat, polls: seq<Poll>)
    ensures Current(start, polls) >= start && forall p <- polls :: p.round <= Current(start, polls)
    ensures Current(start, polls) == start || exists p <- polls :: p.round == Current(start, polls)
    ensures forall i :: 0 <= i <= |polls| ==> Current(start, polls[..i]) <= Current(start, polls)
  {
    if polls != [] {
      var init, last := polls[..|polls| - 1], polls[|polls| - 1];
      CurrentIsHighest(start, init);
      assert last in polls;
      assert polls[..|polls|] == polls;
      forall i | 0 <= i < |polls| ensures Current(start, polls[..i]) <= Current(start, polls) {
        assert init[..i] == polls[..i];
      }
    }
  }

  /** A round that some poll reports first, above the start and all earlier polls, with the relayer in the set
      before it. */
  ghost predicate FirstReport(cfg: Config, start: nat, polls: seq<Poll>, round: nat) {
    exists i :: 0 <= i < |polls| && FirstReportAt(cfg, start, polls, round, i)
  }

  ghost predicate FirstReportAt(cfg: Config, start: nat, polls: seq<Poll>, round: nat, i: nat)
    requires i < |polls|
  {
    && polls[i].round == round && start < round && MyIndex(cfg, round - 1).Some?
    && forall j :: 0 <= j < i ==> polls[j].round < round
  }

  ghost predicate Signs(votes: seq<RoundVote>, round: nat) {
    exists v <- votes :: v.round == round
  }

  /** The votes are for strictly rising rounds, so none is signed twice, and for exactly the rounds first reported
      while the relayer belonged to the set before them. */
  lemma {:induction false} EachRoundOnce(cfg: Config, c: Crypto, key: nat, start: nat, polls: seq<Poll>)
    requires VotesOf(cfg, c, key, start, polls).Ok?
    ensures var votes := VotesOf(cfg, c, key, start, polls).value;
      && (forall i, j :: 0 <= i < j < |votes| ==> votes[i].round < votes[j].round)
      && (forall v <- votes :: v.round <= Current(start, polls))
      && (forall round :: Signs(votes, round) <==> FirstReport(cfg, start, polls, round))
  {
    if polls != [] {
      var n := |polls| - 1;
      EachRoundOnce(cfg, c, key, start, polls[..n]);
      CurrentIsHighest(start, polls[..n]);
      var votes, before := VotesOf(cfg, c, key, start, polls).value, VotesOf(cfg, c, key, start, polls[..n]).value;
      forall round ensures Signs(votes, round) <==> FirstReport(cfg, start, polls, round) {
        ReportsGrow(cfg, start, polls, round);
        if Votes(cfg, Current(start, polls[..n]), polls[n]) { SignsMore(before, votes[|before|], round); }
      }
    }
  }

  lemma SignsMore(votes: seq<RoundVote>, v: RoundVote, round: nat)
    ensures Signs(votes + [v], round) <==> Signs(votes, round) || v.round == round
  {
    assert v in votes + [v];
    if Signs(votes, round) {
      var u :| u in votes && u.round == round;
      assert u in votes + [v];
    }
  }

  lemma ReportsGrow(cfg: Config, start: nat, polls: seq<Poll>, round: nat)
    requires polls != []
    ensures var n := |polls| - 1;
      FirstReport(cfg, start, polls, round) <==>
        || FirstReport(cfg, start, polls[..n], round)
        || (polls[n].round == round && Votes(cfg, Current(start, polls[..n]), polls[n]))
  {
    var n := |polls| - 1;
    if FirstReport(cfg, start, polls, round) {
      var i :| 0 <= i < |polls| && FirstReportAt(cfg, start, polls, round, i);
      ReportIsOldOrLast(cfg, start, polls, round, i);
    }
    if FirstReport(cfg, start, polls[..n], round) {
      var i :| 0 <= i < n && FirstReportAt(cfg, start, polls[..n], round, i);
      assert FirstReportAt(cfg, start, polls, round, i);
    }
    if polls[n].round == round && Votes(cfg, Current(start, polls[..n]), polls[n]) {
      LastReports(cfg, start, polls);
    }
  }

  lemma ReportIsOldOrLast(cfg: Config, start: nat, polls: seq<Poll>, round: nat, i: nat)
    requires i < |polls| && FirstReportAt(cfg, start, polls, round, i)
    ensures var n := |polls| - 1;
      if i < n then FirstReportAt(cfg, start, polls[..n], round, i)
      else polls[n].round == round && Votes(cfg, Current(start, polls[..n]), polls[n])
  {
    var init := polls[..|polls| - 1];
    CurrentIsHighest(start, init);
    forall p | p in init && i == |init| ensures p.round < round {
      var j :| 0 <= j < |init| && init[j] == p;
      assert polls[j].round < round;
    }
  }

  lemma LastReports(cfg: Config, start: nat, polls: seq<Poll>)
    requires polls != [] && Votes(cfg, Current(start, polls[..|polls| - 1]), polls[|polls| - 1])
    ensures FirstReportAt(cfg, start, polls, polls[|polls| - 1].round, |polls| - 1)
  {
    var n := |polls| - 1;
    CurrentIsHighest(start, polls[..n]);
    forall j | 0 <= j < n ensures polls[j].round < polls[n].round { assert polls[..n][j] in polls[..n]; }
  }
}
