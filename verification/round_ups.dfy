/** RoundUp events (rbclib/events/roundup_event.py): one committed validator set is carried to every supported chain
    but BIFROST. One handling, then whole runs. */
module RoundUps {
  import opened Common
  import opened RelayerSets
  import opened RelayerNode
  import SocketSteps

  /** A queued event. `selected` is the chain a clone is for; the detected event has none. The event never leaves
      the SEND phase. */
  datatype RoundUp = RoundUp(
    id: nat, block: nat, status: nat, round: nat, selected: Option<nat>, timeLock: int, aggregated: bool)

  /** What one handling meets: the clock, the chain's commit time and latest round, and the cache entry of the
      preceding round, which may be absent, None or an index. */
  datatype Answers = Answers(now: int, commitTime: nat, seen: nat, inCache: bool, index: Option<nat>)

  /** list.remove on a copy of the supported chains. */
  function Without(s: seq<nat>, x: nat): Result<seq<nat>> {
    if s == [] then Raised(ValueError)
    else if s[0] == x then Ok(s[1..])
    else
      var rest :- Without(s[1..], x);
      Ok([s[0]] + rest)
  }

  /** updating_chains, computed by the constructor. */
  function Targets(cfg: Config): Result<seq<nat>> { Without(cfg.supported, cfg.bifrost) }

  function Init(cfg: Config, id: nat, block: nat, status: nat, round: nat, timeLock: int, now: int): Result<RoundUp> {
    var _ :- Targets(cfg);
    var lock := if timeLock == 0 || cfg.role.Fast? then 0 else now + cfg.slowDelaySec * 1000;
    Ok(RoundUp(id, block, status, round, None, lock, true))
  }

  datatype Act =
    | Handled(id: nat, selected: Option<nat>)
    | Ignored(id: nat, selected: Option<nat>)                  // no cache entry for the preceding round
    | FannedOut(id: nat, chains: seq<nat>)
    | SawRound(id: nat, chain: nat, seen: nat, now: int)
    | Sent(id: nat, chain: nat, seen: nat, round: nat, primary: bool, index: Option<nat>, now: int)

  datatype Step = Step(next: seq<RoundUp>, acts: seq<Act>)

  /** Everything a handling records. */
  function Acts(e: RoundUp, step: Step): seq<Act> { [Handled(e.id, e.selected)] + step.acts }

  function Clone(e: RoundUp, chain: nat): RoundUp {
    e.(selected := Some(chain), aggregated := true)
  }

  function Clones(e: RoundUp, chains: seq<nat>): (es: seq<RoundUp>)
    ensures |es| == |chains|
  {
    seq(|chains|, i requires 0 <= i < |chains| => Clone(e, chains[i]))
  }

  function Primary(cfg: Config, e: RoundUp, a: Answers): Result<bool> {
    if cfg.role.Fast? then Ok(true)
    else if cfg.history(e.round - 1) == [] then Raised(ZeroDivision)
    else Ok(a.index == Some(e.block % |cfg.history(e.round - 1)|))
  }

  function Later(cfg: Config, e: RoundUp, delaySec: nat, a: Answers): RoundUp {
    e.(timeLock := a.now + a.commitTime + 1000 * delaySec, aggregated := false)
  }

  function HandleFor(cfg: Config, delaySec: nat, e: RoundUp, chain: nat, a: Answers): Result<Step> {
    var saw := SawRound(e.id, chain, a.seen, a.now);
    if a.seen >= e.round then Ok(Step([], [saw]))
    else
      var primary :- Primary(cfg, e, a);
      if primary || !e.aggregated
      then Ok(Step([], [saw, Sent(e.id, chain, a.seen, e.round, primary, a.index, a.now)]))
      else Ok(Step([Later(cfg, e, delaySec, a)], [saw]))
  }

  /** build_transaction_params; whatever becomes of the transaction, nothing is queued after it. */
  function Handle(cfg: Config, delaySec: nat, e: RoundUp, a: Answers): Result<Step> {
    var status :- SocketSteps.StatusOf(e.status);
    if !status.NextAuthorityCommitted? then Ok(Step([], []))
    else if !(cfg.role.Fast? || a.inCache) then Ok(Step([], [Ignored(e.id, e.selected)]))
    else match e.selected
      case None =>
        var chains :- Targets(cfg);
        Ok(Step(Clones(e, chains), [FannedOut(e.id, chains)]))
      case Some(chain) => HandleFor(cfg, delaySec, e, chain, a)
  }

  lemma {:induction false} WithoutRemoves(s: seq<nat>, x: nat)
    ensures Without(s, x).Ok? <==> x in s
    ensures Without(s, x).Ok? ==> multiset(Without(s, x).value) == multiset(s) - multiset{x}
  {
    if s != [] {
      assert s == [s[0]] + s[1..];
      WithoutRemoves(s[1..], x);
    }
  }

  /** With distinct supported chains, the targets are those other than BIFROST, each once. */
  lemma TargetsAreTheOthers(cfg: Config)
    requires Distinct(cfg.supported)
    ensures Targets(cfg).Ok? <==> cfg.bifrost in cfg.supported
    ensures Targets(cfg).Ok? ==>
      Distinct(Targets(cfg).value) && forall c :: c in Targets(cfg).value <==> c in cfg.supported && c != cfg.bifrost
  {
    WithoutRemoves(cfg.supported, cfg.bifrost);
    if Targets(cfg).Ok? {
      var t := Targets(cfg).value;
      forall c ensures c in t <==> c in cfg.supported && c != cfg.bifrost {
        MultiplicityOne(cfg.supported, c);
        MultiplicityOne(cfg.supported, cfg.bifrost);
        assert c in t <==> c in multiset(t);
        assert c in cfg.supported <==> c in multiset(cfg.supported);
      }
      forall i, j | 0 <= i < j < |t| ensures t[i] != t[j] {
        if t[i] == t[j] {
          MultiplicityTwo(t, i, j);
          MultiplicityOne(cfg.supported, t[i]);
        }
      }
    }
  }

  // ----- sums over a queue and a log -----

  function Sum<T>(f: T -> nat, s: seq<T>): nat {
    if s == [] then 0 else f(s[0]) + Sum(f, s[1..])
  }

  lemma {:induction false} SumConcat<T>(f: T -> nat, s: seq<T>, t: seq<T>)
    ensures Sum(f, s + t) == Sum(f, s) + Sum(f, t)
  {
    if s == [] {
      assert s + t == t;
    } else {
      SumConcat(f, s[1..], t);
      assert (s + t)[1..] == s[1..] + t && (s + t)[0] == s[0];
    }
  }

  lemma SumOne<T>(f: T -> nat, x: T)
    ensures Sum(f, [x]) == f(x)
  {
    assert [x][1..] == [];
  }

  lemma SumWithout<T>(f: T -> nat, s: seq<T>, i: nat)
    requires i < |s|
    ensures Sum(f, s) == Sum(f, s[..i] + s[i + 1..]) + f(s[i])
  {
    assert s == s[..i] + ([s[i]] + s[i + 1..]);
    SumConcat(f, s[..i], [s[i]] + s[i + 1..]);
    SumConcat(f, [s[i]], s[i + 1..]);
    SumOne(f, s[i]);
    SumConcat(f, s[..i], s[i + 1..]);
  }

  lemma SumTwo<T>(f: T -> nat, s: seq<T>, i: nat, j: nat)
    requires i < j < |s|
    ensures Sum(f, s) >= f(s[i]) + f(s[j])
  {
    SumWithout(f, s, i);
    var t := s[..i] + s[i + 1..];
    assert t[j - 1] == s[j];
    SumWithout(f, t, j - 1);
  }

  // ----- whole runs -----

  datatype State = State(arrived: seq<RoundUp>, queue: seq<RoundUp>, log: seq<Act>)

  const START := State([], [], [])

  datatype Label = Arrive(e: RoundUp) | Pop(i: nat, a: Answers)

  predicate IsNew(e: RoundUp, id: nat) { e.id == id && e.selected.None? && e.aggregated }

  function AfterStep(s: State, i: nat, step: Step): State
    requires i < |s.queue|
  {
    s.(queue := s.queue[..i] + s.queue[i + 1..] + step.next,
       log := s.log + Acts(s.queue[i], step))
  }

  /** One move; None where it is not enabled or raises, which ends a run. Any due event may be popped. */
  function Next(cfg: Config, delaySec: nat, s: State, l: Label): Option<State> {
    match l
    case Arrive(e) =>
      if IsNew(e, |s.arrived|) then Some(s.(arrived := s.arrived + [e], queue := s.queue + [e])) else None
    case Pop(i, a) =>
      if i < |s.queue| && a.now >= s.queue[i].timeLock && Handle(cfg, delaySec, s.queue[i], a).Ok?
      then Some(AfterStep(s, i, Handle(cfg, delaySec, s.queue[i], a).value)) else None
  }

  function Exec(cfg: Config, delaySec: nat, from: State, labels: seq<Label>): Option<State> {
    if labels == [] then Some(from)
    else match Exec(cfg, delaySec, from, labels[..|labels| - 1])
      case None => None
      case Some(t) => Next(cfg, delaySec, t, labels[|labels| - 1])
  }

  /** A weight on events and acts that no handling increases. */
  ghost predicate NeverGains(cfg: Config, delaySec: nat, f: RoundUp -> nat, g: Act -> nat) {
    forall e, a :: Handle(cfg, delaySec, e, a).Ok? ==> Spent(f, g, e, Handle(cfg, delaySec, e, a).value)
  }

  ghost predicate Spent(f: RoundUp -> nat, g: Act -> nat, e: RoundUp, step: Step) {
    Sum(f, step.next) + Sum(g, Acts(e, step)) <= f(e)
  }

  /** In every run the weight queued and logged is at most the weight that arrived. */
  lemma {:induction false} WeightIsConserved(cfg: Config, delaySec: nat, labels: seq<Label>, f: RoundUp -> nat,
                                             g: Act -> nat)
    requires NeverGains(cfg, delaySec, f, g) && Exec(cfg, delaySec, START, labels).Some?
    ensures var s := Exec(cfg, delaySec, START, labels).value; Sum(f, s.queue) + Sum(g, s.log) <= Sum(f, s.arrived)
  {
    if labels != [] {
      var n := |labels| - 1;
      WeightIsConserved(cfg, delaySec, labels[..n], f, g);
      var s := Exec(cfg, delaySec, START, labels[..n]).value;
      match labels[n]
      case Arrive(e) =>
        SumConcat(f, s.queue, [e]);
        SumConcat(f, s.arrived, [e]);
      case Pop(i, a) =>
        assert Spent(f, g, s.queue[i], Handle(cfg, delaySec, s.queue[i], a).value);
        StepWeight(s, i, Handle(cfg, delaySec, s.queue[i], a).value, f, g);
    }
  }

  lemma StepWeight(s: State, i: nat, step: Step, f: RoundUp -> nat, g: Act -> nat)
    requires i < |s.queue| && Spent(f, g, s.queue[i], step)
    ensures var t := AfterStep(s, i, step); Sum(f, t.queue) + Sum(g, t.log) <= Sum(f, s.queue) + Sum(g, s.log)
  {
    SumWithout(f, s.queue, i);
    SumConcat(f, s.queue[..i] + s.queue[i + 1..], step.next);
    SumConcat(g, s.log, Acts(s.queue[i], step));
  }

  // ----- three weights -----

  /** How many handlings of an event and its clones may still come. */
  function Lives(cfg: Config, e: RoundUp): nat {
    match e.selected
    case None => 1 + 2 * if Targets(cfg).Ok? then |Targets(cfg).value| else 0
    case Some(_) => if e.aggregated then 2 else 1
  }

  function Life(cfg: Config, id: nat): RoundUp -> nat { (e: RoundUp) => if e.id == id then Lives(cfg, e) else 0 }

  function Handlings(id: nat): Act -> nat { (act: Act) => if act.Handled? && act.id == id then 1 else 0 }

  /** How many relays of a log to a chain may still come. */
  function Tokens(cfg: Config, id: nat, chain: nat): RoundUp -> nat {
    (e: RoundUp) =>
      if e.id != id then 0
      else match e.selected
        case None => if Targets(cfg).Ok? && chain in Targets(cfg).value then 1 else 0
        case Some(c) => if c == chain then 1 else 0
  }

  function Relays(id: nat, chain: nat): Act -> nat {
    (act: Act) => if act.Sent? && act.id == id && act.chain == chain then 1 else 0
  }

  function Roots(id: nat): RoundUp -> nat { (e: RoundUp) => if e.id == id && e.selected.None? then 1 else 0 }

  function FanOuts(id: nat): Act -> nat { (act: Act) => if act.FannedOut? && act.id == id then 1 else 0 }

  lemma SumCons<T>(f: T -> nat, x: T, s: seq<T>)
    ensures Sum(f, [x] + s) == f(x) + Sum(f, s)
  {
    assert ([x] + s)[1..] == s;
  }

  /** The acts of one handling are at most two after the handling itself. */
  lemma SumActs(g: Act -> nat, h: Act, acts: seq<Act>)
    requires |acts| <= 2
    ensures Sum(g, [h] + acts) == g(h) + (if |acts| > 0 then g(acts[0]) else 0) + (if |acts| > 1 then g(acts[1]) else 0)
  {
    SumCons(g, h, acts);
    if |acts| == 1 { assert acts == [acts[0]]; SumOne(g, acts[0]); }
    if |acts| == 2 {
      assert acts == [acts[0]] + [acts[1]];
      SumCons(g, acts[0], [acts[1]]);
      SumOne(g, acts[1]);
    }
  }

  lemma FewActs(cfg: Config, delaySec: nat, e: RoundUp, a: Answers)
    requires Handle(cfg, delaySec, e, a).Ok?
    ensures |Handle(cfg, delaySec, e, a).value.acts| <= 2
  {
  }

  lemma {:induction false} LifeOfClones(cfg: Config, id: nat, e: RoundUp, chains: seq<nat>)
    ensures Sum(Life(cfg, id), Clones(e, chains)) == if e.id == id then 2 * |chains| else 0
  {
    if chains != [] {
      LifeOfClones(cfg, id, e, chains[1..]);
      assert Clones(e, chains)[1..] == Clones(e, chains[1..]);
    }
  }

  lemma {:induction false} TokensOfClones(cfg: Config, id: nat, chain: nat, e: RoundUp, chains: seq<nat>)
    requires Distinct(chains)
    ensures Sum(Tokens(cfg, id, chain), Clones(e, chains)) == if e.id == id && chain in chains then 1 else 0
  {
    if chains != [] {
      TokensOfClones(cfg, id, chain, e, chains[1..]);
      assert Clones(e, chains)[1..] == Clones(e, chains[1..]);
      assert chains == [chains[0]] + chains[1..];
    }
  }

  lemma {:induction false} NoRootAmongClones(id: nat, e: RoundUp, chains: seq<nat>)
    ensures Sum(Roots(id), Clones(e, chains)) == 0
  {
    if chains != [] {
      NoRootAmongClones(id, e, chains[1..]);
      assert Clones(e, chains)[1..] == Clones(e, chains[1..]);
    }
  }

  lemma LifeNeverGains(cfg: Config, delaySec: nat, id: nat)
    ensures NeverGains(cfg, delaySec, Life(cfg, id), Handlings(id))
  {
    forall e, a | Handle(cfg, delaySec, e, a).Ok?
      ensures Spent(Life(cfg, id), Handlings(id), e, Handle(cfg, delaySec, e, a).value)
    {
      var step := Handle(cfg, delaySec, e, a).value;
      FewActs(cfg, delaySec, e, a);
      SumActs(Handlings(id), Handled(e.id, e.selected), step.acts);
      if e.selected.None? && step.next != [] { LifeOfClones(cfg, id, e, Targets(cfg).value); }
      if |step.next| == 1 { assert step.next == [step.next[0]]; SumOne(Life(cfg, id), step.next[0]); }
    }
  }

  lemma TokensNeverGain(cfg: Config, delaySec: nat, id: nat, chain: nat)
    requires Distinct(cfg.supported)
    ensures NeverGains(cfg, delaySec, Tokens(cfg, id, chain), Relays(id, chain))
  {
    forall e, a | Handle(cfg, delaySec, e, a).Ok?
      ensures Spent(Tokens(cfg, id, chain), Relays(id, chain), e, Handle(cfg, delaySec, e, a).value)
    {
      var step := Handle(cfg, delaySec, e, a).value;
      FewActs(cfg, delaySec, e, a);
      SumActs(Relays(id, chain), Handled(e.id, e.selected), step.acts);
      TargetsAreTheOthers(cfg);
      if e.selected.None? && step.next != [] { TokensOfClones(cfg, id, chain, e, Targets(cfg).value); }
      if |step.next| == 1 { assert step.next == [step.next[0]]; SumOne(Tokens(cfg, id, chain), step.next[0]); }
    }
  }

  lemma RootsNeverGain(cfg: Config, delaySec: nat, id: nat)
    ensures NeverGains(cfg, delaySec, Roots(id), FanOuts(id))
  {
    forall e, a | Handle(cfg, delaySec, e, a).Ok?
      ensures Spent(Roots(id), FanOuts(id), e, Handle(cfg, delaySec, e, a).value)
    {
      var step := Handle(cfg, delaySec, e, a).value;
      FewActs(cfg, delaySec, e, a);
      SumActs(FanOuts(id), Handled(e.id, e.selected), step.acts);
      if e.selected.None? && step.next != [] { NoRootAmongClones(id, e, Targets(cfg).value); }
      if |step.next| == 1 { assert step.next == [step.next[0]]; SumOne(Roots(id), step.next[0]); }
    }
  }

  ghost predicate Numbered(arrived: seq<RoundUp>) {
    forall k :: 0 <= k < |arrived| ==> IsNew(arrived[k], k)
  }

  lemma {:induction false} ArrivalsAreNumbered(cfg: Config, delaySec: nat, labels: seq<Label>)
    requires Exec(cfg, delaySec, START, labels).Some?
    ensures Numbered(Exec(cfg, delaySec, START, labels).value.arrived)
  {
    if labels != [] { ArrivalsAreNumbered(cfg, delaySec, labels[..|labels| - 1]); }
  }

  /** What arrived under one number weighs as much as its one event. */
  lemma {:induction false} OwnWeight(arrived: seq<RoundUp>, f: RoundUp -> nat, id: nat, w: nat)
    requires Numbered(arrived) && forall k :: 0 <= k < |arrived| ==> f(arrived[k]) <= if k == id then w else 0
    ensures Sum(f, arrived) <= if id < |arrived| then w else 0
  {
    if arrived != [] {
      var n := |arrived| - 1;
      assert arrived == arrived[..n] + [arrived[n]];
      SumConcat(f, arrived[..n], [arrived[n]]);
      SumOne(f, arrived[n]);
      OwnWeight(arrived[..n], f, id, w);
    }
  }

  // ----- what holds of every run -----

  /** A log and its clones are handled at most 1 + 2n times, n being the number of target chains, whatever the
      chains answer; the handlings still to come are counted in. */
  lemma HandlingsAreBounded(cfg: Config, delaySec: nat, labels: seq<Label>, id: nat)
    requires Exec(cfg, delaySec, START, labels).Some? && Targets(cfg).Ok?
    ensures var s := Exec(cfg, delaySec, START, labels).value;
      Sum(Handlings(id), s.log) + Sum(Life(cfg, id), s.queue) <= 1 + 2 * |Targets(cfg).value|
  {
    LifeNeverGains(cfg, delaySec, id);
    WeightIsConserved(cfg, delaySec, labels, Life(cfg, id), Handlings(id));
    ArrivalsAreNumbered(cfg, delaySec, labels);
    OwnWeight(Exec(cfg, delaySec, START, labels).value.arrived, Life(cfg, id), id, 1 + 2 * |Targets(cfg).value|);
  }

  /** No log is relayed to one chain twice. */
  lemma RelayedOncePerChain(cfg: Config, delaySec: nat, labels: seq<Label>, p: nat, q: nat)
    requires Distinct(cfg.supported) && Exec(cfg, delaySec, START, labels).Some?
    requires p < q < |Exec(cfg, delaySec, START, labels).value.log|
    ensures var log := Exec(cfg, delaySec, START, labels).value.log;
      log[p].Sent? && log[q].Sent? && log[p].id == log[q].id ==> log[p].chain != log[q].chain
  {
    var s := Exec(cfg, delaySec, START, labels).value;
    if s.log[p].Sent? {
      var id, chain := s.log[p].id, s.log[p].chain;
      TokensNeverGain(cfg, delaySec, id, chain);
      WeightIsConserved(cfg, delaySec, labels, Tokens(cfg, id, chain), Relays(id, chain));
      ArrivalsAreNumbered(cfg, delaySec, labels);
      OwnWeight(s.arrived, Tokens(cfg, id, chain), id, 1);
      SumTwo(Relays(id, chain), s.log, p, q);
    }
  }

  /** No log is fanned out twice: its clones never fan out again. */
  lemma FannedOutOnce(cfg: Config, delaySec: nat, labels: seq<Label>, p: nat, q: nat)
    requires Exec(cfg, delaySec, START, labels).Some? && p < q < |Exec(cfg, delaySec, START, labels).value.log|
    ensures var log := Exec(cfg, delaySec, START, labels).value.log;
      log[p].FannedOut? && log[q].FannedOut? ==> log[p].id != log[q].id
  {
    var s := Exec(cfg, delaySec, START, labels).value;
    if s.log[p].FannedOut? {
      var id := s.log[p].id;
      RootsNeverGain(cfg, delaySec, id);
      WeightIsConserved(cfg, delaySec, labels, Roots(id), FanOuts(id));
      ArrivalsAreNumbered(cfg, delaySec, labels);
      OwnWeight(s.arrived, Roots(id), id, 1);
      SumTwo(FanOuts(id), s.log, p, q);
    }
  }

  /** An event keeps its log's number, block, status and round; a clone is for one of the target chains. */
  ghost predicate Derived(cfg: Config, o: RoundUp, e: RoundUp) {
    && e.(selected := None, aggregated := true, timeLock := o.timeLock) == o
    && (e.selected.Some? ==> Targets(cfg).Ok? && e.selected.value in Targets(cfg).value)
  }

  /** A handling found the chain below the round, and no less than the call delay before an instant. */
  ghost predicate Waited(delaySec: nat, log: seq<Act>, id: nat, chain: nat, round: nat, until: int) {
    exists act <- log :: SawBelow(delaySec, act, id, chain, round, until)
  }

  predicate SawBelow(delaySec: nat, act: Act, id: nat, chain: nat, round: nat, until: int) {
    act.SawRound? && act.id == id && act.chain == chain && act.seen < round && act.now + 1000 * delaySec <= until
  }

  ghost predicate EventInv(cfg: Config, delaySec: nat, arrived: seq<RoundUp>, log: seq<Act>, e: RoundUp) {
    && e.id < |arrived| && Derived(cfg, arrived[e.id], e)
    && (!e.aggregated ==> e.selected.Some? && Waited(delaySec, log, e.id, e.selected.value, e.round, e.timeLock))
  }

  /** Why the relay at position p was made. It is for a committed set, to a target chain that the same handling saw at
      an earlier round; by a primary, or after an earlier handling that saw the chain below the round already. */
  ghost predicate SoundSent(cfg: Config, delaySec: nat, arrived: seq<RoundUp>, log: seq<Act>, p: nat)
    requires p < |log| && log[p].Sent? && log[p].id < |arrived|
  {
    var act, o := log[p], arrived[log[p].id];
    && o.status == SocketSteps.Code(SocketSteps.NextAuthorityCommitted) && act.round == o.round
    && Targets(cfg).Ok? && act.chain in Targets(cfg).value
    && p >= 2 && log[p - 2] == Handled(act.id, Some(act.chain))
    && log[p - 1] == SawRound(act.id, act.chain, act.seen, act.now) && act.seen < act.round
    && if act.primary then DecidedPrimary(cfg, o, act)
       else Waited(delaySec, log[..p - 2], act.id, act.chain, act.round, act.now)
  }

  /** A relay made as primary: the cached index met the block number's remainder by the size of the preceding set. */
  predicate DecidedPrimary(cfg: Config, o: RoundUp, act: Act)
    requires act.Sent?
  {
    || cfg.role.Fast?
    || (cfg.history(o.round - 1) != [] && act.index == Some(o.block % |cfg.history(o.round - 1)|))
  }

  /** What any act at position p says is true of its log; a fan-out reaches the target chains as they are listed. */
  ghost predicate SoundAt(cfg: Config, delaySec: nat, arrived: seq<RoundUp>, log: seq<Act>, p: nat)
    requires p < |log|
  {
    && log[p].id < |arrived|
    && (log[p].Sent? ==> SoundSent(cfg, delaySec, arrived, log, p))
    && (log[p].FannedOut? ==> Targets(cfg) == Ok(log[p].chains))
  }

  ghost predicate Sound(cfg: Config, delaySec: nat, s: State) {
    && (forall e <- s.queue :: EventInv(cfg, delaySec, s.arrived, s.log, e))
    && (forall p :: 0 <= p < |s.log| ==> SoundAt(cfg, delaySec, s.arrived, s.log, p))
  }

  lemma WaitedGrows(delaySec: nat, log: seq<Act>, more: seq<Act>, id: nat, chain: nat, round: nat, until: int)
    requires Waited(delaySec, log, id, chain, round, until) || Waited(delaySec, more, id, chain, round, until)
    ensures Waited(delaySec, log + more, id, chain, round, until)
  {
    assert forall act :: act in log || act in more ==> act in log + more;
    var act :| (act in log || act in more) && SawBelow(delaySec, act, id, chain, round, until);
  }

  lemma EventInvGrows(cfg: Config, delaySec: nat, arrived: seq<RoundUp>, log: seq<Act>, more: seq<Act>, e: RoundUp)
    requires EventInv(cfg, delaySec, arrived, log, e)
    ensures EventInv(cfg, delaySec, arrived, log + more, e)
  {
    if !e.aggregated { WaitedGrows(delaySec, log, more, e.id, e.selected.value, e.round, e.timeLock); }
  }

  /** What a handling queues meets the invariant over the longer log. */
  lemma NextIsSound(cfg: Config, delaySec: nat, arrived: seq<RoundUp>, log: seq<Act>, e: RoundUp, a: Answers,
                    f: RoundUp)
    requires EventInv(cfg, delaySec, arrived, log, e) && Handle(cfg, delaySec, e, a).Ok?
    requires f in Handle(cfg, delaySec, e, a).value.next
    ensures EventInv(cfg, delaySec, arrived, log + Acts(e, Handle(cfg, delaySec, e, a).value), f)
  {
    var acts := Acts(e, Handle(cfg, delaySec, e, a).value);
    if !f.aggregated {
      assert acts[1] in acts && SawBelow(delaySec, acts[1], f.id, f.selected.value, f.round, f.timeLock);
      WaitedGrows(delaySec, log, acts, f.id, f.selected.value, f.round, f.timeLock);
    }
  }

  lemma LaterStillWaited(delaySec: nat, log: seq<Act>, id: nat, chain: nat, round: nat, t: int, u: int)
    requires Waited(delaySec, log, id, chain, round, t) && t <= u
    ensures Waited(delaySec, log, id, chain, round, u)
  {
    var act :| act in log && SawBelow(delaySec, act, id, chain, round, t);
    assert SawBelow(delaySec, act, id, chain, round, u);
  }

  /** The shape of a handling that relays. */
  lemma SentIsLast(cfg: Config, delaySec: nat, e: RoundUp, a: Answers, k: nat)
    requires Handle(cfg, delaySec, e, a).Ok? && k < |Acts(e, Handle(cfg, delaySec, e, a).value)|
    requires Acts(e, Handle(cfg, delaySec, e, a).value)[k].Sent?
    ensures var acts := Acts(e, Handle(cfg, delaySec, e, a).value); var act := acts[k];
      && k == 2 && e.selected == Some(act.chain) && e.status == SocketSteps.Code(SocketSteps.NextAuthorityCommitted)
      && act.id == e.id && act.round == e.round && act.now == a.now && act.seen < e.round
      && acts[0] == Handled(e.id, e.selected) && acts[1] == SawRound(e.id, act.chain, act.seen, act.now)
      && if act.primary then DecidedPrimary(cfg, e, act) else !e.aggregated
  {
  }

  lemma NewActsAreSound(cfg: Config, delaySec: nat, arrived: seq<RoundUp>, log: seq<Act>, e: RoundUp, a: Answers,
                        k: nat)
    requires EventInv(cfg, delaySec, arrived, log, e) && Handle(cfg, delaySec, e, a).Ok? && a.now >= e.timeLock
    requires k < |Acts(e, Handle(cfg, delaySec, e, a).value)|
    ensures SoundAt(cfg, delaySec, arrived, log + Acts(e, Handle(cfg, delaySec, e, a).value), |log| + k)
  {
    var acts := Acts(e, Handle(cfg, delaySec, e, a).value);
    var all := log + acts;
    assert all[|log| + k] == acts[k];
    if acts[k].Sent? {
      SentIsLast(cfg, delaySec, e, a, k);
      assert all[..|log|] == log && all[|log|] == acts[0] && all[|log| + 1] == acts[1];
      if !acts[k].primary { LaterStillWaited(delaySec, log, e.id, acts[k].chain, e.round, e.timeLock, a.now); }
    }
  }

  lemma OldActsStaySound(cfg: Config, delaySec: nat, arrived: seq<RoundUp>, more: seq<RoundUp>, log: seq<Act>,
                         acts: seq<Act>, p: nat)
    requires p < |log| && SoundAt(cfg, delaySec, arrived, log, p)
    ensures SoundAt(cfg, delaySec, arrived + more, log + acts, p)
  {
    assert (log + acts)[p] == log[p];
    if log[p].Sent? {
      assert (arrived + more)[log[p].id] == arrived[log[p].id];
      assert p >= 2 && (log + acts)[..p - 2] == log[..p - 2];
    }
  }

  /** In every run, events keep their log's identity, and every relay and fan-out was made for its reason. */
  lemma {:induction false} EveryRunIsSound(cfg: Config, delaySec: nat, labels: seq<Label>)
    requires Exec(cfg, delaySec, START, labels).Some?
    ensures Sound(cfg, delaySec, Exec(cfg, delaySec, START, labels).value)
  {
    if labels != [] {
      var n := |labels| - 1;
      EveryRunIsSound(cfg, delaySec, labels[..n]);
      var s := Exec(cfg, delaySec, START, labels[..n]).value;
      match labels[n]
      case Arrive(e) => ArrivalIsSound(cfg, delaySec, s, e);
      case Pop(i, a) => PopIsSound(cfg, delaySec, s, i, a);
    }
  }

  lemma ArrivalIsSound(cfg: Config, delaySec: nat, s: State, e: RoundUp)
    requires Sound(cfg, delaySec, s) && IsNew(e, |s.arrived|)
    ensures Sound(cfg, delaySec, s.(arrived := s.arrived + [e], queue := s.queue + [e]))
  {
    assert forall id :: 0 <= id < |s.arrived| ==> (s.arrived + [e])[id] == s.arrived[id];
    assert s.log + [] == s.log;
    forall p | 0 <= p < |s.log| ensures SoundAt(cfg, delaySec, s.arrived + [e], s.log, p) {
      OldActsStaySound(cfg, delaySec, s.arrived, [e], s.log, [], p);
    }
  }

  lemma PopIsSound(cfg: Config, delaySec: nat, s: State, i: nat, a: Answers)
    requires Sound(cfg, delaySec, s) && i < |s.queue|
    requires Handle(cfg, delaySec, s.queue[i], a).Ok? && a.now >= s.queue[i].timeLock
    ensures Sound(cfg, delaySec, AfterStep(s, i, Handle(cfg, delaySec, s.queue[i], a).value))
  {
    var e, step := s.queue[i], Handle(cfg, delaySec, s.queue[i], a).value;
    var t := AfterStep(s, i, step);
    AfterMembers(s, i, step);
    assert e in s.queue;
    assert t.log == s.log + Acts(e, step) && s.arrived + [] == s.arrived;
    forall f | f in t.queue ensures EventInv(cfg, delaySec, t.arrived, t.log, f) {
      if f in s.queue {
        EventInvGrows(cfg, delaySec, s.arrived, s.log, Acts(e, step), f);
      } else {
        NextIsSound(cfg, delaySec, s.arrived, s.log, e, a, f);
      }
    }
    forall p | 0 <= p < |t.log| ensures SoundAt(cfg, delaySec, t.arrived, t.log, p) {
      if p < |s.log| {
        OldActsStaySound(cfg, delaySec, s.arrived, [], s.log, Acts(e, step), p);
      } else {
        NewActsAreSound(cfg, delaySec, s.arrived, s.log, e, a, p - |s.log|);
      }
    }
  }

  /** A relay by a relayer that is not primary comes after another handling of the same clone, which saw the chain below
      the round at least the call delay earlier. */
  lemma SecondaryWaits(cfg: Config, delaySec: nat, labels: seq<Label>, s: State, p: nat)
    requires Exec(cfg, delaySec, START, labels) == Some(s) && p < |s.log| && s.log[p].Sent? && !s.log[p].primary
    ensures p >= 2 && s.log[p - 2] == Handled(s.log[p].id, Some(s.log[p].chain))
    ensures Waited(delaySec, s.log[..p - 2], s.log[p].id, s.log[p].chain, s.log[p].round, s.log[p].now)
  {
    EveryRunIsSound(cfg, delaySec, labels);
    assert SoundAt(cfg, delaySec, s.arrived, s.log, p);
  }

  /** A relay made as primary on an index that agrees with the preceding round's list is made by the relayer that is
      elected for the block in that list. */
  lemma PrimarySendIsElected(cfg: Config, delaySec: nat, labels: seq<Label>, s: State, p: nat)
    requires Exec(cfg, delaySec, START, labels) == Some(s) && p < |s.log| && s.log[p].Sent? && s.log[p].primary
    requires !cfg.role.Fast?
    ensures s.log[p].id < |s.arrived|
    ensures var o := s.arrived[s.log[p].id]; var previous := cfg.history(o.round - 1);
      && previous != []
      && (IndexAgrees(cfg, o.round - 1, s.log[p].index) ==> IsPrimary(previous, cfg.me, o.block, |previous|))
  {
    EveryRunIsSound(cfg, delaySec, labels);
    assert SoundAt(cfg, delaySec, s.arrived, s.log, p);
  }

  /** Two relayers never both send one committed set as primary, to whatever chains, in any two runs of theirs. */
  lemma OnePrimarySends(cfg: Config, delaySec: nat, labels: seq<Label>, s: State, p: nat,
                        cfg': Config, delaySec': nat, labels': seq<Label>, s': State, p': nat)
    requires Exec(cfg, delaySec, START, labels) == Some(s) && p < |s.log| && s.log[p].Sent? && s.log[p].id < |s.arrived|
    requires Exec(cfg', delaySec', START, labels') == Some(s') && p' < |s'.log| && s'.log[p'].Sent?
    requires s'.log[p'].id < |s'.arrived| && !cfg.role.Fast? && !cfg'.role.Fast? && Lower(cfg.me) != Lower(cfg'.me)
    requires var o, o' := s.arrived[s.log[p].id], s'.arrived[s'.log[p'].id];
      && o.block == o'.block && o.round == o'.round && cfg.history(o.round - 1) == cfg'.history(o.round - 1)
      && IndexAgrees(cfg, o.round - 1, s.log[p].index) && IndexAgrees(cfg', o.round - 1, s'.log[p'].index)
    ensures !(s.log[p].primary && s'.log[p'].primary)
  {
    var o := s.arrived[s.log[p].id];
    var previous := cfg.history(o.round - 1);
    if s.log[p].primary { PrimarySendIsElected(cfg, delaySec, labels, s, p); }
    if s'.log[p'].primary { PrimarySendIsElected(cfg', delaySec', labels', s', p'); }
    ElectedAlone(previous, cfg.me, cfg'.me, o.block, |previous|);
  }

  lemma AfterMembers(s: State, i: nat, step: Step)
    requires i < |s.queue|
    ensures forall e <- AfterStep(s, i, step).queue :: e in s.queue || e in step.next
    ensures forall e <- s.queue :: e in AfterStep(s, i, step).queue || e == s.queue[i]
    ensures forall e <- step.next :: e in AfterStep(s, i, step).queue
    ensures forall act <- AfterStep(s, i, step).log ::
      act in s.log || act == Handled(s.queue[i].id, s.queue[i].selected) || act in step.acts
    ensures forall act :: act in s.log || act in step.acts ==> act in AfterStep(s, i, step).log
  {
    assert s.queue == s.queue[..i] + [s.queue[i]] + s.queue[i + 1..];
  }

  /** A log still has to be carried to a chain: it is queued itself, or a clone for the chain is. */
  ghost predicate Pending(s: State, id: nat, chain: nat) {
    exists e <- s.queue :: e.id == id && Bound(e, chain)
  }

  predicate Bound(e: RoundUp, chain: nat) { e.selected.None? || e.selected == Some(chain) }

  /** The chain was seen at the round, or was sent it. */
  ghost predicate Delivered(log: seq<Act>, id: nat, round: nat, chain: nat) {
    exists act <- log :: Delivers(act, id, round, chain)
  }

  predicate Delivers(act: Act, id: nat, round: nat, chain: nat) {
    act.id == id && match act
      case Sent(_, c, _, _, _, _, _) => c == chain
      case SawRound(_, c, seen, _) => c == chain && seen >= round
      case _ => false
  }

  /** A handling dropped the log or its clone for the chain because the cache had no entry for the preceding round. */
  ghost predicate Dropped(log: seq<Act>, id: nat, chain: nat) {
    Ignored(id, None) in log || Ignored(id, Some(chain)) in log
  }

  ghost predicate Settled(log: seq<Act>, id: nat, round: nat, chain: nat) {
    Delivered(log, id, round, chain) || Dropped(log, id, chain)
  }

  ghost predicate NoneForgotten(cfg: Config, s: State) {
    forall id, chain :: 0 <= id < |s.arrived| && Carried(cfg, s.arrived[id], chain) ==>
      Pending(s, id, chain) || Settled(s.log, id, s.arrived[id].round, chain)
  }

  predicate Carried(cfg: Config, o: RoundUp, chain: nat) {
    && o.status == SocketSteps.Code(SocketSteps.NextAuthorityCommitted)
    && Targets(cfg).Ok? && chain in Targets(cfg).value
  }

  lemma StepCarriesOn(cfg: Config, delaySec: nat, e: RoundUp, a: Answers, chain: nat)
    requires Carried(cfg, e, chain) && Bound(e, chain) && Handle(cfg, delaySec, e, a).Ok?
    ensures var step := Handle(cfg, delaySec, e, a).value;
      (exists f <- step.next :: f.id == e.id && Bound(f, chain)) || Settled(step.acts, e.id, e.round, chain)
  {
    var step := Handle(cfg, delaySec, e, a).value;
    if e.selected.None? && step.next != [] {
      var chains := Targets(cfg).value;
      var i :| 0 <= i < |chains| && chains[i] == chain;
      assert step.next[i] in step.next;
    } else if step.next != [] {
      assert step.next[0] in step.next;
    } else {
      var last := step.acts[|step.acts| - 1];
      assert last in step.acts && (last.Ignored? || Delivers(last, e.id, e.round, chain));
    }
  }

  /** In every run each committed set is, for each target chain, still pending, delivered, or dropped by a handling that
      found no cache entry: nothing else loses it. */
  lemma {:induction false} NoChainIsForgotten(cfg: Config, delaySec: nat, labels: seq<Label>)
    requires Exec(cfg, delaySec, START, labels).Some?
    ensures NoneForgotten(cfg, Exec(cfg, delaySec, START, labels).value)
  {
    if labels != [] {
      var n := |labels| - 1;
      NoChainIsForgotten(cfg, delaySec, labels[..n]);
      EveryRunIsSound(cfg, delaySec, labels[..n]);
      ArrivalsAreNumbered(cfg, delaySec, labels[..n]);
      var s := Exec(cfg, delaySec, START, labels[..n]).value;
      match labels[n]
      case Arrive(e) => ArrivalForgetsNone(cfg, s, e);
      case Pop(i, a) => PopForgetsNone(cfg, delaySec, s, i, a);
    }
  }

  lemma ArrivalForgetsNone(cfg: Config, s: State, e: RoundUp)
    requires NoneForgotten(cfg, s) && IsNew(e, |s.arrived|)
    ensures NoneForgotten(cfg, s.(arrived := s.arrived + [e], queue := s.queue + [e]))
  {
    var t := s.(arrived := s.arrived + [e], queue := s.queue + [e]);
    assert e in t.queue;
    forall id, chain | 0 <= id < |t.arrived| && Carried(cfg, t.arrived[id], chain)
      ensures Pending(t, id, chain) || Settled(t.log, id, t.arrived[id].round, chain)
    {
      if id < |s.arrived| {
        assert Carried(cfg, s.arrived[id], chain);
        if Pending(s, id, chain) {
          var f :| f in s.queue && f.id == id && Bound(f, chain);
          assert f in t.queue;
        }
      }
    }
  }

  lemma PopForgetsNone(cfg: Config, delaySec: nat, s: State, i: nat, a: Answers)
    requires NoneForgotten(cfg, s) && Sound(cfg, delaySec, s)
    requires i < |s.queue| && Handle(cfg, delaySec, s.queue[i], a).Ok?
    ensures NoneForgotten(cfg, AfterStep(s, i, Handle(cfg, delaySec, s.queue[i], a).value))
  {
    var e, step := s.queue[i], Handle(cfg, delaySec, s.queue[i], a).value;
    var t := AfterStep(s, i, step);
    AfterMembers(s, i, step);
    assert e in s.queue;
    forall id, chain | 0 <= id < |t.arrived| && Carried(cfg, t.arrived[id], chain)
      ensures Pending(t, id, chain) || Settled(t.log, id, t.arrived[id].round, chain)
    {
      if Settled(s.log, id, s.arrived[id].round, chain) {
        SettledStays(s.log, t.log, id, s.arrived[id].round, chain);
      } else {
        var f :| f in s.queue && f.id == id && Bound(f, chain);
        if f == e {
          StepCarriesOn(cfg, delaySec, e, a, chain);
          if Settled(step.acts, id, e.round, chain) { SettledStays(step.acts, t.log, id, e.round, chain); }
        }
      }
    }
  }

  lemma SettledStays(log: seq<Act>, more: seq<Act>, id: nat, round: nat, chain: nat)
    requires Settled(log, id, round, chain) && forall act <- log :: act in more
    ensures Settled(more, id, round, chain)
  {
    if Delivered(log, id, round, chain) {
      var act :| act in log && Delivers(act, id, round, chain);
      assert act in more;
    }
  }

  // ----- a relayer with its cache entry delivers -----

  /** The k-th move of a run handles the log or one of its clones without a cache entry for the preceding round. */
  ghost predicate Misses(cfg: Config, delaySec: nat, labels: seq<Label>, id: nat, k: nat)
    requires k < |labels|
  {
    && labels[k].Pop? && !labels[k].a.inCache
    && match Exec(cfg, delaySec, START, labels[..k])
       case None => false
       case Some(s) => labels[k].i < |s.queue| && s.queue[labels[k].i].id == id
  }

  /** A fast relayer, or one that has its entry whenever it handles the log. */
  ghost predicate Equipped(cfg: Config, delaySec: nat, labels: seq<Label>, id: nat) {
    cfg.role.Fast? || forall k :: 0 <= k < |labels| ==> !Misses(cfg, delaySec, labels, id, k)
  }

  lemma {:induction false} EquippedNeverIgnores(cfg: Config, delaySec: nat, labels: seq<Label>, id: nat)
    requires Exec(cfg, delaySec, START, labels).Some? && Equipped(cfg, delaySec, labels, id)
    ensures forall act <- Exec(cfg, delaySec, START, labels).value.log :: act.Ignored? ==> act.id != id
  {
    if labels != [] {
      var n := |labels| - 1;
      var init := labels[..n];
      forall k | 0 <= k < n ensures !cfg.role.Fast? ==> !Misses(cfg, delaySec, init, id, k) {
        assert init[..k] == labels[..k];
        assert !cfg.role.Fast? ==> !Misses(cfg, delaySec, labels, id, k);
      }
      EquippedNeverIgnores(cfg, delaySec, init, id);
      var s := Exec(cfg, delaySec, START, init).value;
      if labels[n].Pop? {
        assert !cfg.role.Fast? ==> !Misses(cfg, delaySec, labels, id, n);
        AfterMembers(s, labels[n].i, Handle(cfg, delaySec, s.queue[labels[n].i], labels[n].a).value);
      }
    }
  }

  /** Such a relayer, a member or not, loses no committed set: each target chain is pending, or was seen at the round or
      sent it. */
  lemma EquippedRelayerDelivers(cfg: Config, delaySec: nat, labels: seq<Label>, s: State, id: nat, chain: nat)
    requires Exec(cfg, delaySec, START, labels) == Some(s) && Equipped(cfg, delaySec, labels, id)
    requires id < |s.arrived| && Carried(cfg, s.arrived[id], chain)
    ensures Pending(s, id, chain) || Delivered(s.log, id, s.arrived[id].round, chain)
  {
    NoChainIsForgotten(cfg, delaySec, labels);
    EquippedNeverIgnores(cfg, delaySec, labels, id);
  }

  /** Without the entry it does lose it: the log is dropped on its first handling, in the set or not. */
  lemma UncachedRelayerDrops(cfg: Config, delaySec: nat, e: RoundUp, a: Answers) returns (labels: seq<Label>)
    requires IsNew(e, 0) && e.status == SocketSteps.Code(SocketSteps.NextAuthorityCommitted)
    requires !cfg.role.Fast? && !a.inCache && a.now >= e.timeLock
    ensures Exec(cfg, delaySec, START, labels) == Some(State([e], [], [Handled(0, None), Ignored(0, None)]))
  {
    labels := [Arrive(e), Pop(0, a)];
    var one := State([e], [e], []);
    assert labels[..1] == [Arrive(e)] && labels[..1][..0] == [];
    assert START.arrived + [e] == [e] && START.queue + [e] == [e];
    assert Next(cfg, delaySec, START, Arrive(e)) == Some(one);
    assert Exec(cfg, delaySec, START, labels[..1]) == Some(one);
    assert Handle(cfg, delaySec, e, a) == Ok(Step([], [Ignored(0, None)]));
    assert [e][..0] + [e][1..] + [] == [];
    assert [] + ([Handled(0, None)] + [Ignored(0, None)]) == [Handled(0, None), Ignored(0, None)];
  }

  /** So once the queue is empty, every committed set is delivered to every target chain, or was dropped for want of a
      cache entry. */
  lemma EmptyQueueMeansSettled(cfg: Config, delaySec: nat, labels: seq<Label>)
    requires Exec(cfg, delaySec, START, labels).Some?
    ensures var s := Exec(cfg, delaySec, START, labels).value;
      s.queue == [] ==> forall id, chain :: 0 <= id < |s.arrived| && Carried(cfg, s.arrived[id], chain) ==>
        Settled(s.log, id, s.arrived[id].round, chain)
  {
    NoChainIsForgotten(cfg, delaySec, labels);
  }

  /** In every run each due event whose log has a known status and follows a set that is not empty can be handled, where
      BIFROST is supported and whatever the chain answers. */
  lemma DueEventsAreHandled(cfg: Config, delaySec: nat, labels: seq<Label>, s: State, i: nat, a: Answers)
    requires Exec(cfg, delaySec, START, labels) == Some(s) && i < |s.queue| && a.now >= s.queue[i].timeLock
    requires Targets(cfg).Ok?
    ensures s.queue[i].id < |s.arrived|
    ensures var o := s.arrived[s.queue[i].id];
      SocketSteps.StatusOf(o.status).Ok? && (cfg.role.Fast? || cfg.history(o.round - 1) != []) ==>
        Next(cfg, delaySec, s, Pop(i, a)).Some?
  {
    EveryRunIsSound(cfg, delaySec, labels);
    var e := s.queue[i];
    assert e in s.queue && EventInv(cfg, delaySec, s.arrived, s.log, e);
    if SocketSteps.StatusOf(e.status).Ok? && (cfg.role.Fast? || cfg.history(e.round - 1) != []) {
      StepNeverRaises(cfg, delaySec, e, a);
    }
  }

  lemma StepNeverRaises(cfg: Config, delaySec: nat, e: RoundUp, a: Answers)
    requires Targets(cfg).Ok? && SocketSteps.StatusOf(e.status).Ok?
    requires cfg.role.Fast? || cfg.history(e.round - 1) != []
    ensures Handle(cfg, delaySec, e, a).Ok?
  {
  }

  function AllLives(cfg: Config): RoundUp -> nat { (e: RoundUp) => Lives(cfg, e) }

  /** Without further arrivals the queue empties: every move takes at least one from what is still to come. */
  lemma {:induction false} QueueEmpties(cfg: Config, delaySec: nat, s: State, pops: seq<Label>)
    requires forall l <- pops :: l.Pop?
    requires Exec(cfg, delaySec, s, pops).Some?
    ensures |pops| + Sum(AllLives(cfg), Exec(cfg, delaySec, s, pops).value.queue) <= Sum(AllLives(cfg), s.queue)
  {
    if pops != [] {
      var n := |pops| - 1;
      assert pops[n] in pops;
      QueueEmpties(cfg, delaySec, s, pops[..n]);
      var t := Exec(cfg, delaySec, s, pops[..n]).value;
      var i, a := pops[n].i, pops[n].a;
      var step := Handle(cfg, delaySec, t.queue[i], a).value;
      SumWithout(AllLives(cfg), t.queue, i);
      SumConcat(AllLives(cfg), t.queue[..i] + t.queue[i + 1..], step.next);
      StepTakesOne(cfg, delaySec, t.queue[i], a);
    }
  }

  lemma StepTakesOne(cfg: Config, delaySec: nat, e: RoundUp, a: Answers)
    requires Handle(cfg, delaySec, e, a).Ok?
    ensures Sum(AllLives(cfg), Handle(cfg, delaySec, e, a).value.next) < AllLives(cfg)(e)
  {
    var next := Handle(cfg, delaySec, e, a).value.next;
    if e.selected.None? && next != [] { AllLivesOfClones(cfg, e, Targets(cfg).value); }
    if |next| == 1 { assert next == [next[0]]; SumOne(AllLives(cfg), next[0]); }
  }

  lemma {:induction false} AllLivesOfClones(cfg: Config, e: RoundUp, chains: seq<nat>)
    ensures Sum(AllLives(cfg), Clones(e, chains)) == 2 * |chains|
  {
    if chains != [] {
      AllLivesOfClones(cfg, e, chains[1..]);
      assert Clones(e, chains)[1..] == Clones(e, chains[1..]);
    }
  }
}
