/** Finding the block from which a chain is scanned at startup: bisection on timestamps (rbclib/utils.py) and its use
    (relayer/relayer.py). Timestamps are milliseconds. */
module BlockSearch {
  import opened Common
  import opened RelayerSets
  import opened RelayerNode

  const WINDOW := 30000
  const BOOTSTRAP_OFFSET_ROUNDS := 5

  /** The parameters of one call of binary_search, the chain and the target aside. */
  datatype Call = Call(front: nat, frontTime: int, rear: nat, rearTime: int)

  function Middle(c: Call): nat { (c.front + c.rear) / 2 }

  /** The recursive call for a middle block that is not near: the later half, or the earlier one. */
  function Narrower(time: nat -> int, c: Call, target: int): Call {
    if target > time(Middle(c)) then Call(Middle(c), time(Middle(c)), c.rear, c.rearTime)
    else Call(c.front, c.frontTime, Middle(c), time(Middle(c)))
  }

  /** abs(target - timestamp) < 30000. */
  predicate Near(timestamp: int, target: int) { -WINDOW < target - timestamp < WINDOW }

  /** binary_search; `depth` is how many more calls the interpreter allows. */
  function BinarySearch(time: nat -> int, c: Call, target: int, depth: nat): Result<nat>
    decreases depth
  {
    if depth == 0 then Raised(RecursionLimit)
    else if c.frontTime > c.rearTime || c.front > c.rear then Raised(Refused)
    else if Near(time(Middle(c)), target) then Ok(Middle(c))
    else BinarySearch(time, Narrower(time, c, target), target, depth - 1)
  }

  /** Every call that the bisection makes, the first one first. */
  function CallsOf(time: nat -> int, c: Call, target: int, depth: nat): (calls: seq<Call>)
    ensures depth > 0 ==> calls != [] && calls[0] == c
    decreases depth
  {
    if depth == 0 then []
    else if c.frontTime > c.rearTime || c.front > c.rear || Near(time(Middle(c)), target) then [c]
    else [c] + CallsOf(time, Narrower(time, c, target), target, depth - 1)
  }

  /** A call on a stretch of blocks with their own timestamps. */
  function On(time: nat -> int, front: nat, rear: nat): Call { Call(front, time(front), rear, time(rear)) }

  /** find_height_by_timestamp; a front height below 1 stands for the chain's latest_height. */
  function FindHeight(time: nat -> int, current: nat, latestHeight: nat, isBifrost: bool, target: int,
                      frontHeight: nat, frontTime: int, depth: nat): Result<nat>
  {
    var (front, start) := if frontHeight < 1 then (latestHeight, time(latestHeight)) else (frontHeight, frontTime);
    if start >= target then Ok(front)
    else
      var aim := if isBifrost then target else target - WINDOW;
      BinarySearch(time, Call(front, start, current, time(current)), aim, depth)
  }

  ghost predicate NonDecreasing(time: nat -> int, front: nat, rear: nat) {
    forall i: nat, j: nat :: front <= i <= j <= rear ==> NotLater(time, i, j)
  }

  predicate NotLater(time: nat -> int, i: nat, j: nat) { time(i) <= time(j) }

  /** The heights that the bisection of [front, rear] can probe: the rear itself only when it is also the front. */
  predicate Probed(front: nat, rear: nat, h: nat) { front <= h < rear || h == front == rear }

  ghost predicate Reachable(time: nat -> int, front: nat, rear: nat, target: int) {
    exists h: nat :: Probed(front, rear, h) && Near(time(h), target)
  }

  /** ceil(log2(n)) + 1 probes for n heights. */
  function Probes(n: nat): (p: nat)
    ensures p >= 1
  {
    if n <= 1 then 1 else 1 + Probes((n + 1) / 2)
  }

  function TwoTo(k: nat): nat { if k == 0 then 1 else 2 * TwoTo(k - 1) }

  lemma {:induction false} ProbesIsLogarithmic(n: nat)
    requires n >= 1
    ensures TwoTo(Probes(n) - 1) >= n && (n > 1 ==> TwoTo(Probes(n) - 2) < n)
  {
    if n > 1 { ProbesIsLogarithmic((n + 1) / 2); }
  }

  lemma {:induction false} ProbesMonotone(m: nat, n: nat)
    requires m <= n
    ensures Probes(m) <= Probes(n)
  {
    if m > 1 { ProbesMonotone((m + 1) / 2, (n + 1) / 2); }
  }

  lemma OneStep(time: nat -> int, front: nat, rear: nat, target: int, depth: nat)
    requires front <= rear && NotLater(time, front, rear) && depth > 0
    ensures var medium := (front + rear) / 2;
      BinarySearch(time, On(time, front, rear), target, depth)
        == if Near(time(medium), target) then Ok(medium)
           else if target > time(medium) then BinarySearch(time, On(time, medium, rear), target, depth - 1)
           else BinarySearch(time, On(time, front, medium), target, depth - 1)
  {
  }

  lemma {:induction false} SearchFinds(time: nat -> int, front: nat, rear: nat, target: int, depth: nat, h: nat)
    requires front <= rear && NonDecreasing(time, front, rear)
    requires Probed(front, rear, h) && Near(time(h), target) && depth >= Probes(rear - front)
    ensures var r := BinarySearch(time, On(time, front, rear), target, depth);
      r.Ok? && Probed(front, rear, r.value) && Near(time(r.value), target)
    decreases depth
  {
    var medium := (front + rear) / 2;
    Halves(front, rear, medium);
    OneStep(time, front, rear, target, depth);
    if !Near(time(medium), target) {
      LiesBeyond(time, front, rear, medium, target, h);
      if target > time(medium) {
        SearchFinds(time, medium, rear, target, depth - 1, h);
      } else {
        SearchFinds(time, front, medium, target, depth - 1, h);
      }
    }
  }

  lemma LiesBeyond(time: nat -> int, front: nat, rear: nat, medium: nat, target: int, h: nat)
    requires front <= medium <= rear && front <= h <= rear && NonDecreasing(time, front, rear)
    requires Near(time(h), target) && !Near(time(medium), target)
    ensures if target > time(medium) then medium < h else h < medium
  {
    if h <= medium { assert NotLater(time, h, medium); } else { assert NotLater(time, medium, h); }
  }

  /** Either half of a stretch needs one probe less. */
  lemma Halves(front: nat, rear: nat, medium: nat)
    requires front <= rear && medium == (front + rear) / 2
    ensures front <= medium <= rear && (front < rear ==> medium < rear)
    ensures rear - front > 1 ==> Probes(medium - front) < Probes(rear - front)
    ensures rear - front > 1 ==> Probes(rear - medium) < Probes(rear - front)
  {
    if rear - front > 1 {
      var half := (rear - front + 1) / 2;
      assert medium - front <= half && rear - medium <= half;
      ProbesMonotone(medium - front, half);
      ProbesMonotone(rear - medium, half);
    }
  }

  lemma {:induction false} SearchExhausts(time: nat -> int, front: nat, rear: nat, target: int, depth: nat)
    requires front <= rear && NonDecreasing(time, front, rear) && !Reachable(time, front, rear, target)
    ensures BinarySearch(time, On(time, front, rear), target, depth) == Raised(RecursionLimit)
    decreases depth
  {
    if depth > 0 {
      var medium := (front + rear) / 2;
      OneStep(time, front, rear, target, depth);
      assert Probed(front, rear, medium);
      if target > time(medium) {
        StaysUnreachable(time, front, rear, medium, rear, target);
        SearchExhausts(time, medium, rear, target, depth - 1);
      } else {
        StaysUnreachable(time, front, rear, front, medium, target);
        SearchExhausts(time, front, medium, target, depth - 1);
      }
    }
  }

  lemma StaysUnreachable(time: nat -> int, front: nat, rear: nat, f: nat, r: nat, target: int)
    requires front <= f <= r <= rear && !Reachable(time, front, rear, target)
    requires f == r ==> f < rear || front == rear
    ensures !Reachable(time, f, r, target)
  {
    if Reachable(time, f, r, target) {
      var h :| Probed(f, r, h) && Near(time(h), target);
      assert Probed(front, rear, h);
    }
  }

  /** On timestamps that never go back, with enough depth, the search returns a block within 30 seconds of its target
      exactly when there is one among the heights it can probe; otherwise it recurses until the interpreter stops it. */
  lemma SearchIsExact(time: nat -> int, front: nat, rear: nat, target: int, depth: nat)
    requires front <= rear && NonDecreasing(time, front, rear) && depth >= Probes(rear - front)
    ensures var r := BinarySearch(time, On(time, front, rear), target, depth);
      && (r.Ok? <==> Reachable(time, front, rear, target))
      && (r.Ok? ==> Probed(front, rear, r.value) && Near(time(r.value), target))
      && (r.Raised? ==> r.reason == RecursionLimit)
  {
    if Reachable(time, front, rear, target) {
      var h :| Probed(front, rear, h) && Near(time(h), target);
      SearchFinds(time, front, rear, target, depth, h);
    } else {
      SearchExhausts(time, front, rear, target, depth);
    }
  }

  // ----- the search for the bootstrap instant -----

  /** The instant lies behind the front and not behind the rear: 30 seconds past the search's target. */
  ghost predicate Brackets(time: nat -> int, front: nat, rear: nat, target: int) {
    front <= rear && time(front) < target + WINDOW <= time(rear)
  }

  /** A call whose timestamps are its blocks' own and bracket the instant. */
  ghost predicate Bracketed(time: nat -> int, c: Call, target: int) {
    c == On(time, c.front, c.rear) && Brackets(time, c.front, c.rear, target)
  }

  /** Every call that the bisection makes keeps the instant bracketed, on stretches that only shrink; it returns the
      middle of its last call. */
  lemma {:induction false} EveryCallBrackets(time: nat -> int, c: Call, target: int, depth: nat)
    requires Bracketed(time, c, target)
    ensures var calls := CallsOf(time, c, target, depth);
      && (forall d <- calls :: Bracketed(time, d, target) && c.front <= d.front <= d.rear <= c.rear)
      && (BinarySearch(time, c, target, depth).Ok? ==>
            calls != [] && BinarySearch(time, c, target, depth).value == Middle(calls[|calls| - 1]))
      && (BinarySearch(time, c, target, depth).Raised? ==> |calls| == depth)
    decreases depth
  {
    if depth > 0 && !Near(time(Middle(c)), target) {
      EveryCallBrackets(time, Narrower(time, c, target), target, depth - 1);
    }
  }

  /** Blocks follow each other within less than a minute. */
  ghost predicate ShortGaps(time: nat -> int, front: nat, rear: nat) {
    forall i: nat :: front <= i < rear ==> time(i + 1) - time(i) < 60000
  }

  lemma {:induction false} LastBefore(time: nat -> int, front: nat, rear: nat, instant: int) returns (h: nat)
    requires front <= rear && time(front) < instant <= time(rear)
    ensures front <= h < rear && time(h) < instant <= time(h + 1)
    decreases rear - front
  {
    h := front;
    if time(front + 1) < instant { h := LastBefore(time, front + 1, rear, instant); }
  }

  /** From gaps below a minute, the search on another chain returns a block less than a minute before the instant:
      nothing from the instant on is skipped. */
  lemma ScanStartsBeforeTheInstant(time: nat -> int, current: nat, latestHeight: nat, instant: int, depth: nat)
    requires latestHeight <= current
    requires NonDecreasing(time, latestHeight, current) && ShortGaps(time, latestHeight, current)
    requires time(latestHeight) < instant <= time(current) && depth >= Probes(current - latestHeight)
    ensures var r := FindHeight(time, current, latestHeight, false, instant, 0, 0, depth);
      r.Ok? && latestHeight <= r.value < current && instant - 60000 < time(r.value) < instant
  {
    var h := LastBefore(time, latestHeight, current, instant);
    assert time(h + 1) - time(h) < 60000;
    SearchFinds(time, latestHeight, current, instant - WINDOW, depth, h);
  }

  /** In general it succeeds exactly when some height it can probe lies in the minute before the instant, and never on
      a head below the front. */
  lemma SearchSucceedsIff(time: nat -> int, current: nat, latestHeight: nat, instant: int, depth: nat)
    requires NonDecreasing(time, latestHeight, current) && time(latestHeight) < instant
    requires depth >= if latestHeight <= current then Probes(current - latestHeight) else 1
    ensures FindHeight(time, current, latestHeight, false, instant, 0, 0, depth).Ok?
       <==> exists h: nat :: Probed(latestHeight, current, h) && InMinuteBefore(time, instant, h)
    ensures latestHeight > current ==>
      FindHeight(time, current, latestHeight, false, instant, 0, 0, depth) == Raised(Refused)
  {
    if latestHeight <= current {
      SearchIsExact(time, latestHeight, current, instant - WINDOW, depth);
      if h: nat :| Probed(latestHeight, current, h) && InMinuteBefore(time, instant, h) {
        assert Near(time(h), instant - WINDOW);
      }
      if Reachable(time, latestHeight, current, instant - WINDOW) {
        var h: nat :| Probed(latestHeight, current, h) && Near(time(h), instant - WINDOW);
        assert InMinuteBefore(time, instant, h);
      }
    }
  }

  /** Whatever the timestamps are, a chain whose front is not before the instant is scanned from its front, and another
      from a block between front and head that lies in the minute before the instant. */
  predicate StartsRight(time: nat -> int, current: nat, latestHeight: nat, instant: int, h: nat) {
    if time(latestHeight) >= instant then h == latestHeight
    else latestHeight <= h <= current && instant - 60000 < time(h) < instant
  }

  lemma FoundStartsRight(time: nat -> int, current: nat, latestHeight: nat, instant: int, depth: nat)
    ensures var r := FindHeight(time, current, latestHeight, false, instant, 0, 0, depth);
      r.Ok? ==> StartsRight(time, current, latestHeight, instant, r.value)
    ensures time(latestHeight) >= instant ==>
      FindHeight(time, current, latestHeight, false, instant, 0, 0, depth) == Ok(latestHeight)
  {
    var c := Call(latestHeight, time(latestHeight), current, time(current));
    if BinarySearch(time, c, instant - 30000, depth).Ok? { FoundIsNear(time, c, instant - 30000, depth); }
  }

  lemma {:induction false} FoundIsNear(time: nat -> int, c: Call, target: int, depth: nat)
    requires BinarySearch(time, c, target, depth).Ok?
    ensures var h := BinarySearch(time, c, target, depth).value; c.front <= h <= c.rear && Near(time(h), target)
    decreases depth
  {
    if !Near(time(Middle(c)), target) { FoundIsNear(time, Narrower(time, c, target), target, depth - 1); }
  }

  predicate InMinuteBefore(time: nat -> int, instant: int, h: nat) { instant - 60000 < time(h) < instant }

  /** A gap of exactly one minute defeats it: it probes the front for ever. */
  lemma MinuteGapNeverEnds(depth: nat)
    ensures FindHeight((h: nat) => h * 60000, 1, 0, false, 60000, 0, 0, depth) == Raised(RecursionLimit)
  {
    var time := (h: nat) => h * 60000;
    SearchExhausts(time, 0, 1, WINDOW, depth);
  }

  // ----- determine_latest_heights_for_each_chain -----

  /** A chain manager: the chain as it answers during startup, and the height its event scan starts from. */
  class ChainManager {
    const chain: nat
    const time: nat -> int
    const current: nat
    var latestHeight: nat

    constructor (chain: nat, time: nat -> int, current: nat, latestHeight: nat)
      ensures this.chain == chain && this.time == time && this.current == current && this.latestHeight == latestHeight
    {
      this.chain, this.time, this.current, this.latestHeight := chain, time, current, latestHeight;
    }

    /** Where the scan is to start: BIFROST's start block, and on another chain what the search finds for its
        instant. */
    function ScanStart(cfg: Config, start: nat, instant: int, depth: nat): Result<nat>
      reads this
    {
      if chain == cfg.bifrost then Ok(start) else FindHeight(time, current, latestHeight, false, instant, 0, 0, depth)
    }
  }

  /** Some rounds before BIFROST's current height, but not before block 1. */
  function BootstrapStart(currentHeight: nat, roundLength: nat): (h: nat) {
    var h := currentHeight - roundLength * BOOTSTRAP_OFFSET_ROUNDS;
    if h > 1 then h else 1
  }

  ghost predicate OwnManagers(cfg: Config, managers: map<nat, ChainManager>) {
    && (forall c <- cfg.supported :: c in managers && managers[c].chain == c)
    && cfg.bifrost in managers
  }

  /** `instant` is the timestamp of BIFROST's start block. Heights set before an exception stay set. */
  method DetermineLatestHeights(cfg: Config, managers: map<nat, ChainManager>, currentHeight: nat, roundLength: nat,
                                depth: nat)
    returns (r: Result<()>)
    requires OwnManagers(cfg, managers) && Distinct(cfg.supported)
    modifies set c | c in cfg.supported :: managers[c]
    ensures var start := BootstrapStart(currentHeight, roundLength); var instant := managers[cfg.bifrost].time(start);
      && (r.Ok? <==> forall c <- cfg.supported :: old(managers[c].ScanStart(cfg, start, instant, depth)).Ok?)
      && (r.Ok? ==> forall c <- cfg.supported ::
            old(managers[c].ScanStart(cfg, start, instant, depth)) == Ok(managers[c].latestHeight))
    ensures r.Ok? ==>
      var start := if currentHeight > 5 * roundLength + 1 then currentHeight - 5 * roundLength else 1;
      var instant := managers[cfg.bifrost].time(start);
      forall c <- cfg.supported ::
        if c == cfg.bifrost then managers[c].latestHeight == start
        else StartsRight(managers[c].time, managers[c].current, old(managers[c].latestHeight), instant,
                         managers[c].latestHeight)
  {
    var start := BootstrapStart(currentHeight, roundLength);
    var instant := managers[cfg.bifrost].time(start);
    for i := 0 to |cfg.supported|
      invariant forall j :: 0 <= j < i ==> var c := cfg.supported[j];
        old(managers[c].ScanStart(cfg, start, instant, depth)) == Ok(managers[c].latestHeight)
      invariant forall j :: 0 <= j < i ==> var c := cfg.supported[j];
        if c == cfg.bifrost then managers[c].latestHeight == start
        else StartsRight(managers[c].time, managers[c].current, old(managers[c].latestHeight), instant,
                         managers[c].latestHeight)
      invariant forall j :: i <= j < |cfg.supported| ==>
        managers[cfg.supported[j]].latestHeight == old(managers[cfg.supported[j]].latestHeight)
    {
      var c := cfg.supported[i];
      assert c in cfg.supported;
      var m := managers[c];
      assert forall j :: 0 <= j < |cfg.supported| && j != i ==> managers[cfg.supported[j]] != m by {
        forall j | 0 <= j < |cfg.supported| && j != i ensures managers[cfg.supported[j]] != m {
          assert cfg.supported[j] in cfg.supported && cfg.supported[j] != c;
          assert managers[cfg.supported[j]].chain == cfg.supported[j];
        }
      }
      if c == cfg.bifrost {
        m.latestHeight := start;
      } else {
        var height := FindHeight(m.time, m.current, m.latestHeight, false, instant, 0, 0, depth);
        if height.Raised? { return Raised(height.reason); }
        FoundStartsRight(m.time, m.current, m.latestHeight, instant, depth);
        m.latestHeight := height.value;
      }
    }
    r := Ok(());
  }
}
