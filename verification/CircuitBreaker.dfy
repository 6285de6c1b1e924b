/** CircuitBreaker: consecutive failures in a tumbling window, and a lazy half-open state. */
module CircuitBreaker {

  datatype State = Closed | Open | HalfOpen

  datatype Config = Config(failureThreshold: int, windowMs: int, cooldownMs: int) {
    predicate Sensible() {
      failureThreshold >= 1 && windowMs >= 0
    }
  }

  const DEFAULT_BREAKER_CONFIG := Config(5, 60_000, 60_000)

  /** The mutable fields of a breaker. */
  datatype Breaker = Breaker(state: State, failureCount: int, firstFailureAt: int, openedAt: int)

  const FRESH := Breaker(Closed, 0, 0, 0)

  /** The state getter: open turns half-open when somebody looks after the cooldown. */
  function Observe(cfg: Config, b: Breaker, now: int): Breaker {
    if b.state.Open? && now - b.openedAt >= cfg.cooldownMs then b.(state := HalfOpen) else b
  }

  function OnSuccess(b: Breaker): Breaker {
    if b.state.HalfOpen? then FRESH else b.(failureCount := 0, firstFailureAt := 0)
  }

  function OnFailure(cfg: Config, b: Breaker, now: int): Breaker {
    if b.state.HalfOpen? then Breaker(Open, cfg.failureThreshold, now, now)
    else
      var restarts := b.failureCount == 0 || now - b.firstFailureAt > cfg.windowMs;
      var counted := if restarts then b.(failureCount := 1, firstFailureAt := now)
                     else b.(failureCount := b.failureCount + 1);
      if counted.failureCount >= cfg.failureThreshold then counted.(state := Open, openedAt := now) else counted
  }

  function OnForceOpen(cfg: Config, b: Breaker, now: int): Breaker {
    b.(state := Open, openedAt := now, failureCount := cfg.failureThreshold)
  }

  class CircuitBreaker {
    const cfg: Config
    var state: State
    var failureCount: int
    var firstFailureAt: int
    var openedAt: int

    constructor (cfg: Config)
      ensures this.cfg == cfg && Model() == FRESH
    {
      this.cfg := cfg;
      state, failureCount, firstFailureAt, openedAt := Closed, 0, 0, 0;
    }

    function Model(): Breaker
      reads this
    {
      Breaker(state, failureCount, firstFailureAt, openedAt)
    }

    method GetState(now: int) returns (s: State)
      modifies this
      ensures Model() == Observe(cfg, old(Model()), now) && s == state
    {
      if state.Open? && now - openedAt >= cfg.cooldownMs {
        state := HalfOpen;
      }
      s := state;
    }

    method TryAcquire(now: int) returns (allowed: bool)
      modifies this
      ensures Model() == Observe(cfg, old(Model()), now) && (allowed <==> !state.Open?)
    {
      var s := GetState(now);
      allowed := !s.Open?;
    }

    method RecordSuccess()
      modifies this
      ensures Model() == OnSuccess(old(Model()))
    {
      if state.HalfOpen? {
        Reset();
        return;
      }
      failureCount, firstFailureAt := 0, 0;
    }

    method RecordFailure(now: int)
      modifies this
      ensures Model() == OnFailure(cfg, old(Model()), now)
    {
      if state.HalfOpen? {
        state, openedAt := Open, now;
        failureCount, firstFailureAt := cfg.failureThreshold, now;
        return;
      }
      if failureCount == 0 || now - firstFailureAt > cfg.windowMs {
        failureCount, firstFailureAt := 1, now;
      } else {
        failureCount := failureCount + 1;
      }
      if failureCount >= cfg.failureThreshold {
        state, openedAt := Open, now;
      }
    }

    method Reset()
      modifies this
      ensures Model() == FRESH
    {
      state, failureCount, firstFailureAt, openedAt := Closed, 0, 0, 0;
    }

    method ForceOpen(now: int)
      modifies this
      ensures Model() == OnForceOpen(cfg, old(Model()), now)
    {
      state, openedAt, failureCount := Open, now, cfg.failureThreshold;
    }
  }

  // ---------- Histories ----------

  datatype Event = Failure(at: int) | Success | Query(at: int) | Resetting | ForcedOpen(at: int)

  function Apply(cfg: Config, b: Breaker, e: Event): Breaker {
    match e
    case Failure(at) => OnFailure(cfg, b, at)
    case Success => OnSuccess(b)
    case Query(at) => Observe(cfg, b, at)
    case Resetting => FRESH
    case ForcedOpen(at) => OnForceOpen(cfg, b, at)
  }

  function Run(cfg: Config, b: Breaker, events: seq<Event>): Breaker {
    if events == [] then b else Apply(cfg, Run(cfg, b, events[..|events| - 1]), events[|events| - 1])
  }

  /** Times of the consecutive failures at the end of a history; looking at the state does not interrupt them. */
  function TrailingFailures(events: seq<Event>): seq<int> {
    if events == [] then []
    else
      match events[|events| - 1]
      case Failure(at) => TrailingFailures(events[..|events| - 1]) + [at]
      case Query(_) => TrailingFailures(events[..|events| - 1])
      case _ => []
  }

  /** In the closed state the count is a run of failures just seen, inside one window. */
  predicate CountsARun(cfg: Config, b: Breaker, trailing: seq<int>) {
    b.state.Closed? ==>
      && 0 <= b.failureCount < cfg.failureThreshold && b.failureCount <= |trailing|
      && (b.failureCount > 0 ==>
            && b.firstFailureAt == trailing[|trailing| - b.failureCount]
            && trailing[|trailing| - 1] - b.firstFailureAt <= cfg.windowMs)
  }

  lemma {:induction false} ClosedCountsARun(cfg: Config, events: seq<Event>)
    requires cfg.Sensible()
    ensures CountsARun(cfg, Run(cfg, FRESH, events), TrailingFailures(events))
    decreases |events|
  {
    if events != [] {
      ClosedCountsARun(cfg, events[..|events| - 1]);
    }
  }

  /** A closed breaker opens on a recorded failure only if the last N outcomes were failures within one window. */
  lemma {:induction false} OpensOnlyOnABurst(cfg: Config, events: seq<Event>)
    requires cfg.Sensible() && events != [] && events[|events| - 1].Failure?
    requires Run(cfg, FRESH, events[..|events| - 1]).state.Closed? && Run(cfg, FRESH, events).state.Open?
    ensures var trailing, n := TrailingFailures(events), cfg.failureThreshold;
            |trailing| >= n && trailing[|trailing| - 1] - trailing[|trailing| - n] <= cfg.windowMs
  {
    ClosedCountsARun(cfg, events[..|events| - 1]);
  }

  // ---------- Trials, and what a success forgets ----------

  /** Breakers that no later event can tell apart: while closed, the time of the last opening does not matter. */
  predicate Alike(a: Breaker, b: Breaker) {
    a == b || (a.state.Closed? && b.state.Closed? && a == b.(openedAt := a.openedAt))
  }

  lemma {:induction false} AlikeStays(cfg: Config, a: Breaker, b: Breaker, events: seq<Event>)
    requires Alike(a, b)
    ensures Alike(Run(cfg, a, events), Run(cfg, b, events))
    ensures Run(cfg, a, events).state == Run(cfg, b, events).state
    decreases |events|
  {
    if events != [] {
      AlikeStays(cfg, a, b, events[..|events| - 1]);
    }
  }

  /** Once the cooldown is over, the next call is a trial, and its outcome decides: a success makes the breaker as good
      as new, a failure keeps it open for another cooldown. Before that, a success that comes late decides nothing. */
  lemma {:induction false} TrialDecides(cfg: Config, b: Breaker, asked: int, at: int)
    requires b.state.Open?
    ensures var seen := Observe(cfg, b, asked);
            if asked - b.openedAt >= cfg.cooldownMs then
              && !seen.state.Open? && OnSuccess(seen) == FRESH
              && OnFailure(cfg, seen, at).state.Open?
              && forall now :: Observe(cfg, OnFailure(cfg, seen, at), now).state.Open? <==> now - at < cfg.cooldownMs
            else seen == b && OnSuccess(seen).state.Open? && OnSuccess(seen).openedAt == b.openedAt
  {
  }

  /** A breaker that is forced open, whatever it was, skips calls for one cooldown, and then lets a trial through. */
  lemma {:induction false} ForcedOpenWaits(cfg: Config, b: Breaker, at: int, now: int)
    ensures var seen := Observe(cfg, OnForceOpen(cfg, b, at), now);
            && (seen.state.Open? <==> now - at < cfg.cooldownMs)
            && (seen.state.HalfOpen? <==> now - at >= cfg.cooldownMs)
  {
  }

  /** A success seen while the breaker is closed is as good as a new breaker: whatever comes after it, the states are
      those of a breaker that has seen nothing before. */
  lemma {:induction false} SuccessForgets(cfg: Config, b: Breaker, events: seq<Event>)
    requires !b.state.Open?
    ensures Run(cfg, OnSuccess(b), events).state == Run(cfg, FRESH, events).state
  {
    AlikeStays(cfg, OnSuccess(b), FRESH, events);
  }

  // ---------- How many failures are enough ----------

  predicate FailuresOnly(events: seq<Event>) {
    forall i :: 0 <= i < |events| ==> events[i].Failure? || events[i].Query?
  }

  /** Failures that force a breaker open when they follow each other within one window: N for a window that starts with
      them, and up to N - 2 more that an older window may swallow. */
  function Enough(n: int): int {
    if n <= 2 then n else 2 * n - 2
  }

  predicate Within(events: seq<Event>, from: int, windowMs: int) {
    forall i :: 0 <= i < |events| && events[i].Failure? ==> from <= events[i].at <= from + windowMs
  }

  /** After k failures of a burst: either the old window still counts, or a window of the burst missed at most N - 2. */
  predicate InBurst(cfg: Config, before: int, k: int, from: int, b: Breaker) {
    b.state.Closed? ==>
      && b.failureCount < cfg.failureThreshold
      && (|| (b.failureCount == before + k && (before > 0 || k == 0))
          || (b.failureCount > 0 && b.firstFailureAt >= from
              && k - (if cfg.failureThreshold <= 2 then 0 else cfg.failureThreshold - 2) <= b.failureCount))
  }

  lemma {:induction false} BurstProgress(cfg: Config, b: Breaker, events: seq<Event>, from: int)
    requires cfg.Sensible() && FailuresOnly(events) && Within(events, from, cfg.windowMs)
    requires b.state.Closed? ==> 0 <= b.failureCount < cfg.failureThreshold
    ensures InBurst(cfg, if b.state.Closed? then b.failureCount else 0, |TrailingFailures(events)|, from,
                    Run(cfg, b, events))
    ensures !b.state.Closed? ==> !Run(cfg, b, events).state.Closed?
    ensures events != [] && events[|events| - 1].Failure? && !Run(cfg, b, events).state.Closed? ==>
              Run(cfg, b, events).state.Open?
    decreases |events|
  {
    if events != [] {
      BurstProgress(cfg, b, events[..|events| - 1], from);
    }
  }

  /** Enough failures within one window leave the breaker open, whatever it counted before them. */
  lemma {:induction false} EnoughFailuresOpen(cfg: Config, history: seq<Event>, burst: seq<Event>, from: int)
    requires cfg.Sensible() && FailuresOnly(burst) && Within(burst, from, cfg.windowMs)
    requires burst != [] && burst[|burst| - 1].Failure?
    requires |TrailingFailures(burst)| >= Enough(cfg.failureThreshold)
    ensures Run(cfg, Run(cfg, FRESH, history), burst).state.Open?
  {
    ClosedCountsARun(cfg, history);
    BurstProgress(cfg, Run(cfg, FRESH, history), burst, from);
  }

  function Repeat(e: Event, n: nat): seq<Event> {
    seq(n, _ => e)
  }

  lemma {:induction false} RepeatedFailures(cfg: Config, b: Breaker, at: int, n: nat)
    requires b.state.Closed? && b.failureCount > 0 && at - b.firstFailureAt <= cfg.windowMs
    requires b.failureCount + n < cfg.failureThreshold
    ensures Run(cfg, b, Repeat(Failure(at), n)) == b.(failureCount := b.failureCount + n)
    ensures |TrailingFailures(Repeat(Failure(at), n))| == n
  {
    if n > 0 {
      assert Repeat(Failure(at), n)[..n - 1] == Repeat(Failure(at), n - 1);
      RepeatedFailures(cfg, b, at, n - 1);
    }
  }

  lemma {:induction false} RunConcat(cfg: Config, b: Breaker, first: seq<Event>, second: seq<Event>)
    ensures Run(cfg, b, first + second) == Run(cfg, Run(cfg, b, first), second)
    decreases |second|
  {
    if second == [] {
      assert first + second == first;
    } else {
      assert (first + second)[..|first + second| - 1] == first + second[..|second| - 1];
      RunConcat(cfg, b, first, second[..|second| - 1]);
    }
  }

  lemma {:induction false} OneFailure(cfg: Config, b: Breaker, at: int)
    ensures Run(cfg, b, [Failure(at)]) == OnFailure(cfg, b, at)
  {
    assert [Failure(at)][..0] == [];
  }

  /** A failure that opens a new window, and n - 2 more at once, stay below a threshold of n. */
  lemma {:induction false} NewWindow(cfg: Config, b: Breaker, at: int)
    requires b.state.Closed? && cfg.failureThreshold >= 2 && cfg.windowMs >= 0
    requires b.failureCount == 0 || at - b.firstFailureAt > cfg.windowMs
    ensures var n := cfg.failureThreshold;
            Run(cfg, b, Repeat(Failure(at), n - 1)) == b.(failureCount := n - 1, firstFailureAt := at)
  {
    var n := cfg.failureThreshold;
    assert Repeat(Failure(at), n - 1) == [Failure(at)] + Repeat(Failure(at), n - 2);
    RunConcat(cfg, b, [Failure(at)], Repeat(Failure(at), n - 2));
    OneFailure(cfg, b, at);
    RepeatedFailures(cfg, b.(failureCount := 1, firstFailureAt := at), at, n - 2);
  }

  /** One failure fewer is not enough: after one old failure, 2N - 3 failures within two milliseconds stay below the
      threshold of every window, so the breaker is still closed. */
  lemma {:induction false} OneFewerIsNotEnough(cfg: Config)
    requires cfg.failureThreshold >= 2 && cfg.windowMs >= 1
    ensures var n, w := cfg.failureThreshold, cfg.windowMs;
            var burst := Repeat(Failure(w), n - 2) + Repeat(Failure(w + 1), n - 1);
            && FailuresOnly(burst) && Within(burst, w, w) && |burst| == 2 * n - 3
            && Run(cfg, Run(cfg, FRESH, [Failure(0)]), burst).state.Closed?
  {
    var n, w := cfg.failureThreshold, cfg.windowMs;
    var first, second := Repeat(Failure(w), n - 2), Repeat(Failure(w + 1), n - 1);
    OneFailure(cfg, FRESH, 0);
    var b0 := Breaker(Closed, 1, 0, 0);
    RepeatedFailures(cfg, b0, w, n - 2);
    RunConcat(cfg, b0, first, second);
    NewWindow(cfg, b0.(failureCount := n - 1), w + 1);
  }

  /** While open, calls are skipped exactly until the cooldown is over, however often somebody asks. */
  lemma {:induction false} OpenUntilCooldown(cfg: Config, b: Breaker, queries: seq<Event>, now: int)
    requires b.state.Open?
    requires forall i :: 0 <= i < |queries| ==> queries[i].Query? && queries[i].at - b.openedAt < cfg.cooldownMs
    ensures Run(cfg, b, queries) == b
    ensures Observe(cfg, Run(cfg, b, queries), now).state.Open? <==> now - b.openedAt < cfg.cooldownMs
    decreases |queries|
  {
    if queries != [] {
      OpenUntilCooldown(cfg, b, queries[..|queries| - 1], now);
    }
  }
}
