/** HookRunner: the handlers of a hook run one after the other, each behind its own circuit breaker. */
module HookRunner {
  import opened Schema
  import CB = CircuitBreaker

  /** What a handler does with its call; TimedOut is the budget timer winning the race. */
  datatype Reply = Done | Reject(message: string) | TimedOut | Threw

  /** The clock readings around one handler, and its reply if it is called at all. */
  datatype Answer = Answer(askedAt: int, reply: Reply, recordedAt: int)

  datatype Status = Ok | Rejected | Timeout | Failed | BreakerOpen

  datatype HookOutcome = HookOutcome(pluginId: string, status: Status)

  datatype HookRunResult = HookRunResult(rejected: bool, rejectReason: Option<string>, outcomes: seq<HookOutcome>)

  /** A registered handler, with the contents of its breaker. */
  datatype Handler = Handler(pluginId: string, cfg: CB.Config, breaker: CB.Breaker)

  // ---------- One handler ----------

  /** Whether the handler is called: its plugin is enabled and its breaker is not open when asked. */
  predicate IsCalled(h: Handler, disabled: set<string>, a: Answer) {
    h.pluginId !in disabled && !CB.Observe(h.cfg, h.breaker, a.askedAt).state.Open?
  }

  function StatusOf(h: Handler, disabled: set<string>, a: Answer): Status {
    if !IsCalled(h, disabled, a) then BreakerOpen
    else
      match a.reply
      case Done => Ok
      case Reject(_) => Rejected
      case TimedOut => Timeout
      case Threw => Failed
  }

  function BreakerAfter(h: Handler, disabled: set<string>, a: Answer): CB.Breaker {
    if h.pluginId in disabled then h.breaker
    else
      var seen := CB.Observe(h.cfg, h.breaker, a.askedAt);
      if seen.state.Open? then seen
      else if a.reply.TimedOut? || a.reply.Threw? then CB.OnFailure(h.cfg, seen, a.recordedAt)
      else CB.OnSuccess(seen)
  }

  // ---------- All handlers of a hook ----------

  datatype Progress = Progress(handlers: seq<Handler>, outcomes: seq<HookOutcome>, rejectReason: Option<string>)

  function Visit(p: Progress, i: nat, disabled: set<string>, a: Answer): Progress
    requires i < |p.handlers|
  {
    if p.rejectReason.Some? then p
    else
      var h := p.handlers[i];
      var status := StatusOf(h, disabled, a);
      Progress(p.handlers[i := h.(breaker := BreakerAfter(h, disabled, a))],
               p.outcomes + [HookOutcome(h.pluginId, status)],
               if status.Rejected? then Some(a.reply.message) else None)
  }

  /** The first n handlers in registration order. */
  function RunTo(handlers: seq<Handler>, disabled: set<string>, answers: seq<Answer>, n: nat): (p: Progress)
    requires n <= |handlers| == |answers|
    ensures |p.handlers| == |handlers|
  {
    if n == 0 then Progress(handlers, [], None)
    else Visit(RunTo(handlers, disabled, answers, n - 1), n - 1, disabled, answers[n - 1])
  }

  function Run(handlers: seq<Handler>, disabled: set<string>, answers: seq<Answer>): Progress
    requires |handlers| == |answers|
  {
    RunTo(handlers, disabled, answers, |handlers|)
  }

  /** What became of each handler: visited ones in order, the others untouched, an early end only at a rejection. */
  ghost predicate VisitedInOrder(handlers: seq<Handler>, disabled: set<string>, answers: seq<Answer>, n: nat,
                                 p: Progress)
    requires n <= |handlers| == |answers|
  {
    var m := |p.outcomes|;
    && m <= n && |p.handlers| == |handlers|
    && (forall k :: 0 <= k < m ==>
          && p.outcomes[k] == HookOutcome(handlers[k].pluginId, StatusOf(handlers[k], disabled, answers[k]))
          && p.handlers[k] == handlers[k].(breaker := BreakerAfter(handlers[k], disabled, answers[k])))
    && (forall k :: m <= k < |handlers| ==> p.handlers[k] == handlers[k])
    && (forall k :: 0 <= k < m - 1 ==> !p.outcomes[k].status.Rejected?)
    && (p.rejectReason.None? ==> m == n && (m > 0 ==> !p.outcomes[m - 1].status.Rejected?))
    && (p.rejectReason.Some? ==>
          && m > 0 && p.outcomes[m - 1].status.Rejected?
          && answers[m - 1].reply == Reject(p.rejectReason.value))
  }

  lemma {:induction false} PrefixIsVisited(handlers: seq<Handler>, disabled: set<string>, answers: seq<Answer>, n: nat)
    requires n <= |handlers| == |answers|
    ensures VisitedInOrder(handlers, disabled, answers, n, RunTo(handlers, disabled, answers, n))
  {
    if n > 0 {
      PrefixIsVisited(handlers, disabled, answers, n - 1);
    }
  }

  /** Handlers are visited in registration order; the outcomes end early exactly at the first rejection. */
  lemma {:induction false} OutcomesFollowHandlers(handlers: seq<Handler>, disabled: set<string>, answers: seq<Answer>)
    requires |handlers| == |answers|
    ensures VisitedInOrder(handlers, disabled, answers, |handlers|, Run(handlers, disabled, answers))
    ensures var p := Run(handlers, disabled, answers);
            && (|p.outcomes| < |handlers| ==> p.rejectReason.Some?)
            && (p.rejectReason.Some? <==> exists o :: o in p.outcomes && o.status.Rejected?)
            && (forall k :: 0 <= k < |p.outcomes| ==>
                  (p.outcomes[k].status.BreakerOpen? <==> !IsCalled(handlers[k], disabled, answers[k])))
  {
    PrefixIsVisited(handlers, disabled, answers, |handlers|);
    var p := Run(handlers, disabled, answers);
    if p.rejectReason.Some? {
      assert p.outcomes[|p.outcomes| - 1] in p.outcomes;
    }
  }

  /** Handler i is reached exactly if none before it rejected. It is called exactly if its plugin is enabled and its
      breaker is not within the cooldown of an opening; then the outcome is its own. */
  lemma {:induction false} HandlerIsCalledIff(handlers: seq<Handler>, disabled: set<string>, answers: seq<Answer>,
                                              i: nat)
    requires i < |handlers| == |answers|
    ensures var p := Run(handlers, disabled, answers);
            var (b, a) := (handlers[i].breaker, answers[i]);
            var called := handlers[i].pluginId !in disabled
                          && !(b.state.Open? && a.askedAt - b.openedAt < handlers[i].cfg.cooldownMs);
            && (i < |p.outcomes| <==> forall k :: 0 <= k < i ==> k < |p.outcomes| && !p.outcomes[k].status.Rejected?)
            && (i < |p.outcomes| ==>
                  && p.outcomes[i].pluginId == handlers[i].pluginId
                  && p.outcomes[i].status == (if !called then BreakerOpen
                                              else match a.reply
                                                   case Done => Ok
                                                   case Reject(_) => Rejected
                                                   case TimedOut => Timeout
                                                   case Threw => Failed))
  {
    OutcomesFollowHandlers(handlers, disabled, answers);
    var p := Run(handlers, disabled, answers);
    if |p.outcomes| <= i {
      assert p.outcomes[|p.outcomes| - 1].status.Rejected?;
    }
  }

  lemma {:induction false} StoppedStaysStopped(handlers: seq<Handler>, disabled: set<string>, answers: seq<Answer>,
                                               m: nat, n: nat)
    requires m <= n <= |handlers| == |answers| && RunTo(handlers, disabled, answers, m).rejectReason.Some?
    ensures RunTo(handlers, disabled, answers, n) == RunTo(handlers, disabled, answers, m)
  {
    if m < n {
      StoppedStaysStopped(handlers, disabled, answers, m, n - 1);
    }
  }

  // ---------- The service ----------

  datatype RegisteredHook = RegisteredHook(pluginId: string, breaker: CB.CircuitBreaker)

  function Without(hooks: seq<RegisteredHook>, pluginId: string): (r: seq<RegisteredHook>)
    ensures forall h :: h in r ==> h in hooks && h.pluginId != pluginId
    ensures forall h :: h in hooks && h.pluginId != pluginId ==> h in r
  {
    if hooks == [] then []
    else (if hooks[0].pluginId != pluginId then [hooks[0]] else []) + Without(hooks[1..], pluginId)
  }

  /** Array.prototype.findIndex on the plugin id, or the length if there is none. */
  function IndexOf(hooks: seq<RegisteredHook>, pluginId: string): (i: nat)
    ensures i <= |hooks| && (i < |hooks| ==> hooks[i].pluginId == pluginId)
    ensures forall k :: 0 <= k < i ==> hooks[k].pluginId != pluginId
  {
    if hooks == [] || hooks[0].pluginId == pluginId then 0 else 1 + IndexOf(hooks[1..], pluginId)
  }

  ghost function Breakers(hooks: seq<RegisteredHook>): set<CB.CircuitBreaker> {
    set h | h in hooks :: h.breaker
  }

  /** One entry per plugin, each with its own breaker. */
  ghost predicate Distinct(hooks: seq<RegisteredHook>) {
    forall i, j :: 0 <= i < j < |hooks| ==>
      hooks[i].pluginId != hooks[j].pluginId && hooks[i].breaker != hooks[j].breaker
  }

  lemma {:induction false} WithoutIsDistinct(hooks: seq<RegisteredHook>, pluginId: string)
    requires Distinct(hooks)
    ensures Distinct(Without(hooks, pluginId))
  {
    if hooks != [] {
      var rest, kept := hooks[1..], Without(hooks[1..], pluginId);
      WithoutIsDistinct(rest, pluginId);
      forall k | 0 <= k < |kept|
        ensures kept[k].pluginId != hooks[0].pluginId && kept[k].breaker != hooks[0].breaker
      {
        assert kept[k] in rest;
        var i :| 0 <= i < |rest| && rest[i] == kept[k];
        assert hooks[i + 1] == kept[k];
      }
    }
  }

  /** No breaker is shared, neither inside a hook nor between hooks. */
  ghost predicate Separate(registry: map<string, seq<RegisteredHook>>) {
    && (forall name :: name in registry ==> registry[name] != [] && Distinct(registry[name]))
    && (forall m, n :: m in registry && n in registry && m != n ==> Breakers(registry[m]) !! Breakers(registry[n]))
  }

  lemma {:induction false} NewHookIsSeparate(registry: map<string, seq<RegisteredHook>>, name: string,
                                             list: seq<RegisteredHook>, breaker: CB.CircuitBreaker)
    requires Separate(registry) && list != [] && Distinct(list)
    requires forall n :: n in registry ==> breaker !in Breakers(registry[n])
    requires forall b :: b in Breakers(list) ==> b == breaker || (name in registry && b in Breakers(registry[name]))
    ensures Separate(registry[name := list])
  {
    var after := registry[name := list];
    forall m, n | m in after && n in after && m != n
      ensures Breakers(after[m]) !! Breakers(after[n])
    {
      if m != name && n != name {
        assert Breakers(registry[m]) !! Breakers(registry[n]);
      } else {
        var other := if m == name then n else m;
        assert name in registry ==> Breakers(registry[name]) !! Breakers(registry[other]);
      }
    }
  }

  function Get(registry: map<string, seq<RegisteredHook>>, name: string): seq<RegisteredHook> {
    if name in registry then registry[name] else []
  }

  /** One round of the loop over the map: the filtered list, or no entry at all if nothing is left. */
  function FilterHook(registry: map<string, seq<RegisteredHook>>, name: string, pluginId: string)
    : (r: map<string, seq<RegisteredHook>>)
    requires name in registry
    ensures Get(r, name) == Without(registry[name], pluginId)
    ensures forall n :: n != name ==> (n in r <==> n in registry) && Get(r, n) == Get(registry, n)
    ensures name in r ==> r[name] != []
  {
    var filtered := Without(registry[name], pluginId);
    if filtered == [] then registry - {name} else registry[name := filtered]
  }

  lemma {:induction false} FilteredIsSeparate(before: map<string, seq<RegisteredHook>>,
                                              after: map<string, seq<RegisteredHook>>, pluginId: string)
    requires Separate(before)
    requires forall n :: n in after ==> n in before && after[n] != [] && after[n] == Without(before[n], pluginId)
    ensures Separate(after)
  {
    forall n | n in after
      ensures Distinct(after[n]) && Breakers(after[n]) <= Breakers(before[n])
    {
      WithoutIsDistinct(before[n], pluginId);
    }
    forall m, n | m in after && n in after && m != n
      ensures Breakers(after[m]) !! Breakers(after[n])
    {
      assert Breakers(before[m]) !! Breakers(before[n]);
    }
  }

  /** The list of a hook after registering, in place if the plugin is already there. */
  function Registered(hooks: seq<RegisteredHook>, reg: RegisteredHook): seq<RegisteredHook> {
    var i := IndexOf(hooks, reg.pluginId);
    if i < |hooks| then hooks[i := reg] else hooks + [reg]
  }

  lemma {:induction false} RegisteredIsDistinct(hooks: seq<RegisteredHook>, reg: RegisteredHook)
    requires Distinct(hooks) && reg.breaker !in Breakers(hooks)
    ensures Registered(hooks, reg) != [] && Distinct(Registered(hooks, reg))
    ensures Breakers(Registered(hooks, reg)) <= Breakers(hooks) + {reg.breaker}
  {
    assert forall i :: 0 <= i < |hooks| ==> hooks[i].breaker in Breakers(hooks);
  }

  class HookRunner {
    var registry: map<string, seq<RegisteredHook>>
    var disabledPlugins: set<string>

    constructor ()
      ensures registry == map[] && disabledPlugins == {} && Valid()
    {
      registry, disabledPlugins := map[], {};
    }

    ghost predicate Valid()
      reads this
    {
      Separate(registry)
    }

    function Hooks(name: string): seq<RegisteredHook>
      reads this
    {
      Get(registry, name)
    }

    ghost function View(hooks: seq<RegisteredHook>): (r: seq<Handler>)
      reads Breakers(hooks)
      ensures |r| == |hooks|
      ensures forall i :: 0 <= i < |hooks| ==>
                r[i] == Handler(hooks[i].pluginId, hooks[i].breaker.cfg, hooks[i].breaker.Model())
    {
      if hooks == [] then []
      else [Handler(hooks[0].pluginId, hooks[0].breaker.cfg, hooks[0].breaker.Model())] + View(hooks[1..])
    }

    /** Registering again replaces the entry in its place, with a new closed breaker. */
    method Register(name: string, pluginId: string)
      requires Valid()
      modifies this
      ensures Valid() && disabledPlugins == old(disabledPlugins)
      ensures registry.Keys == old(registry).Keys + {name}
      ensures forall n :: n in old(registry) && n != name ==> registry[n] == old(registry)[n]
      ensures var after, i := Hooks(name), IndexOf(old(Hooks(name)), pluginId);
              && i < |after| && after[i].pluginId == pluginId
              && (if i < |old(Hooks(name))| then after == old(Hooks(name))[i := after[i]]
                  else after == old(Hooks(name)) + [after[i]])
              && fresh(after[i].breaker) && after[i].breaker.Model() == CB.FRESH
              && after[i].breaker.cfg == CB.Config(5, 60_000, 60_000)
    {
      var breaker := new CB.CircuitBreaker(CB.DEFAULT_BREAKER_CONFIG);
      var reg := RegisteredHook(pluginId, breaker);
      forall n | n in registry
        ensures breaker !in Breakers(registry[n])
      {
        assert forall h :: h in registry[n] ==> allocated(h);
      }
      RegisteredIsDistinct(Hooks(name), reg);
      NewHookIsSeparate(registry, name, Registered(Hooks(name), reg), breaker);
      registry := registry[name := Registered(Hooks(name), reg)];
    }

    /** Drops the plugin's handlers from every hook, and hooks without handlers. */
    method UnregisterPlugin(pluginId: string)
      requires Valid()
      modifies this`registry
      ensures Valid()
      ensures forall n :: Hooks(n) == Without(old(Hooks(n)), pluginId)
    {
      ghost var before := registry;
      FilterHooks(pluginId);
      forall n | n in registry
        ensures registry[n] == Without(before[n], pluginId)
      {
        assert registry[n] == Hooks(n) == Without(old(Hooks(n)), pluginId);
      }
      FilteredIsSeparate(before, registry, pluginId);
    }

    /** The loop over the map, which changes the map as it goes. */
    method FilterHooks(pluginId: string)
      modifies this`registry
      ensures forall n :: Hooks(n) == Without(old(Hooks(n)), pluginId)
      ensures forall n :: n in registry ==> registry[n] != [] && n in old(registry)
    {
      ghost var before := registry;
      var todo := registry.Keys;
      while todo != {}
        invariant todo <= registry.Keys <= before.Keys
        invariant forall n :: n in todo ==> registry[n] == before[n]
        invariant forall n :: n in before && n !in todo ==> Get(registry, n) == Without(before[n], pluginId)
        invariant forall n :: n in registry && n !in todo ==> registry[n] != []
        decreases |todo|
      {
        var name :| name in todo;
        todo := todo - {name};
        registry := FilterHook(registry, name, pluginId);
      }
    }

    method DisablePlugin(pluginId: string)
      modifies this`disabledPlugins
      ensures disabledPlugins == old(disabledPlugins) + {pluginId}
    {
      disabledPlugins := disabledPlugins + {pluginId};
    }

    method EnablePlugin(pluginId: string)
      modifies this`disabledPlugins
      ensures disabledPlugins == old(disabledPlugins) - {pluginId}
    {
      disabledPlugins := disabledPlugins - {pluginId};
    }

    /** One call of a hook that no other call overlaps: `answers` holds what each handler would do. */
    method RunSync(name: string, answers: seq<Answer>) returns (result: HookRunResult)
      requires Valid() && |answers| == |Hooks(name)|
      modifies Breakers(Hooks(name))
      ensures var p := Run(old(View(Hooks(name))), disabledPlugins, answers);
              && View(Hooks(name)) == p.handlers
              && result == HookRunResult(p.rejectReason.Some?, p.rejectReason, p.outcomes)
    {
      var hooks := Hooks(name);
      ghost var before := View(hooks);
      var outcomes, rejectReason, i := RunUntilRejected(hooks, answers);
      if rejectReason.Some? {
        StoppedStaysStopped(before, disabledPlugins, answers, i, |hooks|);
      }
      result := HookRunResult(rejectReason.Some?, rejectReason, outcomes);
    }

    /** The loop, which visits i handlers. */
    method RunUntilRejected(hooks: seq<RegisteredHook>, answers: seq<Answer>)
      returns (outcomes: seq<HookOutcome>, rejectReason: Option<string>, i: nat)
      requires Distinct(hooks) && |answers| == |hooks|
      modifies Breakers(hooks)
      ensures i <= |hooks| && (rejectReason.None? ==> i == |hooks|)
      ensures RunTo(old(View(hooks)), disabledPlugins, answers, i) == Progress(View(hooks), outcomes, rejectReason)
    {
      ghost var before := View(hooks);
      outcomes, rejectReason, i := [], None, 0;
      while i < |hooks| && rejectReason.None?
        invariant i <= |hooks|
        invariant RunTo(before, disabledPlugins, answers, i) == Progress(View(hooks), outcomes, rejectReason)
      {
        var outcome, reason := RunAt(hooks, i, answers[i]);
        outcomes, rejectReason, i := outcomes + [outcome], reason, i + 1;
      }
    }

    /** One round of the loop: only the breaker of the visited handler changes. */
    method RunAt(hooks: seq<RegisteredHook>, i: nat, a: Answer) returns (outcome: HookOutcome, reason: Option<string>)
      requires Distinct(hooks) && i < |hooks|
      modifies Breakers(hooks)
      ensures var h := old(View(hooks))[i];
              && View(hooks) == old(View(hooks))[i := h.(breaker := BreakerAfter(h, disabledPlugins, a))]
              && outcome == HookOutcome(h.pluginId, StatusOf(h, disabledPlugins, a))
              && reason == if outcome.status.Rejected? then Some(a.reply.message) else None
    {
      ghost var here := View(hooks);
      outcome, reason := RunOne(hooks[i], a);
      ChangedInPlace(hooks, here, i, disabledPlugins, a);
    }

    lemma {:induction false} ChangedInPlace(hooks: seq<RegisteredHook>, here: seq<Handler>, i: nat,
                                                disabled: set<string>, a: Answer)
      requires i < |hooks| == |here|
      requires forall k :: 0 <= k < |hooks| && k != i ==> View(hooks)[k] == here[k]
      requires View(hooks)[i] == here[i].(breaker := BreakerAfter(here[i], disabled, a))
      ensures View(hooks) == here[i := here[i].(breaker := BreakerAfter(here[i], disabled, a))]
    {
    }

    /** The body of the loop, for one handler. */
    method RunOne(reg: RegisteredHook, a: Answer) returns (outcome: HookOutcome, reason: Option<string>)
      modifies reg.breaker
      ensures var h := Handler(reg.pluginId, reg.breaker.cfg, old(reg.breaker.Model()));
              && reg.breaker.Model() == BreakerAfter(h, disabledPlugins, a)
              && outcome == HookOutcome(reg.pluginId, StatusOf(h, disabledPlugins, a))
              && reason == if outcome.status.Rejected? then Some(a.reply.message) else None
    {
      reason := None;
      if reg.pluginId in disabledPlugins {
        return HookOutcome(reg.pluginId, BreakerOpen), None;
      }
      var allowed := reg.breaker.TryAcquire(a.askedAt);
      if !allowed {
        return HookOutcome(reg.pluginId, BreakerOpen), None;
      }
      var status := Ok;
      match a.reply {
        case TimedOut =>
          status := Timeout;
          reg.breaker.RecordFailure(a.recordedAt);
        case Reject(message) =>
          status, reason := Rejected, Some(message);
          reg.breaker.RecordSuccess();
        case Done =>
          reg.breaker.RecordSuccess();
        case Threw =>
          status := Failed;
          reg.breaker.RecordFailure(a.recordedAt);
      }
      outcome := HookOutcome(reg.pluginId, status);
    }
  }

  // ---------- Many calls ----------

  /** One call of the hook, or somebody reading the state of its breakers. */
  datatype Event = Call(disabled: set<string>, answers: seq<Answer>) | Look(at: int)

  ghost predicate Fits(events: seq<Event>, n: nat) {
    forall s :: 0 <= s < |events| && events[s].Call? ==> |events[s].answers| == n
  }

  function Looked(handlers: seq<Handler>, at: int): (r: seq<Handler>)
    ensures |r| == |handlers|
  {
    seq(|handlers|, i requires 0 <= i < |handlers| =>
      handlers[i].(breaker := CB.Observe(handlers[i].cfg, handlers[i].breaker, at)))
  }

  ghost function After(handlers: seq<Handler>, events: seq<Event>): (r: seq<Handler>)
    requires Fits(events, |handlers|)
    ensures |r| == |handlers|
  {
    if events == [] then handlers
    else
      var before, e := After(handlers, events[..|events| - 1]), events[|events| - 1];
      match e
      case Call(disabled, answers) => Run(before, disabled, answers).handlers
      case Look(at) => Looked(before, at)
  }

  function Began(e: Event, i: nat): int
    requires e.Call? ==> i < |e.answers|
  {
    if e.Call? then e.answers[i].askedAt else e.at
  }

  function Ended(e: Event, i: nat): int
    requires e.Call? ==> i < |e.answers|
  {
    if e.Call? then e.answers[i].recordedAt else e.at
  }

  /** Calls do not overlap at handler i, and the clock never runs backwards. */
  ghost predicate InOrder(events: seq<Event>, n: nat, i: nat)
    requires Fits(events, n) && i < n
  {
    && (forall s :: 0 <= s < |events| ==> Began(events[s], i) <= Ended(events[s], i))
    && (forall s, t :: 0 <= s < t < |events| ==> Ended(events[s], i) <= Began(events[t], i))
  }

  /** Event s is a call that invokes handler i. */
  ghost predicate Invoked(handlers: seq<Handler>, events: seq<Event>, i: nat, s: nat)
    requires Fits(events, |handlers|) && i < |handlers| && s < |events|
  {
    && events[s].Call?
    && var outcomes := Run(After(handlers, events[..s]), events[s].disabled, events[s].answers).outcomes;
       i < |outcomes| && !outcomes[i].status.BreakerOpen?
  }

  ghost function BreakerAt(handlers: seq<Handler>, events: seq<Event>, i: nat, s: nat): CB.Breaker
    requires Fits(events, |handlers|) && i < |handlers| && s <= |events|
  {
    After(handlers, events[..s])[i].breaker
  }

  /** What one event can do to the breaker of handler i. */
  lemma {:induction false} OneEvent(handlers: seq<Handler>, events: seq<Event>, i: nat, s: nat)
    requires Fits(events, |handlers|) && i < |handlers| && s < |events|
    ensures After(handlers, events[..s])[i].pluginId == handlers[i].pluginId
    ensures After(handlers, events[..s])[i].cfg == handlers[i].cfg
    ensures var (b, after, cfg) := (BreakerAt(handlers, events, i, s), BreakerAt(handlers, events, i, s + 1),
                                    handlers[i].cfg);
            if Invoked(handlers, events, i, s) then
              var a, seen := events[s].answers[i], CB.Observe(cfg, b, events[s].answers[i].askedAt);
              && !seen.state.Open?
              && after == if a.reply.TimedOut? || a.reply.Threw? then CB.OnFailure(cfg, seen, a.recordedAt)
                          else CB.OnSuccess(seen)
            else
              after == b || after == CB.Observe(cfg, b, Began(events[s], i))
  {
    if s > 0 {
      OneEvent(handlers, events, i, s - 1);
      assert events[..s][..s - 1] == events[..s - 1];
    }
    var before := After(handlers, events[..s]);
    assert events[..s + 1][..s] == events[..s];
    if events[s].Call? {
      OutcomesFollowHandlers(before, events[s].disabled, events[s].answers);
    }
    if s > 0 && events[s - 1].Call? {
      var earlier := After(handlers, events[..s - 1]);
      OutcomesFollowHandlers(earlier, events[s - 1].disabled, events[s - 1].answers);
    }
  }

  /** Event s invokes handler i, and its breaker is open afterwards. */
  ghost predicate Trips(handlers: seq<Handler>, events: seq<Event>, i: nat, s: nat)
    requires Fits(events, |handlers|) && i < |handlers| && s < |events|
  {
    Invoked(handlers, events, i, s) && BreakerAt(handlers, events, i, s + 1).state.Open?
  }

  lemma {:induction false} OpenOrWaited(handlers: seq<Handler>, events: seq<Event>, i: nat, p: nat, q: nat)
    requires Fits(events, |handlers|) && i < |handlers| && InOrder(events, |handlers|, i)
    requires p < q <= |events| && Trips(handlers, events, i, p)
    ensures || (BreakerAt(handlers, events, i, q).state.Open?
                && BreakerAt(handlers, events, i, q).openedAt >= Ended(events[p], i))
            || Ended(events[q - 1], i) - Ended(events[p], i) >= handlers[i].cfg.cooldownMs
  {
    OneEvent(handlers, events, i, q - 1);
    if p < q - 1 {
      OpenOrWaited(handlers, events, i, p, q - 1);
    }
  }

  /** Once a call has left the breaker open, the handler is not invoked again until the cooldown is over. */
  lemma {:induction false} OpenBreakerWaits(handlers: seq<Handler>, events: seq<Event>, i: nat, p: nat, q: nat)
    requires Fits(events, |handlers|) && i < |handlers| && InOrder(events, |handlers|, i)
    requires p < q < |events| && Trips(handlers, events, i, p) && Invoked(handlers, events, i, q)
    ensures Began(events[q], i) - Ended(events[p], i) >= handlers[i].cfg.cooldownMs
  {
    OpenOrWaited(handlers, events, i, p, q);
    OneEvent(handlers, events, i, q);
  }

  /** Handler i does not succeed in events p to q; a rejection would be a success. */
  ghost predicate NoSuccess(handlers: seq<Handler>, events: seq<Event>, i: nat, p: nat, q: nat)
    requires Fits(events, |handlers|) && i < |handlers| && p <= q <= |events|
  {
    forall s :: p <= s < q && Invoked(handlers, events, i, s) ==>
      events[s].answers[i].reply.TimedOut? || events[s].answers[i].reply.Threw?
  }

  lemma {:induction false} TrialsTrip(handlers: seq<Handler>, events: seq<Event>, i: nat, p: nat, q: nat)
    requires Fits(events, |handlers|) && i < |handlers| && p < q < |events|
    requires Trips(handlers, events, i, p) && NoSuccess(handlers, events, i, p, |events|)
    ensures !BreakerAt(handlers, events, i, q).state.Closed?
    ensures Invoked(handlers, events, i, q) ==> Trips(handlers, events, i, q)
  {
    if p < q - 1 {
      TrialsTrip(handlers, events, i, p, q - 1);
    }
    OneEvent(handlers, events, i, q - 1);
    OneEvent(handlers, events, i, q);
  }

  lemma {:induction false} NextTrial(handlers: seq<Handler>, events: seq<Event>, i: nat, first: nat, c: nat, q: nat)
    requires Fits(events, |handlers|) && i < |handlers| && InOrder(events, |handlers|, i)
    requires first <= c < q < |events| && NoSuccess(handlers, events, i, first, |events|)
    requires Trips(handlers, events, i, first) && Trips(handlers, events, i, c) && Invoked(handlers, events, i, q)
    ensures Trips(handlers, events, i, q)
    ensures Ended(events[q], i) - Ended(events[c], i) >= handlers[i].cfg.cooldownMs
  {
    TrialsTrip(handlers, events, i, first, q);
    OpenBreakerWaits(handlers, events, i, c, q);
  }

  ghost predicate InvokedInTurn(handlers: seq<Handler>, events: seq<Event>, i: nat, calls: seq<nat>)
    requires Fits(events, |handlers|) && i < |handlers|
  {
    && (forall j :: 0 <= j < |calls| ==> calls[j] < |events| && Invoked(handlers, events, i, calls[j]))
    && (forall j :: 0 < j < |calls| ==> calls[j - 1] < calls[j])
  }

  /** While a handler keeps failing, its trials are at least a cooldown apart, so k trials take k cooldowns. */
  lemma {:induction false} TrialsAreSpaced(handlers: seq<Handler>, events: seq<Event>, i: nat, calls: seq<nat>, k: nat)
    requires Fits(events, |handlers|) && i < |handlers| && InOrder(events, |handlers|, i)
    requires k < |calls| && InvokedInTurn(handlers, events, i, calls)
    requires Trips(handlers, events, i, calls[0]) && NoSuccess(handlers, events, i, calls[0], |events|)
    ensures Ended(events[calls[k]], i) - Ended(events[calls[0]], i) >= k * handlers[i].cfg.cooldownMs
    ensures calls[0] <= calls[k] && Trips(handlers, events, i, calls[k])
  {
    if k > 0 {
      TrialsAreSpaced(handlers, events, i, calls, k - 1);
      NextTrial(handlers, events, i, calls[0], calls[k - 1], calls[k]);
      OneMore(k, handlers[i].cfg.cooldownMs);
    }
  }

  lemma OneMore(k: nat, c: int)
    ensures (k - 1) * c + c == k * c
  {
  }
}
