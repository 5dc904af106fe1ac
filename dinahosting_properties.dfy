/**
  What the update loop promises, stated over its meaning `Run` (which
  `Handler.DomainLoop` is proved to compute): the per-subdomain decision, the
  order and isolation of the subdomains, the sleep cadence, single-pass
  termination and the single panic signal.
 */
module DinahostingProperties {
  import opened GoLibrary
  import opened DinahostingHandler

  /** The events of `t` that `keep` selects, in order. */
  function Select(t: seq<Event>, keep: Event -> bool): seq<Event>
    decreases |t|
  {
    if t == [] then [] else (if keep(t[0]) then [t[0]] else []) + Select(t[1..], keep)
  }

  predicate IsSleep(e: Event) { e.Sleep? }
  predicate IsResolve(e: Event) { e.Resolve? }
  predicate IsPost(e: Event) { e.Post? }
  predicate IsNotify(e: Event) { e.Notify? }
  predicate IsPanic(e: Event) { e.PanicSignal? }

  lemma {:induction false} SelectConcat(a: seq<Event>, b: seq<Event>, keep: Event -> bool)
    ensures Select(a + b, keep) == Select(a, keep) + Select(b, keep)
    decreases |a|
  {
    if a == [] {
      assert a + b == b;
    } else {
      var head := if keep(a[0]) then [a[0]] else [];
      assert (a + b)[0] == a[0] && (a + b)[1..] == a[1..] + b;
      assert Select(a + b, keep) == head + Select(a[1..] + b, keep);
      SelectConcat(a[1..], b, keep);
      assert head + (Select(a[1..], keep) + Select(b, keep)) == (head + Select(a[1..], keep)) + Select(b, keep);
    }
  }

  lemma SelectOne(e: Event, keep: Event -> bool)
    ensures Select([e], keep) == if keep(e) then [e] else []
  {
    assert [e][1..] == [];
  }

  lemma SelectTwo(e0: Event, e1: Event, keep: Event -> bool)
    ensures Select([e0, e1], keep) == (if keep(e0) then [e0] else []) + (if keep(e1) then [e1] else [])
  {
    assert [e0, e1] == [e0] + [e1];
    SelectConcat([e0], [e1], keep);
    SelectOne(e0, keep);
    SelectOne(e1, keep);
  }

  lemma SelectThree(e0: Event, e1: Event, e2: Event, keep: Event -> bool)
    ensures Select([e0, e1, e2], keep)
         == (if keep(e0) then [e0] else []) + (if keep(e1) then [e1] else []) + (if keep(e2) then [e2] else [])
  {
    assert [e0, e1, e2] == [e0, e1] + [e2];
    SelectConcat([e0, e1], [e2], keep);
    SelectTwo(e0, e1, keep);
    SelectOne(e2, keep);
  }

  // ---------------------------------------------------------------------
  // One subdomain

  /** The published address of the k-th subdomain was resolved and differs from the current one. */
  predicate Changed(domain: Domain, k: nat, cycle: nat, currentIP: string, env: Env)
    requires k < |domain.subDomains|
  {
    var published := env.resolve(cycle, Hostname(domain, domain.subDomains[k]));
    published.Ok? && published.value != currentIP
  }

  /**
    The k-th subdomain is updated: its address changed, the request was
    built, sent and answered, the body was read and it reports success.
    The HTTP status plays no part.
   */
  predicate Updated(domain: Domain, k: nat, cycle: nat, currentIP: string, env: Env)
    requires k < |domain.subDomains|
  {
    var exchange := env.post(cycle, k);
    Changed(domain, k, cycle, currentIP, env) && exchange.Responded? && IsSuccess(exchange.body)
  }

  /**
    Everything a subdomain's step can do: look the hostname up; then, when
    the address changed and the request could be built, post the update;
    then, when the subdomain was updated, notify. It ends abnormally only
    when the resolver or the exchange panics.
   */
  lemma StepShape(conf: Settings, domain: Domain, k: nat, cycle: nat, currentIP: string, env: Env)
    requires k < |domain.subDomains|
    ensures var step := SubDomainStep(conf, domain, k, cycle, currentIP, env);
      var lookup := Resolve(domain.subDomains[k] + "." + domain.domainName);
      var post := Post(UpdateRequest(conf, domain, domain.subDomains[k], currentIP, env));
      var notify := Notify(domain.subDomains[k] + "." + domain.domainName, currentIP);
      && step.events == (if !Changed(domain, k, cycle, currentIP, env) || env.post(cycle, k).RequestInvalid? then [lookup]
                         else if Updated(domain, k, cycle, currentIP, env) then [lookup, post, notify]
                         else [lookup, post])
      && (step.faulted <==>
            (env.resolve(cycle, Hostname(domain, domain.subDomains[k])).Fault?
             || (Changed(domain, k, cycle, currentIP, env) && env.post(cycle, k).PostFault?)))
  {
  }

  /** Every subdomain is looked up exactly once, first, under `sub + "." + domainName`. */
  lemma StepResolvesOnce(conf: Settings, domain: Domain, k: nat, cycle: nat, currentIP: string, env: Env)
    requires k < |domain.subDomains|
    ensures var step := SubDomainStep(conf, domain, k, cycle, currentIP, env);
      && |step.events| > 0
      && step.events[0] == Resolve(domain.subDomains[k] + "." + domain.domainName)
      && Select(step.events, IsResolve) == [step.events[0]]
  {
    StepShape(conf, domain, k, cycle, currentIP, env);
    var host := domain.subDomains[k] + "." + domain.domainName;
    var post := Post(UpdateRequest(conf, domain, domain.subDomains[k], currentIP, env));
    SelectOne(Resolve(host), IsResolve);
    SelectTwo(Resolve(host), post, IsResolve);
    SelectThree(Resolve(host), post, Notify(host, currentIP), IsResolve);
  }

  /** When the published address is the current one, nothing but the lookup happens. */
  lemma NoUpdateWhenUnchanged(conf: Settings, domain: Domain, k: nat, cycle: nat, currentIP: string, env: Env)
    requires k < |domain.subDomains|
    requires env.resolve(cycle, Hostname(domain, domain.subDomains[k])) == Ok(currentIP)
    ensures SubDomainStep(conf, domain, k, cycle, currentIP, env)
         == Step([Resolve(Hostname(domain, domain.subDomains[k]))], false)
  {
  }

  /** An update request is sent exactly when the address changed and the request could be built. */
  lemma PostsExactlyWhenChanged(conf: Settings, domain: Domain, k: nat, cycle: nat, currentIP: string, env: Env)
    requires k < |domain.subDomains|
    ensures Select(SubDomainStep(conf, domain, k, cycle, currentIP, env).events, IsPost)
         == if Changed(domain, k, cycle, currentIP, env) && !env.post(cycle, k).RequestInvalid?
            then [Post(UpdateRequest(conf, domain, domain.subDomains[k], currentIP, env))]
            else []
  {
    StepShape(conf, domain, k, cycle, currentIP, env);
    var host := domain.subDomains[k] + "." + domain.domainName;
    var post := Post(UpdateRequest(conf, domain, domain.subDomains[k], currentIP, env));
    SelectOne(Resolve(host), IsPost);
    SelectTwo(Resolve(host), post, IsPost);
    SelectThree(Resolve(host), post, Notify(host, currentIP), IsPost);
  }

  /**
    A subdomain's notification `(sub + "." + domainName, currentIP)` is sent
    exactly once when it was updated, and not at all otherwise.
   */
  lemma NotifiesExactlyWhenUpdated(conf: Settings, domain: Domain, k: nat, cycle: nat, currentIP: string, env: Env)
    requires k < |domain.subDomains|
    ensures Select(SubDomainStep(conf, domain, k, cycle, currentIP, env).events, IsNotify)
         == if Updated(domain, k, cycle, currentIP, env)
            then [Notify(domain.subDomains[k] + "." + domain.domainName, currentIP)]
            else []
  {
    StepShape(conf, domain, k, cycle, currentIP, env);
    var host := domain.subDomains[k] + "." + domain.domainName;
    var post := Post(UpdateRequest(conf, domain, domain.subDomains[k], currentIP, env));
    SelectOne(Resolve(host), IsNotify);
    SelectTwo(Resolve(host), post, IsNotify);
    SelectThree(Resolve(host), post, Notify(host, currentIP), IsNotify);
  }

  /** An exchange outcome with its HTTP status blanked out. */
  function WithoutStatus(exchange: PostOutcome): PostOutcome {
    match exchange
    case BodyUnreadable(_) => BodyUnreadable("")
    case Responded(_, body) => Responded("", body)
    case _ => exchange
  }

  /** `env` and `other` agree on the k-th subdomain in cycle `cycle`, except perhaps for the HTTP status. */
  ghost predicate SameButStatus(env: Env, other: Env, cycle: nat, k: nat) {
    && (forall host :: env.resolve(cycle, host) == other.resolve(cycle, host))
    && WithoutStatus(env.post(cycle, k)) == WithoutStatus(other.post(cycle, k))
    && (forall s :: env.queryEscape(s) == other.queryEscape(s))
    && (forall s :: env.base64(s) == other.base64(s))
  }

  /** The HTTP status of the provider's answer is never consulted: only the body decides. */
  lemma StatusNotConsulted(conf: Settings, domain: Domain, k: nat, cycle: nat, currentIP: string, env: Env, other: Env)
    requires k < |domain.subDomains|
    requires SameButStatus(env, other, cycle, k)
    ensures SubDomainStep(conf, domain, k, cycle, currentIP, env) == SubDomainStep(conf, domain, k, cycle, currentIP, other)
  {
    var sub := domain.subDomains[k];
    assert UpdateRequest(conf, domain, sub, currentIP, env) == UpdateRequest(conf, domain, sub, currentIP, other);
  }

  // ---------------------------------------------------------------------
  // One cycle

  /** The lookups of the subdomains from the k-th on, in configured order. */
  function ResolvesFrom(domain: Domain, k: nat): seq<Event>
    requires k <= |domain.subDomains|
    decreases |domain.subDomains| - k
  {
    if k == |domain.subDomains| then []
    else [Resolve(domain.subDomains[k] + "." + domain.domainName)] + ResolvesFrom(domain, k + 1)
  }

  /** A failed lookup skips that subdomain alone: the walk goes on with the next one. */
  lemma LookupFailureSkipsOnlyThatSubDomain(conf: Settings, domain: Domain, k: nat, cycle: nat, currentIP: string, env: Env)
    requires k < |domain.subDomains|
    requires env.resolve(cycle, Hostname(domain, domain.subDomains[k])) == Failed
    ensures SubDomainsFrom(conf, domain, k, cycle, currentIP, env)
         == After([Resolve(Hostname(domain, domain.subDomains[k]))], SubDomainsFrom(conf, domain, k + 1, cycle, currentIP, env))
  {
  }

  /** The notifications due for the subdomains from the k-th on, in configured order. */
  function UpdatesFrom(domain: Domain, k: nat, cycle: nat, currentIP: string, env: Env): seq<Event>
    requires k <= |domain.subDomains|
    decreases |domain.subDomains| - k
  {
    if k == |domain.subDomains| then []
    else
      (if Updated(domain, k, cycle, currentIP, env)
       then [Notify(domain.subDomains[k] + "." + domain.domainName, currentIP)] else [])
      + UpdatesFrom(domain, k + 1, cycle, currentIP, env)
  }

  /**
    Subdomains are looked up in configured order, and a failed lookup (or a
    failed update) of one does not stop the later ones: only a panic cuts
    the walk short.
   */
  lemma {:induction false} SubDomainsInOrder(conf: Settings, domain: Domain, k: nat, cycle: nat, currentIP: string, env: Env)
    requires k <= |domain.subDomains|
    ensures var walk := SubDomainsFrom(conf, domain, k, cycle, currentIP, env);
      && Select(walk.events, IsResolve) <= ResolvesFrom(domain, k)
      && (!walk.faulted ==> Select(walk.events, IsResolve) == ResolvesFrom(domain, k))
    decreases |domain.subDomains| - k
  {
    if k < |domain.subDomains| {
      var step := SubDomainStep(conf, domain, k, cycle, currentIP, env);
      StepResolvesOnce(conf, domain, k, cycle, currentIP, env);
      if !step.faulted {
        var rest := SubDomainsFrom(conf, domain, k + 1, cycle, currentIP, env);
        SubDomainsInOrder(conf, domain, k + 1, cycle, currentIP, env);
        SelectConcat(step.events, rest.events, IsResolve);
      }
    }
  }

  /** In a cycle that does not panic, exactly the updated subdomains are notified, in order. */
  lemma {:induction false} CycleNotifications(conf: Settings, domain: Domain, k: nat, cycle: nat, currentIP: string, env: Env)
    requires k <= |domain.subDomains|
    requires !SubDomainsFrom(conf, domain, k, cycle, currentIP, env).faulted
    ensures Select(SubDomainsFrom(conf, domain, k, cycle, currentIP, env).events, IsNotify)
         == UpdatesFrom(domain, k, cycle, currentIP, env)
    decreases |domain.subDomains| - k
  {
    if k < |domain.subDomains| {
      var step := SubDomainStep(conf, domain, k, cycle, currentIP, env);
      var rest := SubDomainsFrom(conf, domain, k + 1, cycle, currentIP, env);
      NotifiesExactlyWhenUpdated(conf, domain, k, cycle, currentIP, env);
      CycleNotifications(conf, domain, k + 1, cycle, currentIP, env);
      SelectConcat(step.events, rest.events, IsNotify);
    }
  }

  /** The events one subdomain can produce. */
  predicate SubDomainEvent(e: Event) {
    e.Resolve? || e.Post? || e.Notify?
  }

  lemma StepEventsAreSubDomainEvents(conf: Settings, domain: Domain, k: nat, cycle: nat, currentIP: string, env: Env)
    requires k < |domain.subDomains|
    ensures var step := SubDomainStep(conf, domain, k, cycle, currentIP, env);
      forall i :: 0 <= i < |step.events| ==> SubDomainEvent(step.events[i])
  {
  }

  /** Selecting from events none of which is kept yields nothing. */
  lemma {:induction false} SelectNone(t: seq<Event>, keep: Event -> bool)
    requires forall i :: 0 <= i < |t| ==> !keep(t[i])
    ensures Select(t, keep) == []
    decreases |t|
  {
    if t != [] {
      assert forall i :: 0 <= i < |t[1..]| ==> t[1..][i] == t[i + 1];
      SelectNone(t[1..], keep);
    }
  }

  /** The events of one subdomain are neither sleeps nor panic signals. */
  lemma StepNeitherSleepsNorSignals(conf: Settings, domain: Domain, k: nat, cycle: nat, currentIP: string, env: Env)
    requires k < |domain.subDomains|
    ensures var step := SubDomainStep(conf, domain, k, cycle, currentIP, env);
      Select(step.events, IsSleep) == [] && Select(step.events, IsPanic) == []
  {
    var step := SubDomainStep(conf, domain, k, cycle, currentIP, env);
    StepEventsAreSubDomainEvents(conf, domain, k, cycle, currentIP, env);
    SelectNone(step.events, IsSleep);
    SelectNone(step.events, IsPanic);
  }

  /** A cycle neither sleeps nor signals a panic itself: both belong to the loop around it. */
  lemma {:induction false} SubDomainsNeitherSleepNorSignal(conf: Settings, domain: Domain, k: nat, cycle: nat, currentIP: string, env: Env)
    requires k <= |domain.subDomains|
    ensures var walk := SubDomainsFrom(conf, domain, k, cycle, currentIP, env);
      Select(walk.events, IsSleep) == [] && Select(walk.events, IsPanic) == []
    decreases |domain.subDomains| - k
  {
    if k < |domain.subDomains| {
      var step := SubDomainStep(conf, domain, k, cycle, currentIP, env);
      StepNeitherSleepsNorSignals(conf, domain, k, cycle, currentIP, env);
      if !step.faulted {
        var rest := SubDomainsFrom(conf, domain, k + 1, cycle, currentIP, env);
        assert SubDomainsFrom(conf, domain, k, cycle, currentIP, env).events == step.events + rest.events;
        SubDomainsNeitherSleepNorSignal(conf, domain, k + 1, cycle, currentIP, env);
        assert Select(step.events + rest.events, IsSleep) == [] by {
          SelectConcat(step.events, rest.events, IsSleep);
        }
        assert Select(step.events + rest.events, IsPanic) == [] by {
          SelectConcat(step.events, rest.events, IsPanic);
        }
      }
    }
  }

  lemma CycleNeitherSleepsNorSignals(conf: Settings, domain: Domain, cycle: nat, env: Env)
    ensures var step := Cycle(conf, domain, cycle, env);
      Select(step.events, IsSleep) == [] && Select(step.events, IsPanic) == []
  {
    if env.currentIP(cycle).Ok? {
      SubDomainsNeitherSleepNorSignal(conf, domain, 0, cycle, env.currentIP(cycle).value, env);
    }
  }

  /** If IP discovery fails, the cycle does nothing: no lookup, no update, no notification. */
  lemma DiscoveryFailureSkipsCycle(conf: Settings, domain: Domain, cycle: nat, env: Env)
    requires env.currentIP(cycle) == Failed
    ensures Cycle(conf, domain, cycle, env) == Step([], false)
  {
  }

  /** No collaborator panics in cycle `cycle`. */
  ghost predicate CalmCycle(domain: Domain, cycle: nat, env: Env) {
    && !env.currentIP(cycle).Fault?
    && (forall host :: !env.resolve(cycle, host).Fault?)
    && (forall k :: !env.post(cycle, k).PostFault?)
  }

  /** Anticipated failures (discovery, lookup, request, transport, body, provider refusal) never end a cycle abnormally. */
  lemma {:induction false} CalmSubDomainsDoNotFault(conf: Settings, domain: Domain, k: nat, cycle: nat, currentIP: string, env: Env)
    requires k <= |domain.subDomains|
    requires CalmCycle(domain, cycle, env)
    ensures !SubDomainsFrom(conf, domain, k, cycle, currentIP, env).faulted
    decreases |domain.subDomains| - k
  {
    if k < |domain.subDomains| {
      StepShape(conf, domain, k, cycle, currentIP, env);
      CalmSubDomainsDoNotFault(conf, domain, k + 1, cycle, currentIP, env);
    }
  }

  lemma CalmCycleDoesNotFault(conf: Settings, domain: Domain, cycle: nat, env: Env)
    requires CalmCycle(domain, cycle, env)
    ensures !Cycle(conf, domain, cycle, env).faulted
  {
    if env.currentIP(cycle).Ok? {
      CalmSubDomainsDoNotFault(conf, domain, 0, cycle, env.currentIP(cycle).value, env);
    }
  }

  /** `env` and `other` give the same outcomes in cycle `cycle`. */
  ghost predicate SameCycle(env: Env, other: Env, cycle: nat) {
    && env.currentIP(cycle) == other.currentIP(cycle)
    && (forall host :: env.resolve(cycle, host) == other.resolve(cycle, host))
    && (forall k :: env.post(cycle, k) == other.post(cycle, k))
    && (forall s :: env.queryEscape(s) == other.queryEscape(s))
    && (forall s :: env.base64(s) == other.base64(s))
  }

  lemma {:induction false} SubDomainsAreFresh(conf: Settings, domain: Domain, k: nat, cycle: nat, currentIP: string, env: Env, other: Env)
    requires k <= |domain.subDomains|
    requires SameCycle(env, other, cycle)
    ensures SubDomainsFrom(conf, domain, k, cycle, currentIP, env) == SubDomainsFrom(conf, domain, k, cycle, currentIP, other)
    decreases |domain.subDomains| - k
  {
    if k < |domain.subDomains| {
      var sub := domain.subDomains[k];
      assert UpdateRequest(conf, domain, sub, currentIP, env) == UpdateRequest(conf, domain, sub, currentIP, other);
      assert SubDomainStep(conf, domain, k, cycle, currentIP, env) == SubDomainStep(conf, domain, k, cycle, currentIP, other);
      SubDomainsAreFresh(conf, domain, k + 1, cycle, currentIP, env, other);
    }
  }

  /**
    Nothing is remembered between cycles: what a cycle does depends only on
    that cycle's outcomes, so every comparison is against a freshly resolved
    address.
   */
  lemma CycleIsFresh(conf: Settings, domain: Domain, cycle: nat, env: Env, other: Env)
    requires SameCycle(env, other, cycle)
    ensures Cycle(conf, domain, cycle, env) == Cycle(conf, domain, cycle, other)
  {
    if env.currentIP(cycle).Ok? {
      SubDomainsAreFresh(conf, domain, 0, cycle, env.currentIP(cycle).value, env, other);
    }
  }

  // ---------------------------------------------------------------------
  // The loop

  /**
    With `runOnce` the loop performs exactly one cycle, whatever its outcome
    (a failed IP discovery included), never sleeps, and returns, unless the
    cycle panicked.
   */
  lemma SinglePass(conf: Settings, domain: Domain, cycles: nat, env: Env)
    ensures var run := Run(conf, domain, true, cycles, env);
      var step := Cycle(conf, domain, 0, env);
      && run == (if step.faulted then LoopRun(step.events + [PanicSignal(domain)], Recovered)
                 else LoopRun(step.events, Completed))
      && Select(run.trace, IsSleep) == []
  {
    var step := Cycle(conf, domain, 0, env);
    assert [] + step.events == step.events;
    CycleNeitherSleepsNorSignals(conf, domain, 0, env);
    SelectConcat(step.events, [PanicSignal(domain)], IsSleep);
    SelectOne(PanicSignal(domain), IsSleep);
  }

  /**
    The first n cycles of a continuous loop, built from its first n - 1:
    a sleep of `Interval` seconds, then the events of cycle n - 1.
   */
  function Schedule(conf: Settings, domain: Domain, n: nat, env: Env): seq<Event> {
    if n == 0 then [] else Schedule(conf, domain, n - 1, env) + Pause(conf, n - 1) + Cycle(conf, domain, n - 1, env).events
  }

  lemma {:induction false} RunFromFollowsSchedule(conf: Settings, domain: Domain, cycle: nat, fuel: nat, env: Env)
    requires forall c: nat :: cycle <= c < cycle + fuel ==> !Cycle(conf, domain, c, env).faulted
    ensures Prefixed(Schedule(conf, domain, cycle, env), RunFrom(conf, domain, false, cycle, fuel, env))
         == LoopRun(Schedule(conf, domain, cycle + fuel, env), StillPolling)
    decreases fuel
  {
    var done := Schedule(conf, domain, cycle, env);
    if fuel == 0 {
      assert done + [] == done;
    } else {
      assert !Cycle(conf, domain, cycle, env).faulted;
      var rest := RunFrom(conf, domain, false, cycle + 1, fuel - 1, env);
      ScheduleStep(conf, domain, cycle, fuel, env);
      RunFromFollowsSchedule(conf, domain, cycle + 1, fuel - 1, env);
    }
  }

  /** One calm cycle moves the schedule forward by that cycle. */
  lemma ScheduleStep(conf: Settings, domain: Domain, cycle: nat, fuel: nat, env: Env)
    requires fuel > 0 && !Cycle(conf, domain, cycle, env).faulted
    ensures Prefixed(Schedule(conf, domain, cycle, env), RunFrom(conf, domain, false, cycle, fuel, env))
         == Prefixed(Schedule(conf, domain, cycle + 1, env), RunFrom(conf, domain, false, cycle + 1, fuel - 1, env))
  {
    var done := Schedule(conf, domain, cycle, env);
    var now := Pause(conf, cycle) + Cycle(conf, domain, cycle, env).events;
    var rest := RunFrom(conf, domain, false, cycle + 1, fuel - 1, env);
    RunFromCycle(conf, domain, false, cycle, fuel, env);
    assert Schedule(conf, domain, cycle + 1, env) == done + now;
    PrefixedTwice(done, now, rest);
  }

  /** A continuous loop whose first n cycles do not panic is still polling after them, and has followed the schedule. */
  lemma ContinuousRunFollowsSchedule(conf: Settings, domain: Domain, n: nat, env: Env)
    requires forall c: nat :: c < n ==> !Cycle(conf, domain, c, env).faulted
    ensures Run(conf, domain, false, n, env) == LoopRun(Schedule(conf, domain, n, env), StillPolling)
  {
    RunFromFollowsSchedule(conf, domain, 0, n, env);
    assert [] + Run(conf, domain, false, n, env).trace == Run(conf, domain, false, n, env).trace;
  }

  /**
    Sleep cadence: the first cycle starts at once, and each of the n - 1
    later ones is preceded by exactly one sleep of `Interval` seconds.
   */
  lemma {:induction false} SleepCadence(conf: Settings, domain: Domain, n: nat, env: Env)
    ensures n > 0 ==> Schedule(conf, domain, 1, env) == Cycle(conf, domain, 0, env).events
    ensures Select(Schedule(conf, domain, n, env), IsSleep) == seq(if n > 0 then n - 1 else 0, _ => Sleep(conf.interval))
  {
    if n > 0 {
      var earlier := Schedule(conf, domain, n - 1, env);
      var step := Cycle(conf, domain, n - 1, env);
      SleepCadence(conf, domain, n - 1, env);
      CycleNeitherSleepsNorSignals(conf, domain, n - 1, env);
      SelectConcat(earlier + Pause(conf, n - 1), step.events, IsSleep);
      SelectConcat(earlier, Pause(conf, n - 1), IsSleep);
      SelectOne(Sleep(conf.interval), IsSleep);
      assert [] + step.events == step.events;
    }
  }

  /** A failed IP discovery skips only the current cycle: a continuous loop goes on to the next one. */
  lemma DiscoveryFailureContinues(conf: Settings, domain: Domain, cycle: nat, fuel: nat, env: Env)
    requires env.currentIP(cycle) == Failed
    requires fuel > 0
    ensures RunFrom(conf, domain, false, cycle, fuel, env)
         == Prefixed(Pause(conf, cycle), RunFrom(conf, domain, false, cycle + 1, fuel - 1, env))
  {
    assert Pause(conf, cycle) + [] == Pause(conf, cycle);
  }

  /** Before a panic signal, a cycle's sleep and events hold none. */
  lemma QuietCycle(conf: Settings, domain: Domain, cycle: nat, env: Env)
    ensures Select(Pause(conf, cycle) + Cycle(conf, domain, cycle, env).events, IsPanic) == []
  {
    CycleNeitherSleepsNorSignals(conf, domain, cycle, env);
    SelectOne(Sleep(conf.interval), IsPanic);
    SelectConcat(Pause(conf, cycle), Cycle(conf, domain, cycle, env).events, IsPanic);
  }

  /** The loop signals a panic at most once, and exactly when it ended by recovering. */
  lemma {:induction false} PanicSignalledOnce(conf: Settings, domain: Domain, runOnce: bool, cycle: nat, fuel: nat, env: Env)
    ensures var run := RunFrom(conf, domain, runOnce, cycle, fuel, env);
      Select(run.trace, IsPanic) == (if run.exit == Recovered then [PanicSignal(domain)] else [])
    decreases fuel
  {
    if runOnce || fuel > 0 {
      var run := RunFrom(conf, domain, runOnce, cycle, fuel, env);
      var quiet := Pause(conf, cycle) + Cycle(conf, domain, cycle, env).events;
      assert Select(quiet, IsPanic) == [] by {
        QuietCycle(conf, domain, cycle, env);
      }
      if Cycle(conf, domain, cycle, env).faulted {
        assert run == LoopRun(quiet + [PanicSignal(domain)], Recovered) by {
          RunFromCycle(conf, domain, runOnce, cycle, fuel, env);
        }
        assert Select(quiet + [PanicSignal(domain)], IsPanic) == [PanicSignal(domain)] by {
          SelectConcat(quiet, [PanicSignal(domain)], IsPanic);
          SelectOne(PanicSignal(domain), IsPanic);
        }
      } else if runOnce {
        assert run == LoopRun(quiet, Completed) by {
          RunFromCycle(conf, domain, runOnce, cycle, fuel, env);
        }
      } else {
        var rest := RunFrom(conf, domain, runOnce, cycle + 1, fuel - 1, env);
        assert run == LoopRun(quiet + rest.trace, rest.exit) by {
          RunFromCycle(conf, domain, runOnce, cycle, fuel, env);
        }
        PanicSignalledOnce(conf, domain, runOnce, cycle + 1, fuel - 1, env);
        assert Select(quiet + rest.trace, IsPanic) == Select(rest.trace, IsPanic) by {
          SelectConcat(quiet, rest.trace, IsPanic);
        }
      }
    }
  }

  /** A loop that ended by recovering has the panic signal as its very last event. */
  lemma {:induction false} PanicSignalIsLast(conf: Settings, domain: Domain, runOnce: bool, cycle: nat, fuel: nat, env: Env)
    ensures var run := RunFrom(conf, domain, runOnce, cycle, fuel, env);
      run.exit == Recovered ==> |run.trace| > 0 && run.trace[|run.trace| - 1] == PanicSignal(domain)
    decreases fuel
  {
    if runOnce || fuel > 0 {
      var run := RunFrom(conf, domain, runOnce, cycle, fuel, env);
      var quiet := Pause(conf, cycle) + Cycle(conf, domain, cycle, env).events;
      if Cycle(conf, domain, cycle, env).faulted {
        var trace := quiet + [PanicSignal(domain)];
        assert run == LoopRun(trace, Recovered) by {
          RunFromCycle(conf, domain, runOnce, cycle, fuel, env);
        }
        assert trace[|trace| - 1] == PanicSignal(domain);
      } else if runOnce {
        assert run.exit == Completed by {
          RunFromCycle(conf, domain, runOnce, cycle, fuel, env);
        }
      } else {
        var rest := RunFrom(conf, domain, runOnce, cycle + 1, fuel - 1, env);
        assert run == LoopRun(quiet + rest.trace, rest.exit) by {
          RunFromCycle(conf, domain, runOnce, cycle, fuel, env);
        }
        PanicSignalIsLast(conf, domain, runOnce, cycle + 1, fuel - 1, env);
        if rest.exit == Recovered {
          assert (quiet + rest.trace)[|quiet + rest.trace| - 1] == rest.trace[|rest.trace| - 1];
        }
      }
    }
  }

  /**
    Anticipated failures never end the loop: if no collaborator panics in
    the first n cycles, a continuous loop is still polling after them and
    has sent no panic signal.
   */
  lemma CalmLoopKeepsPolling(conf: Settings, domain: Domain, n: nat, env: Env)
    requires forall c: nat :: c < n ==> CalmCycle(domain, c, env)
    ensures Run(conf, domain, false, n, env).exit == StillPolling
    ensures Select(Run(conf, domain, false, n, env).trace, IsPanic) == []
  {
    forall c: nat | c < n ensures !Cycle(conf, domain, c, env).faulted {
      CalmCycleDoesNotFault(conf, domain, c, env);
    }
    ContinuousRunFollowsSchedule(conf, domain, n, env);
    PanicSignalledOnce(conf, domain, false, 0, n, env);
  }

  // ---------------------------------------------------------------------
  // A worked scenario

  const Example := Domain("example.com", ["home", "office"])

  /**
    The public address is 1.2.3.4; `home.example.com` is published as
    1.2.3.3 and `office.example.com` as 1.2.3.4; the provider accepts every
    update.
   */
  function ExampleEnv(queryEscape: string -> string, base64: string -> string): Env {
    Env(c => Ok("1.2.3.4"),
        (c, host) => if host == "home.example.com" then Ok("1.2.3.3") else Ok("1.2.3.4"),
        (c, k) => Responded("200 OK", "{" + SuccessMarker + "}"),
        queryEscape, base64)
  }

  /** In the scenario `home` is looked up, updated and notified. */
  lemma ExampleHome(conf: Settings, queryEscape: string -> string, base64: string -> string)
    ensures var env := ExampleEnv(queryEscape, base64);
      SubDomainStep(conf, Example, 0, 0, "1.2.3.4", env)
      == Step([Resolve("home.example.com"), Post(UpdateRequest(conf, Example, "home", "1.2.3.4", env)),
               Notify("home.example.com", "1.2.3.4")], false)
  {
    var body := "{" + SuccessMarker + "}";
    assert IsSuccess(body) by {
      assert body[1..][..|SuccessMarker|] == SuccessMarker;
    }
    assert Hostname(Example, "home") == "home.example.com";
  }

  /** In the scenario `office` is only looked up. */
  lemma ExampleOffice(conf: Settings, queryEscape: string -> string, base64: string -> string)
    ensures SubDomainStep(conf, Example, 1, 0, "1.2.3.4", ExampleEnv(queryEscape, base64))
         == Step([Resolve("office.example.com")], false)
  {
    assert Hostname(Example, "office") == "office.example.com";
  }

  /** The scenario's first cycle: `home`'s three events, then `office`'s lookup. */
  lemma ExampleCycle(conf: Settings, queryEscape: string -> string, base64: string -> string)
    ensures var env := ExampleEnv(queryEscape, base64);
      Cycle(conf, Example, 0, env)
      == Step([Resolve("home.example.com"), Post(UpdateRequest(conf, Example, "home", "1.2.3.4", env)),
               Notify("home.example.com", "1.2.3.4")] + [Resolve("office.example.com")], false)
  {
    var env := ExampleEnv(queryEscape, base64);
    ExampleHome(conf, queryEscape, base64);
    ExampleOffice(conf, queryEscape, base64);
    assert SubDomainsFrom(conf, Example, 2, 0, "1.2.3.4", env) == Step([], false);
    assert [Resolve("office.example.com")] + [] == [Resolve("office.example.com")];
  }

  /**
    A single pass over `example.com` updates `home` once, leaves `office`
    alone and notifies `home.example.com -> 1.2.3.4` once.
   */
  lemma ExampleSinglePass(conf: Settings, cycles: nat, queryEscape: string -> string, base64: string -> string)
    ensures var env := ExampleEnv(queryEscape, base64);
      var run := Run(conf, Example, true, cycles, env);
      && run.exit == Completed
      && Select(run.trace, IsResolve) == [Resolve("home.example.com"), Resolve("office.example.com")]
      && Select(run.trace, IsPost) == [Post(UpdateRequest(conf, Example, "home", "1.2.3.4", env))]
      && Select(run.trace, IsNotify) == [Notify("home.example.com", "1.2.3.4")]
  {
    var env := ExampleEnv(queryEscape, base64);
    var lookup := Resolve("home.example.com");
    var request := Post(UpdateRequest(conf, Example, "home", "1.2.3.4", env));
    var notify := Notify("home.example.com", "1.2.3.4");
    var other := Resolve("office.example.com");
    var events := [lookup, request, notify] + [other];
    ExampleCycle(conf, queryEscape, base64);
    assert Run(conf, Example, true, cycles, env) == LoopRun(events, Completed) by {
      SinglePass(conf, Example, cycles, env);
    }
    assert Select(events, IsResolve) == [lookup, other] by {
      SelectConcat([lookup, request, notify], [other], IsResolve);
      SelectThree(lookup, request, notify, IsResolve);
      SelectOne(other, IsResolve);
    }
    assert Select(events, IsPost) == [request] by {
      SelectConcat([lookup, request, notify], [other], IsPost);
      SelectThree(lookup, request, notify, IsPost);
      SelectOne(other, IsPost);
    }
    assert Select(events, IsNotify) == [notify] by {
      SelectConcat([lookup, request, notify], [other], IsNotify);
      SelectThree(lookup, request, notify, IsNotify);
      SelectOne(other, IsNotify);
    }
  }
}
