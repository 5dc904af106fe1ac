/**
  The update loop of the dinahosting DNS handler (`Handler.DomainLoop`).

  Every collaborator the loop calls (public-IP discovery, DNS resolution,
  the HTTP exchange with the provider, URL query escaping and base64) is an
  input: an `Env` gives, for each poll cycle, the outcome of each call.
  What the loop does with those outcomes is recorded as a trace of events.
  The loop itself is the method `Handler.DomainLoop`; its meaning is the
  function `Run`, which the properties module reasons about.
 */
module DinahostingHandler {
  import opened GoLibrary

  /** The part of `settings.Settings` that the loop reads itself. */
  datatype Settings = Settings(interval: int, userAgent: string, email: string, password: string)

  /** `settings.Domain`: a registered domain and its subdomain labels, in order. */
  datatype Domain = Domain(domainName: string, subDomains: seq<string>)

  /** A collaborator call either returns a value, returns an error, or panics. */
  datatype Outcome<T> = Ok(value: T) | Failed | Fault

  /**
    The three steps of one update call: building the request
    (`http.NewRequest`), the transport (`client.Do`) and reading the body.
    `status` is the HTTP status line; the handler only logs it.
   */
  datatype PostOutcome =
    | RequestInvalid                         // http.NewRequest returned an error
    | TransportFailed                        // client.Do returned an error
    | BodyUnreadable(status: string)         // ioutil.ReadAll returned an error
    | Responded(status: string, body: string)
    | PostFault                              // the exchange panicked

  /** The collaborators, as functions of the poll cycle (0, 1, 2, ...). */
  datatype Env = Env(
    currentIP: nat -> Outcome<string>,          // utils.GetCurrentIP in cycle c
    resolve: (nat, string) -> Outcome<string>,  // utils.ResolveDNS of a hostname in cycle c
    post: (nat, nat) -> PostOutcome,            // the update call for the k-th subdomain in cycle c
    queryEscape: string -> string,              // url.QueryEscape
    base64: string -> string)                   // base64.StdEncoding.EncodeToString of the bytes

  datatype Header = Header(name: string, value: string)

  /** An HTTP request: verb, URL and headers in the order they were added. */
  datatype Request = Request(verb: string, url: string, headers: seq<Header>)

  /** What the loop does that can be observed from outside. */
  datatype Event =
    | Sleep(seconds: int)                // time.Sleep(Interval seconds)
    | Resolve(host: string)              // a DNS lookup of host
    | Post(request: Request)             // the update request handed to the client
    | Notify(host: string, ip: string)   // the notification manager's Send
    | PanicSignal(domain: Domain)        // the recovered panic sent on panicChan

  /** How `DomainLoop` left off: it returned, it recovered from a panic, or it was still polling when the cycle bound was reached. */
  datatype Exit = Completed | Recovered | StillPolling

  /** The events of a cycle (or part of one), and whether it ended in a panic. */
  datatype Step = Step(events: seq<Event>, faulted: bool)

  /** The events of the first cycles of a loop and how it left off. */
  datatype LoopRun = LoopRun(trace: seq<Event>, exit: Exit)

  /** The template up to its first placeholder (written in pieces only to keep literals short). */
  const UrlBase := "https://dinahosting.com/special/" + "api.php?command=Domain_Zone_" + "UpdateTypeA&domain="

  /**
    The provider's URL template,
    `https://dinahosting.com/special/api.php?command=Domain_Zone_UpdateTypeA&domain=%s&hostname=%s&ip=%s&responseType=Json`.
   */
  const DinahostingUrl := UrlBase + ("%s" + ("&hostname=" + ("%s" + ("&ip=" + ("%s" + "&responseType=Json")))))

  /** The literal whose presence in the body signals a successful update. */
  const SuccessMarker := "\"responseCode\":1000"

  /** The three placeholders of the template are, in order, the domain, the hostname and the IP. */
  lemma UrlTemplateFilled(domain: string, hostname: string, ip: string)
    ensures OnlyStringVerbs(DinahostingUrl) && Verbs(DinahostingUrl) == 3
    ensures Sprintf(DinahostingUrl, [domain, hostname, ip])
         == UrlBase + (domain + ("&hostname=" + (hostname + ("&ip=" + (ip + "&responseType=Json")))))
  {
    assert '%' !in UrlBase && '%' !in "&hostname=" && '%' !in "&ip=" && '%' !in "&responseType=Json";
    SprintfThree(UrlBase, "&hostname=", "&ip=", "&responseType=Json", domain, hostname, ip);
  }

  /** The notified name `fmt.Sprintf("%s.%s", subDomain, domainName)` is the resolved hostname. */
  lemma NotifyHostIsHostname(subDomain: string, domainName: string)
    ensures OnlyStringVerbs("%s.%s") && Verbs("%s.%s") == 2
    ensures Sprintf("%s.%s", [subDomain, domainName]) == subDomain + "." + domainName
  {
    SprintfNoVerbs("");
    SprintfVerb(domainName, "", []);
    SprintfLiteral(".", "%s", [domainName]);
    SprintfVerb(subDomain, ".%s", [domainName]);
    assert "%s" + "" == "%s" && "." + "%s" == ".%s" && "%s" + ".%s" == "%s.%s";
    assert [subDomain] + [domainName] == [subDomain, domainName];
  }

  /** The name a subdomain is resolved and notified under. */
  function Hostname(domain: Domain, subDomain: string): string {
    subDomain + "." + domain.domainName
  }

  /** The string the notification manager is told was updated. */
  function NotifiedHost(domain: Domain, subDomain: string): (host: string)
    ensures host == Hostname(domain, subDomain)
  {
    NotifyHostIsHostname(subDomain, domain.domainName);
    Sprintf("%s.%s", [subDomain, domain.domainName])
  }

  /** The provider accepted the update. The HTTP status is not part of the test. */
  predicate IsSuccess(body: string) {
    Contains(body, SuccessMarker)
  }

  /** The values of the headers named `name`, in the order they were added (`Header.Values`). */
  function HeaderValues(headers: seq<Header>, name: string): seq<string>
    decreases |headers|
  {
    if headers == [] then []
    else (if headers[0].name == name then [headers[0].value] else []) + HeaderValues(headers[1..], name)
  }

  /**
    The update request for one subdomain: a POST to the template filled with
    the escaped domain, subdomain and IP, a JSON content type, the user agent
    when one is configured, and basic authentication.
   */
  function UpdateRequest(conf: Settings, domain: Domain, subDomain: string, currentIP: string, env: Env): Request {
    var escaped := [env.queryEscape(domain.domainName), env.queryEscape(subDomain), env.queryEscape(currentIP)];
    UrlTemplateFilled(escaped[0], escaped[1], escaped[2]);
    var agent := if conf.userAgent != "" then [Header("User-Agent", conf.userAgent)] else [];
    var auth := "Basic " + env.base64(conf.email + ":" + conf.password);
    Request("POST", Sprintf(DinahostingUrl, escaped),
            [Header("Content-Type", "application/json")] + agent + [Header("Authorization", auth)])
  }

  /** The update request's verb, URL and headers, as the provider's API expects them. */
  lemma UpdateRequestShape(conf: Settings, domain: Domain, subDomain: string, currentIP: string, env: Env)
    ensures var r := UpdateRequest(conf, domain, subDomain, currentIP, env);
      && r.verb == "POST"
      && r.url == UrlBase + (env.queryEscape(domain.domainName) + ("&hostname=" + (env.queryEscape(subDomain)
                  + ("&ip=" + (env.queryEscape(currentIP) + "&responseType=Json")))))
      && HeaderValues(r.headers, "Content-Type") == ["application/json"]
      && HeaderValues(r.headers, "User-Agent") == (if conf.userAgent == "" then [] else [conf.userAgent])
      && HeaderValues(r.headers, "Authorization") == ["Basic " + env.base64(conf.email + ":" + conf.password)]
  {
    var r := UpdateRequest(conf, domain, subDomain, currentIP, env);
    UrlTemplateFilled(env.queryEscape(domain.domainName), env.queryEscape(subDomain), env.queryEscape(currentIP));
    var contentType := Header("Content-Type", "application/json");
    var agent := if conf.userAgent != "" then [Header("User-Agent", conf.userAgent)] else [];
    var auth := Header("Authorization", "Basic " + env.base64(conf.email + ":" + conf.password));
    assert r.headers == [contentType] + agent + [auth];
    assert [contentType][1..] == [] && [auth][1..] == [] && (agent != [] ==> agent[1..] == []);
    forall name: string ensures HeaderValues(r.headers, name)
        == HeaderValues([contentType], name) + HeaderValues(agent, name) + HeaderValues([auth], name)
    {
      HeaderValuesConcat([contentType] + agent, [auth], name);
      HeaderValuesConcat([contentType], agent, name);
    }
  }

  /** `Header.Values` of headers added in two batches. */
  lemma {:induction false} HeaderValuesConcat(a: seq<Header>, b: seq<Header>, name: string)
    ensures HeaderValues(a + b, name) == HeaderValues(a, name) + HeaderValues(b, name)
    decreases |a|
  {
    if a == [] {
      assert a + b == b;
    } else {
      assert (a + b)[1..] == a[1..] + b;
      HeaderValuesConcat(a[1..], b, name);
    }
  }

  /** What the k-th subdomain contributes to a cycle whose discovered IP is `currentIP`. */
  function SubDomainStep(conf: Settings, domain: Domain, k: nat, cycle: nat, currentIP: string, env: Env): Step
    requires k < |domain.subDomains|
  {
    var subDomain := domain.subDomains[k];
    var host := Hostname(domain, subDomain);
    match env.resolve(cycle, host)
    case Fault => Step([Resolve(host)], true)
    case Failed => Step([Resolve(host)], false)
    case Ok(lastIP) =>
      if currentIP == lastIP then Step([Resolve(host)], false)
      else
        var post := Post(UpdateRequest(conf, domain, subDomain, currentIP, env));
        match env.post(cycle, k)
        case RequestInvalid => Step([Resolve(host)], false)
        case TransportFailed => Step([Resolve(host), post], false)
        case BodyUnreadable(_) => Step([Resolve(host), post], false)
        case PostFault => Step([Resolve(host), post], true)
        case Responded(_, body) =>
          if IsSuccess(body) then Step([Resolve(host), post, Notify(NotifiedHost(domain, subDomain), currentIP)], false)
          else Step([Resolve(host), post], false)
  }

  /** The subdomains from the k-th on, in order; a panic ends the walk. */
  function SubDomainsFrom(conf: Settings, domain: Domain, k: nat, cycle: nat, currentIP: string, env: Env): Step
    requires k <= |domain.subDomains|
    decreases |domain.subDomains| - k
  {
    if k == |domain.subDomains| then Step([], false)
    else
      var step := SubDomainStep(conf, domain, k, cycle, currentIP, env);
      if step.faulted then step
      else
        var rest := SubDomainsFrom(conf, domain, k + 1, cycle, currentIP, env);
        Step(step.events + rest.events, rest.faulted)
  }

  /** One poll cycle: discover the current IP, then walk the subdomains. */
  function Cycle(conf: Settings, domain: Domain, cycle: nat, env: Env): Step {
    match env.currentIP(cycle)
    case Fault => Step([], true)
    case Failed => Step([], false)
    case Ok(ip) => SubDomainsFrom(conf, domain, 0, cycle, ip, env)
  }

  /** The sleep that precedes cycle `cycle`: none before the first. */
  function Pause(conf: Settings, cycle: nat): seq<Event> {
    if cycle > 0 then [Sleep(conf.interval)] else []
  }

  /**
    The loop from cycle `cycle` on. In continuous mode at most `fuel` more
    cycles are taken; a single pass ignores `fuel`. Every cycle but the first
    starts with a sleep; a panic ends the loop with one panic signal.
   */
  function RunFrom(conf: Settings, domain: Domain, runOnce: bool, cycle: nat, fuel: nat, env: Env): LoopRun
    decreases fuel
  {
    if !runOnce && fuel == 0 then LoopRun([], StillPolling)
    else
      var pause := Pause(conf, cycle);
      var step := Cycle(conf, domain, cycle, env);
      if step.faulted then LoopRun(pause + step.events + [PanicSignal(domain)], Recovered)
      else if runOnce then LoopRun(pause + step.events, Completed)
      else
        var rest := RunFrom(conf, domain, runOnce, cycle + 1, fuel - 1, env);
        LoopRun(pause + step.events + rest.trace, rest.exit)
  }

  /** `DomainLoop` observed over its first `cycles` cycles (all of it, for a single pass). */
  function Run(conf: Settings, domain: Domain, runOnce: bool, cycles: nat, env: Env): LoopRun {
    RunFrom(conf, domain, runOnce, 0, cycles, env)
  }

  /** `events` followed by the events of `step`. */
  function After(events: seq<Event>, step: Step): Step {
    Step(events + step.events, step.faulted)
  }

  /** `trace` followed by the trace of `run`. */
  function Prefixed(trace: seq<Event>, run: LoopRun): LoopRun {
    LoopRun(trace + run.trace, run.exit)
  }

  class Handler {
    var configuration: Settings

    /** Stores the settings the loops of this handler read. */
    method SetConfiguration(conf: Settings)
      modifies this
      ensures configuration == conf
    {
      configuration := conf;
    }

    /**
      The walk over the subdomains of one cycle (the inner `for` loop).
      A panic of a collaborator returns at once with `faulted`, as Go unwinds
      to the deferred recover of `DomainLoop`.
     */
    method UpdateSubDomains(domain: Domain, cycle: nat, currentIP: string, env: Env)
      returns (events: seq<Event>, faulted: bool)
      ensures Step(events, faulted) == SubDomainsFrom(configuration, domain, 0, cycle, currentIP, env)
    {
      events := [];
      for k := 0 to |domain.subDomains|
        invariant SubDomainsFrom(configuration, domain, 0, cycle, currentIP, env)
               == After(events, SubDomainsFrom(configuration, domain, k, cycle, currentIP, env))
      {
        var stepEvents, stepFaulted := UpdateSubDomain(domain, k, cycle, currentIP, env);
        assert SubDomainsFrom(configuration, domain, k, cycle, currentIP, env)
            == if stepFaulted then Step(stepEvents, true)
               else After(stepEvents, SubDomainsFrom(configuration, domain, k + 1, cycle, currentIP, env));
        events := events + stepEvents;
        if stepFaulted {
          return events, true;
        }
      }
      faulted := false;
    }

    /**
      One cycle after the sleep: discover the public address, then walk the
      subdomains with it. A failed discovery skips the walk (the source's
      `continue`); a panic of the discovery returns at once with `faulted`.
     */
    method Poll(domain: Domain, cycle: nat, env: Env) returns (events: seq<Event>, faulted: bool)
      ensures Step(events, faulted) == Cycle(configuration, domain, cycle, env)
    {
      var discovered := env.currentIP(cycle);
      match discovered {
        case Fault =>
          events, faulted := [], true;
        case Failed =>
          events, faulted := [], false;
        case Ok(currentIP) =>
          events, faulted := UpdateSubDomains(domain, cycle, currentIP, env);
      }
    }

    /**
      The body of the inner loop for the k-th subdomain; each early `return`
      is one of the source's `continue` statements, or a panic.
     */
    method UpdateSubDomain(domain: Domain, k: nat, cycle: nat, currentIP: string, env: Env)
      returns (events: seq<Event>, faulted: bool)
      requires k < |domain.subDomains|
      ensures Step(events, faulted) == SubDomainStep(configuration, domain, k, cycle, currentIP, env)
    {
      var subDomain := domain.subDomains[k];
      var hostname := subDomain + "." + domain.domainName;
      events, faulted := [Resolve(hostname)], false;
      var lastIP := env.resolve(cycle, hostname);
      if lastIP.Fault? {
        return events, true;
      }
      if lastIP.Failed? {
        return;
      }
      if currentIP == lastIP.value {
        // unchanged: skip the update
        return;
      }
      var exchange := env.post(cycle, k);
      if exchange.RequestInvalid? {
        return;
      }
      events := events + [Post(UpdateRequest(configuration, domain, subDomain, currentIP, env))];
      if exchange.PostFault? {
        return events, true;
      }
      if exchange.TransportFailed? || exchange.BodyUnreadable? || !IsSuccess(exchange.body) {
        return;
      }
      events := events + [Notify(NotifiedHost(domain, subDomain), currentIP)];
    }

    /**
      `DomainLoop(domain, panicChan, runOnce)`, observed over its first
      `cycles` cycles when it runs continuously. `running` is the Go loop
      variable `while`, whose post statement `while = !runOnce` also runs
      after a `continue`.
     */
    method DomainLoop(domain: Domain, runOnce: bool, cycles: nat, env: Env)
      returns (trace: seq<Event>, exit: Exit)
      ensures LoopRun(trace, exit) == Run(configuration, domain, runOnce, cycles, env)
    {
      var conf := configuration;
      trace := [];
      var looping := false;
      var running := true;
      var cycle: nat := 0;
      while running && (runOnce || cycle < cycles)
        invariant looping <==> cycle > 0
        invariant running ==> cycle <= cycles
        invariant running ==> Run(conf, domain, runOnce, cycles, env)
                              == Prefixed(trace, RunFrom(conf, domain, runOnce, cycle, cycles - cycle, env))
        invariant !running ==> runOnce && Run(conf, domain, runOnce, cycles, env) == LoopRun(trace, Completed)
        decreases running, cycles - cycle
      {
        ghost var before := trace;
        if looping {
          trace := trace + [Sleep(conf.interval)];
        }
        assert trace == before + Pause(conf, cycle);
        looping := true;
        var events, faulted := Poll(domain, cycle, env);
        if faulted {
          // the panic unwinds to the deferred recover, which sends the domain on panicChan
          PanicEndsRun(conf, domain, runOnce, cycles, env, cycle, before, events);
          return trace + events + [PanicSignal(domain)], Recovered;
        }
        CalmCycleAdvancesRun(conf, domain, runOnce, cycles, env, cycle, before, events);
        trace := trace + events;
        // reached at the end of the body and by the `continue` after a failed
        // IP discovery alike: the post statement `while = !runOnce` runs
        cycle, running := cycle + 1, !runOnce;
      }
      exit := if running then StillPolling else Completed;
    }
  }

  /** One unfolding of `RunFrom`, with the sleep and the cycle's events regrouped for the loop's invariant. */
  lemma RunFromCycle(conf: Settings, domain: Domain, runOnce: bool, cycle: nat, fuel: nat, env: Env)
    requires runOnce || fuel > 0
    ensures var pause := Pause(conf, cycle);
      var step := Cycle(conf, domain, cycle, env);
      RunFrom(conf, domain, runOnce, cycle, fuel, env)
      == if step.faulted then LoopRun(pause + step.events + [PanicSignal(domain)], Recovered)
         else if runOnce then LoopRun(pause + step.events, Completed)
         else Prefixed(pause + step.events, RunFrom(conf, domain, runOnce, cycle + 1, fuel - 1, env))
  {
  }

  /** A cycle without panic extends the trace by its sleep and its events, and the loop goes on unless it runs once. */
  lemma CalmCycleAdvancesRun(conf: Settings, domain: Domain, runOnce: bool, cycles: nat, env: Env,
                             cycle: nat, before: seq<Event>, events: seq<Event>)
    requires cycle <= cycles && (runOnce || cycle < cycles)
    requires Run(conf, domain, runOnce, cycles, env) == Prefixed(before, RunFrom(conf, domain, runOnce, cycle, cycles - cycle, env))
    requires Cycle(conf, domain, cycle, env) == Step(events, false)
    ensures runOnce ==> Run(conf, domain, runOnce, cycles, env) == LoopRun(before + Pause(conf, cycle) + events, Completed)
    ensures !runOnce ==> Run(conf, domain, runOnce, cycles, env)
                         == Prefixed(before + Pause(conf, cycle) + events, RunFrom(conf, domain, runOnce, cycle + 1, cycles - (cycle + 1), env))
  {
    RunFromCycle(conf, domain, runOnce, cycle, cycles - cycle, env);
    if runOnce {
      assert before + (Pause(conf, cycle) + events) == before + Pause(conf, cycle) + events;
    } else {
      PrefixedTwice(before, Pause(conf, cycle) + events, RunFrom(conf, domain, runOnce, cycle + 1, cycles - (cycle + 1), env));
      assert before + (Pause(conf, cycle) + events) == before + Pause(conf, cycle) + events;
    }
  }

  /** A cycle that panics ends the loop: its events are followed by one panic signal. */
  lemma PanicEndsRun(conf: Settings, domain: Domain, runOnce: bool, cycles: nat, env: Env,
                     cycle: nat, before: seq<Event>, events: seq<Event>)
    requires cycle <= cycles && (runOnce || cycle < cycles)
    requires Run(conf, domain, runOnce, cycles, env) == Prefixed(before, RunFrom(conf, domain, runOnce, cycle, cycles - cycle, env))
    requires Cycle(conf, domain, cycle, env) == Step(events, true)
    ensures Run(conf, domain, runOnce, cycles, env) == LoopRun(before + Pause(conf, cycle) + events + [PanicSignal(domain)], Recovered)
  {
    RunFromCycle(conf, domain, runOnce, cycle, cycles - cycle, env);
    assert before + (Pause(conf, cycle) + events + [PanicSignal(domain)]) == before + Pause(conf, cycle) + events + [PanicSignal(domain)];
  }

  /** Prefixing twice is prefixing once with the concatenation. */
  lemma PrefixedTwice(a: seq<Event>, b: seq<Event>, run: LoopRun)
    ensures Prefixed(a, Prefixed(b, run)) == Prefixed(a + b, run)
  {
    assert a + (b + run.trace) == (a + b) + run.trace;
  }
}
