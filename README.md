# Dinahosting update loop

A Dafny model of the dinahosting DNS handler of GoDNS, the
`Handler.DomainLoop` update loop in
`internal/handler/dinahosting/dinahosting_handler.go`, and proofs about it.

Each cycle the loop does the following:

- It sleeps for `Interval` seconds, except before the first cycle.
- It discovers the machine's public IP address. If that fails, it skips the rest of the cycle.
- It walks the domain's subdomains in their configured order.
- For each subdomain it resolves `sub + "." + domainName`. If the published
  address differs from the current one, it POSTs an update to the provider's
  `Domain_Zone_UpdateTypeA` URL. It notifies only when the response body
  contains `"responseCode":1000`.

With `runOnce` the loop makes exactly one pass. Otherwise it never returns.
A panic anywhere in a cycle is recovered by the deferred handler, which sends
the domain on `panicChan` once; the loop then ends.

The model has three modules:

- `GoLibrary` holds the two library functions whose results drive decisions:
  - `strings.Contains`, together with a proof that it agrees with the positional definition of a substring;
  - `fmt.Sprintf` with `%s` verbs only.
- `DinahostingHandler` is the handler:
  - The data model. `Settings` and `Domain` are the settings. An `Env` gives the outcome of every collaborator call per cycle: returned, failed or panicked. An `Event` trace records what is observable: sleeps, lookups, update requests, notifications and the panic signal.
  - The meaning functions. `SubDomainStep` covers one subdomain, `SubDomainsFrom` the inner loop, `Cycle` one cycle, and `RunFrom`/`Run` the outer loop. Continuous mode is observed over its first `cycles` cycles.
  - The class `Handler`, whose imperative methods (`DomainLoop`, `Poll`, `UpdateSubDomains`, `UpdateSubDomain`) are proved to compute those functions.
- `DinahostingProperties` holds what the loop promises, proved about the meaning functions:
  - single-pass termination;
  - the sleep cadence;
  - the two kinds of skip;
  - ordering and isolation of the subdomains;
  - when an update is posted and when a notification is sent;
  - the panic signal, sent once and last;
  - that each cycle uses only fresh results;
  - a worked example.

The HTTP status is never tested: a body containing the success marker
counts as success whatever the status, which is only logged
(`StatusNotConsulted`).

## Model

| member | source | states |
|---|---|---|
| DinahostingHandler.Handler.SetConfiguration | internal/handler/dinahosting/dinahosting_handler.go:31-33 | the handler afterwards holds exactly the given settings |
| DinahostingHandler.Handler.DomainLoop | internal/handler/dinahosting/dinahosting_handler.go:36-121 | the trace and exit of the loop equal `Run`. `looping` is true at the start of every cycle but the first, so only those cycles sleep. The post statement `while = !runOnce` ends a single pass even after the `continue` of a failed IP discovery. A panic ends the loop with one panic signal |
| DinahostingHandler.Handler.Poll | internal/handler/dinahosting/dinahosting_handler.go:54-119 | one cycle after the sleep equals `Cycle`: a failed discovery produces nothing, a panicking one faults, otherwise the subdomains are walked with the discovered address |
| DinahostingHandler.Handler.UpdateSubDomains | internal/handler/dinahosting/dinahosting_handler.go:64-119 | the inner `for` loop equals `SubDomainsFrom` from the first subdomain: each subdomain's events in configured order, cut short only by a panic |
| DinahostingHandler.Handler.UpdateSubDomain | internal/handler/dinahosting/dinahosting_handler.go:65-117 | the body for one subdomain equals `SubDomainStep`, each `continue` and the no-change branch included |
| DinahostingHandler.UrlTemplateFilled | internal/handler/dinahosting/dinahosting_handler.go:76-80 | the `DinahostingUrl` template has exactly three `%s` verbs, filled in order with domain, hostname and IP between the literal parts |
| DinahostingHandler.NotifyHostIsHostname | internal/handler/dinahosting/dinahosting_handler.go:117 | `fmt.Sprintf("%s.%s", sub, domainName)` is `sub + "." + domainName` |
| DinahostingHandler.NotifiedHost | internal/handler/dinahosting/dinahosting_handler.go:117 | the notified name is the hostname that was resolved on line 65 |
| DinahostingHandler.UpdateRequestShape | internal/handler/dinahosting/dinahosting_handler.go:76-94 | the update request is a POST. Its URL is the template filled with the escaped domain, subdomain and IP. Content-Type is application/json. User-Agent is present exactly when one is configured. Authorization is `"Basic " + base64(email + ":" + password)` |
| DinahostingHandler.CalmCycleAdvancesRun | internal/handler/dinahosting/dinahosting_handler.go:46-53 | a cycle without panic adds its sleep and events to the trace. A single pass then completes; a continuous loop goes on with the next cycle |
| DinahostingHandler.PanicEndsRun | internal/handler/dinahosting/dinahosting_handler.go:37-42 | a panicking cycle ends the run as Recovered, its events followed by one panic signal carrying the domain |
| DinahostingProperties.StepShape | internal/handler/dinahosting/dinahosting_handler.go:65-117 | a subdomain's events are exactly the lookup, then the update request when the address changed and the request was built, then the notification when the update succeeded. It faults exactly when the resolver or the exchange panics |
| DinahostingProperties.StepResolvesOnce | internal/handler/dinahosting/dinahosting_handler.go:65-70 | every subdomain is looked up exactly once, first, under `sub + "." + domainName` |
| DinahostingProperties.NoUpdateWhenUnchanged | internal/handler/dinahosting/dinahosting_handler.go:72-74 | when the published address equals the current one, only the lookup happens: no POST and no notification |
| DinahostingProperties.PostsExactlyWhenChanged | internal/handler/dinahosting/dinahosting_handler.go:73-97 | the update request is sent once exactly when the address changed and the request was built, and never otherwise |
| DinahostingProperties.NotifiesExactlyWhenUpdated | internal/handler/dinahosting/dinahosting_handler.go:81-117 | the notification `(sub + "." + domainName, currentIP)` is sent once exactly when the address differed, the request was built, the transport succeeded, the body was read and contains the success marker; otherwise none |
| DinahostingProperties.StatusNotConsulted | internal/handler/dinahosting/dinahosting_handler.go:106-114 | two exchanges that differ only in the HTTP status give the same step: only the body decides |
| DinahostingProperties.LookupFailureSkipsOnlyThatSubDomain | internal/handler/dinahosting/dinahosting_handler.go:66-70 | a failed lookup records the lookup and goes straight on with the next subdomain |
| DinahostingProperties.SubDomainsInOrder | internal/handler/dinahosting/dinahosting_handler.go:64-70 | the lookups of a walk are a prefix of the subdomains' hostnames in configured order, and all of them when no panic occurs, failed lookups and failed updates included |
| DinahostingProperties.CycleNotifications | internal/handler/dinahosting/dinahosting_handler.go:64-119 | in a walk without panic, the notifications are exactly those of the updated subdomains, in order |
| DinahostingProperties.StepEventsAreSubDomainEvents | internal/handler/dinahosting/dinahosting_handler.go:65-117 | a subdomain produces only lookups, update requests and notifications |
| DinahostingProperties.StepNeitherSleepsNorSignals | internal/handler/dinahosting/dinahosting_handler.go:65-117 | a subdomain's events hold no sleep and no panic signal |
| DinahostingProperties.SubDomainsNeitherSleepNorSignal | internal/handler/dinahosting/dinahosting_handler.go:64-119 | the inner loop neither sleeps nor signals a panic |
| DinahostingProperties.CycleNeitherSleepsNorSignals | internal/handler/dinahosting/dinahosting_handler.go:53-119 | a cycle's own events hold no sleep and no panic signal; both belong to the outer loop |
| DinahostingProperties.DiscoveryFailureSkipsCycle | internal/handler/dinahosting/dinahosting_handler.go:54-59 | when IP discovery fails the cycle does no lookup, no POST and no notification, and does not fault |
| DinahostingProperties.CalmSubDomainsDoNotFault | internal/handler/dinahosting/dinahosting_handler.go:64-119 | without a panicking collaborator the inner loop never ends abnormally, whatever the errors |
| DinahostingProperties.CalmCycleDoesNotFault | internal/handler/dinahosting/dinahosting_handler.go:54-119 | without a panicking collaborator, a cycle never ends abnormally |
| DinahostingProperties.SubDomainsAreFresh | internal/handler/dinahosting/dinahosting_handler.go:64-73 | the inner loop depends only on the current cycle's outcomes |
| DinahostingProperties.CycleIsFresh | internal/handler/dinahosting/dinahosting_handler.go:44-73 | nothing is carried between cycles: a cycle depends only on that cycle's discovery, lookups and exchanges, so each comparison uses a freshly resolved address |
| DinahostingProperties.SinglePass | internal/handler/dinahosting/dinahosting_handler.go:46-59 | with `runOnce` the loop performs exactly one cycle, even one whose discovery failed, never sleeps, and completes unless that cycle panicked |
| DinahostingProperties.ScheduleStep | internal/handler/dinahosting/dinahosting_handler.go:46-53 | one cycle without panic moves a continuous loop one cycle along its schedule |
| DinahostingProperties.RunFromFollowsSchedule | internal/handler/dinahosting/dinahosting_handler.go:46-53 | from any cycle on, a continuous loop without panic follows the schedule of sleep-then-cycle and keeps polling |
| DinahostingProperties.ContinuousRunFollowsSchedule | internal/handler/dinahosting/dinahosting_handler.go:44-53 | the first n cycles of a continuous loop without panic are the schedule, and the loop is still polling after them |
| DinahostingProperties.SleepCadence | internal/handler/dinahosting/dinahosting_handler.go:44-53 | there is no sleep before the first cycle, and the first n cycles hold exactly n - 1 sleeps, each of `Interval` seconds |
| DinahostingProperties.DiscoveryFailureContinues | internal/handler/dinahosting/dinahosting_handler.go:54-59 | after a failed IP discovery a continuous loop goes on with the next cycle |
| DinahostingProperties.QuietCycle | internal/handler/dinahosting/dinahosting_handler.go:47-119 | a cycle holds no panic signal before the loop's own |
| DinahostingProperties.PanicSignalledOnce | internal/handler/dinahosting/dinahosting_handler.go:36-42 | the domain is sent on `panicChan` exactly once when the loop ended by recovering, and never otherwise |
| DinahostingProperties.PanicSignalIsLast | internal/handler/dinahosting/dinahosting_handler.go:37-42 | after a recovered panic, the signal is the last thing the loop does |
| DinahostingProperties.CalmLoopKeepsPolling | internal/handler/dinahosting/dinahosting_handler.go:46-119 | if no collaborator panics in the first n cycles, a continuous loop is still polling after them and has sent no panic signal |
| DinahostingProperties.ExampleHome | internal/handler/dinahosting/dinahosting_handler.go:64-117 | in the example.com scenario, `home` (published 1.2.3.3, current 1.2.3.4) is looked up, updated and notified |
| DinahostingProperties.ExampleOffice | internal/handler/dinahosting/dinahosting_handler.go:72-74 | in the example.com scenario, `office` (already 1.2.3.4) is only looked up |
| DinahostingProperties.ExampleCycle | internal/handler/dinahosting/dinahosting_handler.go:54-119 | in the example.com scenario the first cycle is home's lookup, update and notification, then office's lookup, without panic |
| DinahostingProperties.ExampleSinglePass | internal/handler/dinahosting/dinahosting_handler.go:36-121 | a single pass over example.com looks up home then office, posts one update (for home) and sends one notification, home.example.com to 1.2.3.4 |
| GoLibrary.ContainsIffOccurs | internal/handler/dinahosting/dinahosting_handler.go:107 | the recursive `strings.Contains` holds exactly when the marker occurs at some position of the body |
| GoLibrary.SprintfThree | internal/handler/dinahosting/dinahosting_handler.go:76-80 | a template with three `%s` verbs between literal texts formats to those texts with the three arguments inserted in order |

## Left out

- Request construction (`http.NewRequest`) and network I/O (`utils.GetCurrentIP`, `utils.ResolveDNS`, `utils.GetHttpClient`, `client.Do`) are not modelled. Their outcomes are inputs: an `Env` gives each call's result per cycle, whether it returned, failed or panicked.
- `time.Sleep` and the clock are not modelled. A sleep is a `Sleep(Interval)` event. The possible overflow of `time.Second * time.Duration(Interval)` is not modelled; the interval is an unbounded integer.
- `url.QueryEscape` and `base64.StdEncoding.EncodeToString` are uninterpreted functions given by the `Env`. Their encodings are not modelled.
- `fmt.Sprintf` is modelled for `%s` verbs with string arguments only, the only use the loop makes of it.
- Logging (logrus) and `debug.Stack()` are left out: they have no effect on behaviour.
- Only the notification manager's `Send` call is modelled, as a `Notify` event. The manager's internals are not modelled, nor a panic inside `Send`.
- Go's channel semantics are not modelled. The send on `panicChan` is one `PanicSignal` event, and blocking on the channel and goroutine scheduling are left out.
- `defer resp.Body.Close()` is left out, as is its deferral to the end of the function: it is resource handling.
- Continuous mode never returns, so `Run` observes its first `cycles` cycles; it reports `StillPolling` when the bound is reached. A single pass ignores the bound.
- A panic is modelled only where a collaborator call with an outcome panics: IP discovery, a lookup, or the update exchange. Dereferencing a nil configuration or nil domain is not modelled, and neither are panics inside `GetHttpClient`, `QueryEscape`, `Sprintf` or base64.
- A panic ends the model at once with the `Recovered` exit. This matches Go unwinding to the deferred `recover`, which sends the domain and returns.
- Settings loading and validation are left out. The `Resolver`, `IPType` and `UseProxy` settings are read only by the collaborators, so the model's `Settings` keeps just `Interval`, `UserAgent`, `Email` and `Password`.
- DNS lookups are keyed by cycle and hostname, so a subdomain label configured twice gets the same lookup outcome both times in one cycle, where two calls of `utils.ResolveDNS` could answer differently.
- `Post` events carry the whole request built for a subdomain (verb, URL and headers), not only the (domain, subdomain, IP) triple; `UpdateRequestShape` relates the two.
- `DinahostingUrl` is written as a concatenation of short pieces that spell out exactly the Go literal.
