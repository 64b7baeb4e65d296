# Verified model of the matcher bootstrap

A Dafny model of the logic that starts the matcher service and keeps it running: the redaction of logged
errors, the readiness and self probes, hot reload of the configuration, the cached tenant and fetcher
infrastructure and the handlers that use it, the pool metrics, the migration guard, the outbox handlers, the
protected routes, the connection strings, and the start-up of telemetry. Each module is one
component; `dafny verify dfyconfig.toml` checks the whole project.

How the code is modelled:

- Code that updates variables or fields step by step is a method with loops or a class, proved against a
  specification function (`Redactor.Sanitize`, `HotReload.Manager`, `TenantProvider.Provider`,
  `RedisCounters.Collector`, `DbCounters.Collector`, `Migrations.Migrator`, `AuthChain`, `Routes.Registry`).
- Goroutines, channels, locks and timers are step machines: a state, the steps that are possible in it, and
  what each step does. Theorems range over every sequence of possible steps, so over every interleaving
  (`Readiness`, `ReloadRuns`, `TenantHandler`, `TenantRequests`, `CorsHandler`, `Telemetry`).
- Calls into libraries, the database, the network and the clock are parameters: what a probe does, whether a
  build succeeds, what a migration step leaves behind, what a pool reports, what decoding a payload yields.

Where a wanted property does not hold of the code, the code is modelled as it is, the exact condition is
proved, and a lemma shows the failing case:

- A credential after `bearer ` or `basic ` is logged when its keyword is taken for the value of an earlier
  keyword, as in `token=Bearer abc` (`ShownValues.TokenBearerAbc`, `Credentials.PlainValuesHiddenExactly`,
  `CarriedCredentials.BasicValuesHiddenExactly`). A value of `basic ` that ends in `bearer` takes the next word with it
  (`Keywords.ValuesAreReplaced`). A quoted value is not a value to the redactor and is logged
  (`ShownValues.QuotedHunter`, `ShownValues.QuotedIsShownExactly`).
- Overlapping reloads can lose an update, because each one reads the configuration, works on a copy and
  stores it (`ReloadRuns.OverlapLosesUpdate`, `ReloadRuns.PublishedIsCurrentExactly`). A key that stops being
  readable keeps its override (`ReloadRuns.RemovedKeyKeepsOverride`); a reload that nothing overlaps converges exactly when no such
  override is left (`ReloadRuns.ReloadConvergesExactly`), so always if no watched key stops being readable
  (`ReloadRuns.LastReloadConverges`).
- Bars in environment names can give two tenant configurations one key (`CacheKeys.BarsInNamesCollide`,
  `CacheKeys.CollidesExactly`).
- The tenant loader keeps using the client of the first manager after that has been closed
  (`TenantProvider.LoaderClientOpenExactly`).
- A request can be served with a manager that has been closed since its lookup
  (`TenantRequests.ServedByClosedManager`, `TenantRequests.ServingManagerOpenExactly`).
- A CORS policy whose handler cannot be built leaves the lock held, and from then on only requests for the
  active policy are served (`CorsJams.BadPolicyJams`, `CorsJams.JamsExactly`,
  `CorsJams.ServedAfterJamExactly`).
- A resolver replaced after a reading but before its identity is known is undercounted
  (`DbCounters.UnnoticedChangeFallsShort`, `DbCounters.TotalsAreEpochTotals`).
- The recovery of a dirty database assumes that the failed migration went up. After a failed rollback from
  23 to 22 it forces version 21 (`Migrations.RecoveryAfterFailedRollbackFalls`,
  `Migrations.BelowExactlyWhenRecoveringAtGuard`). After a failed first migration it forces version 0, which
  nothing ever leaves (`Migrations.RecoveredFirstMigrationIsFinal`).
- White space in the fields of a connection string can change the sslmode that is read back
  (`DsnRoundTrip.RequiredTlsLooksOff`, `DsnRoundTrip.ModeSurvivesExactly`).

Where the code and its comments disagree, the model follows the code:

- A readiness probe that panics sends no outcome, although a comment says every probe sends one
  (`ReadinessVerdict.OnlyPanicsGoMissing`).
- A router whose protection failed still registers routes on the app, without guards; a comment says it
  registers nothing. Registration then reports an error, so the server does not start.
- Telemetry start-up is said to return an instance in all cases; it returns nil when the initialiser yields
  nil or panics in time, or when the disabled instance fails too (`Telemetry.NilExactlyWithoutInstance`).

## Model

| member | source | states |
|---|---|---|
| Redactor.FindValueEnd | internal/bootstrap/fiber_error_handler.go:158-167 | the scan stops at the first delimiter from the start position, or at the end of the message |
| Redactor.KeyAtIsLowerOccurrence | internal/bootstrap/fiber_error_handler.go:137-141 | searching the lower-cased copy is searching the message without regard to case |
| Redactor.SplicePattern | internal/bootstrap/fiber_error_handler.go:132-152 | the in-place loop ends, computes one pass over the message, and its lower-cased copy is the lower-casing of the result |
| Redactor.SpliceNext | internal/bootstrap/fiber_error_handler.go:137-152 | one turn of the loop ends it with the finished pass, or shortens the rest and keeps the pass over it as what is left to do |
| Redactor.SpliceAt | internal/bootstrap/fiber_error_handler.go:144-149 | one splice replaces keyword and value, in the message and in its lower-cased copy alike |
| Redactor.Sanitize | internal/bootstrap/fiber_error_handler.go:110-155 | the nested loops compute all seven passes in order; no error gives an empty message; what the passes do to the literal keywords is stated by `Keywords` |
| Redaction.PassCleans | internal/bootstrap/fiber_error_handler.go:132-152 | after its pass every occurrence of a keyword is followed by the marker and a delimiter or the end |
| Redaction.PassPreserves | internal/bootstrap/fiber_error_handler.go:132-152 | a later pass keeps what an earlier pass established for another keyword |
| Redaction.SanitizedIsClean | internal/bootstrap/fiber_error_handler.go:110-155 | in the output of every message each keyword of the list, in any case, is followed by the marker and then a delimiter or the end |
| Redaction.FixedPointsAreClean | internal/bootstrap/fiber_error_handler.go:110-155 | the messages left unchanged are exactly the clean ones |
| Redaction.SanitizedIsIdempotent | internal/bootstrap/fiber_error_handler.go:110-155 | redacting twice is redacting once |
| Redaction.SanitizedKeepsDelimiters | internal/bootstrap/fiber_error_handler.go:110-155 | the sequence of delimiters of the message is unchanged |
| Secrecy.PassConcat | internal/bootstrap/fiber_error_handler.go:132-152 | a pass treats the two sides of a delimiter independently, unless the delimiter is the space that completes a keyword |
| Secrecy.NamedValuesDoNotShow | internal/bootstrap/fiber_error_handler.go:110-155 | two messages that differ only in the value after any occurrence of a `name=` keyword are logged identically |
| Schemes.PassOpen | internal/bootstrap/fiber_error_handler.go:132-152 | a space after an unfinished `bearer` or `basic` has the next word replaced, whatever it is |
| Schemes.OpenWord | internal/bootstrap/fiber_error_handler.go:132-152 | a word leaves a keyword unfinished exactly when it ends in it and is not itself a value |
| Credentials.OpenBearer | internal/bootstrap/fiber_error_handler.go:132-152 | the pass for `bearer ` finds an occurrence exactly when no `name=` keyword stands earlier in its word and the word is not the value of another such occurrence |
| Credentials.OpenBasic | internal/bootstrap/fiber_error_handler.go:132-152 | the same for `basic `, whose word must not be the value of a `bearer ` either |
| Credentials.SanitizedConcat | internal/bootstrap/fiber_error_handler.go:110-155 | what stands after a delimiter is logged as it would be alone, unless the delimiter is a space after a live `bearer` or `basic` |
| Credentials.ValuesDoNotShow | internal/bootstrap/fiber_error_handler.go:110-155 | for all seven keywords two messages that differ only in a value are logged identically: always for `name=`, and for the other two when the occurrence is live and both values carry a `bearer ` on or none does |
| Credentials.PlainValuesHiddenExactly | internal/bootstrap/fiber_error_handler.go:110-155 | two plain values after `bearer ` or `basic ` are logged identically if and only if the occurrence is live |
| CarriedCredentials.MarkerLeadsExactly | internal/bootstrap/fiber_error_handler.go:110-155 | a text is logged with the marker for its first word if and only if that is its first word |
| CarriedCredentials.CarriedBearerShows | internal/bootstrap/fiber_error_handler.go:110-155 | after a live `basic `, a value that ends in `bearer` and one that does not are logged identically if and only if the word after them is the marker |
| CarriedCredentials.BasicValuesHiddenExactly | internal/bootstrap/fiber_error_handler.go:110-155 | any two values after a live `basic ` are logged identically if and only if both carry a `bearer ` on or none does, or the word after them is the marker |
| ShownValues.TokenBearerShows | internal/bootstrap/fiber_error_handler.go:110-155 | after `token=Bearer` any plain credential is logged as it is |
| ShownValues.TokenBearerAbc | internal/bootstrap/fiber_error_handler.go:110-155 | `token=Bearer abc` is logged as `token=***REDACTED*** abc` |
| ShownValues.QuotedIsShownExactly | internal/bootstrap/fiber_error_handler.go:158-167 | between two delimiters that are not spaces any word is logged as it is if and only if it is clean |
| ShownValues.QuotedPasswordShows | internal/bootstrap/fiber_error_handler.go:158-167 | a quoted password without an equals sign is logged as it is |
| ShownValues.QuotedHunter | internal/bootstrap/fiber_error_handler.go:158-167 | `password="hunter2"` is logged as `password=***REDACTED***"hunter2"` |
| Keywords.KeywordsAreMarked | internal/bootstrap/fiber_error_handler.go:110-167 | for every message: wherever `password=`, `secret=`, `token=`, `api_key=`, `apikey=`, `bearer ` or `basic ` stands in the lower-cased output, `***REDACTED***` follows, and then the end or a space, quote, apostrophe, line feed, carriage return, tab, semicolon or ampersand |
| Keywords.ValuesAreReplaced | internal/bootstrap/fiber_error_handler.go:110-167 | one of these keywords in any case, a value free of those eight characters, and the rest are logged as the keyword, `***REDACTED***` and what the rest alone is logged as; the exact exception is a value after `basic ` that ends in `bearer` before a space, holds no `name=` keyword, and is not followed by the marker |
| Keywords.BasicTakesNext | internal/bootstrap/fiber_error_handler.go:110-167 | in that exception `Basic ***REDACTED*** ***REDACTED***` is logged for keyword, value and next word |
| ReadinessVerdict.ProbesAreBounded | internal/bootstrap/health_check_evaluator.go:154-243 | in every interleaving at most the limit of probes is in flight, no index is sent twice, a send never blocks, and at most one probe is handed over after cancellation |
| ReadinessVerdict.CancellationReturns | internal/bootstrap/health_check_evaluator.go:198-243 | at any moment before the evaluator returns, cancelling the request lets it return at once, with what it has received |
| ReadinessVerdict.NoOutcomeTwice | internal/bootstrap/health_check_evaluator.go:217-243 | the receiver never meets an index it has already received |
| ReadinessVerdict.VerdictIsExact | internal/bootstrap/health_check_evaluator.go:144-259 | the verdict is healthy exactly when the success of every dependency that is not optional was received |
| ReadinessVerdict.ReportIsComplete | internal/bootstrap/health_check_evaluator.go:144-363 | every dependency is reported, and status and reason are exact: up and without a reason if and only if its success was received, skipped if and only if it was received as unresolved and is optional; context ended if and only if nothing was received, not configured if and only if it was received as unresolved, check failed if and only if its failure was received |
| ReadinessVerdict.Respond | internal/bootstrap/health_check_evaluator.go:244-259 | the checks map has exactly one entry per name, with that dependency's result, the verdict is the conjunction of the slots, and the status is 200 or 503 |
| ReadinessVerdict.VerdictIsFinal | internal/bootstrap/health_check_evaluator.go:198-243 | nothing that probes still do after the evaluator has returned changes its answer |
| ReadinessVerdict.OnlyPanicsGoMissing | internal/bootstrap/health_check_evaluator.go:154-243 | without cancellation the outcomes that never arrive are exactly those of panicking probes, and the evaluator returns by itself if and only if none panics |
| ReadinessVerdict.SomethingCanHappen | internal/bootstrap/health_check_evaluator.go:154-243 | before all is settled a step is always possible, without relying on cancellation |
| ReadinessVerdict.RunsEnd | internal/bootstrap/health_check_evaluator.go:154-243 | every run is finite, with at most 6 n + 3 steps |
| SelfProbe.DownRequired | internal/bootstrap/selfprobe.go:232-246 | the list is empty exactly when no required dependency is down |
| SelfProbe.DownRequiredConcat | internal/bootstrap/selfprobe.go:232-246 | the list of two groups of dependencies is the one list behind the other |
| SelfProbe.DownRequiredOne | internal/bootstrap/selfprobe.go:232-246 | one dependency is named exactly when it is required and did not succeed |
| SelfProbe.Launch | internal/bootstrap/selfprobe.go:169-228 | a goroutine runs for exactly the dependencies whose check was resolved |
| SelfProbe.Join | internal/bootstrap/selfprobe.go:200-230 | in whatever order the goroutines finish, a slot is up exactly when its check succeeded |
| SelfProbe.Collect | internal/bootstrap/selfprobe.go:232-242 | the loop names the required dependencies that are down, in order |
| SelfProbe.Prober.Run | internal/bootstrap/selfprobe.go:153-251 | the flag is set exactly when there is no error; the error is for nil dependencies or names the required ones that are down |
| SelfProbe.ProbesAgree | internal/bootstrap/selfprobe.go:153-251 | for every assignment of outcomes the self probe succeeds exactly when the readiness evaluator, having received what does not panic, reports healthy |
| SelfProbe.NilDependenciesFail | internal/bootstrap/selfprobe.go:77-125 | without dependencies the readiness probe is unhealthy in every run, as the self probe fails |
| SelfProbe.SpecsByName | internal/bootstrap/selfprobe.go:77-125 | each of the seven names goes with its own option and its own check, streaming only where enabled, the fetcher by its flag and URL |
| SelfProbe.SpecsOfNothing | internal/bootstrap/selfprobe.go:77-125 | without dependencies nothing is resolved, and only streaming and a disabled fetcher are optional |
| SelfProbe.Readyz | internal/bootstrap/health_check_evaluator.go:144-259 | in every run the answer has one entry for each of the seven dependencies, with the exact status and reason of `ReportIsComplete`, and is healthy, with status 200 and not 503, exactly when all required ones are up |
| HotReload.OverlayKeepsFrame | internal/bootstrap/config_manager.go:331-484 | an overlay changes only watched keys and no value's kind |
| HotReload.OverlayRefreshes | internal/bootstrap/systemplane_init.go:222-309 | the overlay is the one configuration that takes each watched field from the store in this way and keeps all others |
| HotReload.Manager.Update | internal/bootstrap/config_manager.go:65-77 | a configuration is published exactly when it is there and valid, and otherwise nothing changes |
| HotReload.Manager.Reload | internal/bootstrap/config_manager.go:103-119 | an undisturbed reload publishes, if valid, the configuration whose watched fields are the stored values: a boolean, text or number as it is, a float as the integer next to it toward zero, and the field itself for another kind or none |
| ReloadRuns.RunsAreSound | internal/bootstrap/config_manager.go:96-138 | under any overlap of reloads and changes the published configuration is the bootstrap one or a valid one, and unwatched keys keep their bootstrap values |
| ReloadRuns.OverlayFromBoot | internal/bootstrap/config_manager.go:331-484 | from a configuration that is untouched where the store cannot be read, a reload overlays the bootstrap configuration |
| ReloadRuns.RunsFit | internal/bootstrap/config_manager.go:96-138 | as long as no watched key stops being readable, the published configuration is the bootstrap one overlaid with the view, torn or not, of the reload that stored last |
| ReloadRuns.SoloIsReload | internal/bootstrap/config_manager.go:103-119 | the steps of a reload that nothing overlaps amount to `Manager.Reload` |
| ReloadRuns.FinishPublishesStored | internal/bootstrap/config_manager.go:103-119 | in every run a reload that finishes publishes what it loaded with the watched fields taken from the values it read, if that is valid, and nothing otherwise |
| ReloadRuns.SoloPublishesStored | internal/bootstrap/config_manager.go:103-119 | one that nothing overlaps takes them from the store |
| ReloadRuns.PublishedTakesStored | internal/bootstrap/config_manager.go:96-138 | after any run in which no watched key stops being readable, what is published is the bootstrap configuration with the watched fields taken from the view of the last accepted reload |
| ReloadRuns.LastReloadConverges | internal/bootstrap/config_manager.go:96-138 | after any run in which no watched key stops being readable, one undisturbed reload publishes the bootstrap configuration overlaid with the store if valid, and keeps the last accepted one otherwise, so reverting a bad key releases the changes it blocked |
| ReloadRuns.ReloadConvergesExactly | internal/bootstrap/config_manager.go:96-138 | after any run at all, an undisturbed reload that is accepted publishes the bootstrap configuration overlaid with the store if and only if the watched keys it cannot read still have their bootstrap values |
| ReloadRuns.OverlayForgetsExactly | internal/bootstrap/config_manager.go:331-484 | a reload forgets earlier overrides exactly when the keys it cannot read still have their bootstrap values |
| ReloadRuns.RemovedKeyKeepsOverride | internal/bootstrap/config_manager.go:331-484 | a key that disappears from the store keeps its override |
| ReloadRuns.OverlapLosesUpdate | internal/bootstrap/config_manager.go:103-119 | two overlapping reloads can end with the value from before the last change |
| ReloadRuns.PublishedIsCurrentExactly | internal/bootstrap/config_manager.go:96-138 | however reloads overlap, as long as no watched key stops being readable, the published configuration is up to date if and only if every watched field has the same value under the view stored last as under the store |
| Dsn.ExtractKeywordValue | internal/bootstrap/tls_detection.go:152-169 | the loop returns the value of the first word that assigns the key, in any case, or nothing |
| Dsn.DetectPostgresTls | internal/bootstrap/tls_detection.go:38-70 | the posture of a keyword connection string is that of its sslmode; off for a blank string; the `postgres://` and `postgresql://` forms, in any case, are told apart |
| DsnRoundTrip.PrintedMode | internal/bootstrap/config_env.go:100-157 | for all fields whatsoever, what is read back as the sslmode of a printed connection string |
| DsnRoundTrip.ModeSurvivesExactly | internal/bootstrap/config_env.go:100-157 | the declared sslmode is read back exactly when it has no white space and no earlier field carries a stray assignment of another |
| DsnRoundTrip.PrintedPosture | internal/bootstrap/tls_detection.go:38-70 | the detected posture of a printed connection string is that of the mode read back |
| DsnRoundTrip.PlainPosture | internal/bootstrap/config_env.go:100-157 | with fields free of white space, even passwords holding `sslmode=`, the mode read back for the replica is its own if it has a host and a mode, and the primary's otherwise; the posture is on exactly when the mode is neither empty nor "disable" |
| DsnSettings.SettingsFallBack | internal/bootstrap/config_env.go:100-157 | reading back host, port, user, password, dbname, sslmode and connect_timeout gives the primary's; for a replica with a host each is its own if not empty and the primary's otherwise; without a host all are the primary's |
| DsnSettings.PrintedSettings | internal/bootstrap/config_env.go:100-157 | with fields free of white space every one of the seven settings of a printed connection string is read back |
| DsnSettings.KeyInAnyCase | internal/bootstrap/tls_detection.go:152-169 | `sslmode` is read in any case |
| DsnSettings.OddLetters | internal/bootstrap/tls_detection.go:38-169 | letters outside ASCII that fold to or lower to ASCII ones count as these |
| DsnRoundTrip.PasswordOverridesMode | internal/bootstrap/config_env.go:100-157 | a password holding a space and an sslmode overrides the declared mode |
| DsnRoundTrip.RequiredTlsLooksOff | internal/bootstrap/tls_detection.go:38-70 | with sslmode `require` declared and password `x sslmode=disable` the detected posture is off |
| CacheKeys.BarsInjective | internal/bootstrap/dynamic_fetcher_client.go:151-151 | fields joined with bars are told apart if all but one of the first two are free of bars |
| CacheKeys.BuildTenantManager | internal/bootstrap/dynamic_infrastructure_multi_tenant.go:62-107 | the options give each builder input from its own setting, times of at least one second, and plain HTTP only for a blank, "dev" or "development" environment |
| CacheKeys.KeyOfEnvironment | internal/bootstrap/dynamic_infrastructure_multi_tenant.go:28-54 | white space around the environment does not show in the key, and a blank one stands for the environment name |
| CacheKeys.TenantKeyDeterminesBuild | internal/bootstrap/dynamic_infrastructure_multi_tenant.go:28-106 | equal tenant keys mean equal builder inputs, for any URL, names without bars and a fingerprint that tells the two API keys apart |
| CacheKeys.TenantKeysMeetExactly | internal/bootstrap/dynamic_infrastructure_multi_tenant.go:28-54 | any two configurations share a key if and only if they agree on the flag and the numbers and on URL, fingerprint and names as one joined text |
| CacheKeys.ServiceKeysMeetExactly | internal/bootstrap/dynamic_infrastructure_multi_tenant.go:28-54 | with one URL and API key and any names, they do if and only if flag, numbers and the joined names agree |
| CacheKeys.CollidesExactly | internal/bootstrap/dynamic_infrastructure_multi_tenant.go:28-106 | any two configurations share a key and need different managers if and only if the parts of the key agree and their URLs, API keys or being for local development differ |
| CacheKeys.BarsInNamesCollide | internal/bootstrap/dynamic_infrastructure_multi_tenant.go:28-54 | names with bars can share a key and need different managers |
| CacheKeys.DurationUnits | internal/bootstrap/dynamic_fetcher_client.go:151-151 | which unit letters a printed timeout holds, and that it holds no bar |
| CacheKeys.DurationText | internal/bootstrap/dynamic_fetcher_client.go:151-151 | how hours, minutes and seconds are printed |
| CacheKeys.FetcherKeyDeterminesBuild | internal/bootstrap/dynamic_fetcher_client.go:151-151 | two fetcher configurations share a key if and only if a client built for one serves the other, for any URL |
| TenantProvider.Provider.CurrentPGManager | internal/bootstrap/dynamic_infrastructure_provider.go:369-407 | a hit always answers with the held manager and changes nothing, whether or not one could be built; otherwise a built manager answers, takes the place and key, and the old pair is closed; otherwise there is no answer and no change |
| TenantProvider.Provider.Seed | internal/bootstrap/init_multi_tenant.go:105-124 | a successful build at startup is stored under its key, a failed one changes nothing |
| TenantProvider.Provider.Close | internal/bootstrap/dynamic_infrastructure_provider.go:298-343 | the held manager and client are closed and forgotten |
| TenantProvider.NothingLeaks | internal/bootstrap/dynamic_infrastructure_provider.go:298-407 | over any run of lookups, failed builds and closings, every manager ever built is the one held now or was closed exactly once, and so was its client |
| TenantProvider.LookupIsFresh | internal/bootstrap/dynamic_infrastructure_provider.go:369-407 | after any run the manager a lookup returns was built from the inputs a fresh build for that lookup would use |
| TenantProvider.LoaderClientOpenExactly | internal/bootstrap/init_multi_tenant.go:60-144 | the client the tenant loader was built from at startup stays open if and only if no lookup replaced the manager and nothing was shut down |
| FetcherClient.Cache.Current | internal/bootstrap/dynamic_fetcher_client.go:136-175 | there is a client exactly when fetching is enabled and the cached one fits or one can be built; it has the URL and flag configured and the timeouts, 5 and 30 seconds by default, a fresh build would give; a failure keeps the cache |
| TenantHandler.ServedByOwnManager | internal/bootstrap/init_multi_tenant.go:150-202 | in every interleaving a request is served by middleware built from the very manager it resolved |
| TenantHandler.OneManagerOneBuild | internal/bootstrap/init_multi_tenant.go:150-202 | if all requests resolve one manager, one build serves the whole run, counting the one at startup |
| TenantHandler.SomeRequestCanMove | internal/bootstrap/init_multi_tenant.go:150-202 | while a request is not served some request can move: the locks do not deadlock |
| TenantRequests.ServingManagerOpenExactly | internal/bootstrap/dynamic_infrastructure_provider.go:369-407 | provider and handler together: a request is served with the manager its lookup returned, and that is open at any later moment if and only if no lookup replaced it and nothing was shut down since |
| TenantRequests.ShutdownClosesAll | internal/bootstrap/dynamic_infrastructure_provider.go:298-343 | after any run the provider can be shut down, and then no manager is open |
| TenantRequests.ServedByClosedManager | internal/bootstrap/init_multi_tenant.go:150-202 | a lookup for another key between a request's lookup and its service closes the manager that serves it |
| CorsHandler.ServedByOwnPolicy | internal/bootstrap/fiber_middleware_runtime.go:88-147 | in every interleaving a request is served by a handler built from the very policy it resolved |
| CorsHandler.OnePolicyOneBuild | internal/bootstrap/fiber_middleware_runtime.go:88-147 | if all requests resolve one policy, one build serves the whole run |
| CorsJams.MovesExactly | internal/bootstrap/fiber_middleware_runtime.go:88-147 | while a request is not finished some request can move if and only if the lock is not held by a panicked build or a request has yet to look at the snapshot |
| CorsJams.JamIsFinal | internal/bootstrap/fiber_middleware_runtime.go:88-147 | after a panicked build the active snapshot never changes and nothing is built |
| CorsJams.ServedAfterJamExactly | internal/bootstrap/fiber_middleware_runtime.go:88-147 | a request that comes after it is served exactly when its policy is that of the active snapshot |
| CorsJams.JamNeedsBadRequest | internal/bootstrap/fiber_middleware_runtime.go:88-147 | a run whose requests all resolve policies that can be built never leaves the lock held |
| CorsJams.JamsExactly | internal/bootstrap/fiber_middleware_runtime.go:88-147 | in every run that has come to rest the lock is left held if and only if some request resolved a policy that cannot be built |
| CorsJams.BadPolicyJams | internal/bootstrap/fiber_middleware_runtime.go:88-147 | a first request with such a policy leaves it held with nothing active |
| RedisCounters.Collector.RecordCounters | internal/bootstrap/redis_metrics.go:254-280 | each total grows by the difference of its own counter modulo 4294967296, the wait by its rise, and the reading is remembered |
| RedisCounters.Collector.Collect | internal/bootstrap/redis_metrics.go:204-224 | a tick without statistics changes nothing |
| RedisCounters.SubtractIsGrowth | internal/bootstrap/redis_metrics.go:258-268 | 32-bit subtraction of readings is the true growth modulo 2^32 |
| RedisCounters.TotalPlusMissed | internal/bootstrap/redis_metrics.go:254-280 | a total and the multiples of 2^32 lost between readings add up to the true growth |
| RedisCounters.TotalsAreTrue | internal/bootstrap/redis_metrics.go:254-280 | across wrap-arounds and skipped ticks a total is the true count at the last reading if and only if no growth between two readings reaches 2^32 |
| RedisCounters.WaitTotalIsTrue | internal/bootstrap/redis_metrics.go:270-272 | the total wait equals the last reading exactly when no reading falls, and otherwise exceeds it |
| DbCounters.AggregateStats | internal/bootstrap/db_metrics.go:297-316 | the loop sums the replicas that are there |
| DbCounters.AggregateIsSum | internal/bootstrap/db_metrics.go:297-316 | counter by counter the aggregate is the sum of what the replicas that are there report |
| DbCounters.CountersTellAll | internal/bootstrap/db_metrics.go:325-371 | two reports are the same exactly when their four counters are |
| DbCounters.Collector.RecordRoleStats | internal/bootstrap/db_metrics.go:325-371 | each of one role's four totals grows by the rise of its own counter, and nothing else changes |
| DbCounters.Collector.Collect | internal/bootstrap/db_metrics.go:257-292 | a tick follows the getter, resets both roles on a noticed change of resolver, and records both roles |
| DbCounters.TotalsAreEpochTotals | internal/bootstrap/db_metrics.go:257-371 | for each role and counter the total over any run is the sum of the last values of the resolver epochs if and only if every change of resolver is noticed or meets a zero reading; otherwise it falls short |
| DbCounters.GetterFromTheStartIsExact | internal/bootstrap/db_metrics.go:257-380 | with a known identity from the first recording on, the totals are exact |
| DbCounters.UnnoticedChangeFallsShort | internal/bootstrap/db_metrics.go:263-274 | a change after a reading but before the getter first answers loses the smaller of the two readings |
| DbCounters.RolesAreIndependent | internal/bootstrap/db_metrics.go:325-371 | two runs that agree on what one counter of one role sees give it the same total |
| Migrations.PreflightApply | internal/bootstrap/migration_preflight.go:117-167 | approved exactly at version 22 or later or without legacy rows; a refusal names the rates first and counts what was found |
| Migrations.PreflightUp | internal/bootstrap/migration_preflight.go:29-46 | approved exactly for a clean database at version 22 or later or without legacy rows; a dirty one is refused with its version and the one before |
| Migrations.PreflightDownOne | internal/bootstrap/migration_preflight.go:49-70 | approved exactly for a clean database not at version 22; what the refusals name |
| Migrations.PreflightGoto | internal/bootstrap/migration_preflight.go:73-98 | approved exactly for a clean database when version 22 is not crossed downward, nor upward with legacy rows; what the refusals name |
| Migrations.Migrator.HandleDirtyState | internal/bootstrap/migrations.go:174-216 | a dirty version other than -1 stops the startup, or with recovery is forced to the version before it; nothing else changes |
| Migrations.Migrator.ApplyMigrations | internal/bootstrap/migrations.go:151-172 | startup recovers, checks and migrates upward, in this order; approved from a clean known version it ends clean at 32 if all of 32 outcomes or more are successes, dirty at the n-th version on the way if the n-th step is the first to fail, and clean at the version reached if it is broken off; after a recovery the same from the version before; refused it migrates nothing |
| Migrations.FullRunReachesTarget | internal/bootstrap/migrations.go:230-254 | a run whose steps all succeed passes every version on the way once and ends clean at its target |
| Migrations.UpLands | internal/bootstrap/migration_preflight.go:29-46 | an approved up ends where its outcomes put it on the way to 32: clean after successes, dirty at the version whose step failed first |
| Migrations.GotoLands | internal/bootstrap/migration_preflight.go:73-98 | the same for an approved goto and its target |
| Migrations.DownOneLands | internal/bootstrap/migration_preflight.go:49-70 | the same for an approved down and the version before, or none after the first |
| Migrations.StartupLands | internal/bootstrap/migrations.go:151-172 | the same for an approved startup, from where recovery puts it |
| Migrations.LandsOnTarget | internal/bootstrap/migrations.go:230-254 | with a success for every step the end is the target, clean |
| Migrations.BelowExactlyWhenRecoveringAtGuard | internal/bootstrap/migrations.go:174-216 | from version 22 or later an action passes below 22 if and only if it is a startup that recovers a database dirty at 22 |
| Migrations.NeverBelow | internal/bootstrap/migration_preflight.go:29-98 | without recovery no run of startups, ups, downs and gotos, with failures at any step, is ever below 22 again |
| Migrations.RecoveryAfterFailedRollbackFalls | internal/bootstrap/migrations.go:174-216 | a failed rollback from 23 followed by a startup with recovery ends at 21 |
| Migrations.ZeroIsFinal | internal/bootstrap/migrations.go:174-216 | from a clean version 0 no run of actions moves the database |
| Migrations.RecoveredFirstMigrationIsFinal | internal/bootstrap/migrations.go:174-216 | recovery forces version 0 exactly on a failed first migration, and then no run of actions moves the database again |
| Migrations.NoLegacyRowsAtGuard | internal/bootstrap/migration_preflight.go:29-167 | in every run, recovery included, whose startups have a database handle to check with, every step that reaches version 22 starts without legacy rows |
| Outbox.ContainsIsLeaf | internal/bootstrap/outbox_wiring.go:192-210 | searching a tree of wrapped and joined errors is looking among its leaves |
| Outbox.IsNonRetryable | internal/bootstrap/outbox_wiring.go:182-213 | the verdict depends only on the set of leaves: permanent exactly when nothing is disabled and some leaf is a caller error or listed |
| OutboxHandlers.ListedExactly | internal/bootstrap/outbox_wiring.go:109-162 | the sentinels listed as permanent are all but the disabled event and foreign errors |
| Outbox.DisabledAnywhereIsRetryable | internal/bootstrap/outbox_wiring.go:187-194 | a disabled event anywhere in the tree makes the whole error retryable |
| Outbox.RequireAllNonZero | internal/bootstrap/outbox_payload_validation.go:58-70 | the loop objects exactly to an empty list and to a list holding a nil id |
| Outbox.ValidatorsNameWhatIsMissing | internal/bootstrap/outbox_payload_validation.go:38-101 | a validator's error contains a field's sentinel if and only if that event needs the field and it is missing |
| Outbox.ValidatesExactlyWhenComplete | internal/bootstrap/outbox_payload_validation.go:38-101 | validation passes exactly when no needed field is missing |
| OutboxHandlers.PublishPayload | internal/bootstrap/outbox_wiring.go:346-449 | publishes once for an available publisher and a decoded, complete payload, and otherwise returns the rejection without publishing |
| OutboxHandlers.Handle | internal/bootstrap/outbox_wiring.go:301-342 | publishes exactly once if and only if event and publisher are there and the payload decodes and is complete; otherwise what it is refused with, by kind and by missing field; recorded is success without an error, skipped if no leaf of the error is a disabled event and some leaf is a caller error or one of the service's or library's own, and failure otherwise |
| OutboxHandlers.RejectsExactlyTheUnacceptable | internal/bootstrap/outbox_wiring.go:346-449 | there is a rejection exactly when something is missing or does not decode |
| OutboxHandlers.RejectionsArePermanent | internal/bootstrap/outbox_wiring.go:346-449 | every rejection before publishing is non-retryable, unless the decoder's own error holds a disabled event |
| OutboxHandlers.PublishErrorsKeepTheirVerdict | internal/bootstrap/outbox_wiring.go:333-342 | a failed publication is classified exactly as the publisher's own error |
| AuthChain.BuildProtectedAuthChain | internal/auth/chain.go:50-92 | fails exactly on a missing extractor, client or action or an action of white space only, in this order, and otherwise gives claims validation when auth is on, one authorization per action in order, and tenant extraction |
| Routes.Registry.NewRouter | internal/bootstrap/routes.go:185-227 | a router has the guards of its own resource and actions and the shared slice, or there is a failure and it has neither |
| Routes.Registry.Protected | internal/bootstrap/routes.go:185-227 | the registry stays what its calls make of an empty one, with this call added, and the app's routes are untouched |
| Routes.Registry.RegistrationErr | internal/bootstrap/routes.go:43-45 | success means that no call so far was bad, and then the route of every verb call stands in the app behind its own guards and the shared handlers |
| Routes.Router.Compose | internal/bootstrap/protected_router.go:83-91 | a new slice holds guards, shared chain and own handlers, in this order, and no other slice is written to |
| Routes.Router.Add | internal/bootstrap/protected_router.go:122-196 | one route is added, no earlier route, router or shared handler changes, and the registry stays what its calls make of it |
| Routes.Router.RecordUnsupported | internal/bootstrap/protected_router.go:98-117 | an unsupported method registers nothing and makes registration fail for good, as the history of calls says |
| Routes.FailsExactlyOnBadCalls | internal/bootstrap/routes.go:185-227 | after any calls there is no failure if and only if every protection was valid and no unsupported method was called |
| Routes.ValidRoutesAreGuarded | internal/bootstrap/protected_router.go:83-196 | a route registered through a valid protection has exactly its own guards, the shared chain and its own handlers, whatever else was called |
| Routes.CleanRegistrationGuardsEveryRoute | internal/bootstrap/routes.go:178-227 | without a registration error this holds of every route |
| Routes.EveryRouteIsOfACall | internal/bootstrap/protected_router.go:122-196 | the app holds no other routes than those of the verb calls |
| Telemetry.SendNeverDrops | internal/bootstrap/observability.go:68-98 | the non-blocking send always finds the slot free |
| Telemetry.InstanceIsInOnePlace | internal/bootstrap/observability.go:68-213 | in every finished run a created instance was returned, shut down once, or left in the slot after the cleanup timer fired, exactly one of these |
| Telemetry.EveryEndIsReachable | internal/bootstrap/observability.go:68-213 | whatever the initialiser does, it may be answered in time, drained late, which shuts an instance down, or left in the slot |
| Telemetry.NilExactlyWithoutInstance | internal/bootstrap/observability.go:31-213 | the caller gets nil exactly when it is answered in time and the initialiser yields nil or panics, or times out and the disabled instance cannot be made |
| Telemetry.RunsEnd | internal/bootstrap/observability.go:68-213 | every run can go on until nobody waits, and takes at most four steps |

## Left out

- Redactor.Sanitize: ASCII messages, because Unicode lower-casing can change the length of a message.
- CacheKeys.TenantKeyDeterminesBuild: the hash of the API key is a parameter assumed to tell the keys at hand apart.
- CacheKeys.FetcherKeyDeterminesBuild: timeouts are whole positive seconds without 64-bit overflow.
- Dsn.DetectPostgresTls: the URL form, whose reading is that of a URL library. Texts are sequences of Unicode characters; invalid UTF-8 is not modelled.
- DbCounters.Collector.RecordRoleStats: waits are whole nanoseconds, not floating-point seconds.
- TenantProvider.Provider.Close: the RabbitMQ manager, and errors while closing, which are joined and returned.
- RedisCounters.TotalsAreTrue: pools whose counters restart at zero, for which 32-bit subtraction has another meaning.
- RedisCounters.WaitTotalIsTrue: waits are nanoseconds; the conversion to floating-point seconds is not modelled, here and in DbCounters.
- DbCounters.TotalsAreEpochTotals: two resolvers at one address, one after the other, count as one resolver.
- Migrations.Migrator.ApplyMigrations: a context cancelled while the migrations go on in the background, failing queries, which stop an action without a change, and versions beyond the integer range.
- Migrations.NeverBelow: repairs by hand of the version table are outside the actions.
- Migrations.NoLegacyRowsAtGuard: a startup without a database handle skips the check, as in the code, and is excluded; rows change between actions, not during one; the guards inside the migration scripts are not relied on.
- Outbox.IsNonRetryable: the streaming library's test for caller errors is a parameter on leaves.
- OutboxHandlers.RejectionsArePermanent: a decode error is any error tree; the JSON decoder's own errors hold no disabled event, so its condition is always met.
- OutboxHandlers.Handle: durations of the recorded metrics, and the five publishers' own logic.
- HotReload.Manager.Update: the table of watched keys and the per-field validators are parameters.
- TenantHandler.ServedByOwnManager: a request whose manager cannot be resolved fails before it enters the handler's cache.
- Gauges of the metric collectors, their start and stop loops.
- Header sanitising, fallback error responses, body-limit and timeout middleware: single-branch facts.
- Tenant discovery for the outbox, module wiring, configuration defaults, RBAC catalogues, Swagger, banners and example generators.
