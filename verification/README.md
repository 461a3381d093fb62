# eiroute, verified

eiroute is a proxy in front of several OpenAI-compatible model servers. This project models its four
stateful pieces and proves what they promise:

- **The backend pool and the `/v1/models` cache.** `Backends` and `ModelList` are the heap code: classes
  with the source's fields, maps and loops, proved against the functions of `PoolSpec`. `CacheProtocol`
  models the same code as a transition system in which every atomic access is one step and any number of
  threads interleave; `CacheFrames` and `CachePlans` are its frames, locks and reload plans, and
  `CacheProofs`, `CacheFreshness` and `CacheReload` hold what is true of every run, `CacheRecorders` how
  health follows what is recorded, and `CacheProgress` that every thread gets on. `Configs` is what both
  models read a configuration from.
  `Slots` does the same for the request semaphore, `Health` for sequential histories over a wrapping
  32-bit counter.
- **The Responses-API stream translator.** `Translation` says what a whole upstream stream means,
  `Translator` is the reader, the emitter and the read loop, and `Framing` is the wire form together with
  a client that follows section 9.2.6 of the WHATWG HTML Standard.
- **The streaming JSON router.** `JsonRouting` is the decoder's grammar automaton, the recursive skipper
  and JSON trees with their lexemes (sections 3 to 5 of RFC 8259); `JsonDecoder` is the decoder as an
  object that captures what it reads.
- **Placeholder rendering.** `Placeholders` is repeated replacement in any key order, and when it equals
  simultaneous substitution.

`Flatten` and `Options` are small helpers shared by these modules.

Preconditions come from the source. Configurations have distinct names (`internal/config/config.go:134-157`).
Environment choices are parameters: the random draw (`pick`), cache expiry (`expired`), a passed deadline
(a full semaphore, or the `Expire` step), cancellation (`cancelAt`), the size of each read (`sizes`), and
JSON parsing and marshalling of payloads (`json`, `marshal`).

Where the code falls short of what one would expect, the code is kept and the exact condition is stated:

- A reload that fails (a bad `retry_after` on a kept backend, a bad URL, or a new backend that does not
  parse) has already overwritten the kept backends it got to, publishes nothing and bumps no version.
  - The cached list can stay wrong (`CacheReload.FailedReloadLeavesStaleCache`). From a quiet state, with the
    cache and the version unmoved, it stays right if and only if the writes the configurations call for,
    made on the pool as it stood, give the same list (`CacheReload.FailedReloadCoherentIff`). Outside that
    the cache is coherent whenever no bump and no reload is under way and no reload that failed since the
    last published one has written anything (`CacheProofs.QuietIsCoherent`). A list that is rebuilt, because
    the old one has expired or the version has moved, while nothing is written is right from whatever state
    (`CacheFreshness.UndisturbedBuildIsRight`).
  - The index can stay wrong, so that a model is listed and not routed, or routed and not listed
    (`Backends.FailedReloadMisroutes`). It stays right if and only if every backend the reload overwrote
    got its models back, equally often (`Backends.Pool.ReloadPool`), and after several failures if and only
    if every backend serves what the index was built over, equally often (`Backends.StaleIndexFitsIff`); for
    one model, `Backends.StaleIndexAgreesIff` says when listing and routing agree all the same.
  - The next successful reload repairs both; an earlier failure is no precondition. An expired cache heals
    the list alone, never the index.
- Two recorders of one backend can overlap. A success that is recorded whole while the third failure in a
  row is between its counter and its compare-and-swap is overruled (`CacheRecorders.SuccessOverruled`);
  calls that do not overlap follow the sequential history (`CacheRecorders.HealthFollowsHistory`).
- A reload that changes a backend's capacity under traffic strands the tokens of current holders
  (`Slots.CapacityChangeBlocksReleases`); `Slots.ReloadConserves` is the exact condition. With a second
  change a release can hang forever (`Slots.TwoChangesHang`); `Slots.HangsIff` says exactly when it does.
- The two passes of selection read the counters separately. If they move in between, the random draw can
  be over an empty list and panic (`PoolSpec.PanicExactly`, `SelectionCanPanic`). It takes a movement on
  every candidate tied in the first pass, and one acquisition on each is enough
  (`PoolSpec.PanicNeedsAllTies`, `OneAcquireEachPanics`).
- The one-candidate short cut differs from the general code only for a backend at the largest 32-bit
  count (`PoolSpec.FastPathAgrees`).
- The two Responses paths read a body differently when `model` is repeated or spelled in another case, when
  a number in front of it does not fit a 64-bit float (the token stream converts it and fails, the peek
  skips it), and when the body is `null` (`JsonRouting.RoutingAgreesIff`, `RoutingCanDiffer`).
- The token stream does not ask that the body is JSON: behind well-formed members it accepts any
  continuation of a `model` member, and a body that just ends or closes has the empty name. Exactly these
  bodies are routed (`JsonRouting.RoutedExactly`).
- With braces in a replacement value the message can depend on the map's order
  (`Placeholders.OrderCanMatter`). It does not if and only if no other key's replacement, made alone, touches
  the value of a known placeholder of the template: for values that are texts like templates, unless a
  placeholder that another value holds is also in its own value, where all orders can agree by accident
  (`Placeholders.TemplateOrdersAgreeIff`, `RenewedCanAgree`); for a template with one known name and any
  values, as long as its own leaves no placeholder unfinished (`Placeholders.OneNameOrdersAgreeIff`,
  `UnfinishedCanMatter`); and for a message that is one placeholder without any condition
  (`Placeholders.OrdersAgreeIff`).
- The comment above `translateChatStream` says that it returns an error only when the stream could not be
  read at all. The code also returns the error of a stream that breaks in the middle, after emitting the
  error event, and the context's error on cancellation; the model follows the code.

## Model

| member | source | states |
|---|---|---|
| Health.HealthyIffShortStreak | internal/backends/backend.go:120-135 | over every sequential history a backend is healthy iff fewer than three failures follow its last success, even after the 32-bit counter has wrapped |
| Health.CounterIsStreak | internal/backends/backend.go:120-130 | over every sequential history the counter is the number of failures since the last success as a signed 32-bit number |
| PoolSpec.ListIsFirstOffers | internal/models/aggregator.go:71-97 | the incremental dedup loop keeps, of everything eligible backends offer in order, exactly the first offer of each id, with that backend's owner |
| PoolSpec.ListContents | internal/models/aggregator.go:71-97 | no id is listed twice, and an id is listed iff some healthy or static backend serves it |
| PoolSpec.SelectOutcome | internal/backends/backend.go:300-335 | whatever the draw: no panic, "unknown model" iff no candidate, "unavailable" iff candidates but none healthy, otherwise a healthy candidate of least count |
| PoolSpec.TwoPassCorrect | internal/backends/backend.go:269-297 | without the short cut, as selection over all backends works: never a panic, unavailable iff none is healthy, and the possible results are exactly the healthy ones of least active count |
| PoolSpec.SelectionCorrect | internal/backends/backend.go:300-335 | the possible results are exactly the healthy candidates of least active count: none other is returned, and each is returned by some draw |
| PoolSpec.FastPathAgrees | internal/backends/backend.go:306-334 | the one-candidate short cut gives the two-pass answer iff the candidate is not healthy at the largest 32-bit count |
| PoolSpec.PanicExactly | internal/backends/backend.go:313-334 | with counters moving between the passes, the draw panics iff a minimum was found and no candidate shows it, healthy, in the second pass |
| PoolSpec.PanicNeedsAllTies | internal/backends/backend.go:313-334 | a panic needs every candidate tied in the first pass to have changed before its second read |
| PoolSpec.FewChangesNeverPanic | internal/backends/backend.go:313-334 | fewer changes between the passes than candidates tied never panic |
| PoolSpec.OneAcquireEachPanics | internal/backends/backend.go:313-334 | that bound is reached from every snapshot with a healthy candidate: one acquisition on each tied candidate panics whatever the draw |
| PoolSpec.SelectionCanPanic | internal/backends/backend.go:313-334 | two idle candidates that each acquire a request between the passes make the draw panic |
| PoolSpec.RoutedIff | internal/backends/backend.go:300-334 | on a snapshot a request for a model is routed iff some healthy backend has it |
| PoolSpec.ListedIffRouted | internal/models/aggregator.go:75-81 | on a snapshot a model is listed iff a request for it is routed or a static backend serves it |
| PoolSpec.CandidatesContents | internal/backends/backend.go:174-176 | the candidates of a model are exactly the backends that list it |
| PoolSpec.GreedyBound | internal/backends/backend.go:313-334 | over any run of select-then-acquire on healthy candidates the peak stays within the starting peak or the fair share rounded up, the spread within the starting spread or 1, and the total grows by one per request |
| PoolSpec.ShareIsCeiling | internal/backends/backend.go:313-334 | the fair share of that bound is the total divided by the number of candidates, rounded up |
| Backends.Backend.constructor | internal/backends/backend.go:49-81 | a new backend is healthy, idle, unfailed, and configured as asked |
| Backends.Backend.Acquire | internal/backends/backend.go:94-104 | takes a slot and counts the request iff a slot is free and, should the context be done as well, the select falls on it; else changes nothing |
| Backends.Backend.Release | internal/backends/backend.go:107-111 | gives back one slot and uncounts the request |
| Backends.Backend.RecordFailure | internal/backends/backend.go:120-126 | follows the sequential history of `Health`, and moves the version iff the flag moved |
| Backends.Backend.RecordSuccess | internal/backends/backend.go:129-135 | follows the sequential history of `Health`, and moves the version iff the flag moved |
| Backends.Backend.Reconfigure | internal/backends/backend.go:208-232 | fails iff the URL or `retry_after` does not parse; a bad URL changes nothing, a bad `retry_after` is noticed after all other fields are set; the semaphore is replaced, empty, iff its size changes |
| Backends.AddAllLookup | internal/backends/backend.go:174-176 | appending a backend under each of its models adds it once per occurrence to exactly those models' lists |
| Backends.IndexIsWalk | internal/backends/backend.go:168-177 | the index the loops build is, for every model, the in-order walk emitting a backend once per occurrence of the model in its list |
| Backends.IndexAll | internal/backends/backend.go:242-244 | the loop over all backends builds that index |
| Backends.Pool.constructor | internal/backends/backend.go:163-185 | a new pool is valid: distinct names, one shared version at 0, an index that is exactly the walk, and everything in it new |
| Backends.NewPool | internal/backends/backend.go:163-185 | fails iff some configuration does not parse, else gives a valid pool of untried backends in configured order, each of which carries its configuration field by field |
| Backends.Pool.ByName | internal/backends/backend.go:193-196 | the map holds exactly the pool's backends under their names |
| Backends.Pool.Assemble | internal/backends/backend.go:203-245 | fails iff some configuration does not parse; otherwise gives, in order, the old object for a known name and an untried one, configured as asked, for a new name; either way it has worked on the kept backends as far as the loop went |
| Backends.WalksAgreeIff | internal/backends/backend.go:242-244 | two families of model lists give the same index iff each backend's two lists hold the same models equally often |
| Backends.AfterReloadMeans | internal/backends/backend.go:206-232 | what a reload makes of the kept backends, whether it succeeds or not: overwritten if everything in front of the name parses and its own URL does, else as they were |
| Backends.Pool.ReloadPool | internal/backends/backend.go:189-252 | from any pool with distinct names, also one a failed reload has left: an error leaves backends, index and version as published, says which settings have been overwritten, and a fitting index still fits iff those backends got their models back; success installs the configurations field by field, keeps the object of every name that stays, rebuilds the index as the walk, and bumps once; health, failure and active counts are never touched |
| Backends.Pool.FirstPass | internal/backends/backend.go:313-323 | the loop finds the least count of the healthy candidates |
| Backends.Pool.SecondPass | internal/backends/backend.go:328-333 | the loop collects, in order, exactly the healthy candidates of that count |
| Backends.Pool.SelectBackend | internal/backends/backend.go:300-335 | the method returns what selection means for the model's candidates, for every random number, and never draws from an empty list |
| Backends.Pool.SelectAnyBackend | internal/backends/backend.go:269-297 | the method returns what the two passes mean for all backends, whose possible results are `PoolSpec.TwoPassCorrect`; unavailable for an empty pool |
| Backends.PoolListsWhatItRoutes | internal/models/aggregator.go:71-102 | in every pool whose index fits, hence after construction and every successful reload, a model is listed iff it is routed through the index or served by a static backend |
| Backends.ListedAsConfigured | internal/models/aggregator.go:71-97 | in a pool that carries given configurations a model is listed iff one of them names it whose backend is healthy or which is static |
| Backends.OwnedAsConfigured | internal/models/aggregator.go:90-112 | and its owner is the override, else what the first of those configurations says, else "self-hosted" |
| Backends.StaleIndexAgreesIff | internal/models/aggregator.go:71-97 | with an index built over other lists, as a failed reload can leave it, listing and routing of a model agree iff a static backend serves it or healthy backends serve it now just if they did then |
| Backends.StaleIndexFitsIff | internal/backends/backend.go:242-248 | an index built over any lists, after any number of failed reloads, is right iff every backend now serves the models of its list, equally often |
| Backends.FailedReloadMisroutes | internal/backends/backend.go:225-229 | a new pool, reloaded once with a bad `retry_after`, lists a model it does not route and routes one it does not list |
| PoolSpec.ListedOwner | internal/models/aggregator.go:104-112 | no listed model is without an owner: it is the override if there is one, else what the first eligible backend that serves the model says, and "self-hosted" exactly where that one says nothing |
| ModelList.Aggregator.Build | internal/models/aggregator.go:71-102 | the nested loops with their `seen` map produce exactly the list `PoolSpec` describes |
| ModelList.Aggregator.GetOrRebuild | internal/models/aggregator.go:55-69 | a hit needs an unexpired list of the current version; everything else is rebuilt and remembered under the version read first |
| ModelList.Aggregator.Reload | internal/models/aggregator.go:115-119 | the cached list is dropped |
| CacheProtocol.FeedKeepsOutcome | internal/models/aggregator.go:75-93 | one read of a builder against a pool that stands still does not change what the build will produce |
| CacheProtocol.ReplayAtOneMoment | internal/models/aggregator.go:71-102 | reads that all agree with one moment build the list of that moment |
| CacheProofs.RunKeepsInv | internal/backends/backend.go:120-135 | every step of every thread, in any interleaving, keeps the invariant: lists come from real reads no older than their version announces, no write is forgotten, flips are accounted for |
| CacheProofs.CacheCoherent | internal/models/aggregator.go:55-69 | in every reachable state in which the pool and the fields of the backends in it are announced, a cached list with the current version is the list of the pool as it is now |
| CacheProofs.QuietIsSettled | internal/backends/backend.go:247-249 | they are, whenever no bump and no reload is under way and no reload that failed since the last published one has written anything |
| CacheProofs.QuietIsCoherent | internal/models/aggregator.go:55-69 | so in every such reachable state, whatever failed before the last published reload, a cached list with the current version is the list of the pool |
| CacheProofs.ReplayReads | internal/models/aggregator.go:75-93 | a build reads the pool first, and after that only backends it found there |
| CacheProofs.ServedFresh | internal/models/aggregator.go:56-68 | a list served for a version is built from reads none of which is older than anything announced by that version |
| CacheProofs.BumpAnnounces | internal/backends/backend.go:122-123 | a completed bump announces its thread's writes for its version and all later ones |
| CacheFreshness.RequestSeesBump | internal/models/aggregator.go:55-69 | a request that loads the version after a bump completed is answered, by hit or rebuild and in any lock order, with a list all of whose reads saw what that bump announced |
| CacheFreshness.UndisturbedBuildIsRight | internal/models/aggregator.go:60-68 | from any state, whatever failed before: a list built while no location is written is the list of the pool when it is stored and served |
| CacheRecorders.SwapLeaves | internal/backends/backend.go:120-135 | in every reachable state the compare-and-swap of a failing recorder leaves the flag down, that of a succeeding one up, a bump follows iff the flag changed, and nothing else is written |
| CacheRecorders.HealthFollowsHistory | internal/backends/backend.go:120-135 | in every run, whatever else interleaves: when the calls for a backend do not overlap, it is healthy iff fewer than three failures follow its last success, and its counter is that of the sequential history |
| CacheRecorders.SuccessOverruled | internal/backends/backend.go:120-135 | overlapping calls need not: a success recorded inside the third failure leaves the backend down with its counter at 0 |
| CacheProgress.LocksFreeIff | internal/backends/backend.go:190-191 | in every reachable state a reload can start iff none is under way, and a request gets past the list's lock iff no list is being built |
| CacheProgress.CallsStart | internal/backends/backend.go:120-135 | in every reachable state an idle thread can record for every backend ever made and ask for the list, and the cache can be dropped iff no list is being built |
| CacheProgress.NobodyStuck | internal/models/aggregator.go:55-69 | in every reachable state every thread can take its next step, or waits for a list whose builder can |
| CacheProgress.HitIff | internal/models/aggregator.go:58-62 | a request is answered from the cache iff the list there has not expired and has the version it loaded; else it builds |
| CacheProgress.ClearedMeansBuild | internal/models/aggregator.go:115-119 | after the cache was dropped, the next request builds, whatever happened in between, unless a list was stored |
| CacheProgress.ExpiryHeals | internal/models/aggregator.go:55-69 | from any state in which no list is being built, a request that finds the cache expired can run to its end by itself, and serves and caches the list of the pool |
| CacheProofs.VersionAccounting | internal/backends/backend.go:120-135 | in every reachable state version plus pending bumps equals successful swaps of all backends ever created plus published reloads |
| CacheProofs.HealthyIffEvenFlips | internal/backends/backend.go:122-131 | in every reachable state a backend is healthy iff its flag has been swapped an even number of times |
| CachePlans.PlanInstalls | internal/backends/backend.go:206-248 | the writes of a reload that reaches its end install every configuration, on the old backend of that name or a new one, and touch no other backend |
| CachePlans.PlanOverwrites | internal/backends/backend.go:206-232 | the writes of any reload, failing or not, do to a backend of the pool what the heap code's contract says of its settings |
| CachePlans.PlanCompletes | internal/backends/backend.go:233-248 | a reload that reaches its end has written every field of every backend it publishes |
| CacheReload.ReloadInstalls | internal/backends/backend.go:189-249 | from every reachable state, whatever recorders and list requests do meanwhile, a reload of configurations that all parse leaves the pool exactly as configured once it has published |
| CacheReload.StartAsConfigured | internal/backends/backend.go:163-185 | in a new pool every list request reads, of every backend, what its configuration says, and it is healthy |
| CachePlans.PlanOk | internal/backends/backend.go:206-240 | a planned reload reaches its end iff every configuration parses, as the heap code's does |
| CacheProofs.ReachableExclusive | internal/backends/backend.go:190-191 | in every reachable state at most one reload is under way and at most one request builds |
| CacheReload.CoherentSincePublished | internal/models/aggregator.go:55-69 | in every run in which no reload has failed since one that published, a cached list with the current version is the list of the pool once nobody is about to bump and no reload is under way, whatever came before |
| CacheReload.CoherentWithoutFailures | internal/models/aggregator.go:55-69 | the same from the start of a run without failed reloads |
| CacheReload.FailedReloadLeavesStaleCache | internal/backends/backend.go:225-229 | a reachable state, all threads gone and both locks free, in which the cached list has the current version and is not the list of the pool |
| CacheReload.FailedReloadCoherentIff | internal/backends/backend.go:206-229 | after a failing reload among any other steps, the cache and the version unmoved and no bump under way, the cached list is right iff the planned writes, made on the pool as it stood, do not change the list |
| Slots.ConservedStep | internal/backends/backend.go:94-111 | every step of a request keeps the tokens of every channel, the channels waited on and the counter in agreement |
| Slots.ReloadConserves | internal/backends/backend.go:213-216 | a reload keeps them in agreement iff the capacity stays or no request waits for a slot or is still to begin its release; the channel in place then has the configured capacity |
| Slots.SlotsConserved | internal/backends/backend.go:94-111 | over every such run every channel ever in place holds one token for each request that will take one from it and no more than fit, a waiting request is admitted iff there is room, the counter lags exactly by the requests between two steps, is never negative, and a release never blocks |
| Slots.InFlightIffRoom | internal/backends/backend.go:94-104 | over every run without reloads never more requests than configured are in flight, and a waiting one is admitted iff fewer are |
| Slots.CapacityFollows | internal/backends/backend.go:213-215 | over every run the channel in place has the capacity configured last |
| Slots.OnlyChannelsBlock | internal/backends/backend.go:94-111 | in every state only admission and the receipt of a token can block, and waiting for admission can be given up |
| Slots.TokensAlwaysBalance | internal/router/router.go:229-241 | whatever reloads do, tokens over all channels ever in place equal the admitted requests and the counter is exact |
| Slots.CapacityChangeBlocksReleases | internal/backends/backend.go:213-215 | after a capacity change a release that begins finds the new channel empty, and the requests that will take from it outnumber its tokens |
| Slots.HangsIff | internal/backends/backend.go:107-108 | a release can never end, over every run from there, iff its channel is empty, has been replaced, and nobody is left who waits to send to it |
| Slots.TwoChangesHang | internal/backends/backend.go:213-215 | in every state with a holder, a capacity change before and one after it begins its release make that release hang |
| Translation.LinesMeaning | internal/router/responses_stream.go:384-392 | the lines make up the stream and are cut exactly behind its newlines |
| Translation.NumberedAt | internal/router/responses_stream.go:223-228 | event number i carries sequence number i |
| Translation.LastUsageMeans | internal/router/responses_stream.go:414-416 | the usage kept is that of the last chunk that has one, and none iff none has |
| Translation.TextConserved | internal/router/responses_stream.go:309-366 | the deltas concatenate to all content of the chunks, every closing event repeats exactly that text, the completion carries the usage of the last chunk that has one, and no delta is empty |
| Translation.ScriptFollows | internal/router/responses_stream.go:273-375 | every emitted list is a word of the event language, finished iff the run was not cancelled |
| Translation.NothingAfterFinish | internal/router/responses_stream.go:366-375 | after a terminal event the language has nothing |
| Translation.CancelledIsPrefix | internal/router/responses_stream.go:386-390 | what a cancelled client has seen is a prefix of what an uncancelled one sees |
| Translation.StutterInvariant | internal/router/responses_stream.go:392-413 | inserting a blank, non-`data:`, empty or unparseable line at any line boundary changes no event |
| Translation.InsertedPayload | internal/router/responses_stream.go:392-404 | a complete line inserted at a line boundary inserts its payload, if it has one, at that place and nothing else |
| Translation.SkippedPayload | internal/router/responses_stream.go:401-413 | a payload that is neither the end marker nor JSON changes neither the chunks looked at nor whether the marker is met |
| Translation.CrLfPayloads | internal/router/responses_stream.go:394-404 | with CR LF for LF the payloads are the same, for every stream |
| Translation.LineEndingsIrrelevant | internal/router/responses_stream.go:394-395 | turning every LF into CR LF changes no event |
| Translation.DataLineCarries | internal/router/responses_stream.go:394-404 | a `data:` line carries its text with or without blanks around it, at any line boundary |
| Translation.NothingAfterMarker | internal/router/responses_stream.go:405-408 | behind a `data: [DONE]` line neither the rest of the stream nor its end matters |
| Translation.MarkerCompletes | internal/router/responses_stream.go:405-408 | the first such line completes the response with exactly the chunks in front of it |
| Translator.ChatReader.ReadLine | internal/router/responses_stream.go:392-392 | lines come out in order, each whole; the end is reported with an unterminated line and again ever after |
| Translator.Emitter.Send | internal/router/responses_stream.go:223-232 | one event is written with the next number, nothing before it changes |
| Translator.Emitter.EmitCreated | internal/router/responses_stream.go:273-280 | opens the response with its two announcements |
| Translator.Emitter.OpenItemIfNeeded | internal/router/responses_stream.go:282-307 | the item is opened once |
| Translator.Emitter.EmitDelta | internal/router/responses_stream.go:309-321 | text, deltas and events stay in agreement; an empty piece changes nothing |
| Translator.Emitter.EmitCompletion | internal/router/responses_stream.go:323-366 | closes an open response with the specified completion, and a closed one not again |
| Translator.Emitter.EmitError | internal/router/responses_stream.go:370-375 | appends the one error event |
| Translator.HandleLine | internal/router/responses_stream.go:393-421 | the chain of tests on one line decides exactly: passed over with nothing changed, end marker with the completion sent, or chunk with its usage and deltas sent |
| Translator.ReadAll | internal/router/responses_stream.go:384-433 | the loop ends, and does what line-by-line processing prescribes |
| Translator.RestIsExpected | internal/router/responses_stream.go:384-433 | line-by-line processing is the declarative translation of the whole stream, and stops on cancellation iff the check comes before the finishing read |
| Translator.TranslateChatStream | internal/router/responses_stream.go:381-434 | for every stream, end and moment of cancellation: the events written and the error returned are exactly the declared ones |
| Translator.EveryRun | internal/router/responses_stream.go:381-434 | every run speaks the event language and conserves the text and usage of the chunks it looked at, cancelled or not |
| Translator.HowItEnds | internal/router/responses_stream.go:405-432 | an uncancelled run ends with the completion and no error at the marker or at the end of input, else with the error event that names the stream's error, which it also returns |
| Framing.RoundTrip | internal/router/responses_stream.go:223-228 | a client that follows the standard gets back exactly the list of events sent iff every event has a type |
| Framing.HeardCrLf | internal/router/responses_stream.go:223-228 | that client hears the same when every LF is turned into CR LF |
| Framing.HeardUntyped | internal/router/responses_stream.go:223-228 | it passes over comments, joins lines of data, and calls an event without a type a "message" |
| Framing.OwnRuleReadsBack | internal/router/responses_stream.go:392-401 | the translator's own line rule reads back exactly the payloads |
| Framing.EmittedRoundTrip | internal/router/responses_stream.go:223-232 | both hold of everything the emitter can send, given payloads marshalled as objects on one line |
| Framing.ClientReads | internal/router/responses_stream.go:223-366 | for all chunks a standard client hears the literal event types in their order, each with its event and its number, however the run ends |
| JsonRouting.SkipExact | internal/router/router.go:76-109 | skipping a serialised value leaves exactly what follows it, and fails iff some number in it is out of the range of a 64-bit float |
| JsonRouting.SkipIff | internal/router/router.go:76-109 | on any input at all skipping succeeds iff the input begins with a value whose numbers fit |
| JsonRouting.SkipConsumes | internal/router/router.go:76-109 | and then it has taken exactly such a value |
| JsonRouting.CutValue | internal/router/router.go:76-109 | on every proper prefix of a serialised value skipping fails |
| JsonRouting.ParseFindsFirstModel | internal/router/router.go:119-160 | on every object the router returns the text of the first top-level `model` member, or nothing if it is absent or not text, whatever follows that member; it rejects the object iff a number up to that member's first token is out of range |
| JsonRouting.RoutingStopsAtModel | internal/router/router.go:142-152 | unless a number in front of it is out of range, the answer is settled by the first token behind the first `model`; anything may follow |
| JsonRouting.RoutedExactly | internal/router/router.go:119-160 | for every input, JSON or not: it is routed to a name iff well-formed members lead to a `model` member with that name, or, for the empty name, to the end of the input or something that closes |
| JsonRouting.PeekAccepts | internal/router/router.go:845-855 | the peek accepts an object iff members spelled `model` are text or null and members spelled `stream` booleans or null |
| JsonRouting.PeekIsLastSaid | internal/router/router.go:845-848 | its `stream` is the last boolean under a name that spells it in any case, and false without one |
| JsonRouting.HandledBy | internal/router/router.go:845-880 | every object is rejected, streamed for the last text spelled `model`, or passed on to the first `model` member, and exactly when |
| JsonRouting.SpelledStream | internal/router/router.go:845-856 | upper case and the long s spell `stream` too |
| JsonRouting.PeekIsLastSpelled | internal/router/router.go:845-855 | the whole-body peek takes the last text member spelled `model` in any case |
| JsonRouting.RoutingAgreesIff | internal/router/router.go:845-860 | on every accepted object the two paths agree iff no number in front of the first `model` is out of range and the first `model` and the last text spelled so agree |
| JsonRouting.SameRouting | internal/router/router.go:845-860 | when at most one member spells `model` in any case, and that one exactly, they agree iff no number in front of it is out of range |
| JsonRouting.RoutingCanDiffer | internal/router/router.go:845-860 | a repeated name, another spelling, a number out of range and a `null` body are routed differently |
| JsonDecoder.Decoder.Token | internal/router/router.go:124-124 | the reading decoder yields the automaton's token and state, and loses no byte of the body |
| JsonDecoder.Decoder.Skip | internal/router/router.go:76-109 | the recursive skipper with its loops ends and does what skipping means |
| JsonDecoder.Decoder.ParseModel | internal/router/router.go:119-160 | the loop returns what routing means, and on every exit captured plus unread is the original body |
| JsonDecoder.ParseRouting | internal/router/router.go:167-168 | for every cutting of the reads the answer is the same and the body can be put together again |
| Placeholders.ReplaceFills | internal/errors/errors.go:68-68 | one replacement fills exactly the holes of that name |
| Placeholders.ReplaceSplits | internal/errors/errors.go:68-68 | replacement works separately on a text that leaves no placeholder unfinished, whatever its braces, and on what follows it |
| Placeholders.OrderIrrelevant | internal/errors/errors.go:66-69 | for values that open no brace every order of the keys gives the simultaneous substitution, unknown placeholders left alone |
| Placeholders.StableOrderIrrelevant | internal/errors/errors.go:66-69 | values may hold braces and placeholders: if no other key's replacement, made alone, touches the value of a placeholder of the template, and no such value leaves a placeholder unfinished, every order gives the simultaneous substitution |
| Placeholders.OrdersAgreeIff | internal/errors/errors.go:66-69 | for every map and any values, all orders render a message that is one known placeholder alike iff no other key's replacement, made alone, touches its value |
| Placeholders.OneNameOrdersAgreeIff | internal/errors/errors.go:66-69 | the same iff on every template in which one known name occurs, any number of times, for any values of which its own leaves no placeholder unfinished |
| Placeholders.UnfinishedCanMatter | internal/errors/errors.go:66-69 | a value that ends in an opening brace can be completed by the template, and then the order matters although nothing touches the value alone |
| Placeholders.TemplateOrdersAgreeIff | internal/errors/errors.go:66-69 | on every template, with any number of known names, for values that are texts like templates: all orders render alike iff no other key's replacement, made alone, touches the value of a placeholder of the template; no placeholder held by another value may be in its own |
| Placeholders.TwoEndingsDiffer | internal/errors/errors.go:66-69 | a placeholder of the template whose value holds another key's placeholder, which that key's own value does not hold, makes the message depend on the order |
| Placeholders.RenewedCanAgree | internal/errors/errors.go:66-69 | two values that each hold both placeholders render alike in all orders although each touches the other |
| Placeholders.TwoOrdersAgreeIff | internal/errors/errors.go:66-69 | the case of two keys |
| Placeholders.OrderCanMatter | internal/errors/errors.go:66-69 | a model named like a placeholder is rendered in two ways |
| Placeholders.Render | internal/errors/errors.go:56-82 | the loop over the map renders in some order that visits each key once, hence gives the simultaneous substitution for values that open no brace, and under the condition of `StableOrderIrrelevant` for others; defaults for unknown templates and zero status |

## Left out

- HTTP transport, reverse proxying, the WebSocket relay, multipart bodies, signals, shutdown: library I/O.
- Health probing, timers and real time: recorders are called, caches expire and deadlines pass at any time.
- Metrics, logging, the debug status and the `/health` document.
- `trackingWriter`, `writeSSEError` and the error handler: a few branches each.
- Error classification, deprecation redirects and notices: finite case tables.
- `translateResponsesToChat`, `buildMessages`, `flattenResponsesContent`: value-to-value copying.
- Nesting deeper than 10 000 levels, which `json.Unmarshal` refuses: `Peek` accepts what the library accepts up to that.
- JSON, URL and duration text: a body is its sequence of lexemes (one lexeme is never split between two reads), a URL or duration parses or not, a payload parses to its contents and usage or not.
- Bytes that are not valid UTF-8: text is a sequence of characters.
- The ids, timestamps and constants inside event payloads and list entries, and the model and response ids.
- Random tie-breaking is a choice from the tied candidates; its probabilities are not modelled.
- The version and active counters are unbounded integers; only the failure counter wraps. Selection is stated for active counts below the 32-bit maximum.
- In `CacheProtocol` a cache hit, from the lock through the comparison to the answer, is one step, as is planning a reload under the pool's lock. A slice or string is read in one step.
- Backends.IndexAll: fills the index in a loop of its own, after the loop that makes the backends; nothing reads the index in between.
- Backends.NewPool: checks all configurations before it makes the first backend; the discarded ones are visible to nobody.
- Backends.Backend.Acquire: is the sequential reading, in which a full semaphore stays full until the deadline passes; waiting is in `Slots`.
- Backends.Pool.SelectBackend: reads a snapshot that stands still; what moving counters can do is `PoolSpec.PanicExactly`.
- CacheReload.FailedReloadCoherentIff: is about the list that was cached before; a list rebuilt while the failing reload is writing may mix old and new fields, one rebuilt afterwards is `CacheFreshness.UndisturbedBuildIsRight`.
- PoolSpec.GreedyBound: is about runs in which no count reaches the 32-bit maximum and no semaphore is full.
- Placeholders.TemplateOrdersAgreeIff: leaves out values that hold a placeholder which another value of the template holds too, and which is its own; there agreement is an accident of both texts (`Placeholders.RenewedCanAgree`). Values in which an opening brace is followed by another one, as in nested JSON, are covered by `Placeholders.StableOrderIrrelevant` one way, and both ways where one known name occurs.
- Slots.HangsIff: is about channels that hold at least one token, which loading a configuration sees to (`internal/config/config.go:128-129`).
- Translator.ChatReader.ReadLine: works on the lines of the body, not on its buffer; `Translation.LinesMeaning` says what the lines are.
- Translator.HandleLine: is the body of the read loop up to the error check, as a method of its own, and so are `EmitChunk`, `EmitContents` and `EndStream`.
- Backends.Pool.Assemble: with `Adopt`, `Prepare`, `Rebuild` and `Publish` it is a part of the reload as a method of its own.
- Framing.RoundTrip: is about types and payloads without line breaks, which marshalled JSON and the fixed type names are.
