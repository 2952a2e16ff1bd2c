# Flight search agent: a verified model

This project models the logic of a flight search agent and proves what its
report rests on. The agent plans single-origin searches, runs them concurrently
under a semaphore with a shared retry budget and a cache, normalizes and
validates the offers, collapses offers of one shape, scores and ranks them, and
classifies the run. Beside that it replays an early-stop rule, compares direct
with one-stop flights per destination, and resolves layered settings.

Verify with `dafny verify dfyconfig.toml`.

## How it is laid out

| files | what they model |
|---|---|
| `Executor`, `ExecutorTheorems`, `ExecutorSequential`, `ExecutePlan` | `orchestration/executor.py` as a transition system whose steps lie between suspension points, so a schedule is any sequence of enabled tasks, the semaphore admitting them in plan order; what holds in every reachable state; when the schedule shows; and the imperative loops on the shared budget, repository and result array |
| `Cache`, `CacheProtocol`, `SecondRun`, `RawKeys` | `persistence/cache_repo.py` as a class, and as interleaved atomic statements with outside damage; what one run leaves for the next; `persistence/keys.py` |
| `Payload`, `FieldNames` | the stored payload of `providers/base.py`: dump with computed fields, strip, strict reading |
| `Zones`, `Segments` | the EU rule zone of `spikes/tz_arithmetic.py` and the segment checks of `domain/segment.py` |
| `Itineraries` | legs, itineraries, digests and the builder (`domain/itinerary.py`, `domain/ids.py`, `normalize/builder.py`) |
| `Dedup`, `Survivors`, `Scoring`, `Validation`, `Ranking`, `Report` | `normalize/dedup.py`, `scoring/*`, `validation/*`, the report lines they lead to, and when the order of arrival shows in them |
| `EarlyStop`, `Waves`, `DirectVsStop`, `AnalysisOrder` | `policy/*` and `orchestration/waves.py`, and when the order of execution shows in an analysis |
| `ConfigTrees`, `EnvLayer` | `config/loader.py` |
| `Outcomes`, `RunStatus`, `Pipeline` | `domain/run.py` and the data flow of `cli.py` from executor results to status and report |
| `Wrappers`, `Seqs`, `StableSort`, `Domain` | shared types, sequence and bag lemmas, and a stable sort with its laws |

Loops and objects that change state are methods and classes proved against
specification functions; the laws are lemmas about those functions.

## How things are represented

- Instants, wall-clock readings and durations are whole microseconds; prices are
  whole cents; scores and other decimals are exact reals.
- Digests are injective functions of the text they are taken over, and compare
  as numbers. An itinerary object's identity in the ranker is its input position.
- A provider is any function from task and attempt to success, transient failure
  or permanent failure. Sleeping and jitter are a phase of arbitrary length.
- A dictionary is a map, with a list of its keys where insertion order matters;
  the slice of a list to a negative bound counts back from the end.
- A row whose stored expiry cannot be parsed has no expiry; outside damage may
  strike any row at any step.

## Results where code and documentation, or two inputs, part ways

- The schedule shows in the results as soon as two tasks compete for a positive
  budget that cannot satisfy everything the cache's misses want, unless only one
  task is admitted at a time; `ExecutorSequential.ScheduleInvisibleIff` is exact.
- A lookup that saw a damaged row may delete a fresh one
  (`CacheProtocol.GapLosesFreshEntry`), exactly when a write to its key lands
  between its select and its delete (`CacheProtocol.FreshEntryLostIff`); it never
  serves a wrong or expired one.
- Raw keys confuse two providers exactly when their names and versions, joined,
  read the same (`RawKeys.KeysEqualIff`).
- Of offers tied on shape, price and identity the first to arrive survives, and
  the report prints its provider, booking link, fare date and local readings. The
  printed lines are a function of the bag of offers exactly when such ties agree
  on what is printed (`Report.ArrivalOrderInvisibleIff`); two offers that differ in
  their booking link do not (`Report.BookingLinkShowsArrival`). The ranking itself
  only needs itineraries of one shape to be cut into legs alike
  (`Report.TiesRankAlike`), which the shape digest does not ensure
  (`Report.CutsAreInvisibleToIdentity`) but single legs do.
- The same ties make the cheapest flight recorded for a destination depend on
  execution order, but, for itineraries cut alike, none of the numbers beside it
  (`AnalysisOrder.RecordFixedIff`, `AnalysisOrder.OutlineIgnoresExecutionOrder`).
- A second deduplication keeps the survivors and forgets their metadata
  (`Dedup.DedupTwiceForgets`).
- Merging layers is associative exactly when no value hides a table that a
  higher layer reopens (`ConfigTrees.MergeAssociativeIff`, `ConfigTrees.GroupingMatters`).
- Whether two nested environment names conflict or one silently replaces the
  other depends on their order (`EnvLayer.OrderInvisibleIff`).
- No status fits a ledger in which nothing was accepted, some task did not fail
  and none was answered (`RunStatus.ComputedStatusAcceptedIff`). The executor
  never leaves one.
- The documentation puts the divergence of ladder and bonus "above roughly
  EUR755". `DirectVsStop.DefaultDivergenceThreshold` gives the exact condition for
  every saving: 755 euros belong to a saving worth 31 euros, and for savings worth
  at most 30 euros it is possible at every stop fare.
- The proportional bonus removes the divergence of the relative arm only; the
  absolute arm can still disagree (`DirectVsStop.DivergenceIsAWindow`).

## Model

| member | source | states |
|---|---|---|
| Executor.BudgetFor | src/flightagent/orchestration/executor.py:468-470 | the budget is the product of task count and fraction truncated toward zero: the greatest integer not above it, and nothing at all for a negative fraction |
| Executor.InitInv | src/flightagent/orchestration/executor.py:467-472 | the initial state satisfies the executor's invariant |
| Executor.StepInv | src/flightagent/orchestration/executor.py:248-391 | every enabled step of every task keeps the invariant: local state, budget, call count, permits |
| Executor.RunInv | src/flightagent/orchestration/executor.py:467-495 | so does every run, whatever the interleaving |
| Executor.StepFrame | src/flightagent/orchestration/executor.py:472-495 | a step of one task leaves every other task's phase and result alone, and the budget never grows |
| Executor.StepCounts | src/flightagent/orchestration/executor.py:116-183 | each step moves the granted budget, the provider calls and the held permits exactly as it moves the tasks' own retries, calls and permit: permanent errors, exhausted attempts, hits and stores spend nothing |
| ExecutorTheorems.BudgetConservation | src/flightagent/orchestration/executor.py:116-147 | in every reachable state remaining plus granted is the initial budget, remaining is never negative, and every grant is one task's retry |
| ExecutorTheorems.ConcurrencyBound | src/flightagent/orchestration/executor.py:467-491 | tasks past the semaphore, those asleep between attempts included, never exceed the bound; no task makes more than max(1, max_attempts) calls |
| ExecutorTheorems.Progress | src/flightagent/orchestration/executor.py:472-495 | with a bound of at least one, every reachable state is complete or some task can move |
| ExecutorTheorems.Termination | src/flightagent/orchestration/executor.py:472-495 | every run is finite: at most three steps per permitted attempt plus two, per task |
| ExecutorTheorems.ResultsPersist | src/flightagent/orchestration/executor.py:472-491 | a result slot, once written, is never written again |
| ExecutorTheorems.OneResultPerTask | src/flightagent/orchestration/executor.py:490-495 | at the end the collected list has one result per task, in task order: the closing length assertion cannot fail |
| ExecutorTheorems.CompleteRunCost | src/flightagent/orchestration/executor.py:294-343 | in every complete run the retries granted are exactly the smaller of the budget and the retries wanted by cache misses, and provider calls are misses plus that number |
| ExecutorTheorems.RecordOfTask | src/flightagent/orchestration/executor.py:150-161 | what each finished task has on record, field by field, under any schedule: a rate limit is RATE_LIMITED, a timeout TIMEOUT, any other failure PROVIDER_ERROR, each with its error and no offers; an answer carries its offers and is NO_OFFERS iff it has none; marks are hit, miss or bypass; earlier attempts failed transiently, and a transient failure below the attempt limit is last only if the budget is spent |
| ExecutorTheorems.CompleteRunSettles | src/flightagent/orchestration/executor.py:437-495 | over distinct keys and any start table, every complete run gives each slot the start table's cached answer or that task's outcome under its own share of retries, and the shares sum to the smaller of the budget and what the table's misses want |
| ExecutorTheorems.ScheduleIndependence | src/flightagent/orchestration/executor.py:437-495 | with a cache or without, over distinct keys and a budget covering what the start table's misses want, every complete interleaving returns the same list: each task's cached answer or its own undisturbed outcome |
| ExecutorSequential.SoloIsRun | src/flightagent/orchestration/executor.py:248-391 | one task run alone to its end is a run of the step machine |
| ExecutorSequential.PlanRunIsRun | src/flightagent/orchestration/executor.py:472-495 | running tasks one after another in plan order is a run of the step machine |
| ExecutorSequential.PlanRunSpends | src/flightagent/orchestration/executor.py:116-183 | and it spends the budget greedily, task by task, on what the cache's misses want |
| ExecutorSequential.FirstTakesAll | src/flightagent/orchestration/executor.py:294-343 | in plan order the first task that wants a retry takes its retries from the whole budget |
| ExecutorSequential.FirstTakesLast | src/flightagent/orchestration/executor.py:294-343 | with two permits or more, another schedule holds that task in its first call while every later one finishes, and it takes its retries from what they left |
| ExecutorSequential.OneRunOnly | src/flightagent/orchestration/executor.py:472-488 | with a single permit, admission in plan order leaves exactly one complete run |
| ExecutorSequential.ScheduleInvisibleIff | src/flightagent/orchestration/executor.py:116-183 | the exact condition for schedule independence, for any start table with distinct keys: the budget grants nothing, or covers everything the misses want, or at most one task wants retries, or one task is admitted at a time; otherwise two schedules with different results exist |
| ExecutePlan.RetryBudget.constructor | src/flightagent/orchestration/executor.py:134-136 | the shared counter starts at the total |
| ExecutePlan.RetryBudget.TryConsume | src/flightagent/orchestration/executor.py:141-147 | grants and decrements iff something is left; otherwise changes nothing |
| ExecutePlan.ShouldTryAgain | src/flightagent/orchestration/executor.py:164-183 | a retry happens iff the failure is transient, attempts remain, and the budget grants; the budget is asked only in that order |
| ExecutePlan.SearchWithRetries | src/flightagent/orchestration/executor.py:294-391 | the retry loop on the shared budget and repository ends in the result, budget and table of the step machine's run of that task |
| ExecutePlan.SearchAndRecord | src/flightagent/orchestration/executor.py:248-391 | the whole cache-aside task, hit or miss, does the same from the waiting state |
| ExecutePlan.ExecuteInPlanOrder | src/flightagent/orchestration/executor.py:437-495 | filling the pre-sized result array task by task is one complete run of the step machine; over distinct keys and with enough budget it returns every task's cached answer or undisturbed outcome |
| Cache.CacheRepository.GetRaw | src/flightagent/persistence/cache_repo.py:173-237 | a live row's payload or a miss; only a row with an unreadable expiry is deleted; exactly one of hits and misses is counted |
| Cache.CacheRepository.PutRaw | src/flightagent/persistence/cache_repo.py:239-321 | writes or overwrites the row with a new expiry, keeping its first creation time; one write is counted |
| Cache.CacheRepository.GetNormalized | src/flightagent/persistence/cache_repo.py:325-383 | the same lookup on the second table, leaving the first alone |
| Cache.CacheRepository.PutNormalized | src/flightagent/persistence/cache_repo.py:385-458 | the same write on the second table, leaving the first alone |
| Cache.TtlGrowsWithDistance | src/flightagent/persistence/cache_repo.py:65-99 | resolved lifetimes never shrink with distance to departure when the settings do not, and the tiers change at 7, at 30 and after 180 days |
| Cache.UpsertKeeps | src/flightagent/persistence/cache_repo.py:239-321 | a write is served exactly until its lifetime ends, leaves other keys alone, and keeps the moment of the first write |
| CacheProtocol.HitsAreHonest | src/flightagent/persistence/cache_repo.py:193-237 | under every interleaving of selects, deletes and upserts, with rows damaged from outside at any moment, each hit served the payload of the latest write to its key as of its own select, before that write's expiry |
| CacheProtocol.GapLosesFreshEntry | src/flightagent/persistence/cache_repo.py:193-237 | the gap between select and delete can lose an entry: a lookup that saw a damaged row deletes what another client has just written |
| CacheProtocol.DeletesHitDamagedRows | src/flightagent/persistence/cache_repo.py:193-237 | with damage allowed anywhere, whenever no write to the key has landed since the select that decided a pending delete, that delete finds no row with a readable expiry |
| CacheProtocol.UnoverlappedDeletesAreSafe | src/flightagent/persistence/cache_repo.py:193-237 | so in a run in which no write overlaps a lookup that saw a damaged row, every delete hits damaged rows only |
| CacheProtocol.FreshEntryLostIff | src/flightagent/persistence/cache_repo.py:193-237 | a row just written can be lost, with neither damage nor another write to its key, iff at the moment of the write some lookup that saw a damaged row of that key is still pending: the overlap is the exact guard |
| CacheProtocol.UndamagedLosesNothing | src/flightagent/persistence/cache_repo.py:193-321 | an entry whose own key is not damaged is never lost or altered but by a later write to that key, whatever damage strikes other keys |
| CacheProtocol.UndamagedLookup | src/flightagent/persistence/cache_repo.py:193-321 | then a lookup finds the latest write exactly while that write is live |
| CacheProtocol.QuiescentTallies | src/flightagent/persistence/cache_repo.py:101-124 | when no operation is in flight, hits plus misses equal lookups begun and writes equal writes begun |
| CacheProtocol.LookupAlone | src/flightagent/persistence/cache_repo.py:173-237 | the protocol's steps of one undisturbed lookup amount to the repository's lookup |
| CacheProtocol.LayersAreIndependent | src/flightagent/persistence/cache_repo.py:339-420 | each layer of an interleaved run over both tables behaves as if its own actions had been run alone |
| SecondRun.ColdStored | src/flightagent/orchestration/executor.py:361-391 | in a cache that knew none of the searches, what a key was left with is live at a later clock iff its task was answered and its own lifetime has not passed |
| SecondRun.StoredAnswer | src/flightagent/orchestration/executor.py:361-391 | after a complete first run over distinct keys, from any cache, a key is served at a later clock iff the row it was left with, its own answer's or the one found there, is live; what is served reads back as an answered task's offers and state |
| SecondRun.SecondRunServes | src/flightagent/orchestration/executor.py:276-290 | in every complete second run a task is a hit exactly then, with no attempt and the same state and offers; the others cost one call plus retries |
| SecondRun.SecondRunIsFree | src/flightagent/orchestration/executor.py:276-290 | if what every key was left with is still live, no reachable state of the second run has made a provider call |
| RawKeys.SignedInjective | src/flightagent/persistence/keys.py:63-66 | decimal texts of different numbers differ and contain no separator |
| RawKeys.TailRecovered | src/flightagent/persistence/keys.py:34-42 | from a joined text the fields without separator at its end are recovered, whatever stands before them |
| RawKeys.KeysEqualIff | src/flightagent/persistence/keys.py:34-67 | for any two providers two keys are equal iff the searches differ in nothing but the layover window and the joined texts of provider name and version are equal, separators or not |
| RawKeys.KeysAreDistinct | src/flightagent/persistence/keys.py:45-67 | a plan that asks for no search twice has pairwise distinct keys, as the theorems on runs with a cache require |
| RawKeys.SecondIdenticalRunIsFree | src/flightagent/orchestration/executor.py:276-290 | end to end with real keys and the real codec, from any cache: if what every key was left with is still live at the second clock, the second run makes no provider call under any schedule |
| RawKeys.SecondIdenticalRunRepeats | src/flightagent/orchestration/executor.py:394-430 | and when it completes every task is a hit with zero attempts, with the first run's state and offers if that run answered it |
| Payload.StripComputed | src/flightagent/providers/base.py:158-166 | the nested loops remove exactly the computed keys of every leg and segment, and nothing else |
| Payload.StripSegments | src/flightagent/providers/base.py:163-165 | the innermost loop: the flag of every segment of a leg |
| Payload.StripLegs | src/flightagent/providers/base.py:160-165 | the loop over an offer's legs |
| Payload.Deserialize | src/flightagent/providers/base.py:125-166 | reading a payload is stripping it and then reading strictly |
| Payload.SegmentBack | src/flightagent/providers/base.py:108-116 | a stored segment reads back as itself once its flag is stripped, and is rejected otherwise |
| Payload.LegBack | src/flightagent/providers/base.py:108-116 | a stored leg reads back as itself once its three computed fields are stripped, and is rejected otherwise |
| Payload.SegmentBackIff | src/flightagent/providers/base.py:108-116 | a stored segment reads back iff its airports are three capital letters, its carriers two capitals or digits, its stop count not negative, its folds zero or one, and its times fit |
| Payload.LayoverBackIff | src/flightagent/providers/base.py:108-116 | a stored layover reads back iff its airport is three capital letters and its duration is the positive time between its ends |
| Payload.UnknownKeyIsRefused | src/flightagent/providers/base.py:108-116 | no record is read from an object with a key it does not know |
| Payload.RoundTrip | src/flightagent/providers/base.py:125-166 | for every valid search result, strip-then-read undoes the dump with computed fields |
| Payload.StrippingIsNeeded | src/flightagent/providers/base.py:132-142 | without stripping a stored result is rejected iff it holds at least one offer |
| Payload.ReadIsValid | src/flightagent/providers/base.py:151-155 | whatever payload is read, the result has passed every check of its records |
| Payload.CodecIsFaithful | src/flightagent/orchestration/executor.py:361-402 | with this codec, a provider of valid records meets the executor's assumption on storing and loading |
| Zones.LastSundayIsLast | spikes/tz_arithmetic.py:54-60 | the computed day is a Sunday of the month and no later day of the month is one |
| Zones.NearbyYear | spikes/tz_arithmetic.py:106-124 | deciding summer time by the wall clock's own year gives the answer of the instant's year, also across new year |
| Zones.OffsetRule | spikes/tz_arithmetic.py:111-124 | the offset of a wall reading in terms of the two candidate instants alone |
| Zones.UtcRoundTrip | spikes/tz_arithmetic.py:141-151 | every UTC instant survives conversion to local time with fold and back |
| Zones.OccurrencesAreAll | spikes/tz_arithmetic.py:111-151 | the listed instants are exactly those whose local reading is the given one |
| Zones.ClassifierCounts | spikes/tz_arithmetic.py:209-215 | a reading is normal, ambiguous or imaginary exactly when one, two or no instants show it |
| Zones.FoldlessRoundTrip | spikes/tz_arithmetic.py:141-151 | dropping the fold loses an instant iff it lies in the second pass of a repeated hour |
| Zones.GregorianDays | spikes/tz_arithmetic.py:54-60 | the day count is that of the proleptic Gregorian calendar |
| Zones.MonthLengths | spikes/tz_arithmetic.py:54-60 | months have their lengths, leap years by the rule of 4, 100 and 400 |
| Zones.Amsterdam2027 | spikes/tz_arithmetic.py:358-422 | the worked cases of 2027: which readings are normal, ambiguous and imaginary, and the layovers of 210 and 150 minutes across the changes |
| Segments.BuiltSegmentAccepted | src/flightagent/providers/mock/generator.py:282-310 | a segment built from UTC instants with default folds is accepted iff time passes and neither end lies in a second pass |
| Segments.FoldsRepairSegment | src/flightagent/domain/segment.py:96-139 | with the true folds every such segment is accepted |
| Segments.UnflaggedIsUnique | src/flightagent/domain/segment.py:141-160 | in an accepted segment without the computed flag, each local reading names its UTC instant alone |
| Itineraries.Telescopes | src/flightagent/domain/itinerary.py:70-80 | for a leg of any length, aligned layovers make the flights and layovers sum to the distance between its end points, which is positive |
| Itineraries.TotalCheckIsRedundant | src/flightagent/domain/itinerary.py:44-81 | for checked parts the leg's last check can never fire: a leg is accepted iff it is non-empty, its layovers lie between its flights to the minute, and each flight leaves from where the last one landed |
| Itineraries.LegVerdict | src/flightagent/domain/itinerary.py:44-81 | every error of a leg names the first place that is wrong, everything before it being in order |
| Itineraries.TotalIsSumOfParts | src/flightagent/domain/itinerary.py:207-215 | an itinerary's total is the sum over all flights and layovers of all legs, and positive |
| Itineraries.BuilderFailsOnlyOnCurrency | src/flightagent/normalize/builder.py:82-97 | for checked legs the builder's re-assertion cannot fire: it fails iff the price is not in euros |
| Itineraries.BuilderVerdict | src/flightagent/normalize/builder.py:152-227 | for any offer: the first leg whose parts do not add up is named, else a currency other than the euro, and otherwise the offer is copied under its digests with fresh duplicate records |
| Itineraries.IdIgnoresCarrierOrder | src/flightagent/domain/ids.py:20-35 | the identity does not depend on how the carriers are listed |
| Itineraries.IdIdentifies | src/flightagent/domain/ids.py:20-35 | with injective digests, equal identities mean equal shapes, equal bags of carriers and equal prices, and conversely |
| Itineraries.IdentityIff | src/flightagent/normalize/builder.py:100-131 | with injective digests two itineraries share a shape iff they fly the same flights, pairwise by places and instants, in one cabin for as many adults; they share an identity iff also their bags of marketing carriers and their prices agree |
| StableSort.SortSorted | src/flightagent/scoring/ranking.py:96-110 | the modelled built-in sort sorts |
| StableSort.SortBag | src/flightagent/scoring/ranking.py:96-110 | and rearranges |
| StableSort.SortStable | src/flightagent/scoring/ranking.py:96-110 | and keeps tied elements in order of arrival |
| StableSort.SortAfterSort | src/flightagent/scoring/ranking.py:96-110 | a preliminary sort that only separates elements the final order separates already leaves no trace |
| Dedup.GroupByShape | src/flightagent/normalize/dedup.py:142-144 | the insertion-ordered dictionary holds, per shape in order of first appearance, that shape's itineraries in order of arrival |
| Dedup.Deduplicate | src/flightagent/normalize/dedup.py:122-158 | the loops return one survivor per shape in that order, and count the rest as duplicates |
| Dedup.DedupPartitions | src/flightagent/normalize/dedup.py:84-158 | output shapes are the input's in first-appearance order, duplicate counts sum to the input length, no offer of a survivor's shape is cheaper or, at its price, smaller in identity, and its fare list is the bag of its class's prices |
| Dedup.SurvivorIsFirstCheapest | src/flightagent/normalize/dedup.py:103-107 | within a class the survivor has the least price, then the least identity, and of equal ones it arrived first |
| Dedup.CollapseKeeps | src/flightagent/normalize/dedup.py:103-119 | duplicate count, fare options and codeshare references agree in number, and no price is dropped |
| Dedup.OthersAreListed | src/flightagent/normalize/dedup.py:46-119 | every other offer of a class is listed in order of arrival with its own price, the carrier of its first flight, and that flight's number if it is the only one |
| Dedup.KeysByFirstAppearance | src/flightagent/normalize/dedup.py:142-144 | an earlier survivor's shape appears before any itinerary of a later one |
| Dedup.DedupTwiceForgets | src/flightagent/normalize/dedup.py:84-158 | a second pass keeps survivors and order but resets what the first one recorded |
| Ranking.RankItineraries | src/flightagent/scoring/ranking.py:55-124 | the presort, two sorts, identity map and truncating loop return the head of the full ranking; any bound of zero or less gives nothing |
| Ranking.RankingIsOneSort | src/flightagent/scoring/ranking.py:96-110 | rank numbers aside, the ranking is one stable sort by the tie key, for every input |
| Ranking.RanksAreGlobal | src/flightagent/scoring/ranking.py:96-124 | score ranks are positions of the full ranking, which rises in the sum of the four components, then price, then whole seconds, then identity; price ranks number 1 to n and rise in price, then identity |
| Ranking.ShorterIsPrefix | src/flightagent/scoring/ranking.py:96-124 | a smaller bound gives a prefix of a larger one, with the same global ranks, and a positive bound keeps a non-empty ranking non-empty |
| Ranking.TopNByDestination | src/flightagent/scoring/ranking.py:137-175 | the per-destination dictionary holds each occurring destination's own sorted head |
| Ranking.DestinationViewAgrees | src/flightagent/scoring/ranking.py:137-175 | which is, ranks aside, the head of the global ranking filtered to the destination, for every bound, negative ones included |
| Ranking.SummarizeByOrigin | src/flightagent/scoring/origin_summary.py:63-114 | one row per requested origin in the requested order, an absent origin having no best |
| Ranking.OriginViewAgrees | src/flightagent/scoring/origin_summary.py:63-114 | an origin's best is the first entry of the global ranking that departs from it |
| Report.RankingThroughRows | src/flightagent/scoring/ranking.py:96-124 | with distinct identities the ranked lines are a function of score, price, duration, identity and whatever is displayed of each survivor |
| Survivors.ContentsOrderFreeIff | src/flightagent/normalize/dedup.py:103-107 | whatever content is read off an itinerary, the survivors' contents are the same bag for every order of arrival iff in each shape class the members no other one is cheaper than agree on it |
| Report.SurvivorIdsDistinct | src/flightagent/domain/ids.py:20-35 | survivors have pairwise distinct identities |
| Report.SameShapeSameScore | src/flightagent/scoring/score.py:104-156 | equal shape, equal cuts into legs and equal price mean equal score and duration |
| Report.ArrivalOrderInvisible | src/flightagent/normalize/dedup.py:122-158 | rank(score(dedup(xs))) shows the same lines for every permutation of xs, at every bound, when in each shape class the cheapest members agree on what is displayed |
| Report.ArrivalOrderInvisibleIff | src/flightagent/reporting/json_report.py:287-312 | for offers that can be scored that condition is exact, for any display, the printed entry of the results document included: otherwise two orders of arrival give different full reports |
| Report.TiesRankAlike | src/flightagent/scoring/score.py:104-156 | on score, price, duration, identity and number of offers, the cheapest members always agree if itineraries of one shape are cut into legs alike, so the ranking itself never depends on arrival |
| Report.SingleLegsSplitAlike | src/flightagent/normalize/builder.py:100-131 | which single-leg itineraries always are |
| Report.CutsAreInvisibleToIdentity | src/flightagent/normalize/builder.py:100-131 | the same flights as two legs and as one have one shape and one identity but different numbers of stops |
| Report.BookingLinkShowsArrival | src/flightagent/reporting/json_report.py:287-312 | of two offers alike but for their booking link, the order of arrival shows in the printed entries |
| Report.PrintedEntry | src/flightagent/reporting/json_report.py:268-312 | a printed entry shows the first departure, the last arrival, leg by leg the airports touched, the set of carriers, and whole minutes |
| Scoring.ExactlyOneBand | src/flightagent/scoring/components.py:25-52 | in bands that tile the window, each minute lies in exactly one band and the lookup returns its penalty whatever the order of the table |
| Scoring.OutsideWindowFails | src/flightagent/scoring/components.py:25-52 | outside the window the lookup fails |
| Scoring.PenaltyIsSum | src/flightagent/scoring/score.py:130-140 | in a tiling table every layover has one row its whole minutes belong to, and the penalty is the sum of those rows' amounts |
| Validation.AcceptedIff | src/flightagent/validation/rules.py:40-306 | an itinerary is accepted iff it meets the seven demands, each spelled out |
| Validation.RejectedIff | src/flightagent/validation/rules.py:40-306 | code by code, exactly when each rejection is recorded: too short or too long by the first layover outside the window, ambiguous or nonexistent by the first unusual reading, departure before arrival |
| Validation.RejectionsDiffer | src/flightagent/validation/rules.py:289-306 | no rejection is recorded twice, so a tally counts itineraries |
| Validation.UnusualIsFlag | src/flightagent/validation/rules.py:210-260 | the local-time rule and the segment's own flag are one classification |
| Validation.SelfTransferRecordedIff | src/flightagent/validation/rules.py:173-207 | the self-transfer rejection is recorded iff some layover is one, whatever else the itinerary is rejected for |
| Validation.AcceptedIsScorable | src/flightagent/scoring/score.py:104-156 | with tiling bands an accepted itinerary is scored without raising, except a direct one in proportional mode without a stop price; a direct one carries no penalty |
| Validation.ScoreOfAccepted | src/flightagent/scoring/score.py:104-156 | and its score is exactly fare, hours at their rate, one penalty per layover from its own row, and the bonus of a direct one |
| Validation.Summarize | src/flightagent/validation/engine.py:39-69 | the loops count accepted itineraries once each and rejections one by one, per code, never a zero |
| EarlyStop.Evaluate | src/flightagent/policy/early_stop.py:80-158 | the loop with its early return computes the declared rule |
| EarlyStop.BasisIsEarlierMinimum | src/flightagent/policy/early_stop.py:118-132 | for distinct origins the comparison basis is the least of exactly the earlier fares |
| EarlyStop.TriggerIff | src/flightagent/policy/early_stop.py:80-158 | it triggers iff some priced position after the second undercuts every earlier fare by the threshold, and then names the first such position, its wave, the origins before it and the margin to the least of their fares; otherwise it names the last comparison made, or none |
| EarlyStop.ExtensionStable | src/flightagent/policy/early_stop.py:118-150 | once triggered, any extension of the list gives the same record |
| EarlyStop.HigherThresholdLater | src/flightagent/policy/early_stop.py:118-150 | raising the threshold never moves the trigger earlier |
| EarlyStop.MissingFaresDoNotCount | src/flightagent/policy/early_stop.py:122-124 | lists with the same priced fares get the same record, but for the wave reported when too few are priced: a missing fare is not a fare of zero |
| Waves.LowerPrice | src/flightagent/orchestration/waves.py:56-60 | the inner loop lowers one pair's entry to the least price found |
| Waves.CheapestPrices | src/flightagent/orchestration/waves.py:36-61 | a pair's entry is the least price any of its tasks found; a pair without prices has none |
| Waves.CheapestIsFound | src/flightagent/orchestration/waves.py:36-61 | that least price was really found by a task for the pair, and no task found less |
| Waves.OriginsInPriorityOrder | src/flightagent/orchestration/waves.py:64-86 | the first-seen dictionary sorted by priority |
| Waves.PriorityOrderRises | src/flightagent/orchestration/waves.py:64-86 | which lists every origin of the plan once, by rising priority, each with the priority and wave of its first task |
| Waves.PriorityOrderCanonicalIff | src/flightagent/orchestration/waves.py:64-86 | when each origin has one priority and wave, the order of origins is the same for every order of tasks iff no two origins share a priority |
| Waves.ReplayEarlyStop | src/flightagent/orchestration/waves.py:89-140 | one evaluation per destination, each the early-stop rule on that destination's fares |
| Waves.ReplayIgnoresExecutionOrder | src/flightagent/orchestration/waves.py:89-140 | permuting the tasks and the itineraries within each task changes no evaluation |
| Waves.ComparedFaresAreReal | src/flightagent/orchestration/waves.py:124-136 | every fare the rule compares was found by a task for that origin and destination and is the least such |
| DirectVsStop.TierIsBands | src/flightagent/policy/direct_vs_stop.py:74-158 | each tier is a bound on the price difference, with no division; a stop price of zero leaves the absolute arm alone |
| DirectVsStop.TierNeverImproves | src/flightagent/policy/direct_vs_stop.py:74-158 | against one stop fare a dearer direct flight never gets a better tier |
| DirectVsStop.CheapestIsLeast | src/flightagent/policy/direct_vs_stop.py:218-290 | the recorded flight of a pool has its least price, and the least identity at that price |
| DirectVsStop.DivergenceIsAWindow | src/flightagent/policy/direct_vs_stop.py:161-215 | tier and score disagree iff the price difference lies between the policy's limit and the score's limit, and which way round says who favours the direct flight |
| DirectVsStop.RelativeArmSafeIff | src/flightagent/scoring/score.py:50-83 | in proportional mode a relative limit never clashes with the score, whatever the direct fare, iff its share of the stop fare is below the time saved plus the bonus |
| DirectVsStop.ProportionalAgreesWithRelativeArm | src/flightagent/scoring/score.py:50-83 | with limits of at most 0.20 and a direct flight that saves time, whenever the relative arm fires there is no divergence |
| DirectVsStop.PolicyOnlyPriceExistsIff | src/flightagent/policy/direct_vs_stop.py:161-215 | some direct fare in whole cents splits policy from score in the policy's favour iff the policy's limit, rounded down to a cent, reaches the score's |
| DirectVsStop.ScoreOnlyPriceExistsIff | src/flightagent/policy/direct_vs_stop.py:161-215 | and some such fare splits them in the score's favour iff the next cent above the policy's limit is still below the score's |
| DirectVsStop.DefaultDivergenceThreshold | src/flightagent/policy/direct_vs_stop.py:200-206 | for the shipped ladder and bonus and any saving: the policy alone can favour the direct flight iff the saving is worth at most 30 euros or a fifth of the stop fare covers bonus plus saving, the score alone iff the saving is worth more than 30.01 euros and bonus plus saving exceed that fifth by more than a cent |
| DirectVsStop.BuildPools | src/flightagent/cli.py:676-715 | the accumulating loop gives every destination the concatenation of all its tasks' itineraries, direct flights left out of the one-stop pool |
| DirectVsStop.PoolMember | src/flightagent/cli.py:676-715 | a pool holds exactly what the tasks of its kind found |
| AnalysisOrder.OutlineIgnoresExecutionOrder | src/flightagent/policy/direct_vs_stop.py:218-354 | for genuine itineraries cut into legs alike, ties included, tier, arms, both differences, time saved, divergence and the identities of both flights do not depend on the order of tasks or of what they found |
| AnalysisOrder.DirectCanLead | src/flightagent/policy/direct_vs_stop.py:218-290 | any direct flight no other is cheaper than is the recorded one under some order of tasks and finds |
| AnalysisOrder.RecordFixedIff | src/flightagent/policy/direct_vs_stop.py:218-354 | where the analysis succeeds, its whole record is the same for every order iff neither pool holds two different itineraries both cheapest by price and identity |
| DirectVsStop.AnalysisNeverRaises | src/flightagent/policy/direct_vs_stop.py:218-354 | over accepted itineraries it never raises in either bonus mode, compares a direct flight with one that stops, and is NOT_AVAILABLE iff there is no direct flight |
| ConfigTrees.DeepMerge | src/flightagent/config/loader.py:98-114 | the copying and overwriting loop, in any order of entries, computes the recursive merge |
| ConfigTrees.MergeLookup | src/flightagent/config/loader.py:98-114 | a lookup in the merge is the override's word if it has something at the path or a leaf above it, else the base's: an override leaf wins, and a base leaf survives iff the override has nothing there and no leaf above |
| ConfigTrees.TopmostLayerDecides | src/flightagent/config/loader.py:202-215 | over any number of layers the topmost one that says anything about a path decides it |
| ConfigTrees.NoLayerSpeaks | src/flightagent/config/loader.py:202-215 | and a path no layer speaks of is absent |
| ConfigTrees.SameLookups | src/flightagent/config/loader.py:98-114 | a tree is determined by its lookups |
| ConfigTrees.MergeAssociativeIff | src/flightagent/config/loader.py:98-114 | merging three layers does not depend on the grouping iff no value of the middle layer that the top layer makes a table again uncovers anything of the bottom layer |
| ConfigTrees.CompatibleLayersAssociate | src/flightagent/config/loader.py:98-114 | in particular for layers that agree on what is a table |
| ConfigTrees.GroupingMatters | src/flightagent/config/loader.py:98-114 | a table, a value and a table at one path: the two groupings differ |
| EnvLayer.ParseEnvLayer | src/flightagent/config/loader.py:117-155 | the loop over the environment returns the tree of its variables, or the first malformed or conflicting name |
| EnvLayer.SplitKeepsAll | src/flightagent/config/loader.py:138 | cutting a name at its delimiters loses nothing |
| EnvLayer.NameRoundTripIff | src/flightagent/config/loader.py:134-140 | the paths whose variable name is read back as themselves are exactly those of lower-case, non-empty steps without a double underscore and, but for the last step, without one at the end |
| EnvLayer.NameVerdict | src/flightagent/config/loader.py:129-140 | names without the prefix are passed over; with it, an empty step or nothing at all is malformed, in whatever case the name is written |
| EnvLayer.NamesAreWalkable | src/flightagent/config/loader.py:138-140 | a name that is read names at least one step and no empty one |
| EnvLayer.PutLookup | src/flightagent/config/loader.py:142-154 | inserting a value fails iff a value lies above its path, and otherwise changes exactly what is at and below the path and the tables leading to it |
| EnvLayer.LoadHoldsExactly | src/flightagent/config/loader.py:129-155 | when no path is a prefix of another and none has two values, loading succeeds and the tree holds exactly the given leaves and the tables above them |
| EnvLayer.OrderInvisibleIff | src/flightagent/config/loader.py:129-155 | the order of the variables is invisible iff that condition holds |
| EnvLayer.LongerNameLost | src/flightagent/config/loader.py:142-154 | in the unlucky order the longer of two nested names is dropped without an error |
| EnvLayer.ShortFirstConflicts | src/flightagent/config/loader.py:148-152 | in the other order it is reported as a conflict |
| EnvLayer.EnvironmentOrderInvisible | src/flightagent/config/loader.py:117-155 | so for well-named, consistent variables the parsed layer is a function of the set of variables |
| RunStatus.OneStatusAtMost | src/flightagent/domain/run.py:192-224 | the envelope's validator accepts at most one status |
| RunStatus.ComputedStatusAcceptedIff | src/flightagent/cli.py:612-643 | over all eight task states the computed status is accepted, and is the only one that is, unless nothing was accepted, some task did not fail and none was answered, and then no status is accepted |
| RunStatus.SkippedAloneHasNoStatus | src/flightagent/domain/run.py:192-224 | a skipped or cancelled task alone is such a ledger |
| RunStatus.ExecutorLedgersHaveStatus | src/flightagent/cli.py:612-643 | a ledger of answers and failures always has exactly the computed status, and it is COMPLETE or PARTIAL iff something was accepted |
| Pipeline.NormalizeAndValidate | src/flightagent/cli.py:289-335 | the loop keeps the accepted itineraries, every verdict, and every self-transfer rejection with its itinerary, or stops at the first offer that cannot be built |
| Pipeline.NoteSelfTransfers | src/flightagent/cli.py:329-334 | the inner loop appends exactly the self-transfer rejections of one verdict |
| Pipeline.AppendixIff | src/flightagent/cli.py:289-335 | the self-transfer appendix names exactly the itineraries with such a layover, none of which was accepted |
| Pipeline.KeptAreCounted | src/flightagent/validation/engine.py:39-69 | the summary's accepted count is the number of itineraries kept, at most the number of offers |
| Pipeline.FinalizeRun | src/flightagent/cli.py:877-912 | the finalization loop builds the ledger, the accepted itineraries in task order and the same by task, looking at offers of answered tasks only |
| Pipeline.ResultsArePlausible | src/flightagent/orchestration/executor.py:380-391 | every result of a complete executor run is an answer or a failure, with the offer count of its offers and OK iff it has any |
| Pipeline.LedgersAreSound | src/flightagent/cli.py:509-534 | in a finalized ledger accepted never exceeds offered, ALL_REJECTED is exactly offers without acceptance and always names a reason, every other state is kept, and accepted counts sum to the itineraries kept |
| Pipeline.EntriesAreFinal | src/flightagent/cli.py:509-534 | an answered task's entry counts its own accepted itineraries and its own rejections per code, and changes in nothing else but OK to ALL_REJECTED; every other entry is left as it was |
| Pipeline.FiledPass | src/flightagent/cli.py:877-912 | what is filed under a task passed the rules for that task's own request |
| Pipeline.FinishedRunHasOneStatus | src/flightagent/cli.py:877-1003 | for every complete run of the executor over sellable offers, finalization succeeds, the envelope accepts the computed status and no other, and a report is due iff something was accepted |
| Pipeline.DueReportIsMade | src/flightagent/cli.py:949-1045 | then, in fixed mode with bands covering the requests and a bound of at least one, every survivor is scored and the ranking is non-empty and no longer than the accepted count: neither report builder raises |
| Pipeline.DueAnalysisIsMade | src/flightagent/cli.py:919-920 | nor does any destination's analysis, in either bonus mode |
| Pipeline.CombinedGenuine | src/flightagent/normalize/builder.py:152-227 | every accepted itinerary carries its own digests over checked legs |
| Pipeline.OfferOrderInvisible | src/flightagent/cli.py:877-1045 | end to end: when the cheapest accepted itineraries of each shape agree on what is displayed, reordering the offers within every provider answer leaves the report's lines unchanged |
| Pipeline.OfferOrderInvisibleToAnalysis | src/flightagent/cli.py:877-920 | and, for itineraries of one shape cut alike, leaves the outline of every destination's analysis unchanged, whatever the order of the tasks |

## Left out

- SQLite, SQL text, write-ahead logging, threads and file paths: each locked statement is one atomic step on a map.
- Interleavings inside `ExecutePlan`: its methods run tasks one after another; all interleavings are covered by the transition system, which those methods are proved to follow.
- The event loop's own mechanics, cancellation on escaping errors, clocks, `duration_ms`, jitter and the delay formula.
- Errors that are not provider errors, and a live cached payload that does not parse: both raise out of the executor and are not outcomes. `ExecutorTheorems.Progress` assumes stored payloads parse.
- Concurrent lookups of one cold key are not merged by the source and so not by the model; `SecondRun` requires distinct keys within a run.
- SHA-256 and its collisions; the decimal context's 28 digits and quantization; a retry fraction stored as a binary float.
- `zoneinfo` and the IANA database: every zone is a fixed offset or the EU rule; years are not limited to 1 to 9999.
- The time-zone offset carried by a local timestamp: only its wall-clock reading is used, as in the source's own resolution.
- The ground-travel overlay: `rank_by_total_journey_score` is assigned the adjusted-score rank by the source and by the model.
- Baggage and refundability marks of a fare option, which the source sets to constants; foreign-exchange fields, always absent.
- Scoring of the ranked report in proportional mode: the source passes no stop price there, so `Pipeline.DueReportIsMade` needs fixed mode.
- Type coercion by the record library and normalization of URLs: `Payload` reads each field in the type it is written in.
- Upper- and lower-casing beyond ASCII in environment names.
- EnvLayer.ParseEnvLayer: inserts each value by rebuilding the tables on its path; the source walks and changes nested dictionaries in place.
- Payload.StripComputed: rebuilds the nested objects; the source pops keys in place.
- Reading of TOML files, the choice of the override file, validation of the merged tree against the settings model, secret stripping and the configuration digest.
- The dominant rejection code and the warning about dropped destinations: tallies over data already proved about.
- Plan and registry building: distinct searches, distinct priorities and one wave per origin are premises where they matter.
- Provider adapters, the mock generator beyond its segments, HTTP routes, approvals, command-line options, rendering, logging and atomic file writes; of the two report builders only their preconditions and the printed fields of one entry appear, before validation of the booking link.
