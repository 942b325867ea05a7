# scootlessd, verified

scootlessd watches a bike-share feed for fences a user cares about, remembers
what it saw, and tells the user when a scooter appears or the last ones go. This
project models it in Dafny: the store, the poll step, the concurrent API, the
board that recommends a scooter, and the tracker that follows one.

Run `dafny verify dfyconfig.toml` in this directory.

## How it is laid out

- `Base`, `Strings`, `Geo`, `Entur`: sequences filtered and sorted, byte-wise
  string order, an abstract distance, and the upstream client with its operator
  table and filter.
- `Schema`: the store as a value, one map per table keyed by its primary key and
  one function per statement or transaction. `Store` is the same store as the
  object whose methods update its rows; every method leaves the tables the
  matching function of `Schema` describes.
- `Presence`, `Health`: what the presence and nearest tables hold after any
  history.
- `Poll`, `Coalesce`: grouping, trimming, matching, nearest, judging; one wide
  query against one per fence; the arm-time baseline against the tick; the capped
  probe against the whole feed. `Feed` says what answers, baselines and probes tell
  in terms of the fields upstream publishes.
- `Plan`: a tick as the list of store calls it makes. `Poller` is the object that
  runs ticks; answers arrive and maps are walked in any order, and each tick does
  what some plan does. `Isolation`, `Evaluation`, `Records`, `Ticks`, `Schedule`,
  `Ledger`, `Facts` and `Told` prove what such plans, ticks and sequences of ticks
  guarantee; `Facts` and `Told` say it of the vehicles in the answers alone.
- `Api`, `Integrity`, `Lifecycle`, `Safety`, `DarkFeeds`, `Baseline`: arming a watch,
  references between tables, a transition system with any number of overlapping
  ticks and API calls in which every store call is one atomic step, and what holds
  in all its runs; `Asked` says what a watch does in terms of the request that made
  it. `Sequential` ties the ticks of `Poller` to the ticks of `Lifecycle`. `Genuine`
  says which runs a poller can make, and `Witness` gives such runs that show what
  cannot be promised.
- `Board`, `Track`, `Notify`: ranking, the tracker's event log, and fan-out.

## What is modelled how

Times are integer nanoseconds and are stored as whole seconds, rounded down.
Coordinates, distances and scores are reals. Distance is any function that is
zero from a point to itself, non-negative, symmetric and obeys the triangle
inequality. The upstream holds a feed and answers with the nearest `count`
vehicles in the area for the operators asked, in any order, or fails. Sorting by
distance may leave ties in any order. Whether foreign keys are enforced is a
parameter, because `internal/store/fence_delete.go:24-27` and
`internal/store/schema.go:6` with `internal/store/store.go:33` disagree about it;
each result says which setting it needs.

The methods of `Store.Store` and `Poller.Poller` that a fence or a tick is made of
are specified by the functions of `Schema` and `Plan`. What those functions
promise is stated separately, over whole histories, plans and runs. The results of
`Ticks` speak of any states, plans and errors that the postcondition of
`Poller.Poller.Tick` allows.

## Where the code and its description differ

- Leaving armed is irreversible, but a terminal state is not final: cancelling has
  no guard, and overwrites fired and expired (`Safety.OnlyCancelChangesSettledState`,
  `Witness.FiredThenCancelled`).
- `docs/BACKEND.md:123-124` gives repeating watches a cooldown. There is none
  (`Safety.RepeatingHasNoCooldown`, `Witness.RepeatsAtOnce`), and their baseline is never refreshed
  (`Safety.EveryFireIsTimely`).
- With foreign keys enforced, a fence whose watches ever produced an event cannot
  be deleted, and a fence deleted between a fire and its event loses the
  notification (`Witness.DeletionRefusedForEvent`, `Witness.FireLostToDeletion`).
  Without them a deletion can leave an armed watch on no fence and history on no
  fence (`Witness.ArmedWithoutFence`, `Witness.OrphanRowWithoutForeignKeys`).
- A negative range floor makes arming and ticking disagree
  (`Coalesce.NegativeFloorDiffers`).
- A coalesced query may be 2001 m wide, one more than the limit it is named after
  (`Poll.OverwideQueryOccurs`, `Poll.OverwideExactly`).
- Rounding a score truncates towards zero, so the recommendation can be almost 0.2
  points worse than the best (`Board.RecommendationMayTrail`).
- A lifetime in seconds is multiplied in 64 bits and can wrap
  (`Api.HugeLifetimeWraps`).
- A full page of vehicles that cannot be rented is recorded as absence, and decides
  nothing (`Coalesce.FullPageOfUnrentableDecidesNothing`).

## Model

| member | source | states |
|---|---|---|
| `Safety.AtMostOnce` | internal/store/watch.go:113-129 | in every interleaving of any number of ticks and API calls, two fires, two event rows or two dispatches of one watch mean that it repeats |
| `Safety.OncePerTick` | internal/poll/poll.go:349-371 | in every run one tick fires, records and dispatches a watch at most once; what was dispatched was recorded, what was recorded was fired, and the event table is the record |
| `Safety.EveryFireIsTimely` | internal/store/watch.go:92-129 | in every run a fire found its watch armed, in a second strictly before its expiry, and asking for exactly what it asked for when created |
| `Safety.NeverRearmed` | internal/store/watch.go:113-155 | a watch that is not armed in some run is not armed in any continuation of it |
| `Safety.OnlyCancelChangesSettledState` | internal/store/watch.go:131-142 | once a watch is not armed, the one action that changes its state is cancelling that watch, which always does |
| `Safety.RepeatingHasNoCooldown` | internal/store/watch.go:115-129 | an armed watch can be marked, and can be marked again at any later time exactly when it repeats |
| `Safety.EveryWatchIsSound` | internal/api/api.go:235-279 | in every run each stored watch has one of the two kinds, only known operators, and at most six hours to live |
| `Asked.TakenExactly` | internal/api/api.go:228-250 | a request is taken exactly when it is of one of the two kinds, names only known operators and, if it names a fence, that is there |
| `Asked.StartsArmed` | internal/api/api.go:268-279 | a watch is stored armed and unfired, at the second of the call |
| `Asked.RowDoesAsAsked` | internal/api/api.go:268-275 | in every run a stored watch is due exactly when what its request asked for (operators, range, number, feeds, baseline) has come about, expires when asked within its bounds, stays armed after a fire exactly when it was to repeat, and is cancelled with exactly its own device or with all |
| `Asked.FiresAsAsked` | internal/poll/poll.go:311-371 | in every interleaving the step that evaluates a watch fires it exactly when it is still armed and what its request asked for has come about |
| `Safety.ForeignKeysKeepReferences` | internal/store/schema.go:6-78 | with foreign keys, no run leaves a watch, count, stint, reading or event that refers to nothing |
| `Safety.ArmedWatchHasFence` | internal/api/api.go:246-279 | in every run an armed watch names an existing fence: always with foreign keys, and without them unless the fence was deleted between resolving it and storing the watch |
| `Safety.ArmingIsFoundedExactly` | internal/store/watch.go:59-80 | in every run, storing a watch succeeds with foreign keys exactly when its fence is there, always without, and the stored watch has a fence exactly when it is there |
| `Safety.NothingElseIsLost` | internal/poll/poll.go:352-371 | when no tick is under way, a fire has its event exactly unless foreign keys are enforced and its watch is gone, and with a sink exactly the events were dispatched |
| `Safety.SilentWhileNothingIsNew` | internal/poll/poll.go:315-331 | an appearance watch never fires in a run in which all matching vehicles its ticks saw were in its baseline |
| `Baseline.ArmedOnWhatWasThere` | internal/api/api.go:312-327 | an appearance watch armed with an untruncated answer never fires in any run whose ticks see nothing at its fence that upstream did not hold when it was armed |
| `Feed.BaselineExactly` | internal/api/api.go:312-327 | an untruncated baseline holds exactly the ids of the rentable vehicles within the radius, of an operator asked for and with range enough |
| `DarkFeeds.EveryScarcityFireFoundNoneDark` | internal/poll/poll.go:242-263 | in every run each fire of a scarcity watch came after the health check that its own tick made of its fence, and that check found no feed the watch depends on dark |
| `DarkFeeds.EveryRunIsOnTime` | internal/poll/poll.go:172-272 | in every run whose ticks began no later than the clock no reading is later than it |
| `Witness.ArmedWithoutFence` | internal/api/api.go:246-279 | a run without foreign keys that ends with an armed watch on a deleted fence |
| `Witness.FiredThenCancelled` | internal/store/watch.go:131-142 | a run of a poller in which a fired watch becomes cancelled |
| `Witness.FireLostToDeletion` | internal/poll/poll.go:352-371 | a run of a poller with foreign keys in which a fire is neither recorded nor dispatched because its fence was deleted in between |
| `Witness.DeletionRefusedForEvent` | internal/store/fence_delete.go:48-57 | a run of a poller with foreign keys in which a fence with no armed watch cannot be deleted because of an event |
| `Witness.RepeatsAtOnce` | internal/store/watch.go:115-129 | a run of a poller in which two ticks of one second fire, record and dispatch a repeating watch |
| `Witness.OrphanRowWithoutForeignKeys` | internal/store/store.go:106-115 | a run of a poller without foreign keys in which a tick under way leaves a count for a fence deleted meanwhile |
| `Genuine.EmptyFencePlan` | internal/poll/poll.go:218-264 | for any settings and probe schedule, what a poller decides for one empty fence: calls that change nothing a watch is judged by, its health check, and its watches; the runs above decide it |
| `Lifecycle.EveryRunKeeps` | internal/poll/poll.go:172-272 | the invariant of every run: rows, snapshots of ticks under way, fires, events and dispatches |
| `Sequential.RealPlansFit` | internal/poll/poll.go:218-264 | the plan of a tick evaluates each watch of its snapshot at most once, at its own fence and right after the health check of that fence, whatever failed upstream |
| `Sequential.UninterruptedTickRunsItsPlan` | internal/poll/poll.go:218-264 | a tick of the transition system that nothing interrupts ends with the tables its plan leaves in one go |
| `Integrity.DeletionIsAllOrNothing` | internal/store/fence_delete.go:31-71 | a deletion leaves no row of the fence and every other row, or is refused; exactly when it is refused |
| `Integrity.ExpiryLeavesOnlyLive` | internal/store/watch.go:144-155 | after expiry a watch is armed exactly when it was armed and is still live; the ids counted are those that went |
| `Integrity.CancellingLeavesNoneArmed` | internal/store/watch.go:250-274 | after cancelling for a device none of its watches is armed and nothing else changed; the ids counted are those that went |
| `Safety.FencesAreLastSaved` | internal/store/store.go:67-76 | in every run the fence stored under an id is the one last saved under it, unless deleted since |
| `Schema.SavedIsListed` | internal/store/store.go:67-96 | a saved fence is listed as saved in place of any with its id, and the others as before |
| `Integrity.WriteKeepsWholeExactly` | internal/store/schema.go:40-78 | without foreign keys a call that writes a count, a stint, a reading or a probe's finding keeps references exactly when its fence is there |
| `Integrity.HistoryKeepsWhole` | internal/store/schema.go:40-78 | with foreign keys no history call of a tick leaves a row without its fence |
| `Api.LifetimeIsBounded` | internal/api/api.go:252-275 | a watch lives at most six hours and never a negative time; a request that fits gets what it asked for, half an hour or six hours |
| `Api.HonouredExactly` | internal/api/api.go:252-258 | a lifetime is honoured exactly when its nanoseconds fit 64 bits or wrap to something clamped the same |
| `Api.HugeLifetimeWraps` | internal/api/api.go:252-275 | a lifetime for which the watch expires in the second it is created |
| `Presence.PresenceIsBatchClustering` | internal/store/presence.go:34-94 | after any run the rows of a vehicle are exactly the batch clustering of its sighting seconds into maximal stretches without a stale gap |
| `Presence.ClusterIsClustering` | internal/store/presence.go:34-94 | the batch clustering splits the sightings, in order, exactly where the gap is stale |
| `Presence.ClusteringIsUnique` | internal/store/presence.go:34-94 | no other way of splitting does |
| `Presence.StintsAreDisjoint` | internal/store/presence.go:34-94 | two stints of a vehicle never overlap |
| `Presence.OnlyLastStintIsOpen` | internal/store/presence.go:46-66 | at most one stint of a vehicle, its last, is open |
| `Presence.PresentIdsAreLastSighted` | internal/store/presence.go:120-145 | present vehicles are exactly those last sighted at or after the cutoff |
| `Presence.ArrivalIsNewCluster` | internal/store/presence.go:68-93 | a vehicle is returned as an arrival exactly when its sighting starts a new cluster |
| `Presence.GapWithinASecond` | internal/store/presence.go:46-50 | with sub-second times, a gap of at most stale always extends a stint and one of at least stale and a second never does |
| `Presence.ArrivalsAreConserved` | internal/store/presence.go:96-118 | the arrivals reported over a window are as many as the rows that window selects |
| `Health.DarkExactly` | internal/store/nearest.go:141-199 | over any recorded history an operator is dark exactly when its last reading is none in reach, it had one within the lookback, and the last reading of some operator is a vehicle |
| `Health.DarkByDefault` | internal/store/nearest.go:155-199 | by default the lookback is six hours, in whole seconds |
| `Health.LatestIsLast` | internal/store/nearest.go:39-74 | with a clock that does not go back the latest row of an operator is what was last recorded |
| `Schema.OpenMapIsUnique` | internal/store/presence.go:46-66 | grouping open stints by vehicle has one result whatever order rows come in |
| `Schema.LatestNearestIsUnique` | internal/store/nearest.go:39-74 | so has picking the latest reading of each operator |
| `Schema.OnlyWatchesAreHeldBack` | internal/store/fence_delete.go:48-63 | of the five statements of a deletion, run in turn and checked against the references left, only the first can be refused, exactly when an event refers to a watch of the fence |
| `Schema.ArmedListIsOldestFirst` | internal/store/watch.go:92-111 | a snapshot holds watches that are armed and expire later, once each, the oldest first |
| `Store.Store.constructor` | internal/store/store.go:25-53 | a new store is empty |
| `Store.Store.SaveFence` | internal/store/store.go:66-75 | the whole new state: the fence is inserted or replaced |
| `Store.Store.Fences` | internal/store/store.go:77-95 | every fence once, by name |
| `Store.Store.Drop` | internal/store/fence_delete.go:48-63 | one statement of a deletion, or refusal and no change |
| `Store.Store.Rollback` | internal/store/fence_delete.go:32-36 | the tables as they were |
| `Store.Store.DeleteFence` | internal/store/fence_delete.go:31-71 | the whole new state and result of the transaction, statement after statement with rollback, or no change and which refusal |
| `Store.Store.CreateWatch` | internal/store/watch.go:59-80 | the whole new state, or refusal and no change |
| `Store.Store.ArmedWatches` | internal/store/watch.go:92-111 | exactly the armed watches not yet expired, each once, oldest first |
| `Store.Store.MarkFired` | internal/store/watch.go:113-129 | the whole new state, or not found and no change |
| `Store.Store.SetState` | internal/store/watch.go:131-142 | the whole new state, or not found and no change |
| `Store.Store.ExpireWatches` | internal/store/watch.go:144-155 | the whole new state and the number of overdue watches |
| `Store.Store.CancelArmed` | internal/store/watch.go:250-274 | the whole new state and the number of watches it applies to |
| `Store.Store.RecordEvent` | internal/store/watch.go:157-163 | the whole new state, or refusal and no change |
| `Store.Store.RecordSample` | internal/store/store.go:106-115 | the whole new state, or refusal and no change |
| `Store.Store.RecordNearest` | internal/store/nearest.go:20-37 | the whole new state, or refusal and no change |
| `Store.Store.ObservePresence` | internal/store/presence.go:34-94 | the whole new state and the arrivals, or refusal with everything rolled back |
| `Store.Store.PresentIds` | internal/store/presence.go:120-145 | each present vehicle once |
| `Store.Store.Arrivals` | internal/store/presence.go:96-118 | exactly the stints begun in the window, earliest first |
| `Store.Store.LatestNearest` | internal/store/nearest.go:39-74 | the latest reading of each operator that has one |
| `Store.Store.LatestCounts` | internal/store/nearest.go:112-139 | the counts of the newest second, and that second |
| `Store.Store.DarkOperators` | internal/store/nearest.go:141-199 | the dark operators in byte order |
| `Store.ScanOpen` | internal/store/presence.go:46-66 | the open stints, whatever order rows are scanned in |
| `Store.SightEach` | internal/store/presence.go:68-89 | the statements inside the presence transaction and what it returns, or that it was refused |
| `Store.Quiet` | internal/store/nearest.go:166-178 | the operators with nothing in reach, and whether any has something |
| `Strings.Sort` | internal/store/nearest.go:197-197 | the increasing enumeration of the strings given |
| `Strings.IncreasingIsUnique` | internal/store/nearest.go:197-197 | a set of strings has one increasing enumeration |
| `Strings.LessIsLexicographic` | internal/store/nearest.go:197 | a string comes first exactly when it is a proper beginning of the other or has the smaller character where they first differ |
| `Geo.ReachIsLeastCover` | internal/geo/geo.go:47-75 | the bounding radius is the least that covers every circle from the centroid |
| `Geo.BoundingCovers` | internal/geo/geo.go:47-75 | whatever is inside one of the circles is inside the bounding circle |
| `Geo.BoundingRadius` | internal/geo/geo.go:49-75 | the centroid and that radius |
| `Geo.CentroidIsMean` | internal/geo/geo.go:49-62 | the centre of the circle is the mean of the centres |
| `Entur.KeysAndIdsAreOneToOne` | internal/entur/entur.go:48-82 | keys and upstream ids name the same operators, one to one |
| `Entur.IdRequestedIffKeyWanted` | internal/entur/client.go:148-171 | an operator's id is sent exactly when its key was asked for, or none was |
| `Entur.OperatorIds` | internal/entur/client.go:148-171 | the ids sent, or an error when any key is unknown |
| `Entur.Vehicles` | internal/entur/client.go:173-242 | errors, the survivors of the filter by increasing distance, how many came and whether the cap was hit |
| `Feed.AnswerIsExact` | internal/entur/client.go:183-275 | a query is refused exactly for want of a radius, a known operator or a reply; its answer shows exactly the rows that can be rented or may be anyway, of an allowed form, with range enough and within the radius, once each, nearest first, each with the fields of its row; and it is truncated exactly when the upstream's own cap was hit |
| `Feed.FenceSeesExactly` | internal/poll/poll.go:435-455 | from an untruncated answer to its group a fence sees exactly the rentable standing scooters of known operators within its radius, measured from the fence |
| `Entur.UncappedIsComplete` | internal/entur/client.go:183-242 | fewer rows than asked for means nothing was withheld |
| `Poll.Within` | internal/poll/poll.go:435-455 | exactly the vehicles inside the fence, in order, measured from the fence |
| `Poll.Matches` | internal/poll/poll.go:414-433 | exactly the vehicles the watch cares about, in order |
| `Poll.GroupFences` | internal/poll/poll.go:464-490 | one group when a circle of 2000 m covers all, else one each |
| `Poll.GroupsPartitionFences` | internal/poll/poll.go:464-490 | every fence is in exactly one group; one query or one each; none wider than 2001 m unless one fence is |
| `Poll.OverwideExactly` | internal/poll/poll.go:481-489 | a query is wider than 2000 m exactly when the bounding circle is 2000 m to the metre or some fence is wider |
| `Poll.OverwideQueryOccurs` | internal/poll/poll.go:481-484 | one fence of 2000 m is queried with 2001 m |
| `Poll.SharedExactly` | internal/poll/poll.go:464-490 | one query serves all fences exactly when a circle of 2000 m around their mean covers them, and is then wider than need be by a metre at most; otherwise each has its own |
| `Poll.GroupCoversFence` | internal/poll/poll.go:471-490 | whatever is inside a fence is inside the query of its group |
| `Poll.TallyCounts` | internal/poll/poll.go:279-288 | each count is the number of vehicles inside with that operator |
| `Poll.CountsAddUp` | internal/poll/poll.go:279-301 | the counts of a fence add up to the vehicles inside, and every known operator has one |
| `Poll.ClosestIsNearest` | internal/poll/poll.go:525-535 | the closest vehicle of an operator is one of its vehicles inside and none is nearer |
| `Poll.ClosestIsFirst` | internal/poll/poll.go:525-535 | of equally near vehicles the first in the answer |
| `Poll.MetresRound` | internal/poll/poll.go:603 | a distance is rounded to the nearest metre |
| `Poll.FindNearest` | internal/poll/poll.go:616-628 | the first of the nearest vehicles |
| `Poll.NearestOfIsNearest` | internal/poll/poll.go:616-628 | there is one exactly when there are vehicles, and none is nearer |
| `Poll.NearestOfIsFirst` | internal/poll/poll.go:616-628 | of equally near vehicles the first in the answer |
| `Poll.ScarcityIsExact` | internal/poll/poll.go:332-344 | a scarcity watch is due exactly when no feed it depends on is dark and few enough vehicles match |
| `Poll.AppearanceIsExact` | internal/poll/poll.go:319-331 | an appearance watch is due exactly when a matching vehicle is not in its baseline, and reports exactly those |
| `Coalesce.AnswersExist` | internal/entur/client.go:183-242 | whatever the feed holds, the upstream and the client have an answer to every query that is not refused |
| `Coalesce.CoalescingPreservesMeaning` | internal/poll/poll.go:443-490 | from an untruncated wide result, trimming gives each fence the very vehicles and distances of its own query, which is not truncated either |
| `Coalesce.GroupingDoesNotMatter` | internal/poll/poll.go:443-490 | from untruncated results of any two groupings a fence sees the same vehicles, distances and counts, and each watch has the same matches and is due in both or in neither |
| `Coalesce.ArmAndTickSelectTheSame` | internal/api/api.go:312-327 | arming and ticking select the same vehicles from the same feed, unless the range floor is negative |
| `Coalesce.ArmingNeverFiresOnWhatWasThere` | internal/api/api.go:312-327 | an appearance watch armed on a feed holds on that feed, for any operators and range floor |
| `Coalesce.NegativeFloorDiffers` | internal/entur/client.go:255-273 | for every negative floor there is a feed that arming keeps a vehicle of and no tick does |
| `Coalesce.ProbeFindsTrueNearest` | internal/poll/poll.go:576-628 | when anything a probe returned survives, what it picks is the nearest rentable vehicle in reach |
| `Coalesce.NothingOnAShortPageIsTrueAbsence` | internal/poll/poll.go:601-613 | nothing picked from a page that is not full means nothing is in reach |
| `Feed.ProbeTellsTruth` | internal/poll/poll.go:580-613 | what a probe records for an operator is the rounded distance and id of its nearest rentable standing scooter within reach, 5000 m when none is set; nothing, from a page of fewer than ten, only when there is none |
| `Coalesce.FullPageOfUnrentableDecidesNothing` | internal/poll/poll.go:580-589 | for a full page of vehicles that cannot be rented, one more vehicle with an id of its own can be rentable and in reach without changing the page |
| `Poller.FetchAll` | internal/poll/poll.go:200-216 | the answer of each group at its own index, in any completion order |
| `Poller.FetchProbes` | internal/poll/poll.go:558-591 | the answer of each probe at its own index, in any completion order |
| `Poller.CountInside` | internal/poll/poll.go:279-296 | the counts with zeros, and the sightings |
| `Poller.FindClosest` | internal/poll/poll.go:525-535 | the closest vehicle of each operator |
| `Poller.FindAbsent` | internal/poll/poll.go:568-573 | the operators with nothing inside |
| `Poller.FindNew` | internal/poll/poll.go:319-328 | the vehicles not in the baseline |
| `Poller.Poller.constructor` | internal/poll/poll.go:98-123 | a new poller has probed nothing and dispatched nothing |
| `Poller.Poller.RecordFence` | internal/poll/poll.go:274-309 | the store and report after the counts, in some map order, and the presence call, up to the first failure |
| `Poller.Poller.RecordClosest` | internal/poll/poll.go:536-543 | the store after one row per present operator, in some map order, up to the first failure |
| `Poller.Poller.ProbeAll` | internal/poll/poll.go:558-613 | the store and report after the probes, up to the first failure |
| `Poller.Poller.RecordNearest` | internal/poll/poll.go:506-614 | store, schedule and report after the lookup: off, not due or due; no other fence's schedule changes |
| `Poller.Poller.Evaluate` | internal/poll/poll.go:311-372 | store, dispatches and report after one evaluation |
| `Poller.Poller.FireWatch` | internal/poll/poll.go:349-372 | store and dispatches after a fire, a lost race or a failure |
| `Poller.Poller.EvaluateAll` | internal/poll/poll.go:252-263 | the same after all watches of a fence, up to the first failure |
| `Poller.Poller.CheckHealth` | internal/poll/poll.go:242-251 | the dark operators, and the report with them |
| `Poller.Poller.PollFence` | internal/poll/poll.go:234-264 | everything a tick does for one fence is what one of its plans does |
| `Poller.Poller.PollGroup` | internal/poll/poll.go:221-265 | everything a tick does for one answered group is what one of its plans does |
| `Poller.Poller.PollGroups` | internal/poll/poll.go:218-271 | the same for all groups, in order, with the failed ones listed |
| `Poller.Poller.Tick` | internal/poll/poll.go:172-272 | store, schedule, dispatches, report and error of a tick are the outcome of some plan for the snapshot it read |
| `Plan.MapOrderIsInvisible` | internal/poll/poll.go:297-301 | all plans of a tick have the same outcome: tables, schedule, report and dispatches do not depend on map order |
| `Ticks.TickIsDeterministic` | internal/poll/poll.go:200-271 | two ticks from the same state and snapshot with the same answers end the same, whatever finished first |
| `Ticks.TickCompletes` | internal/poll/poll.go:218-271 | no store call of a tick that runs alone fails, as long as the kinds of its watches are known |
| `Ticks.FailureStaysInItsGroup` | internal/poll/poll.go:218-229 | all that is kept about a fence is the same after two ticks that differ only in what other groups were answered |
| `Ticks.FailedGroupLosesItsTickOnly` | internal/poll/poll.go:223-229 | all that is kept about a fence whose group failed is as it was when the tick had read its snapshot |
| `Ticks.WorkIsThatOfHealthyFences` | internal/poll/poll.go:218-229 | a tick in which groups fail does the work of a tick over the fences answered, unless those would then share a query |
| `Ticks.HealthyFencesDecide` | internal/poll/poll.go:218-229 | and leaves the tables, schedule, report and dispatches that tick leaves from the same start |
| `Ticks.ScarcityFiresExactlyInTick` | internal/poll/poll.go:242-263 | in a tick a scarcity watch on an answered fence has a new event exactly when no feed it depends on is dark by the readings the tick leaves for the fence and few enough match |
| `Ticks.PresentIsNeverDarkInTick` | internal/poll/poll.go:234-251 | in a tick whose clock is not behind the rows of an answered fence, no operator with a vehicle in it is dark |
| `Ticks.TickKeepsTime` | internal/poll/poll.go:172-272 | a tick keeps the rows of a fence from running ahead of the clock |
| `Ticks.TickIsATick` | internal/poll/poll.go:172-272 | the plan of a poller's tick is one the transition system lets a tick decide |
| `Facts.PresenceFollowsTheVehicles` | internal/poll/poll.go:274-309 | after a tick every vehicle of the answer within the radius of a fence is present; those that were not have a new stint of this second with their operator, no others do, and no other stint changes but one extended for a vehicle inside |
| `Facts.PresentMeans` | internal/store/presence.go:122-130 | present means sighted no longer ago than the stale limit, three minutes when none is set |
| `Facts.WhatIsThereIsPresent` | internal/poll/poll.go:234-309 | after a tick whatever rentable vehicle upstream held within the radius of a fence is present, and each new stint is of one |
| `Facts.CountsFollowTheVehicles` | internal/poll/poll.go:279-301 | after a tick the latest count of an operator is the number of its vehicles in the answer within the radius |
| `Facts.NearestFollowsTheVehicles` | internal/poll/poll.go:525-543 | after a tick the row of an operator with vehicles within the radius gives the rounded distance and id of the nearest |
| `Facts.LookupTellsTruth` | internal/poll/poll.go:552-613 | after a tick with the lookup due, the row of an operator without vehicles within the radius tells what upstream held of it within reach, and there is no new row when its probe failed |
| `Facts.LookupHappensExactly` | internal/poll/poll.go:514-552 | a tick stamps an answered fence exactly when the lookup is on and the interval, two minutes by default, has gone by |
| `Told.WatchFaresExactly` | internal/poll/poll.go:311-371 | a tick fires a stored watch on an answered fence exactly when it is armed, unexpired and what it asks for has come about among the vehicles of the answer; each event tells just that; and the row is marked, expired or left alone accordingly |
| `Told.ErrorTellsExactly` | internal/poll/poll.go:218-271 | a tick has no error exactly when no store call failed and every group was answered, and otherwise names exactly the groups that were not, in order |
| `Told.ReportTellsExactly` | internal/poll/poll.go:359-371 | the report lists the watch of each new event, in order, and with a sink the payload of each is dispatched; it counts queries, fences and watches expired |
| `Told.TruncationIsTold` | internal/poll/poll.go:221-232 | the report says truncated exactly when some answer was |
| `Told.DarkIsReported` | internal/poll/poll.go:242-251 | the plan of a fence adds to the report just the operators dark by the readings it leaves, in order |
| `Told.ProbesAreReported` | internal/poll/poll.go:564-595 | the plan of a fence reports one probe for each known operator without a vehicle within the radius when the lookup is due, and otherwise none |
| `Isolation.FailedGroupsAreSkipped` | internal/poll/poll.go:218-229 | the work of a tick is that of a tick over the answered groups |
| `Isolation.FenceStandsAlone` | internal/poll/poll.go:234-264 | what a tick leaves for a fence is what the calls for that fence leave on their own |
| `Isolation.OtherAnswersDoNotMatter` | internal/poll/poll.go:218-264 | two plans that agree about a fence leave the same for it |
| `Isolation.TickNeverStops` | internal/poll/poll.go:218-264 | with every fence in place and every kind known no call of a plan fails |
| `Records.NearestPlanRecords` | internal/poll/poll.go:514-614 | the lookup writes one row of this second per operator it learned about, touches no other row, and stamps the schedule exactly when due |
| `Records.PresentRowIsNearest` | internal/poll/poll.go:525-543 | the row of an operator with vehicles in the fence gives the whole metres to the nearest of them and its id |
| `Records.PresentIsNeverDark` | internal/poll/poll.go:527-543 | with the lookup on and a clock that does not go back, an operator with a vehicle in the fence is not dark |
| `Records.EveryOperatorIsAccountedFor` | internal/poll/poll.go:552-613 | after a wider lookup every known operator is in the fence with a row, or was probed and has its row, or its probe failed |
| `Ledger.EveryOperatorIsAccountedForInTick` | internal/poll/poll.go:552-613 | and so it is after a whole tick that found the lookup of an answered fence due |
| `Records.RecordedProbeIsExact` | internal/poll/poll.go:576-628 | a recorded distance is that of the true nearest rentable vehicle in reach, and none from a page that is not full is true absence |
| `Records.CountsReadBack` | internal/store/nearest.go:112-139 | the counts read back are those of the tick |
| `Ledger.CountsReadBackInTick` | internal/store/nearest.go:112-139 | the counts read back after a whole tick are those of the fence's vehicles, when no count of it is later than the tick |
| `Ledger.TickTallies` | internal/poll/poll.go:274-309 | a tick, whatever fails in it, adds as many stints as it reports arrivals |
| `Ledger.ReportsTellEveryArrival` | internal/poll/poll.go:274-309 | over any ticks in the order of their clocks, whatever fails in them, the stints that began in a window are as many as the arrivals reported in it |
| `Records.CountsAreFoundExactly` | internal/store/nearest.go:115-121 | counts that exist are found exactly when the newest is not of second zero |
| `Evaluation.AppearanceFiresExactly` | internal/poll/poll.go:319-371 | an appearance watch fires exactly when still armed and a matching vehicle is new, reports just those, and nothing else changes; otherwise nothing does |
| `Evaluation.AppearanceFiresExactlyInPlan` | internal/poll/poll.go:234-264 | and so it does in the plan of its fence, whatever feeds are dark |
| `Evaluation.ScarcityFiresExactly` | internal/poll/poll.go:332-371 | after the health check of its fence and any evaluations since, a scarcity watch fires, with its event, dispatch and new state, exactly when still armed, no feed it depends on is dark by the readings of the fence and few enough match; otherwise nothing changes |
| `Evaluation.ScarcityFiresExactlyInPlan` | internal/poll/poll.go:234-264 | and so it does in the plan of its fence, by the readings its own lookup left |
| `Schedule.ProbesAreSpaced` | internal/poll/poll.go:545-552 | over any ticks of one poller, with anything happening to the store between them and any call failing, two stamps of a fence are at least the interval apart |
| `Schedule.TickStamps` | internal/poll/poll.go:545-613 | a tick stamps a fence at most once, only when due by the schedule it began with, and leaves its time there exactly when it did |
| `Schedule.ProbeBudget` | internal/poll/poll.go:545-552 | over any such ticks a fence is probed in any window at most once more than the intervals that fit |
| `Board.Assemble` | internal/board/board.go:126-175 | ranking, recommendation, limit and summaries together |
| `Board.RankedIsRanking` | internal/board/board.go:132-166 | every vehicle above the floor once, in non-increasing rounded score, ties in input order |
| `Board.RoundingIsClose` | internal/board/board.go:195-197 | rounding moves a score down by less than 0.05 or up by less than 0.15 |
| `Board.RoundingIsMonotone` | internal/board/board.go:195-197 | rounding keeps order |
| `Board.ScoreIsLinear` | internal/board/board.go:103-124 | a score is the operator's bonus less the distance and what the battery costs: nothing at comfort, the whole penalty at the floor, and in a straight line between |
| `Board.RankedUnlessTooLow` | internal/board/board.go:146-160 | a vehicle below the floor is never listed or recommended, and every other is ranked |
| `Board.MoreRangeNeverLoses` | internal/board/board.go:113-124 | of two vehicles of one operator at one distance the one with more range never ranks strictly below, for a penalty that is not negative |
| `Board.MoreRangeWins` | internal/board/board.go:113-124 | by default it ranks above with five metres more of the ten kilometres that count |
| `Board.OptionTells` | internal/board/board.go:146-160 | what is listed gives the distance, range and score of a vehicle to within rounding |
| `Board.LimitListsFirst` | internal/board/board.go:166-174 | a limit lists the first of the ranking and changes neither recommendation nor summaries |
| `Board.RecommendationIsNearlyBest` | internal/board/board.go:166-174 | there is a recommendation exactly when some vehicle is above the floor, and its true score is less than 0.2 below the best, whatever the limit |
| `Board.RecommendationMayTrail` | internal/board/board.go:166-174 | for every gap below 0.2 two scooters of which the worse by that gap is recommended |
| `Board.RecommendationIsBestExactly` | internal/board/board.go:166-174 | the first vehicle with the greatest rounded score is recommended, for every limit, and has the best true score exactly when no vehicle that rounds to its score has a better one |
| `Board.SomeIsFirstOfTheBest` | internal/board/board.go:132-166 | there is such a vehicle as soon as any is above the floor |
| `Board.ClearBestIsRecommended` | internal/board/board.go:166-174 | a score at least 0.2 ahead of every other that differs is the one recommended |
| `Board.RydeBeatsVoi` | internal/board/board.go:41-124 | by default a Ryde above the floor and less than 499.8 m farther than a Voi ranks above it |
| `Board.PenaltyIsBounded` | internal/board/board.go:113-124 | the battery penalty is between nothing and the whole |
| `Board.SummariesAreExact` | internal/board/board.go:132-144 | a summary counts every vehicle of its operator and gives their least distance and longest range |
| `Track.Tracker.Poll` | cmd/scootless-track/main.go:99-138 | states and lines after one lookup of all vehicles; a failed lookup changes nothing |
| `Track.ReplayIsFaithful` | cmd/scootless-track/main.go:107-136 | after any observations the replayed events say exactly whether the vehicle is there, and where to within 15 m |
| `Track.EventsMeasureTruly` | cmd/scootless-track/main.go:107-136 | at most one event per lookup; a move is over 15 m from the last position reported and a trip is measured from where the last stay began |
| `Track.SweepFollowsEach` | cmd/scootless-track/main.go:104-137 | each vehicle gets its own events, once even if named twice, and no other does |
| `Track.LogIsFaithful` | cmd/scootless-track/main.go:99-138 | over any lookups of any vehicles, the lines printed about one followed say whether the last lookup found it and where to within 15 m, and about any other nothing |
| `Notify.Publish` | internal/notify/ntfy.go:144-184 | in any completion order each sink that is set is called exactly once, and the result is every failure in sink order |
| `Notify.FailuresInOrder` | internal/notify/ntfy.go:150-173 | the failures are those of the sinks that are set and failed, one each, in sink order |
| `Notify.JoiningKeepsAll` | internal/notify/ntfy.go:175-184 | joining loses and makes up no failure: nothing for none, the error itself for one |
| `Notify.WaitMeansFinished` | internal/poll/poll.go:392-412 | when the wait group is at zero every delivery dispatched before has finished |

## Left out

- HTTP routing, JSON, authentication, the event stream and the wording of answers: no state of their own.
- The GraphQL transport, its timeouts and connection pool, and the lookup by id: an answer is a parameter.
- SQL text, the write-ahead log and storage errors: a statement is a function on tables, and the only errors are missing rows and broken references.
- Haversine, bearings, compass letters and floating-point rounding: distance is abstract and numbers are reals; conversions to integers are not bounded by 64 bits except for lifetimes.
- The kind a request without one gets, which is appearance: a request comes with its kind.
- Names, battery percentages, app links and scooter numbers: copied for display only.
- The time stamp of a report and of a tracker event, and how long a vehicle was gone: not decided by anything.
- Delivery timeouts, sink failures after dispatch, log lines and the ticker that starts ticks: ticks are steps with a supplied time.
- Cancelling a tick's context or stopping the process half way through a tick: a tick ends by finishing or by a store error.
- Reading one fence, one watch, the events of a watch, the samples and the nearest history of a window: plain selections.
- Coalesce.CoalescingPreservesMeaning: says nothing about truncated results, for which the code only raises a flag.
- Schedule.ProbeBudget: speaks of the ticks of one poller one after the other; overlapping ticks of one poller share its schedule without a lock and are not considered.
- Ticks.WorkIsThatOfHealthyFences: when the fences left would share one query, the order of the vehicles in it is not theirs, so rows that depend on the order of equals may differ; what each fence sees and which watches are due does not, by Coalesce.GroupingDoesNotMatter.
- Ledger.ReportsTellEveryArrival: supposes that no answer names a vehicle twice and that no fence is deleted between the ticks.
