# NetMonitor backend: a model and its proofs

NetMonitor polls network devices, evaluates alert rules, keeps a campus hierarchy and a device
dependency graph, ingests NetFlow and sFlow, and buffers metrics in Redis before storing them in
PostgreSQL. This project models the parts of its Go backend whose correctness depends on whole runs,
on interleavings, on graphs or on exact arithmetic, and proves what they are for.

`dafny verify dfyconfig.toml` checks everything. There is one module per component:

| module | component |
|---|---|
| `ParentGraph` | parent links between table rows: chains, cycles, subtrees; nothing is assumed acyclic |
| `Locations`, `LocationTree` | the location table with its cycle-checked move; the pointer tree and the counters added up in place |
| `Topology` | suppression walk, root-cause search, dependency listing |
| `AlertConditions`, `AlertEngine`, `AlertRuns`, `AlertConcurrency` | what triggers a rule, the alert engine over its cached states, every run of one rule and device, and every interleaving of several instances |
| `RuleCache`, `AlertStateCache` | the generation-stamped rule cache; the keyed mutex and the read-through state cache |
| `FlowPipeline`, `FlowDecode`, `SFlowGuard` | readers, bounded queue, batch writer and shutdown; normalised flows and bounded tables; the walk over raw bytes |
| `MetricBuffer` | the Redis metric buffer with its isolation of bad rows |
| `SnmpRates` | counter deltas and interface rates |
| `LoginLimiter` | the in-memory sliding windows |
| `Migrations` | schema migrations under the advisory lock |
| `Basics` | optional values, counting in sequences, cardinality |

Objects that the program updates in place are classes whose methods are proved against functions on
values. What holds over runs and interleavings is stated about step machines built from those same
functions: a state, a step with the answers of the outside world, and theorems about the state after
any sequence of steps.

## Assumptions

- Times are integers (microseconds in the alert engine, as the stored timestamps; nanoseconds
  elsewhere), and the clock does not go back in the order in which calls take a lock.
- Floating-point values are exact reals, except that division by a zero deviation behaves as
  floating point does.
- One walk or one report sees one snapshot of the rows it reads, and so does one load of the rules.
- `CopyFrom` is all-or-nothing and each Redis command is atomic. An insert that the database refuses
  stores nothing; rows stored with the reply lost, and an alert row that could not be read back, are
  outcomes of their own.
- Every access to a stored alert state may fail: lookup, read, fill, write and cache delete. When a read
  does not answer the engine works from "idle". The runs of `AlertRuns` are those of one process at a time.
- A polled counter does not restart between two polls: one of 32 bits that did would be taken for a wrap.
- A crash of an instance ends all its sessions and rolls back what was not committed.
- Network, clock, database and Redis answers are parameters of the steps that use them.

## Where the code does not do what one might expect

Each of these is stated with the exact condition under which the expected property holds.

- The engine reads its states through the cache. When no lookup hits a stale entry it does exactly what an
  engine without a cache would do (`AlertRuns.CachedRefinesDirect`).
- A clearing has restarted the sustain clock, so that no continuation of the run fires out of a pending
  state from before it, if and only if afterwards neither the row nor the cached entry is such a state
  (`AlertRuns.NeverFiresAcrossIff`). A clearing that read such a state achieves that exactly when its write
  takes effect and leaves no such entry in the cache (`AlertRuns.ClearingRestartsIff`). Otherwise an alert
  can fire across the clearing: after a failed read (`AlertRuns.UnnoticedClearing`), or after a failed cache
  delete (`AlertRuns.StaleClearing`).
- Every later alert is sure to keep its cooldown, however the run goes on and the rule is edited, if and
  only if after the last evaluation neither the row nor the cached entry is a state that could fire earlier
  (`AlertRuns.SpacedIff`). An insertion achieves that exactly when its row was read back, its state was
  written, and no such entry is left in the cache (`AlertRuns.SettledIff`). After a failed cache delete the
  next lookup can fire again at once, although both alerts were read back (`AlertRuns.StaleRefires`). A row
  that was not read back is never handed to the notifier (`AlertConcurrency.OneHandOffPerRow`).
- A clearing of an auto-resolving rule that reads its state resolves an alert if and only if the row names it as
  active at that moment and the update succeeds (`AlertRuns.SeenClearingResolvesIff`); the state becomes resolved
  either way (`AlertEngine.ClearingTable`). The row goes on naming the alert exactly as `AlertRuns.FiredRowStaysIff`
  says: a triggered evaluation whose read fails writes pending over it, and the next clearing then resolves
  nothing (`AlertRuns.ForgottenIsNotResolved`).
- The root-cause search and the dependency listing keep no visited set. Their queue runs empty if and only
  if the start is on no cycle (`Topology.RunsEmptyIffOffCycle`), and a root cause can be on one
  (`Topology.RootCauseOnCycle`). The listing's walk upwards ends exactly when it meets no row of a cycle
  (`ParentGraph.EndsIffMeetsNoCycle`).
- A failed query inside the suppression walk ends it without an error and without suppression: the walk
  suppresses exactly when it meets a device that is down before a query fails (`Topology.CheckSuppression`).
- A read through the state cache returns the last written row if and only if its lookup did not hit an entry
  that differed from the row at the start, or that a write of that same key left so because its cache delete
  failed, its reply was lost or the process crashed in between, and that nothing had expired, deleted or
  refilled since (`AlertStateCache.ReadsReturnLastWritten`). Failures for other keys do not matter
  (`AlertStateCache.OnlyOwnInvalidationsMatter`).
- Interface rates add up to the true total exactly when each increment was below the counter width
  (`SnmpRates.RatesTelescope`).
- The per-user login bound holds over all runs exactly for the nonempty names that do not end in the key
  separator and an address attempts come from (`LoginLimiter.BoundedIffApart`).
- Migrations commit once as long as no lock session ends while its instance and another one could both still
  commit. The end of a session lets a version be committed twice if and only if that is so
  (`Migrations.LostSessionIff`).
- A metric can end up stored twice if and only if the reply to an insert that stored it is lost
  (`MetricBuffer.StoredTwiceIff`).

## Model

| member | source | states |
|---|---|---|
| ParentGraph.ForestIffAcyclic | backend/internal/campus/location.go:384-432 | every upward walk ends if and only if no row is its own ancestor |
| ParentGraph.EndsInTime | backend/internal/campus/location.go:403-422 | a walk ends exactly when it has ended after as many links as there are rows |
| ParentGraph.EndsIffMeetsNoCycle | backend/internal/campus/topology.go:126-135 | the upward walk of a row ends if and only if no row it meets is on a cycle |
| ParentGraph.ChainBounded | backend/internal/campus/topology.go:126-135 | the listing of ancestors is shorter than the table |
| ParentGraph.SubtreeStep | backend/internal/campus/location.go:477-482 | one round of the recursive query: a row is selected exactly when it is the root or its parent is selected |
| ParentGraph.SubtreeNested | backend/internal/campus/location.go:553-563 | a child's subtree is strictly inside its parent's and does not contain the parent: the aggregation terminates |
| ParentGraph.ClosedCoversSubtree | backend/internal/campus/topology.go:251-262 | a set that holds the start and, with each row, its children holds the whole subtree |
| Topology.Query | backend/internal/campus/topology.go:165-168 | the row of a key, found exactly when the key exists |
| Topology.CheckSuppression | backend/internal/campus/topology.go:157-213 | terminates on every parent graph, suppresses exactly when an ancestor that is down is met before a query fails, and names the nearest one |
| Topology.LoopHasNoDown | backend/internal/campus/topology.go:200-206 | when the walk meets a row again without a down device, no ancestor at any distance is down |
| Topology.BuildIndex | backend/internal/campus/topology.go:223-231 | each row is in the child list of its parent and of no other, once |
| Topology.Dependants | backend/internal/campus/topology.go:248-262 | from a row off every cycle the queue runs empty, reaches each proper descendant exactly once and counts the categories |
| Topology.SearchStep | backend/internal/campus/topology.go:252-262 | every turn of the queue keeps rows dequeued, queued and counted disjoint and complete |
| Topology.CycleNeverEmptiesQueue | backend/internal/campus/topology.go:251-262 | with a row of a cycle in it, the queue is not empty after any number of turns |
| Topology.RunsEmptyIffOffCycle | backend/internal/campus/topology.go:251-262 | the queue that starts with one row runs empty if and only if that row is on no cycle |
| Topology.RootCauseOnCycle | backend/internal/campus/topology.go:237-262 | a table whose report does not end |
| Topology.IsRootCause | backend/internal/campus/topology.go:237-246 | down, and not below a device that is down |
| Topology.GetRootCauseOutages | backend/internal/campus/topology.go:217-282 | reports each root cause with dependants once, with the exact number of its descendants and of each category |
| Topology.Ancestors | backend/internal/campus/topology.go:126-135 | when the chain ends, its rows in order, nearest first, and nothing else |
| Topology.GetDeviceDependencies | backend/internal/campus/topology.go:109-153 | the ancestors in order, nearest first, and exactly the descendants |
| Topology.SuppressedIffUnderRootCause | backend/internal/campus/topology.go:157-282 | on every graph, a device is suppressed exactly when it is below a root cause or its chain runs into a cycle of down devices |
| Topology.SuppressedIffUnderReportedOutage | backend/internal/campus/topology.go:157-282 | on an acyclic graph, suppressed means exactly below a root cause |
| Locations.LocationService.Create | backend/internal/campus/location.go:256-302 | stored exactly when type, code and parent are acceptable; the table stays a forest |
| Locations.LocationService.Move | backend/internal/campus/location.go:387-432 | terminates, succeeds exactly when the new parent is none or an existing row outside the moved subtree, and says why not |
| Locations.LocationService.CheckCycle | backend/internal/campus/location.go:403-422 | the upward walk ends and finds the moved row exactly when the new parent is below it |
| Locations.LocationService.Delete | backend/internal/campus/location.go:359-382 | children move to the grandparent, the row goes unless something still refers to it; the table stays a forest |
| Locations.MoveForestIff | backend/internal/campus/location.go:403-428 | re-parenting keeps the table a forest if and only if the new parent is outside the subtree |
| Locations.MoveAncestors | backend/internal/campus/location.go:424-428 | the ancestors of every row after a move, in terms of those before |
| Locations.DeleteKeepsAncestors | backend/internal/campus/location.go:366-376 | deleting a row changes no ancestor relation between the remaining rows |
| Locations.DeleteKeepsForest | backend/internal/campus/location.go:366-376 | the table is a forest after the re-parenting and after the removal |
| Locations.AlwaysForest | backend/internal/campus/location.go:256-432 | from a sound table every sequence of creations, moves and deletions leaves no row on a cycle |
| Locations.LevelIs | backend/internal/campus/location.go:222-230 | the rows added in round n of the recursive query are those n links below the root |
| Locations.QueryReturnsSubtree | backend/internal/campus/location.go:222-230 | the recursive query returns exactly the subtree |
| Locations.QueryHasNoDuplicates | backend/internal/campus/location.go:222-230 | on a forest UNION ALL returns no row twice and the rounds run empty |
| LocationTree.BuildTree | backend/internal/campus/location.go:184-203 | every child list is the rows with that parent in row order, and the roots are the rows without a parent among the rows |
| LocationTree.EachLocationOnce | backend/internal/campus/location.go:184-203 | each location is exactly once in the root list or in one child list |
| LocationTree.Aggregate | backend/internal/campus/location.go:524-549 | the per-location rows equal the status query over that location alone |
| LocationTree.ColumnsAre | backend/internal/campus/location.go:483-490 | each column of the status query is the number of selected devices whose status is the text it is named after, and the last one the number with none of the four texts |
| LocationTree.CountIsTotal | backend/internal/campus/location.go:483-492 | every counted device is in exactly one of the five columns |
| LocationTree.StatusAdds | backend/internal/campus/location.go:475-498 | the status query over disjoint sets adds up |
| LocationTree.SubtreeIsChildren | backend/internal/campus/location.go:477-482 | a subtree is the row and the subtrees of its children |
| LocationTree.KidsAddUp | backend/internal/campus/location.go:566-573 | adding the children's results one by one gives the query over the row and the subtrees added so far |
| LocationTree.Propagate | backend/internal/campus/location.go:556-574 | the post-order walk settles every node of the subtree and no other |
| LocationTree.VisitChild | backend/internal/campus/location.go:566-573 | one child is walked and added; the siblings done before keep their results |
| LocationTree.RootsCoverAll | backend/internal/campus/location.go:575-577 | the subtrees of the roots cover every location |
| LocationTree.GetTreeWithStatus | backend/internal/campus/location.go:510-582 | every node's counters equal the recursive status query for it, so each of its columns is the number of devices in its subtree with that status text; each location is in the tree once, and the root counts add up to all placed devices |
| LocationTree.GetReachableTree | backend/internal/campus/location.go:510-582 | the same for every table that creations, moves and deletions lead to, with no assumption on its links |
| LocationTree.GetSubtree | backend/internal/campus/location.go:215-251 | the requested location is found exactly when it exists and is the only root |
| LocationTree.OnlyRoot | backend/internal/campus/location.go:243-250 | built from the rows of a subtree, the tree has that location as its one root |
| AlertConditions.OppositeComplements | backend/internal/engine/alert_conditions.go:226-242 | each comparison is the exact complement of its opposite, tolerance included; which of the two holds is said by AlertConditions.ThresholdDivides |
| AlertConditions.ThresholdDivides | backend/internal/engine/alert_conditions.go:50-98 | which operators hold for a reading below, at and above the threshold, a billionth apart counting as equal |
| AlertConditions.ThresholdIsMonotone | backend/internal/engine/alert_conditions.go:226-242 | a falling reading keeps lt and lte true, a rising one gt and gte |
| AlertConditions.ThresholdReadsOwnField | backend/internal/engine/alert_conditions.go:62-82 | the answer depends on the reading of the condition's own field alone, and without one the condition does not hold |
| AlertConditions.NeverHolds | backend/internal/engine/alert_conditions.go:34-60 | a threshold that is no number, an unknown field and an unknown kind never hold |
| AlertConditions.StatusComparesTexts | backend/internal/engine/alert_conditions.go:99-107 | a status condition holds exactly for equal or unequal texts, and for no other operator |
| AlertConditions.PortChangesCount | backend/internal/engine/alert_conditions.go:118-133 | it holds from the given number of port changes on, or from one; more changes keep it true and a missing count is zero |
| AlertConditions.AbsenceIff | backend/internal/engine/alert_conditions.go:142-168 | silent for longer than the given seconds, or than five minutes when they are no positive number |
| AlertConditions.AnomalyIff | backend/internal/engine/alert_conditions.go:170-217 | with a value and ten samples, anomalous means outside the mean plus or minus so many deviations (2.5 by default), also for a zero deviation |
| AlertConditions.AbsenceGrows | backend/internal/engine/alert_conditions.go:142-168 | a longer silence keeps an absence condition true |
| AlertConditions.CountConditionsMet | backend/internal/engine/alert.go:301-320 | "all" wants every condition, anything else at least one |
| AlertEngine.SustainedDuration | backend/internal/engine/alert.go:361-366 | the cooldown or a condition's duration, and none is longer |
| AlertEngine.Engine.GetAlertRuleState | backend/internal/cache/alert_state_cache.go:22-36 | cache first, then the table and a fill: the read of the cache protocol |
| AlertEngine.Engine.UpsertState | backend/internal/cache/alert_state_cache.go:38-50 | the table, then the delete of the entry: its write |
| AlertEngine.Engine.EvaluateRule | backend/internal/engine/alert.go:300-344 | reads the state through the cache and performs exactly the effect of that state and the evaluation, which the three tables below spell out |
| AlertEngine.Engine.HandleConditionMet | backend/internal/engine/alert.go:348-410 | the triggered transitions of every state |
| AlertEngine.Engine.HandleConditionCleared | backend/internal/engine/alert.go:412-469 | performs the cleared transition of the loaded state, as AlertEngine.ClearingTable spells out |
| AlertEngine.Engine.FireAlert | backend/internal/engine/alert.go:473-566 | re-points at an existing alert, gives way to suppression, or inserts and hands off |
| AlertEngine.ClearingTable | backend/internal/engine/alert.go:419-468 | firing, notified and acknowledged: with auto-resolve resolved now is written and exactly the own alert resolved if the update succeeds, without it the state is stored unchanged; pending starts over; every other status is left alone |
| AlertEngine.TriggeredTable | backend/internal/engine/alert.go:368-409 | idle becomes pending now; pending waits for every duration and the cooldown, resolved for the cooldown; a fired state is stored unchanged |
| AlertEngine.FiringTable | backend/internal/engine/alert.go:473-566 | an active alert is taken over and nothing sent; a suppressed firing goes back to idle; a row read back is handed off once and its notified state names it; a row not read back is stored and nothing else |
| AlertEngine.Engine.ProcessMetric | backend/internal/engine/alert.go:109-128 | every rule that applies is evaluated once, in order |
| AlertEngine.OtherDevicesAreSkipped | backend/internal/engine/alert.go:287-296 | a rule scoped to another device leaves the tables as they were; any other rule is evaluated |
| AlertEngine.EvaluationIsRound | backend/internal/engine/alert.go:300-344 | an evaluation changes row and entry of its own rule and device as computed on them alone, and no other |
| AlertEngine.RulesAreIndependent | backend/internal/engine/alert.go:115-126 | what processing does to a rule and device depends on its own row, entry and evaluations alone |
| AlertRuns.CachedRefinesDirect | backend/internal/engine/alert.go:322-344 | while no lookup hits a stale entry, the row and every effect are those of an engine without a cache whose reads succeed when the cached ones answer |
| AlertRuns.NoMissNoStaleHit | backend/internal/cache/alert_state_cache.go:38-50 | no lookup hits a stale entry unless an evaluation of this very rule and device missed its delete |
| AlertRuns.InsertFrom | backend/internal/engine/alert.go:380-404 | a row is inserted exactly when triggered, unsuppressed and without an active alert, out of a state pending for the sustained duration or resolved for the cooldown |
| AlertRuns.PendingHistory | backend/internal/engine/alert.go:339-378 | every pending state that row or cache ever holds goes back to a triggered evaluation that set its start, and every clearing since left a pending state behind |
| AlertRuns.SustainedBeforeFiring | backend/internal/engine/alert.go:361-386 | an alert created out of pending goes back to a triggered evaluation at least the longest duration earlier |
| AlertRuns.SustainedExactly | backend/internal/engine/alert.go:339-386 | the condition held throughout that stretch if and only if each clearing in it left no pending state in row or cache |
| AlertRuns.NeverFiresAcrossIff | backend/internal/engine/alert.go:322-386 | no continuation fires out of a pending state from before an evaluation if and only if afterwards neither row nor entry is one |
| AlertRuns.ClearingRestartsIff | backend/internal/engine/alert.go:419-428 | a clearing that read an earlier pending state restarts the clock exactly when its write takes effect and no such entry is left |
| AlertRuns.UnnoticedClearing | backend/internal/engine/alert.go:322-344 | an alert can fire across a clearing whose state read failed |
| AlertRuns.StaleClearing | backend/internal/cache/alert_state_cache.go:38-50 | an alert can fire across a clearing that was read and stored but whose cache delete failed |
| AlertRuns.SuppressionRestarts | backend/internal/engine/alert.go:490-495 | a suppressed firing that is stored ends pending, and the next triggered evaluation sets a new start |
| AlertRuns.CooldownSpacing | backend/internal/engine/alert.go:348-566 | over every run, an alert comes at least its rule's cooldown after every earlier one, when the last one before it was settled |
| AlertRuns.SettledIff | backend/internal/engine/alert.go:513-566 | an insertion is settled exactly when its row was read back, its state written, and no entry that could fire earlier is left |
| AlertRuns.SpacedIff | backend/internal/engine/alert.go:348-566 | every later alert of every continuation keeps its cooldown if and only if the last evaluation is settled |
| AlertRuns.SpacedWithoutStaleHits | backend/internal/engine/alert.go:322-566 | after an alert that was read back and stored the next ones keep their cooldown as long as no lookup hits a stale entry |
| AlertRuns.FiredRowStaysIff | backend/internal/engine/alert.go:322-344 | exactly when an evaluation leaves the row of an active alert as it is; a triggered one that cannot read it writes pending over it |
| AlertRuns.ActiveAlertIsResolved | backend/internal/engine/alert.go:427-468 | once a row says that an alert is active, the first clearing of an auto-resolving rule that reads it writes resolved now and resolves that very alert |
| AlertRuns.CreatedAlertIsResolved | backend/internal/engine/alert.go:513-566 | an alert created, read back and stored is resolved by the next clearing of an auto-resolving rule that is seen |
| AlertRuns.TakenOverAlertIsResolved | backend/internal/engine/alert.go:482-488 | so is an active alert that was taken over |
| AlertRuns.SeenClearingResolvesIff | backend/internal/engine/alert.go:427-468 | a clearing that is seen resolves an alert if and only if the row names it as active at that moment and the update succeeds |
| AlertRuns.ForgottenIsNotResolved | backend/internal/engine/alert.go:322-344 | after a triggered evaluation that could not read the row of an active alert the next clearing resolves nothing |
| AlertRuns.StaleRefires | backend/internal/cache/alert_state_cache.go:38-50 | after an alert that was read back and stored with a failed cache delete, the next lookup fires again however soon |
| AlertRuns.WindowBound | backend/internal/engine/alert.go:348-566 | evaluations spanning w create at most 1 + w / cooldown alerts, when each of these but the last was settled |
| AlertEngine.Engine.CheckSuppressionForDevice | backend/internal/engine/suppression.go:30-93 | asks the topology walk over the device rows first, then the maintenance windows, and records one row for what suppresses |
| AlertEngine.SuppressedIff | backend/internal/engine/suppression.go:30-77 | when the topology check answers, a firing is suppressed exactly under maintenance or when the walk meets a device that is down before a query fails; when none fails, below a root cause or a cycle of down devices |
| AlertEngine.RecordedNamesNearestDown | backend/internal/engine/suppression.go:41-73 | the row recorded names the device, the rule and the nearest ancestor that is down, or the maintenance window when the walk met none |
| AlertEngine.NoAlertUnderDownAncestor | backend/internal/engine/alert.go:473-495 | a metric whose walks meet a device that is down before a query fails creates no alert and hands none to the notifier |
| AlertConcurrency.InsertKeepsTable | backend/internal/database/postgres.go:662-683 | an insert that finds no active row of the pair keeps at most one |
| AlertConcurrency.StatusKeepsTable | backend/internal/database/postgres.go:685-701 | a status change that the unique index admits keeps at most one |
| AlertConcurrency.FlightMoves | backend/internal/engine/alert.go:513-553 | a row enters flight when inserted and leaves it by one hand-off or by being abandoned |
| AlertConcurrency.ActKeepsPc | backend/internal/engine/alert.go:300-566 | whatever an evaluation is about to store names only alerts of its own pair |
| AlertConcurrency.OneActivePerPair | backend/internal/database/migrations.go:1124-1125 | in every interleaving at most one alert of a rule and device is active |
| AlertConcurrency.OneHandOffPerRow | backend/internal/engine/alert.go:210-279 | each inserted row is handed off exactly once unless its read-back failed or its process died, then never; duplicates hand off nothing |
| AlertConcurrency.NeverTwice | backend/internal/engine/alert.go:513-553 | no row is handed off twice at any moment |
| AlertConcurrency.FiredStatesNameOwnAlert | backend/internal/engine/alert.go:482-566 | every firing, notified or acknowledged state ever stored names an alert created for that same rule and device |
| AlertConcurrency.SoloIsSequential | backend/internal/engine/alert.go:300-566 | an uninterrupted evaluation of the step machine has exactly the effect of the sequential engine from the state it loaded |
| RuleCache.FilterActive | backend/internal/engine/rule_cache.go:49-54 | the enabled rules with conditions, in table order |
| RuleCache.ActiveExact | backend/internal/engine/rule_cache.go:49-54 | a rule is returned exactly when it is in the table, enabled and has conditions |
| RuleCache.RuleCacheObject.Invalidate | backend/internal/engine/rule_cache.go:24-29 | a new generation and no cached load |
| RuleCache.RuleCacheObject.Begin | backend/internal/engine/rule_cache.go:36-43 | a hit within the time to live, or the generation to load in |
| RuleCache.RuleCacheObject.Finish | backend/internal/engine/rule_cache.go:56-61 | installed only in the generation in which the load began |
| RuleCache.RuleCacheObject.ActiveRules | backend/internal/engine/rule_cache.go:34-63 | an undisturbed call returns the cached rules or the filtered table |
| RuleCache.StepKeeps | backend/internal/engine/rule_cache.go:24-63 | cached and returned rules are always the filter of one table no older than the newest invalidated edit |
| RuleCache.ReturnsFreshRules | backend/internal/handlers/alert_rules.go:90-154 | a call that starts after an edit's invalidation returned gets the filter of a table at least that new |
| RuleCache.InvalidationOvertakes | backend/internal/engine/rule_cache.go:24-29 | an invalidation overtakes every load under way |
| RuleCache.OvertakenLoadNeverInstalled | backend/internal/engine/rule_cache.go:34-63 | over every run, a load begun before an invalidation leaves the cache alone whenever it ends |
| RuleCache.OvertakenNeverInstalled | backend/internal/engine/rule_cache.go:56-61 | a load that was overtaken never changes the cache |
| AlertStateCache.KeyedMutex.Get | backend/internal/engine/keyed_mutex.go:16-22 | one mutex per key, made on first use, never shared between keys |
| AlertStateCache.StepKeepsLocking | backend/internal/engine/keyed_mutex.go:16-27 | every step keeps mutexes and their owners consistent |
| AlertStateCache.OneHolderPerKey | backend/internal/engine/keyed_mutex.go:16-27 | in every interleaving at most one thread holds a key |
| AlertStateCache.BlockedOnlyBySameKey | backend/internal/engine/keyed_mutex.go:5-9 | a thread waits only for a holder of the same key |
| AlertStateCache.StepTells | backend/internal/cache/alert_state_cache.go:22-50 | through every step a value read from the table is the row, and outside a write the entry differs from the row exactly when marked stale |
| AlertStateCache.EntryStaleIff | backend/internal/cache/alert_state_cache.go:22-50 | in every run, outside a write of the key, its entry differs from its row if and only if it did so at the start, or a failed delete, a lost write reply or a crash left it so, and nothing replaced it since |
| AlertStateCache.TableIsLastWritten | backend/internal/cache/alert_state_cache.go:38-39 | the row is the last write that took effect |
| AlertStateCache.ReadsReturnLastWritten | backend/internal/engine/alert.go:120-125 | under the lock, whatever expires and fails, an answered read is the last written row if and only if its lookup did not hit such a stale entry of its own key |
| AlertStateCache.OnlyOwnInvalidationsMatter | backend/internal/cache/alert_state_cache.go:37-50 | as long as the key itself misses no invalidation nothing stale is ever left there |
| AlertStateCache.StaleAfterFailedDelete | backend/internal/cache/alert_state_cache.go:40-48 | from every store with a cached value, after writing another value with a failed delete the next read returns the cached one |
| AlertStateCache.StaleAfterLostReply | backend/internal/cache/alert_state_cache.go:37-50 | the same after a write whose reply was lost, since then nothing is deleted |
| AlertStateCache.StaleWithoutLock | backend/internal/cache/alert_state_cache.go:28-34 | without the lock, a fill after a whole write leaves the old state in the cache |
| FlowPipeline.BatchWriter.Enqueue | backend/internal/flowingest/writer.go:40-48 | never blocks, refuses exactly when the queue is full, appends otherwise |
| FlowPipeline.BatchWriter.Flush | backend/internal/flowingest/writer.go:76-90 | hands the pending flows over as one batch, nothing when there are none |
| FlowPipeline.BatchWriter.Receive | backend/internal/flowingest/writer.go:59-68 | one flow moves from the queue to the batch, and what went through stays the same sequence |
| FlowPipeline.BatchWriter.Drain | backend/internal/flowingest/writer.go:57-63 | after the queue closed, everything queued and pending is handed over in order |
| FlowPipeline.StepKeeps | backend/internal/flowingest/server.go:102-165 | every step of readers, shutdown and writer keeps the invariant and appends exactly the flow it accepted |
| FlowPipeline.ExactlyOnceInOrder | backend/internal/flowingest/writer.go:40-90 | at every reachable state batches, pending and queue are the accepted flows, in order and once each |
| FlowPipeline.NoSendAfterClose | backend/internal/flowingest/server.go:141-155 | no send ever reaches the closed queue |
| FlowPipeline.StopMeansHandedOff | backend/internal/flowingest/server.go:159-166 | when Stop returns every accepted flow was handed to the store, in batches of one to batchSize flows |
| FlowPipeline.DoneIsFinal | backend/internal/flowingest/server.go:141-166 | after that nothing happens any more |
| FlowPipeline.ShutdownProgress | backend/internal/flowingest/server.go:141-155 | once cancelled, some goroutine can take a step that leaves less work |
| FlowPipeline.ShutdownCanFinish | backend/internal/flowingest/server.go:141-166 | from every cancelled state Stop can return |
| FlowPipeline.RefreshDevices | backend/internal/flowingest/server.go:282-302 | every address maps to the lowest device id that has it; a failed load keeps the map |
| FlowDecode.ScaleIsMin | backend/internal/flowingest/decode.go:374-382 | the scaled counter is the product or the largest 64-bit integer, whichever is less |
| FlowDecode.EffectiveRate | backend/internal/flowingest/decode.go:308-317 | the message's rate, else the record's, within 1 and 2^31 - 1 |
| FlowDecode.IfIndex | backend/internal/flowingest/decode.go:386-397 | an index exactly when the format bits are zero and it fits |
| FlowDecode.NormalisedIsBounded | backend/internal/flowingest/decode.go:290-348 | kept exactly when both addresses have 4 or 16 bytes; counters, rate, time and duration are in range; what the addresses are is said by FlowDecode.EndpointsAreTheMessages |
| FlowDecode.EndpointsAreTheMessages | backend/internal/flowingest/decode.go:291-292 | source and destination are the message's own addresses, unwrapped when they are IPv4 in IPv6; interfaces are its own when they fit |
| FlowDecode.ExporterIsSampler | backend/internal/flowingest/decode.go:319-323 | the exporter is the sampler address, unwrapped, exactly when that has 4 or 16 bytes and is not all zeros, else the source of the datagram |
| FlowDecode.RateIsFirstGiven | backend/internal/flowingest/decode.go:308-317 | the message's rate, else the record's, else one, capped at 2^31 - 1 |
| FlowDecode.TimestampIsEndOrReceive | backend/internal/flowingest/decode.go:297-302 | the end time exactly when it is plausible, else the receive time |
| FlowDecode.DurationIsDifference | backend/internal/flowingest/decode.go:303-306 | the duration is the difference exactly when both times are plausible and in order, else zero |
| FlowDecode.BoundedTemplates.AddTemplate | backend/internal/flowingest/decode.go:80-90 | replacing is always allowed, a new template refused exactly at 1024; the count equals the stored templates |
| FlowDecode.BoundedTemplates.RemoveTemplate | backend/internal/flowingest/decode.go:92-100 | the template is gone and the count still equals the stored templates |
| FlowDecode.ExporterTable.Exporter | backend/internal/flowingest/decode.go:137-161 | the state of a known sender, a fresh one, or a refusal; eviction touches only idle entries |
| FlowDecode.EvictIdle | backend/internal/flowingest/decode.go:145-149 | exactly the entries idle for more than an hour go |
| FlowDecode.TableWithinCap | backend/internal/flowingest/decode.go:136-161 | over every run the table never passes its cap |
| FlowDecode.LastSeenIsLatest | backend/internal/flowingest/decode.go:140-143 | an entry carries the time of its exporter's latest datagram |
| FlowDecode.KeptUntilEvicted | backend/internal/flowingest/decode.go:136-161 | an exporter keeps its template state until it is evicted |
| FlowDecode.OnlyIdleEvicted | backend/internal/flowingest/decode.go:144-149 | an evicted exporter was silent for more than an hour |
| FlowDecode.ActiveExporterKept | backend/internal/flowingest/decode.go:136-161 | an exporter heard from within the hour is still there with the same state |
| FlowDecode.RefusedIffFullOfActive | backend/internal/flowingest/decode.go:144-153 | refused exactly when the sender is new and as many exporters as fit were heard from within the hour |
| SFlowGuard.Walk | backend/internal/flowingest/sflow_guard.go:38-52 | the loop finds what the recursive parse finds first, reads in bounds and takes at most one turn per eight bytes |
| SFlowGuard.CheckSFlowRecordCounts | backend/internal/flowingest/sflow_guard.go:18-53 | rejects exactly when the parse reaches an expanded flow sample with more than 1000 records, and names that count |
| SFlowGuard.FirstOversizedIs | backend/internal/flowingest/sflow_guard.go:44-49 | the count reported is that of the first oversized sample, and there is one exactly when a count is reported |
| SFlowGuard.SamplesRoundTrip | backend/internal/flowingest/sflow_guard.go:38-51 | parsing an encoded sample list gives it back, wherever it stands |
| SFlowGuard.DatagramRoundTrip | backend/internal/flowingest/sflow_guard.go:20-51 | a well-formed datagram, with anything behind it, is parsed into exactly its samples |
| MetricBuffer.Buffer.Pop | backend/internal/cache/metric_buffer.go:108-126 | a batch from the head; what does not unmarshal is dropped |
| MetricBuffer.Buffer.Flush | backend/internal/cache/metric_buffer.go:108-161 | stored, requeued or isolated row by row, and whether the drain may go on |
| MetricBuffer.Buffer.InsertRows | backend/internal/cache/metric_buffer.go:147-157 | every metric is stored, dead-lettered or requeued by its own answer |
| MetricBuffer.Buffer.Drain | backend/internal/cache/metric_buffer.go:97-104 | stops after the first transient failure; without one exactly the first 50 batches are gone |
| MetricBuffer.RowsPartition | backend/internal/cache/metric_buffer.go:147-157 | each metric goes to one of the three outcomes, and to two of them exactly after a lost reply |
| MetricBuffer.DecodedIs | backend/internal/cache/metric_buffer.go:118-126 | what is kept of a batch are its metrics, and what is dropped is the rest |
| MetricBuffer.ReverseIs | backend/internal/cache/metric_buffer.go:195-220 | of the values put back at the head the one pushed last comes first |
| MetricBuffer.RowsByClass | backend/internal/cache/metric_buffer.go:147-172 | dead-lettered exactly when its own insert was refused with SQLSTATE class 22 or 23; requeued exactly after a lost reply or any other failure |
| MetricBuffer.FlushByClass | backend/internal/cache/metric_buffer.go:136-161 | a batch refused with another class, or none, goes back whole and in place; one of class 22 or 23 is tried row by row and each row goes where its class sends it |
| MetricBuffer.StoredInOrder | backend/internal/cache/metric_buffer.go:97-134 | when every batch is stored, t flushes store the metrics of the first t * batchSize entries in the order of the buffer and drop the rest of them |
| MetricBuffer.FlushConserves | backend/internal/cache/metric_buffer.go:108-161 | one flush unmakes no entry and makes none but the copies of a lost reply |
| MetricBuffer.DrainConserves | backend/internal/cache/metric_buffer.go:97-104 | the same for a drain, whatever fails |
| MetricBuffer.CleanDrain | backend/internal/cache/metric_buffer.go:97-104 | t batches without transient failure leave max(0, n - t * batchSize) entries |
| MetricBuffer.DeadLetterTally | backend/internal/cache/metric_buffer.go:174-193 | dead-lettering keeps or trims each entry, and the list never passes 10000 |
| MetricBuffer.StepConserves | backend/internal/cache/metric_buffer.go:108-220 | each step of an instance moves entries between its memory and Redis or the database, and copies one only by a lost reply |
| MetricBuffer.EveryRunConserves | backend/internal/cache/metric_buffer.go:38-220 | with any number of instances, failures and crashes, each pushed entry, and each copy a lost reply made of it, is in exactly one place |
| MetricBuffer.StoredAtMostPushed | backend/internal/cache/metric_buffer.go:38-220 | without a lost reply to an insert nothing is stored more often than it was pushed |
| MetricBuffer.StoredTwiceIff | backend/internal/cache/metric_buffer.go:117-161 | a metric in one place that is being inserted can end up stored twice, with no further lost reply, if and only if the reply to this insert is lost |
| MetricBuffer.NothingElseLoses | backend/internal/cache/metric_buffer.go:195-220 | entries are lost only by a lost reply, a push that does not reach Redis, or a crash |
| SnmpRates.DeltaIsIncrement | backend/internal/collectors/snmp_interfaces.go:35-45 | the delta never exceeds the true increment and equals it exactly below the counter width |
| SnmpRates.ReportedRates | backend/internal/collectors/snmp_interfaces.go:61-76 | a reported rate times the elapsed time is eight times the delta, over at most 30 minutes and 1.5 times a known speed |
| SnmpRates.ReportedIff | backend/internal/collectors/snmp_interfaces.go:58-76 | rates are reported exactly for samples of one counter width, at most 30 minutes apart, whose octets stay within 1.5 times a known speed |
| SnmpRates.RateTracker.Rate | backend/internal/collectors/snmp_interfaces.go:47-77 | stores the sample and reports against the previous one |
| SnmpRates.RateTracker.Forget | backend/internal/collectors/snmp_interfaces.go:79-88 | drops exactly the device's interfaces that were not seen |
| SnmpRates.StoredIsLatest | backend/internal/collectors/snmp_interfaces.go:47-88 | whatever other interfaces do, the stored sample is the latest poll not forgotten since |
| SnmpRates.RatesTelescope | backend/internal/collectors/snmp_interfaces.go:35-77 | over every stretch of reported polls the rates add up to the true octets if and only if every increment was below the counter width, and never to more |
| LoginLimiter.PruneEvents | backend/internal/auth/login_limiter.go:132-145 | drops the events before the window |
| LoginLimiter.Limiter.AllowInMemory | backend/internal/auth/login_limiter.go:108-129 | the three checks in order, then one event per counter |
| LoginLimiter.Limiter.ResetSuccess | backend/internal/auth/login_limiter.go:158-168 | the user-and-address counter is gone |
| LoginLimiter.Limiter.Cleanup | backend/internal/auth/login_limiter.go:178-190 | every list pruned, empty ones removed |
| LoginLimiter.ActiveIsCount | backend/internal/auth/login_limiter.go:132-145 | a pruned list counts as many events in the window as the whole history |
| LoginLimiter.DecidedByHistory | backend/internal/auth/login_limiter.go:108-193 | over every run with cleanups and resets, each attempt is decided as if all accepted attempts were stored |
| LoginLimiter.IpWindowBound | backend/internal/auth/login_limiter.go:113-116 | no closed minute holds more than ten accepted attempts from one address |
| LoginLimiter.PairWindowBound | backend/internal/auth/login_limiter.go:117-121 | since the last reset no closed minute holds more than five accepted attempts for a user and address, unless an attempt has the name they read like |
| LoginLimiter.UserWindowBound | backend/internal/auth/login_limiter.go:117-127 | no closed minute holds more than thirty accepted attempts for a nonempty name that does not end in the separator and an address of the run |
| LoginLimiter.UserKeyIsUser | backend/internal/auth/login_limiter.go:122-127 | for such a name nothing else is counted under it and nothing resets it |
| LoginLimiter.PlainIsApart | backend/internal/auth/login_limiter.go:117 | a name without separator is such a name, whatever the addresses |
| LoginLimiter.BoundedIffApart | backend/internal/handlers/auth.go:614-631 | over all runs from more than thirty addresses the bound holds if and only if the name is such a name |
| Migrations.IsOrdered | backend/internal/database/postgres.go:123-130 | versions strictly increase |
| Migrations.Database.RunMigrations | backend/internal/database/postgres.go:90-182 | the loop of one instance, with every failure of the database; on success every listed version is recorded with no checksum, an empty one or exactly its own, and the first migration that does not pass decides any other result |
| Migrations.SuccessLeavesUnedited | backend/internal/database/postgres.go:145-153 | success means that each listed version is recorded with no checksum, an empty one, or exactly the list's, whatever the records were |
| Migrations.FirstFailureDecides | backend/internal/database/postgres.go:132-181 | in terms of the records at the start: the first migration that is unreadable, edited, or missing and not committed decides the result |
| Migrations.MismatchIff | backend/internal/database/postgres.go:145-153 | a mismatch of a version is reported exactly when it is recorded with another checksum that is not empty, its read is answered, and every migration before it passes |
| Migrations.RunAppendsInOrder | backend/internal/database/postgres.go:132-180 | appends the missing versions in order, once each; success means all recorded, with no checksum, an empty one or exactly the own |
| Migrations.MismatchAppliesNothing | backend/internal/database/postgres.go:145-156 | a mismatch means that nothing was applied and that a record really has another checksum that is not empty |
| Migrations.StepKeeps | backend/internal/database/postgres.go:107-180 | every step of every instance, harmless ends of lock sessions included, keeps the records a prefix and lets one instance commit at a time |
| Migrations.CommittedOnceInOrder | backend/internal/database/postgres.go:107-182 | with any number of instances, crashes and harmless ends of lock sessions, recorded versions are a prefix of the list and each was committed once |
| Migrations.SuccessMeansRecorded | backend/internal/database/postgres.go:132-181 | over every run, an instance that ends well leaves its whole list recorded, with no checksum, an empty one or exactly its own |
| Migrations.MismatchStops | backend/internal/database/postgres.go:145-156 | over every run, an instance commits only while no version of its list is recorded with another checksum that is not empty |
| Migrations.LostSessionIff | backend/internal/database/postgres.go:107-180 | from every reachable state, the end of the lock session lets some version be committed twice if and only if its instance and another one could both still commit |

## Left out

- AlertRuns.CooldownSpacing: when the alert right before was settled; AlertRuns.SpacedIff and AlertRuns.SettledIff say that this is exact.
- AlertRuns.SustainedExactly: from a row and an entry that are not pending before the run, as AlertRuns.PendingHistory and AlertRuns.SustainedBeforeFiring; the others start from any.
- Migrations.CommittedOnceInOrder: without ends of lock sessions that matter (Migrations.LostSessionIff), and for instances whose version lists are prefixes of one list.
- Topology.GetRootCauseOutages: when no root cause is on a cycle, since the search does not end otherwise (Topology.CycleNeverEmptiesQueue).
- Topology.GetDeviceDependencies: when the chain above the device ends, since its upward walk does not end otherwise (ParentGraph.EndsIffMeetsNoCycle).
- LocationTree.GetTreeWithStatus: for acyclic tables; rows on a cycle are below no root and would be missing from the tree. LocationTree.GetReachableTree needs no such assumption.
- `LocationService.Update` writes the parent without a cycle check, so the forest invariant does not cover it.
- `BuildDependencyTree`, and the fields of locations and devices that no modelled operation reads.
- The two checks of `Create` and its insert, and the walk and the update of `Move`, are one serial step; concurrent moves are not modelled.
- In the location tree a node holds its status counters as a value, not as an object shared with the per-location table; each entry is used by one node only.
- The exporter table holds its entries as values; the update of an entry's time in place is an update of the table.
- Several engine instances over one state cache at once: the mutex of a key is per process, and AlertStateCache.StaleWithoutLock shows what a fill can do without it.
- SnmpRates.RatesTelescope: for counters that do not restart between polls; the code cannot tell a restart of a 32-bit counter from a wrap.
- How old the rules of a cache hit may be with respect to edits made on other instances: less than 15 seconds since a load ended, plus the time that load took.
- The generation of the rule cache is unbounded; 2^64 invalidations during one load are not modelled.
- The descriptions, snapshots and history rows of evaluations, broadcasts, and the notification workers behind the bounded queue; a hand-off is the one call of sendNotifications, whether or not the queue has room or the rule has channels.
- Condition values that parse as infinite or as no number, and the two spellings of each operator.
- Comparison of condition snapshots is a parameter of the evaluation.
- The order of the metric buffer: requeueing reverses a batch, so only the number of each entry is claimed.
- Marshalling a metric back after it was unmarshalled does not fail here.
- Ports, protocol, type of service, TCP flags and device of a flow, which are copied or masked, and the length check of NetFlow version 5.
- Decoding by goflow2, protocol names and address rendering; the underlying template system is a map whose insert does not fail.
- A migration's SQL is identified by its checksum; the statements before the lock, which create the tracking table and may run any number of times, are one step.
- Redis-backed login limiting and rate limiting, where attempts of the same microsecond coalesce.
- Caches with a time to live only, recurring maintenance windows, quiet hours, escalation, notification timing, handlers, collectors and client code.
