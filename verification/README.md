# A verified model of the gateway's stateful core

This Dafny project models the parts of the API gateway in which several operations have to fit together: crediting a paid
order exactly once, with the order lock and without it, comparing price tables, choosing among providers, reconciling model
lists with an upstream, managing the keys of a multi-key channel, the in-memory rate limiter, storing and replaying request
bodies, the disk-cache counters, the Ogg/Opus duration walker, the task relay with its billing session, the verification
codes and the amounts of a top-up. Nothing was executed: every statement below is a theorem about the model.

| file | models | form |
|---|---|---|
| `OrderLock.dfy` | `LockOrder`, `UnlockOrder`, the Epay, ZS Pay, Helipay, Waffo and admin callbacks that run under them, and the Stripe and Creem ones that do not | step system over any number of threads |
| `PriceSync.dfy` | `buildDifferences` | loops over maps, phase by phase, against a direct specification |
| `ModelsDev.dfy` | the models.dev and OpenRouter converters | pure comparison and conversion, loops over catalogues |
| `ModelNames.dfy`, `UpstreamModels.dfy` | model-name lists and upstream reconciliation | pure list algebra; a class for the channel record |
| `UpstreamRows.dfy` | the stored settings of a channel under overlapping checks and applies | schedules of loads and stores |
| `MultiKey.dfy` | `ManageMultiKeys`, appending keys, reporting a key | a class with the sparse maps, and its meaning as slots |
| `MultiKeyRows.dfy` | the stored row of a multi-key channel under overlapping operations | schedules of loads and stores |
| `ChannelRows.dfy` | the whole channel row under key actions, key selections, checks and applies, overlapping in any way | schedules of loads and stores |
| `Schedules.dfy` | operations that load a record and store their copy later, for any record | step system over any number of operations |
| `RateLimiter.dfy` | `InMemoryRateLimiter` | a class, and runs of requests and sweeps |
| `BodyStorage.dfy`, `RequestBody.dfy` | memory and disk body storage, `GetRequestBody`, `CleanupBodyStorage` | classes, and runs of requests |
| `DiskCache.dfy` | the disk-cache counters under concurrent creation and closing | step system over any number of storages |
| `OggOpus.dfy` | `getOpusDuration` | loop over bytes against a recursive walk |
| `TaskRelay.dfy` | the `RelayTask` loop, group switching, the wallet billing session | a class for the session, a loop for the relay |
| `Verification.dfy` | the expiring map of verification codes | a class, and runs of calls |
| `TopUpAmount.dfy` | token and unit conversions of a top-up | arithmetic |

Statements that turn out not to hold for the code are kept, with the exact condition under which they do:

* `buildDifferences` reports a row in which no channel offers a value when an upstream value is null, is the string "same", or
  two channels share a name (`PriceSync.RowIff`, `PriceSync.SpuriousRow`).
* The order lock is there so that an order is credited once. The callbacks of Stripe and Creem do not take it, and whether
  their transaction reads the order under a row lock depends on how the database layer treats the option that asks for one. A
  pending order can be credited twice if and only if one of these two callbacks meets another callback that can complete the
  order, and, where row locks are taken, that one completes it outside a transaction (`OrderLock.AtMostOnceIff`,
  `OrderLock.PaidTwice`).
* An admin completion of a pending order does not complete it when its recorded amount comes to no quota, as that of a small
  Helipay order does (`OrderLock.CreditedIff`, `OrderLock.WorthlessOrderStaysPending`).
* models.dev selection is documented as the cheapest non-zero cost. The code gets within 1e-9 of it, and gets it exactly under
  every assignment of providers if and only if no cost lies strictly between the cheapest and 1e-9 above it
  (`ModelsDev.CheapestIff`, `ModelsDev.NotAlwaysCheapest`).
* Detecting, applying everything and detecting again may leave work: names with commas are split by storage, and applying a
  name drops an equal ignore entry that may also be a pattern (`UpstreamModels.ConvergesIff`,
  `UpstreamModels.CommaNeverSettles`, `UpstreamModels.PatternListedUpstream`). With auto-sync only the commas matter
  (`UpstreamModels.SyncConvergesIff`).
* Redirect sources are documented as never removed for being absent upstream. The scheduled check and the check of all
  channels do not load the redirect mapping: there a stored source missing upstream is listed for removal, and applying
  everything drops it and brings in its target (`UpstreamModels.SourceStaysIff`, `UpstreamModels.AliasIsLost`).
* `delete_disabled_keys` on a channel whose keys are all auto-disabled deletes nothing and enables them all, because an empty
  key column is not written (`MultiKey.DeleteDisabledExact`). A status report for a key that is no longer listed marks the
  first key (`MultiKey.ReportHits`). A report that equals the channel's own status is dropped, so a key of an enabled channel
  is never reported back to life (`MultiKey.Channel.ReportKey`).
* The key actions are proved as serial runs, in which an action is one step. In the code it loads the row before it takes the
  lock, or takes none. Under any schedule of loads and stores the row stays valid, and the outcome is that of a serial run, if
  and only if no operation commits between the load and the commit of another (`MultiKeyRows.ValidIff`,
  `MultiKeyRows.SerialIff`, `MultiKeyRows.LateReport`, which `Schedules.NestedExists` makes happen).
* The same holds for checks and applies of upstream models, which no lock covers: an ignored name stays ignored until it is
  added if and only if none of them overlaps another (`UpstreamRows.DecisionsStayIff`, `UpstreamRows.SerialIff`).
* Key actions and reports also store the models and settings they loaded, and the key selection of a request or of a check
  stores, in polling mode without the memory cache, the channel info it loaded, so all of them meet in one row. An ignored
  name stays ignored if and only if no check or apply commits inside a check, an apply or a key action
  (`ChannelRows.DecisionsStayIff`). The keys stay valid if and only if no key action commits inside a key action or a
  selection, which begins with the load of its check (`ChannelRows.ValidIff`): a single append between the load of a check
  and its selection leaves MultiKeySize wrong (`ChannelRows.AppendInsideCheck`). The outcome is serial if and only if both
  hold (`ChannelRows.SerialIff`).
* Replacing the keys of a channel lets every new key take over the status, time and reason of its position, and keeps the
  channel invariant if and only if no key beyond the new ones has a disabled time or reason (`MultiKeyRows.ReplaceValidIff`);
  a key appended later takes those over (`MultiKeyRows.AppendedTakesOver`, `MultiKeyRows.OldReasonShown`).
* The rate limiter agrees with the history exactly when a key's window is at most one second longer than the retention time;
  a limit of 0 admits one request per window (`RateLimiter.AgreesIffRetained`).
* Memory and disk storage answer two kinds of read differently (`BodyStorage.RunsAgree`). A refused body stays refused
  exactly while its drained reader keeps failing or its file cannot be written (`RequestBody.RefusedForGood`). The two
  defaults for the largest body, 128 MB in common/gin.go and 32 MB in middleware/gzip.go, differ; the model uses the former
  and treats the latter as part of the reader.
* A task relay makes at most RetryTimes + 1 submissions in every world if and only if it is not in the "auto" group, or has
  fewer than two groups left, no retries or a named channel (`TaskRelay.RetryBoundIff`); otherwise it can make up to
  groups * (RetryTimes + 1) (`TaskRelay.AutoReachesBound`). With a negative RetryTimes it reaches settlement without a
  result; a negative price is billed on top (`TaskRelay.Relay`).
* Verification codes of two purposes sharing one map are kept apart if and only if no purpose starts with another
  (`Verification.PurposesIff`).
* A minimum top-up is met by every accepted request exactly when no visible fraction of a token is cut off the minimum
  (`TopUpAmount.MinimumHonoured`).

## Model

| member | source | states |
|---|---|---|
| `OrderLock.InvKeeps` | controller/topup.go:254-293 | every step of every thread, with the lock or without it, and every other write keeps the whole lock and credit invariant |
| `OrderLock.RunInv` | controller/topup.go:264-293 | the invariant holds in every state of every interleaving |
| `OrderLock.MutualExclusion` | controller/topup.go:264-276 | in every run no two threads are between lock and unlock of one order |
| `OrderLock.LockTableExact` | controller/topup.go:264-293 | refCount is the number of threads between increment and decrement; with createLock free an entry exists exactly while that is positive; an unlock always finds the very mutex its thread holds |
| `OrderLock.NoLockLeak` | controller/topup.go:279-293 | once every thread has finished the table is empty and no mutex or createLock is held |
| `OrderLock.NoDeadlock` | controller/topup.go:264-293 | while any thread is unfinished, some thread can step without failures or outside help |
| `OrderLock.RunsAreBounded` | controller/topup.go:264-374 | no schedule takes more than 15 steps per thread |
| `OrderLock.AtMostOnce` | controller/topup.go:346-374 | with failing database calls and unlocked writers that never write pending, an order whose callbacks do not clash is credited at most once, and every order only after it was stored as success |
| `OrderLock.AtMostOnceIff` | controller/topup_creem.go:318-343 | for any callbacks on any orders: every run credits an order at most once iff it starts out settled or no Stripe or Creem callback for it meets another callback that can complete it, counting, where row locks are taken, only those that do so outside a transaction |
| `OrderLock.PaidTwice` | controller/topup_stripe.go:179-198 | for every such clash a run that credits the order twice |
| `OrderLock.NoRival` | model/topup.go:87-133 | without a clash no two threads are about to credit one order at the same time |
| `OrderLock.CreditOrderKeeps` | controller/topup_helipay.go:204-245 | whatever step a callback takes, it keeps the credits of every order without clash at most one and never leaves a credited order pending |
| `OrderLock.CreditThreadKeeps` | model/topup.go:435-503 | any step keeps, for every callback that has read a pending order without clash and may still credit it, that the order is uncredited so far |
| `OrderLock.InterferenceKeeps` | model/topup.go:566-612 | cancellation and creation outside the lock keep the invariant |
| `OrderLock.ExactlyOnce` | controller/topup.go:346-374 | if all callbacks for it take the order lock, without database failures and outside writers, once all have finished a pending order is credited exactly once if stored as success and never otherwise, still pending iff no callback could settle it, and stored as what some callback makes of it |
| `OrderLock.CreditedIff` | model/topup.go:365-434 | without a report of failure it is credited exactly once iff some finished callback is an Epay or ZS Pay one, a successful Helipay, or an admin or Waffo completion of an order worth a positive quota |
| `OrderLock.OnlySettlers` | controller/topup_helipay.go:204-245 | an order leaves pending only by a callback that means to settle it and can |
| `OrderLock.OncePaid` | model/topup.go:379-425 | when a callback or a transaction turns an order to success, its credit is there or its thread is about to add it |
| `OrderLock.WorthlessOrderStaysPending` | model/topup.go:406-408 | a whole failure-free run of an admin completion, with the row lock taken, of an order worth no quota, which ends pending and uncredited |
| `PriceSync.CollectFrom` | controller/ratio_sync.go:555-569 | the models collected from one table are exactly those it mentions in some field |
| `PriceSync.CollectModels` | controller/ratio_sync.go:555-569 | the models walked are exactly those known locally or to some channel |
| `PriceSync.Confidence` | controller/ratio_sync.go:571-604 | every model gets a mark, false exactly for the placeholder ratio pair |
| `PriceSync.Preprocess` | controller/ratio_sync.go:571-604 | each channel name carries the marks of the last channel of that name |
| `PriceSync.Classify` | controller/ratio_sync.go:606-667 | the cell, supplied and differing flags of one channel against the local value |
| `PriceSync.WantedMeans` | controller/ratio_sync.go:606-667 | a row is wanted iff some channel supplies a value missing locally or different |
| `PriceSync.Row` | controller/ratio_sync.go:606-667 | one row over all channels: value, cells and confidence |
| `PriceSync.BuildRows` | controller/ratio_sync.go:606-667 | a model's rows are exactly its wanted fields |
| `PriceSync.BuildDraft` | controller/ratio_sync.go:606-667 | the unpruned report has exactly the wanted rows of the known models, fully described |
| `PriceSync.MarkChannels` | controller/ratio_sync.go:669-678 | a channel is marked iff it shows a value in some row |
| `PriceSync.MarksAreFlags` | controller/ratio_sync.go:669-678 | the marks computed from the draft are the names flagged by the inputs |
| `PriceSync.PruneItem` | controller/ratio_sync.go:680-706 | a row loses exactly the unmarked columns and is dropped iff nothing but "same" is left |
| `PriceSync.PruneRows` | controller/ratio_sync.go:680-706 | every row of a model is pruned or dropped by that rule, whatever the order of deletion |
| `PriceSync.Prune` | controller/ratio_sync.go:680-706 | the same for all models, and no model is left without rows |
| `PriceSync.BuildDifferences` | controller/ratio_sync.go:549-709 | sound and complete: exactly the rows and columns, with exactly the cells, that a specification over the inputs names |
| `PriceSync.PricingDifferences` | controller/ratio_sync.go:65-76 | the same for the field list in use |
| `PriceSync.ReportUnique` | controller/ratio_sync.go:549-709 | the inputs determine the report, so map iteration order is invisible |
| `PriceSync.ColumnIff` | controller/ratio_sync.go:669-678 | a column survives iff its channel really differs somewhere |
| `PriceSync.RowIff` | controller/ratio_sync.go:680-706 | for all inputs a row is reported iff some channel really differs there or it is one of the named spurious rows |
| `PriceSync.CleanReport` | controller/ratio_sync.go:549-709 | without nulls, "same" and shared names: a pair is reported iff some channel's value is missing locally or differs; a column iff its channel does so somewhere |
| `PriceSync.SpuriousRow` | controller/ratio_sync.go:606-667 | a concrete spurious row |
| `ModelsDev.PickIsBest` | controller/ratio_sync.go:894-906 | despite the non-transitive comparison the pick is positive whenever any offer is, and less than 1e-9 above the cheapest positive one; among free offers the first provider wins |
| `ModelsDev.PickIsCheapest` | controller/ratio_sync.go:894-906 | with no cost strictly between the cheapest positive one and 1e-9 above it the pick is the cheapest |
| `ModelsDev.FirstIsKept` | controller/ratio_sync.go:894-906 | a first offer that nothing undercuts by 1e-9 is kept |
| `ModelsDev.CheapestIff` | controller/ratio_sync.go:908-918 | for any collection of costs the pick is the cheapest non-zero one under every assignment of providers iff no cost lies in that open interval |
| `ModelsDev.NotAlwaysCheapest` | controller/ratio_sync.go:49-54 | closer costs can leave the dearer offer |
| `ModelsDev.SortedKeys` | controller/ratio_sync.go:928-932 | the sorted enumeration of a key set, from any iteration order |
| `ModelsDev.EnumerationUnique` | controller/ratio_sync.go:928-932 | a key set has one sorted enumeration |
| `ModelsDev.OfferProvider` | controller/ratio_sync.go:934-957 | one provider more keeps the selection equal to the pick over the providers so far |
| `ModelsDev.SelectCandidates` | controller/ratio_sync.go:928-957 | the selection loop computes, per model, the pick over its offers in provider order |
| `ModelsDev.OffersComplete` | controller/ratio_sync.go:858-892 | every valid catalogue entry is an offer |
| `ModelsDev.SelectionMeaning` | controller/ratio_sync.go:858-957 | a model is selected iff some provider has a valid entry; the selected entry is one of them, positive if any is, within 1e-9 of all positive ones |
| `ModelsDev.SelectionUnique` | controller/ratio_sync.go:928-957 | the selection does not depend on map iteration order |
| `ModelsDev.RoundRatioMeaning` | controller/ratio_sync.go:711-713 | a ratio is rounded to the nearest millionth, halves away from zero; rounding is idempotent, odd and keeps order |
| `ModelsDev.RatiosFromSelection` | controller/ratio_sync.go:963-997 | the three ratio maps list exactly the convertible selected models, each with its own ratios |
| `ModelsDev.ConvertModelsDev` | controller/ratio_sync.go:919-998 | the whole conversion, with the error for a catalogue without valid entries |
| `ModelsDev.OutcomeUnique` | controller/ratio_sync.go:919-998 | one catalogue has one outcome |
| `ModelsDev.ConvertEntry` | controller/ratio_sync.go:757-806 | one OpenRouter entry adds its row or is skipped, free and zero-input entries included |
| `ModelsDev.ConvertOpenRouter` | controller/ratio_sync.go:737-820 | the loop over all entries |
| `ModelsDev.OpenRouterMeaning` | controller/ratio_sync.go:737-820 | with unique ids the result lists each entry's own conversion and nothing else |
| `ModelsDev.EntryAgreement` | controller/ratio_sync.go:757-892 | the two conversions of one entry agree iff it is compatible: prices present as both converters expect them |
| `ModelsDev.ConvertersAgree` | controller/ratio_sync.go:737-998 | for one provider and unique ids the two converters give identical maps iff every entry is compatible |
| `ModelNames.NormalizeMeaning` | controller/channel_upstream_update.go:77-82 | the result is trimmed, non-blank and duplicate-free, and holds exactly the trimmed inputs |
| `ModelNames.NormalizeTwice` | controller/channel_upstream_update.go:77-82 | normalising is idempotent |
| `ModelNames.MergeModelNames` | controller/channel_upstream_update.go:84-98 | the loop appends the new names in order |
| `ModelNames.MergeMeaning` | controller/channel_upstream_update.go:84-98 | merging is union, in normal form |
| `ModelNames.SubtractMeaning` | controller/channel_upstream_update.go:100-109 | subtracting is set difference, in normal form |
| `ModelNames.IntersectMeaning` | controller/channel_upstream_update.go:111-120 | intersecting is set intersection, in normal form |
| `ModelNames.ApplySelectedMeaning` | controller/channel_upstream_update.go:122-127 | a name both added and removed is added |
| `ModelNames.StoreRoundTrip` | model/channel.go:196-201 | comma-free names survive joining and reading back |
| `UpstreamModels.CollectPending` | controller/channel_upstream_update.go:156-215 | the loops compute the pending lists of the specification |
| `UpstreamModels.PendingAddMeaning` | controller/channel_upstream_update.go:162-204 | pending additions are exactly the upstream names that are not local, not redirect targets and not ignored by name or pattern |
| `UpstreamModels.PendingRemoveMeaning` | controller/channel_upstream_update.go:205-214 | pending removals are exactly the local names that are neither upstream nor redirect sources |
| `UpstreamModels.Channel.Check` | controller/channel_upstream_update.go:340-387 | the stored record after a check in every case: skipped, unreadable upstream, failed save, recorded, auto-synced, abilities not rebuilt; auto-sync adds exactly the names pending under the mapping the caller loaded, which is empty for the bulk callers |
| `UpstreamModels.Channel.Apply` | controller/channel_upstream_update.go:760-808 | the stored record and the reported lists after applying a selection, nothing changed if the save fails, and the error after a stored update if the abilities cannot be rebuilt |
| `UpstreamModels.AutoSyncAddsAll` | controller/channel_upstream_update.go:364-376 | auto-sync appends exactly the pending additions, in order, and removes nothing |
| `UpstreamModels.ApplyConserves` | controller/channel_upstream_update.go:773-807 | every pending addition ends up added, ignored or remaining, remaining disjoint from both; a name added and ignored is stored and not ignored; no other name changes membership anywhere |
| `UpstreamModels.StoredModels` | controller/channel_upstream_update.go:773-807 | comma-free additions are really the channel's models afterwards |
| `UpstreamModels.SourceListedIff` | controller/channel_upstream_update.go:205-214 | a stored redirect source is listed for removal iff it is missing upstream and the check saw no mapping |
| `UpstreamModels.TargetOfferedIff` | controller/channel_upstream_update.go:182-204 | a redirect target that is upstream, not stored and not ignored is offered iff the check saw no mapping |
| `UpstreamModels.SourceStaysIff` | controller/channel_upstream_update.go:814-825 | a redirect source stored after a check survives whatever is applied next iff the check saw the mapping, or the source is upstream too, or it was not stored before the check |
| `UpstreamModels.BulkApplyDropsSources` | controller/channel_upstream_update.go:827-884 | a check of all channels and an apply of everything drops every stored source missing upstream and stores what was offered |
| `UpstreamModels.AliasIsLost` | controller/channel_upstream_update.go:522-552 | a concrete channel that loses its alias |
| `UpstreamModels.SecondCheck` | controller/channel_upstream_update.go:156-215 | after applying everything no removal is found, and an addition only where an ignore entry was lost |
| `UpstreamModels.ConvergesIff` | controller/channel_upstream_update.go:760-808 | for all lists, mappings and matchers reconciliation converges iff no pending name has a comma and dropping applied names from the ignore list un-ignores nothing |
| `UpstreamModels.SyncConvergesIff` | controller/channel_upstream_update.go:364-376 | after an auto-syncing check and an apply of the removals nothing is pending iff no pending addition had a comma, whatever the ignore list |
| `UpstreamModels.OrdinaryNamesConverge` | controller/channel_upstream_update.go:156-215 | it always converges for upstream names without commas and without the pattern prefix |
| `UpstreamModels.CommaReturns` | controller/channel_upstream_update.go:773-807 | a pending name with a comma always comes back |
| `UpstreamModels.LostIgnoreReturns` | controller/channel_upstream_update.go:773-807 | what only a dropped pattern ignored comes back |
| `UpstreamModels.CommaAlwaysReturns` | controller/channel_upstream_update.go:773-807 | it is still pending after any number of rounds |
| `UpstreamModels.CommaNeverSettles` | controller/channel_upstream_update.go:760-808 | a concrete upstream that does not settle in any number of rounds |
| `UpstreamModels.PatternListedUpstream` | controller/channel_upstream_update.go:788-791 | a concrete pattern entry that is listed upstream, and the model it un-ignores |
| `UpstreamRows.DecisionsStayIff` | controller/channel_upstream_update.go:329-387 | for any schedule of loads and stores of checks and applies: a name that an apply ignored stays on the ignore list until an apply adds it, whatever the operations are, iff no operation commits between the load and the commit of another |
| `UpstreamRows.SerialIff` | controller/channel_upstream_update.go:329-338 | every outcome is that of the operations one after another in the order of their commits iff nothing overlaps |
| `UpstreamRows.OverlapIsNoOrder` | controller/channel_upstream_update.go:329-338 | with an overlap some outcome is that of no order in which a certain committed operation has its turn |
| `UpstreamRows.LateCheckForgets` | controller/channel_upstream_update.go:340-387 | in every schedule a name ignored only since a check loaded is off the ignore list once the check commits, and pending again iff the check had to offer it when it loaded |
| `UpstreamRows.LateApplyOverwrites` | controller/channel_upstream_update.go:760-808 | in every schedule an apply that commits a change stores the models it loaded with its own selection, so models added since are gone |
| `Schedules.NoOverlapIsSerial` | model/channel.go:256-261 | for any record and any way of storing a copy, a schedule without overlap is the serial run of its operations in the order of their commits |
| `Schedules.LastsUpTo` | model/channel.go:256-261 | without overlap what a commit settles lasts until a commit revokes it |
| `Schedules.RaceFinal` | model/channel.go:256-261 | with an overlap the late commit stores what its operation loaded over what the early one stored |
| `Schedules.NestedExists` | model/channel.go:256-261 | any two operations have a schedule in which one runs from load to commit inside the other, so an overlap can always happen |
| `ChannelRows.ValidIff` | model/channel.go:158-170 | for any schedule of key actions, selections, checks and applies on one row: whatever they are, the keys stay valid iff no key action commits between the load and the commit of a key action or of a selection |
| `ChannelRows.DecisionsStayIff` | model/channel.go:497-502 | an ignored name stays ignored until it is added, whatever the operations are, iff no check or apply commits between the load and the commit of a check, an apply or a key action |
| `ChannelRows.SerialIff` | model/channel.go:256-261 | every outcome is that of the operations in the order of their commits iff no key action commits inside a key action or a selection and no check or apply inside a key action, a check or an apply |
| `ChannelRows.KeysCurrent` | model/channel.go:192-194 | while no key action commits inside a key action or a selection, each of these commits over the very keys it loaded and counted, however selections overlap |
| `ChannelRows.UpCurrent` | controller/channel_upstream_update.go:329-338 | while no check or apply commits inside a check, an apply or a key action, each of these commits over the very models and settings it loaded, however key actions overlap |
| `ChannelRows.OneCopy` | controller/channel_upstream_update.go:298-302 | the two operations that make up a check, its selection and the storing of its result, work on one loaded copy |
| `ChannelRows.KeyActionInsideCheck` | controller/channel_upstream_update.go:259-264 | in every schedule with a key action between the load of a check and its selection, some operations leave invalid keys and an outcome that is not serial |
| `ChannelRows.LateSelectionBreaks` | model/channel.go:192-194 | in every schedule a selection stored after the number of keys has changed since its load breaks the keys |
| `ChannelRows.AppendInsideCheck` | controller/channel_upstream_update.go:522-552 | a whole run with one key action: three keys, a fourth appended inside a check, and a size of 3 in the end |
| `ChannelRows.LateKeyActionUndoes` | model/channel.go:497-502 | in every schedule a key action or report that commits takes off the ignore list what was ignored since its load, drops models added since and brings back removed ones |
| `MultiKeyRows.SerialMeaning` | controller/channel.go:1242-1689 | alone, an operation on the stored row keeps it valid and does to the slots what its action does, or stores nothing |
| `MultiKeyRows.SerialStatus` | model/channel.go:573-677 | alone, only a report changes the channel's own status: on a channel without keys, or when no enabled key is left |
| `MultiKeyRows.SerialExact` | controller/channel.go:1242-1689 | alone, an operation is determined to the last entry: a row is its result iff it is valid, has the slots of the action and the status they call for |
| `MultiKeyRows.ReplaceValidIff` | controller/channel.go:952-956 | replacing the keys keeps the row valid iff no key beyond the new ones has a disabled time or reason |
| `MultiKeyRows.AppendedTakesOver` | model/channel.go:487-495 | a key appended after a replacement comes enabled with the time and reason the old key of its position had |
| `MultiKeyRows.OldReasonShown` | controller/channel.go:1386-1427 | disabled by hand, such a key is shown with the reason of the old one |
| `MultiKeyRows.SerialRunSlots` | controller/channel.go:1242-1689 | a serial run does to the slots what the run of its stored actions does |
| `MultiKeyRows.ValidIff` | model/channel.go:611-677 | for any schedule: whatever the operations are, a valid row stays valid (MultiKeySize is the key count, all indices in range) iff no operation commits between the load and the commit of another |
| `MultiKeyRows.SerialIff` | controller/channel.go:1250-1270 | every outcome is that of the operations one after another in the order of their commits iff nothing overlaps; with an overlap some outcome is that of no order at all |
| `MultiKeyRows.LateReport` | model/channel.go:611-677 | a report that loaded three keys before the first was deleted leaves two keys, a size of 3 and a status entry beyond them |
| `MultiKeyRows.DeletedKeyReturns` | controller/channel.go:1386-1540 | in every schedule a key that an enabling or disabling action loaded and that is gone just before its commit is back after it, and one that came since is gone |
| `MultiKey.Channel.Update` | model/channel.go:458-505 | the size is recounted, status entries beyond it dropped, an empty key column left as stored; an error from rebuilding the abilities leaves the row as written |
| `MultiKey.Channel.DisableKey` | controller/channel.go:1386-1427 | exactly the addressed slot is disabled; a missing or bad index or a failed save changes nothing |
| `MultiKey.Channel.EnableKey` | controller/channel.go:1429-1469 | exactly the addressed slot is enabled and its time and reason cleared |
| `MultiKey.Channel.EnableAll` | controller/channel.go:1471-1493 | every slot enabled, keys untouched |
| `MultiKey.Channel.DisableAll` | controller/channel.go:1495-1540 | every enabled slot disabled, the others untouched; an error iff there was none |
| `MultiKey.Channel.DeleteKey` | controller/channel.go:1542-1620 | exactly one slot is cut out and all others keep order, status, time and reason; the last key is never deleted |
| `MultiKey.Channel.DeleteDisabledKeys` | controller/channel.go:1622-1689 | the slots that are not auto-disabled remain, with the number removed reported |
| `MultiKey.Channel.AppendKeys` | controller/channel.go:879-951 | the old slots are a prefix of the new ones and each new key is added once |
| `MultiKey.Channel.ReplaceKeys` | controller/channel.go:952-956 | each new key takes over status, time and reason of its position; an empty key field changes nothing; the invariant survives iff no key beyond the new ones has a time or reason |
| `MultiKey.Channel.ReportKey` | model/channel.go:573-677 | a report of the channel's own status or one that cannot be saved stores nothing; otherwise one slot changes; the channel is disabled with it iff no enabled key is left, and takes the status itself if it has no keys |
| `MultiKey.AllDisabledIff` | model/channel.go:601-607 | there are as many status entries as keys iff every key is disabled |
| `MultiKey.CutOut` | controller/channel.go:1560-1592 | the re-indexing loop keeps every other slot whole |
| `MultiKey.Sift` | controller/channel.go:1623-1660 | the re-indexing loop keeps exactly the survivors, in order |
| `MultiKey.Dedupe` | controller/channel.go:928-950 | the loop over appended lines computes the new keys of the specification |
| `MultiKey.SurvivorsMeaning` | controller/channel.go:1622-1689 | the survivors are, in order, exactly the keys that are not auto-disabled, each with all that is shown of it |
| `MultiKey.DeleteDisabledExact` | controller/channel.go:1622-1689 | the action leaves exactly the survivors iff there is one; otherwise all keys stay and become enabled |
| `MultiKey.FreshMeaning` | controller/channel.go:928-950 | the new keys are distinct, non-blank, not known before, and every appended line is known afterwards |
| `MultiKey.ReportHits` | model/channel.go:573-609 | the marked slot is the reported key's first one iff the key is present, and the first slot otherwise |
| `MultiKey.ActKeys` | controller/channel.go:1386-1689 | no action reorders or replaces a key |
| `MultiKey.RunKeepsOrder` | controller/channel.go:1242-1689 | over every serial run of actions the keys are the initial and appended ones in order with some left out |
| `MultiKey.RunKeepsSlots` | controller/channel.go:1542-1689 | over every serial run of deletions and additions that leaves a key, each remaining key keeps the status, time and reason it came with, in order, under all re-indexing |
| `MultiKey.ActAt` | controller/channel.go:1386-1689 | one action seen from one slot: where it goes, and that what is shown of it changes only if it is addressed |
| `MultiKey.LastActionDecides` | controller/channel.go:1242-1689 | over every serial run of any actions what is shown of a remaining key is what the last action addressed to it set, under all re-indexing |
| `MultiKey.UnaddressedStays` | controller/channel.go:1542-1689 | in a serial run, while no action addresses it, what is shown of a key stays |
| `MultiKey.FollowKeepsOrder` | controller/channel.go:1542-1689 | in a serial run two keys never change places |
| `MultiKey.GetKeyStatus` | controller/channel.go:1272-1384 | the page shown, the clamped page number and the counts over all keys |
| `MultiKey.PagesCover` | controller/channel.go:1347-1368 | reading every page in turn shows every row exactly once, in order |
| `RateLimiter.InMemoryRateLimiter.Request` | common/rate-limit.go:45-70 | the answer and the new queue; a refusal changes nothing |
| `RateLimiter.InMemoryRateLimiter.Sweep` | common/rate-limit.go:28-42 | exactly the keys idle for longer than the retention time are deleted |
| `RateLimiter.AnswerIsRight` | common/rate-limit.go:45-70 | a queue that tracks the history answers as the history does |
| `RateLimiter.ExecTracks` | common/rate-limit.go:28-70 | every run of requests and sweeps keeps every queue tracking its history |
| `RateLimiter.RefinesHistory` | common/rate-limit.go:28-70 | a request is accepted iff fewer than the limit were accepted in the last `duration` seconds, with sweeps anywhere |
| `RateLimiter.NoOverfullWindow` | common/rate-limit.go:28-70 | no window of that length in any run holds more accepted requests than the limit |
| `RateLimiter.ShortRetentionBreaks` | common/rate-limit.go:28-42 | for every longer window a burst, a sweep and a request give an answer the history forbids |
| `RateLimiter.AgreesIffRetained` | common/constants.go:168-169 | the limiter agrees with the history in all runs iff the window is within the retention time, to the second |
| `BodyStorage.MemoryStorage.Read` | common/body_storage.go:47-54 | the next bytes, io.EOF at the end even for an empty buffer, or the closed error |
| `BodyStorage.MemoryStorage.Seek` | common/body_storage.go:56-63 | the new position from start, current or end; a negative target fails and moves nothing |
| `BodyStorage.DiskStorage.Read` | common/body_storage.go:169-176 | the next bytes up to one gibibyte, io.EOF at the end except for an empty buffer, or the closed error |
| `BodyStorage.DiskStorage.Bytes` | common/body_storage.go:198-230 | the seeks and the read loop return the whole file and restore the position; a file shorter than recorded fails |
| `BodyStorage.DiskStorage.Close` | common/body_storage.go:187-196 | closing is idempotent and loses nothing but access |
| `BodyStorage.ContentsStay` | common/body_storage.go:47-81 | no request changes contents or size, Bytes moves nothing and returns everything, closed stays closed |
| `BodyStorage.StepsAgree` | common/body_storage.go:169-238 | one request gets the same reply from both storages iff it is not one of the two differing reads |
| `BodyStorage.RunsAgree` | common/body_storage.go:47-238 | over every run the replies are the same iff no differing read is met |
| `BodyStorage.OrdinaryRunsAgree` | common/body_storage.go:47-238 | with buffers of 1 byte to 1 GiB memory and disk cannot be told apart |
| `BodyStorage.ReadsDeliver` | common/body_storage.go:13-23 | with any buffer sizes the bytes read are a prefix of what is left, and all of it once the end is reported |
| `RequestBody.RequestContext.GetRequestBody` | common/gin.go:36-83 | rewind the stored body, or store the older cached one, or drain, limit and store the incoming one |
| `RequestBody.RequestContext.CreateFromReader` | common/body_storage.go:262-303 | which storage a body of this length gets, and the errors for one that is too long, unreadable or cannot be written |
| `RequestBody.RequestContext.CleanupBodyStorage` | common/gin.go:99-106 | the storage is dropped and nothing else changes |
| `RequestBody.EveryAttemptSeesTheBody` | controller/relay.go:205-225 | once answered, every later call before close or cleanup is answered with the identical storage at position 0, and reading it to the end gives each attempt the same bytes |
| `RequestBody.ClosedStaysClosed` | common/gin.go:36-45 | a closed storage that was not dropped is never answered again |
| `RequestBody.FirstAnswer` | common/gin.go:60-82 | the first answer is the whole body iff it is complete, within the limit and can be written, on disk iff it is large enough and fits; the too-large answer iff it is too long |
| `RequestBody.OnlyTheBody` | common/gin.go:36-106 | in every run, cleanups included, no answer holds anything but the incoming body, or nothing once a call found the drained reader ending cleanly |
| `RequestBody.RequestContext.AttachBody` | common/gin.go:131-135 | the storage takes the place of the request's body |
| `RequestBody.AttachedBodyIsGone` | common/gin.go:99-106 | after an attempt on an attached body, cleanup is final: no later call of any run is answered |
| `RequestBody.RefusedForGood` | controller/relay.go:215-224 | in every run a body that is too long or breaks off is refused throughout iff every call after the first finds the drained reader failing or no file to write to |
| `DiskCache.CountersExact` | common/disk_cache_config.go:108-134 | in every state of every interleaving of creations and closes the four counters are the sums over the storages, so the clamps to zero never fire |
| `DiskCache.CountersMeasureOpenStorages` | common/body_storage.go:37-45 | whenever nothing is in progress the counts are the numbers of open storages and the usages the sums of their sizes |
| `DiskCache.CreateConserves` | common/body_storage.go:100-130 | creation, with its fallback to memory, keeps the counters exact |
| `DiskCache.CloseConserves` | common/body_storage.go:187-196 | closing, of which only the first has an effect, keeps the counters exact |
| `DiskCache.AdmissionBound` | common/disk_cache_config.go:169-177 | an admission with k creators in flight leaves at most the limit plus (k - 1) bodies |
| `DiskCache.OvershootBounded` | common/body_storage.go:241-303 | recorded usage plus admitted bytes never exceeds max + (k - 1) * bound, plus the most by which a body admitted by its declared length outgrows that length |
| `DiskCache.OvershootAttained` | common/body_storage.go:241-259 | for every k and every body size above the threshold, a limit filled up to one body by bodies of at most that size is overshot by exactly (k - 1) bodies in an interleaving that satisfies the assumptions of the bound throughout |
| `OggOpus.OpusDuration` | common/audio.go:196-254 | the loop ends on every byte string and computes the walk, over 48000 |
| `OggOpus.SumTable` | common/audio.go:241-245 | the page size is the sum of the segment table |
| `OggOpus.Int64RoundTrip` | common/audio.go:228-229 | reading the little-endian granule field gives back every int64, negative ones included |
| `OggOpus.SkipJunk` | common/audio.go:219-226 | bytes that never spell the capture pattern are skipped one at a time without effect |
| `OggOpus.WalkFindsAll` | common/audio.go:207-249 | the walk visits every page and keeps the largest granule position |
| `OggOpus.DurationOfStream` | common/audio.go:196-254 | for any well-formed pages with anything harmless between them the result is the maximum of 0 and all granule positions; the marker -1 of section 6 of RFC 3533 never counts |
| `TaskRelay.Billing.PreConsume` | service/billing_session.go:198-241 | wallet and token after a pre-charge, and after a failed one with and without a successful rollback |
| `TaskRelay.Billing.Settle` | service/billing_session.go:43-81 | the difference is charged once, whatever was settled before |
| `TaskRelay.Billing.Refund` | service/billing_session.go:129-185 | the pre-charge is given back at most once and never after a settlement |
| `TaskRelay.SelectAuto` | service/channel_select.go:89-154 | the first group from the cursor on that has a channel at the right priority, and the cursor for the next retry |
| `TaskRelay.SelectionCosts` | service/channel_select.go:33-154 | every selection uses up at least one of the submissions still possible |
| `TaskRelay.Choose` | controller/relay.go:302-339 | the channel and cursor chosen: the one chosen beforehand, the locked one, or the selection |
| `TaskRelay.ChoiceCosts` | controller/relay.go:554-573 | every choice lowers the number of submissions still possible |
| `TaskRelay.Submit` | relay/relay_task.go:146-260 | billing happens once, on the first attempt that gets that far, and the answer is the one of the stage that failed |
| `TaskRelay.RetryIff` | controller/relay.go:660-700 | another attempt is made iff retries are left and the error is of a class worth one |
| `TaskRelay.Attempt` | controller/relay.go:554-602 | one iteration: no submission, a last one, or one to be retried with the next cursor |
| `TaskRelay.SubmitUntilDone` | controller/relay.go:554-602 | the loop makes exactly the submissions of the specification, with nothing settled or refunded yet |
| `TaskRelay.SubmissionsMeaning` | controller/relay.go:554-602 | the bound on the submissions, at most one without retries, and every one but the last rejected with an error worth a retry, so none after a success |
| `TaskRelay.RetryBoundIff` | controller/relay.go:539-602 | at most RetryTimes + 1 submissions in every world iff not in "auto", or fewer than two groups left, or no retries, or a named channel |
| `TaskRelay.TwoGroupsExceed` | service/channel_select.go:119-130 | a group that loses its channel resets the counter, with and without retries across groups |
| `TaskRelay.AutoReachesBound` | service/channel_select.go:89-154 | with retries across groups every group can get its full round, so the bound is reached |
| `TaskRelay.Relay` | controller/relay.go:539-615 | the submissions of the specification; settled iff the last was accepted; exactly one of settle and refund; the wallet and token pay exactly the quota or nothing |
| `TaskRelay.Finish` | service/billing.go:34-78 | settlement or refund from any pending session |
| `Verification.Codes.Register` | common/verification.go:35-45 | the entry is set, and an overfull map keeps live entries only |
| `Verification.Codes.RemoveExpiredPairs` | common/verification.go:65-72 | the sweep, in any order, removes exactly the expired entries |
| `Verification.Codes.Verify` | common/verification.go:47-56 | accepted iff the entry is live and its code equal |
| `Verification.Codes.DeleteKey` | common/verification.go:58-62 | exactly that entry is removed |
| `Verification.RunTracks` | common/verification.go:35-72 | every run keeps the map in step with the history of registrations and deletions |
| `Verification.LatestWins` | common/verification.go:35-72 | a code is accepted iff it is that of the latest undeleted registration, made less than ten minutes ago; eviction never changes an answer |
| `Verification.PurposesApart` | common/verification.go:16-19 | an answer depends only on the calls for its own purpose |
| `Verification.LongerPurposeInterferes` | common/verification.go:38-38 | a purpose that starts with another lets its codes pass for the shorter one |
| `Verification.PurposesIff` | common/verification.go:35-72 | for any set of purposes every answer in every run is right iff no purpose starts with another |
| `TopUpAmount.QuotientMeaning` | controller/topup.go:230-235 | the recorded units are the whole units in the request plus half the last decimal place |
| `TopUpAmount.WholeUnits` | controller/topup.go:364-366 | for whole tokens per unit Q: recorded at least the minimum, credited c with a - Q < c <= a, c a multiple of Q, equal to a iff a is one |
| `TopUpAmount.CreditBounds` | controller/topup.go:364-366 | for any Q: never more than requested, short by less than a unit and a token |
| `TopUpAmount.MinimumHonoured` | controller/topup.go:168-188 | every accepted request records at least the minimum iff the part of a token cut off the minimum is hidden by the rounding |
| `TopUpAmount.FractionalUnitMissesMinimum` | controller/topup.go:168-188 | a concrete request below the minimum that passes |

## Left out

- HTTP handling, JSON decoding and binding, sessions, logging, Redis and every upstream client: their results are parameters of the model.
- Payment signatures, OAuth, passkeys, redirect validation and other security checks.
- Subscription payments, and the pay amount (`getPayMoney`), which only refuses more requests.
- Floating point: prices and ratios are reals. Integer overflow: integers are unbounded, except the granule field of an Ogg page.
- In `OrderLock.dfy` the amount credited is not modelled (see `TopUpAmount.dfy`), and a read of an order is one atomic step. Two transactions that both read before either writes both commit, as under read committed isolation.
- In `PriceSync.dfy` every numeric JSON kind is one number, and decoding of a table is assumed done.
- The Qiniu converter and the endpoint checks of controller/ratio_sync.go: one more converter of the same shape.
- `regexp.MatchString` is an arbitrary relation between pattern and name; fetching and notification of upstream updates.
- JSON-array and Vertex keys, and the line-joined form of a key list: keys are non-blank lines.
- `GetNextEnabledKey`, the selection of a key; that it stores the channel info it loaded is an operation of `MultiKeyRows.dfy` and `ChannelRows.dfy`, without the polling position itself.
- In `MultiKeyRows.dfy`, `UpstreamRows.dfy` and `ChannelRows.dfy` a load and a store are atomic, and an apply of everything is one operation per channel, a bulk check one or, with its key selection, two. In `ChannelRows.dfy` an append comes from a request that carries the keys only, not other columns of the form.
- Replacing the keys is a single step and no action of the runs and schedules, which start from what it leaves valid. Other writers of a channel row (the rest of the edit form, edits by tag, balance and response time) are not modelled.
- MultiKey.Channel.AppendKeys: does not follow a blank key once it is stored: a blank line between keys, or the only line of a column of blank lines, is kept as a key, and that a later store drops it when it comes to stand at an end of the joined column is not captured.
- The Redis rate limiter; the in-memory one is modelled with one limit per key.
- BodyStorage.DiskStorage.Seek: whence values other than the three of io.Seeker, on which a file and a byte reader differ by platform.
- BodyStorage.MemoryStorage.Bytes: returns a value, so a caller writing into the returned slice is not captured.
- RequestBody.RequestContext.GetRequestBody: a storage is held by value, so a caller that keeps the storage past cleanup is not captured.
- RequestBody.RefusedForGood: a drained and closed reader gives no further bytes; what it answers is free at every call.
- `CleanupOldDiskCacheFiles`, `SyncDiskCacheStats` and `ResetDiskCacheUsage`, which rewrite the counters from outside the protocol; the hit statistics.
- The other audio formats of common/audio.go, which rely on libraries.
- Subscription funding and token-mode billing of the billing session; the refund runs at once instead of in the background.
- TaskRelay.Billing.PreConsume: one session per request, as the relay opens it, so it assumes none is open.
- Verification.LatestWins: assumes one clock that never goes back.
- TopUpAmount.WholeUnits: assumes fewer than 2 * 10^16 tokens per unit, below which sixteen decimal places are exact enough.
