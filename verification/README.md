# Signal K server: source selection, its indexes, its configuration and its delivery

Signal K server merges readings from many sources into one stream. This project models the parts of it that decide which
source wins on each path, that keep indexes and configuration consistent with that decision, and that deliver the result
under load, and proves what they promise over every input and every run.

- **Priority engine** (`DeltaPriority`, `PriorityRuns`, `PassedPaths`, `PrioritySafety`, `FallbackPromise`,
  `TimeoutSettings`, `Dormancy`, `GroupClaims`, `CanNames`): the timed automaton over (path, source, time) of
  `getToPreferredDelta`, as a class that filters delta objects in place and is proved to compute the functions the theorems
  are about. Time is an integer parameter, `canonicalise` a fixed pure function.
- **Source-reference migration** (`SourceRefMigration`): the in-place rewrite of the settings, and a two-run theorem that
  the engine decides as before up to the new name.
- **Delta cache** (`DeltaCacheTrie`, `LivePreferred`, `PreferredFlow`, `ContextSweep`, `SourceRemoval`): the nested cache tree
  against a flat last-write map, the debounced stream of winners against the client that merges it and against the engine
  that decides them, and the two cleanups that touch both.
- **Reconciled groups** (`CacheWalk`, `ReconciledGroups`, `ReconciledTheorems`, `CardContents`, `UnionFind`, `StringOrder`,
  `SaveValidator`): the walk over the cache, the group cards of the admin view and what is on them, the union-find behind the
  residue cards, and the validator that guards the save.
- **Persistence** (`SettingsPersistence`): the two-file split and the write queue under failures and crashes.
- **Delivery** (`LatestValues`, `Backpressure`, `RootFlattening`, `DeltaChain`) and the smaller cores `LoginRateLimiter` and
  `Staleness`.

Each stateful component is a class whose methods state their whole new state by a function of the old one; the theorems are
about runs of those functions. Composite string keys are tuples here: the `\0`, `:` and `+` separators of the code are
taken not to occur inside the parts they separate.

## Findings

Where the code and its own comments or documentation disagree, the model follows the code and a lemma gives the exact
condition under which both agree.

- `docs/setup/source-priority.md` (lines 29-37) says a rank waits its *Fallback after* time against whichever source is
  winning. Two inputs break it. With times none, 15 s and 5 s the third source takes over after 5 s and the second displaces
  it at once (`TimeoutSettings.ShorterThirdLetsSecondIn`). With an unknown-source timeout shorter than the fallback, as in the
  defaults (10 s against 15 s), an unlisted source takes over first (`TimeoutSettings.DefaultsKeepNeitherPromise`). For any
  override or group the promise holds in every run exactly when the times of the live sources below the best never decrease
  with rank, and unlisted sources are disabled, absent or take over no earlier than any of them may
  (`FallbackPromise.BackupsWaitExactlyWhen`, spelled out for settings in `TimeoutSettings.GroupBackupsWaitExactlyWhen` and
  `TimeoutSettings.OverrideBackupsWaitExactlyWhen`). The bound that holds always is the least hold below the incumbent
  (`PrioritySafety.HoldBound`).
- The same document (lines 31-39) grants an immediate return to the preferred source only; the code grants it to every rank
  over a worse or unlisted winner. The two agree in every run exactly when there is at most one live backup and no unlisted
  source that could win (`FallbackPromise.FollowsDocumentExactlyWhen`).
- The same document (line 74) holds an unlisted source back until every listed one has been silent for a safety window. The
  code only asks the winner to be silent: a backup that publishes but is turned away holds nobody back. A window is kept in
  every run exactly when unlisted sources are disabled or absent, or it fits between each live source's timeout and the
  unknown-source timeout (`FallbackPromise.StrangersWaitExactlyWhen`); with the defaults not even a window of zero is.
- `src/deltaPriority.ts:123-125` says an active claim wins when a source is listed by an active and an inactive group; the
  loop lets the last listing win (`Dormancy.DormancyAsDocumentedExactlyWhen`, and override by override
  `Dormancy.OverrideDormancyAsDocumentedExactlyWhen`).
- `src/deltaPriority.ts:319-325` says every delta on a claimed path is judged by the claiming group. A member of another
  active group is judged by its own group (`GroupClaims.ClaimJudgesEveryoneExactlyWhen`).
- The save validator compares references where the engine compares devices: one device listed under two references in two
  active groups is accepted, and the first group takes both (`GroupClaims.ValidatorSeesDevicesExactlyWhen`,
  `GroupClaims.AliasSlipsThrough`). A bare CAN Name is the one reference without a name suffix that is not matched exactly
  (`CanNames.SameDeviceExactlyWhen`).
- A migration whose two references sit in different active groups leaves the new one in both, which the save validator then
  refuses (`SourceRefMigration.DisjointnessKeptExactlyWhen`); a group that lists the old reference twice keeps one copy
  (`SourceRefMigration.GroupsForgetOldRefExactlyWhen`).
- Settings that carry a legacy priority key do not survive a save and reload; loading drops such keys, so only a caller that
  adds one meets this (`SettingsPersistence.SplitLoadRoundTripExactlyWhen`).
- A sweep of silent contexts is meant to leave what deleting them one by one leaves (`src/deltacache.ts:902-907`). Dropping
  a context throws when its type has no branch in the cache, which is so for a type that has only had meta updates
  (`src/deltacache.ts:692-694`); the server logs the exception and goes on. Winners of contexts dropped before that stay
  (`ContextSweep.BatchedSweepIsOneByOneExactlyWhen`, `ContextSweep.MetaUpdateStrandsWinner`), no later sweep drops any until
  the context that threw is heard again or its type gets a value (`ContextSweep.NoLaterSweepDropsWinners`), and those left
  behind stay even then, because their modification times are gone (`ContextSweep.StrandedForGood`).
- Every live delta is ingested before the engine passes its values on (`src/index.ts:339-344`), and an ingest records a winner
  without marking it. On a path with an override the first winner is therefore not announced to connected clients until the
  winner changes (`PreferredFlow.OverrideWinnerUnannounced`). On a group's path a lone publisher's record is withdrawn, so a
  backup that the engine withholds is recorded in its place, and a takeover by that backup goes unannounced
  (`PreferredFlow.WithheldBackupIsRecorded`, `PreferredFlow.TakeoverUnannounced`). The exact conditions are
  `PreferredFlow.WinnerIsLastDeliveredExactlyWhen` and `PreferredFlow.UnknownExactlyWhen`.
- The memo of split paths and the branches of the cache are plain objects, and lookups find what every object inherits. A
  value on a path such as `constructor`, in a context seen before, is stored under the key `undefined` or at the root of the
  cache instead of being refused (`DeltaCacheTrie.MisfiledExactlyWhen`, `DeltaCacheTrie.InheritedPathIsMisfiled`); a value with
  a segment such as `toString` leaves the cache for a shared object and is lost to it (`DeltaCacheTrie.FindStore`).
- A removed source keeps winning a key when the first source left there is itself under another reference
  (`SourceRemoval.RemovedStillWinsExactlyWhen`).
- The walk behind the reconciled groups turns back at the first cached delta of a node, so the publishers of a path below it
  are missed when the upper path was cached first (`CacheWalk.WalkIsCacheExactlyWhen`, `CacheWalk.ArrivalOrderHides`).
- A delta without values that meets a full buffer starts a backpressure phase that no drain ends, however empty the buffer,
  until a value is sent (`Backpressure.ValuelessPhaseStartsExactlyWhen`, `Backpressure.MetaUpdateSticks`). A drain that finds
  the buffer low ends a phase exactly when the phase has seen a delta with values (`Backpressure.DrainEndsPhaseExactlyWhen`).
- A handler that changes the delta and then throws before `next` is not isolated: the chain resubmits the changed delta
  (`DeltaChain.BrokenHandlerIsTransparentExactlyWhen`). The undo of a function registered twice takes out its first
  registration (`DeltaChain.UndoRestoresExactlyWhen`).
- The login limiter lets at most `2 * max - 1` checks through in any window's length, and that many in some run
  (`LoginRateLimiter.SlidingWindowBound`, `LoginRateLimiter.SlidingWindowBoundIsExact`).
- In `getReconciledGroups` the "all-time" publishers of a path are its live ones: both views come from the same walk.

## Model

| member | source | states |
|---|---|---|
| CanNames.HexNumbersDetermineDigits | src/deltaPriority.ts:55-65 | two hex strings of one length are the same number exactly when they agree up to letter case |
| CanNames.SameDeviceExactlyWhen | src/deltaPriority.ts:141-153 | two references are one device exactly when both carry one CAN Name, or neither carries one and they are equal, or one is the bare lower-case name the other carries |
| CanNames.BareNameIsDevice | src/deltaPriority.ts:62-65 | the exception to exact match: a bare sixteen-digit name stands for every reference that ends in it |
| CanNames.CarriesNameExactlyWhen | src/deltaPriority.ts:55-65 | a reference carries a CAN Name iff it ends in a dot and sixteen hex digits of either case |
| DeltaPriority.BuildOverridePrecedences | src/deltaPriority.ts:180-196 | the loop builds the ranking of an override, last entry of an identity winning |
| DeltaPriority.BuildGroupPrecedences | src/deltaPriority.ts:198-227 | the loops build the owner of each source and the ranking of each active group |
| DeltaPriority.CollectListings | src/deltaPriority.ts:113-129 | the two sets hold every listed identity and those whose last listing is inactive |
| DeltaPriority.IsOverrideDormantUnderGroups | src/deltaPriority.ts:103-139 | answers true exactly when every named entry of a real override is inactive by its last listing |
| DeltaPriority.BuildTables | src/deltaPriority.ts:293-317 | dormant overrides are dropped, fan-out paths collected and the rankings compiled |
| DeltaPriority.SeedPath | src/deltaPriority.ts:346-361 | a seed list gives its distinct identities in order, and, from two on, the first group that owns one of them |
| DeltaPriority.SeedPublishers | src/deltaPriority.ts:342-364 | every seeded path gets its publishers and its claim |
| DeltaPriority.StripExcluded | src/deltaPriority.ts:590-599 | exactly the updates of excluded sources lose their values, in place |
| DeltaPriority.PriorityEngine.constructor | src/deltaPriority.ts:271-366 | a new engine holds the compiled tables and the seeded state |
| DeltaPriority.PriorityEngine.ResolvePrecedences | src/deltaPriority.ts:422-452 | records the publisher, claims an unclaimed path, and returns the ranking that judges the source |
| DeltaPriority.PriorityEngine.OfferValue | src/deltaPriority.ts:612-657 | one value is delivered or withheld, and the winner recorded, as the single-value automaton says |
| DeltaPriority.PriorityEngine.OfferUpdate | src/deltaPriority.ts:602-661 | an update keeps exactly the values delivered, in order |
| DeltaPriority.PriorityEngine.OfferAll | src/deltaPriority.ts:600-663 | the updates of a delta are filtered one after the other |
| DeltaPriority.PriorityEngine.ToPreferredDelta | src/deltaPriority.ts:585-665 | the caller's delta is filtered in place, value by value; the pass-through engine changes nothing |
| DeltaPriority.PriorityEngine.GetMaxFailoverTimeoutMs | src/deltaPriority.ts:575-583 | the largest timeout of the ranking that governs the path, 0 without one |
| DeltaPriority.MaxTimeoutOf | src/deltaPriority.ts:568-574 | the loop finds the largest positive timeout |
| DeltaPriority.MaxTimeoutExists | src/deltaPriority.ts:568-574 | every ranking has such a maximum |
| PriorityRuns.DeltaRunIsValueRun | src/deltaPriority.ts:585-665 | a run over multi-value deltas reaches the state, and delivers the values, of the run over its values one by one |
| PriorityRuns.DeltaOnlyThinned | src/deltaPriority.ts:585-665 | a delta keeps its context, updates, sources, timestamps and meta updates, and the order of the values that stay; other contexts lose excluded values only |
| PriorityRuns.SliceOfStep | src/deltaPriority.ts:326-398 | a value moves only the state of its own path, and moves it as that path's automaton does |
| PriorityRuns.Projection | src/deltaPriority.ts:326-398 | for any run, the values delivered on a path are those the path's own automaton delivers on that path's values alone |
| PriorityRuns.ProjectionOfDeltas | src/deltaPriority.ts:585-665 | on whole deltas, deleting every value of every other path changes neither what the path delivers nor its state |
| PriorityRuns.ExclusionIsDeletionOfValues | src/deltaPriority.ts:40-52 | for any run, excluding sources equals deleting their values from the run, in state and deliveries |
| PriorityRuns.ExclusionIsDeletionOfDeltas | src/deltaPriority.ts:586-599 | the same on whole deltas of every context: same state, every output delta equal |
| PriorityRuns.ExclusionIsDeletion | src/deltaPriority.ts:586-599 | engine for engine, pass-through shortcut included: with excludes the outputs are, delta for delta and in every context, those without them on the run with the excluded values deleted; the same paths are routed |
| PriorityRuns.NothingRanked | src/deltaPriority.ts:282-291 | with no overrides, active groups and excludes the full engine delivers every value and claims nothing |
| PriorityRuns.NothingRankedPassesThrough | src/deltaPriority.ts:282-291 | and hands every delta back as it came, as the shortcut does |
| PriorityRuns.PassthroughRoutesNothing | src/deltaPriority.ts:282-291 | where only excludes keep the shortcut off, the engine passes on exactly what is not excluded and claims nothing |
| PriorityRuns.LivePath | src/deltaPriority.ts:426-444 | after any run a path's claim and publishers are those of its publishers in first-appearance order |
| PriorityRuns.SeedingEqualsReplay | src/deltaPriority.ts:335-364 | an engine seeded with a path's publishers routes it, knows its publishers and (from two on) claims it like one that saw them live |
| PriorityRuns.RoutingIsMonotone | src/deltaPriority.ts:440-444 | within a run a claim never changes and a routed path stays routed |
| PriorityRuns.SeedClaimsExactlyWhen | src/deltaPriority.ts:346-361 | the seed claims a path iff it lists two different identities of which one has a group, for the group of the first that has one |
| PassedPaths.NotificationIsFirstSegment | src/deltaPriority.ts:617-621 | a path is a notification iff its first segment is `notifications` |
| PassedPaths.PassedOverExactlyWhen | src/deltaPriority.ts:617-628 | under any configuration the cascade passes over a path iff its first segment is `notifications` or what is saved for it is the single entry `*` |
| PassedPaths.PassedPathsAreUntouched | docs/setup/source-priority.md:78 | in any run of deltas such a path puts out exactly the values that came in, in order, less those of excluded sources |
| PassedPaths.AlarmsAreDelivered | docs/setup/source-priority.md:78 | an alarm of a source that is not excluded is delivered in every state, and changes none |
| PassedPaths.OtherPathsAreJudged | src/deltaPriority.ts:629-657 | on every other path the publisher is recorded, an unclaimed path is claimed for its group, and a governed value is delivered iff preferred over the recorded winner, which it then replaces |
| PrioritySafety.Judges | src/deltaPriority.ts:422-452 | on a path with one override, or with one group's members, that ranking judges every value |
| PrioritySafety.JudgedStep | src/deltaPriority.ts:639-656 | on a judged path a value is delivered iff it is preferred over the recorded winner, which it then replaces |
| PrioritySafety.StillHeld | src/deltaPriority.ts:470-533 | a hold in force, by a winner ranked well enough and heard recently enough, stays in force until the clock has moved past it by the bound |
| PrioritySafety.DeliveryHolds | src/deltaPriority.ts:639-656 | a delivery starts a hold of its rank |
| PrioritySafety.WaitsOutTheHold | src/deltaPriority.ts:510-530 | a worse source is preferred only after more than every applicable hold |
| PrioritySafety.HoldBound | src/deltaPriority.ts:470-533 | in any run, after a ranked source is delivered, every later delivery of a worse or unranked one comes more than the least hold below it later |
| PrioritySafety.TopAlwaysPreferred | src/deltaPriority.ts:482-533 | an enabled top-ranked source is never held back |
| PrioritySafety.TopSourceIsSoleWinner | docs/setup/source-priority.md:29-35 | while the enabled, not excluded top device publishes at gaps within the holds, its values are all delivered and nothing else is |
| PrioritySafety.RankedTakeover | src/deltaPriority.ts:485-530 | the rule of the code between ranked sources: preferred iff enabled and incumbent, no worse, or the incumbent silent for longer than its own timeout |
| PrioritySafety.StrangerDisplaced | src/deltaPriority.ts:490-497 | over an unranked incumbent a ranked source wins at once iff enabled, an unranked one iff it is the incumbent or waited the unknown-source timeout |
| PrioritySafety.StrangerOutwaitsWinner | src/deltaPriority.ts:515-528 | an unranked source displaces a ranked winner iff unknown sources are enabled and both timeouts have passed |
| PrioritySafety.LatestIsLastDelivered | src/deltaPriority.ts:368-398 | in any run the recorded winner of a judged path is the value delivered last |
| PrioritySafety.PreferredMayFollow | src/deltaPriority.ts:470-533 | the preference depends on the winning and the incoming value alone |
| PrioritySafety.DeliveredExactlyWhen | src/deltaPriority.ts:470-533 | in any run a value is delivered iff not excluded and the rule of the code lets it follow the value delivered last; no other state matters |
| PrioritySafety.BetterSourceWinsAtOnce | src/deltaPriority.ts:511-530 | in any run an enabled source that ranks no worse than the winner is delivered immediately, preferred or not |
| PrioritySafety.OverrideRanksDistinct | src/deltaPriority.ts:187-192 | the ranks of an override are distinct and below its length |
| PrioritySafety.GroupRanksDistinct | src/deltaPriority.ts:210-223 | the ranks of a group are distinct and below its length |
| PrioritySafety.BypassedPathDeliversAll | docs/setup/source-priority.md:78 | on a path the cascade passes over exactly the excluded sources' values are withheld |
| PrioritySafety.DisabledNeverDelivered | docs/setup/source-priority.md:66 | a source with a negative timeout is never delivered on a path its ranking judges |
| PrioritySafety.PublishingHolds | src/deltaPriority.ts:510-530 | once a listed source publishes, delivered or not, a listed source heard no more than the longest timeout before holds the path |
| PrioritySafety.StrangerBound | src/deltaPriority.ts:515-528 | in any run no unlisted source is delivered until the unknown-source timeout, less the longest ranked timeout, has passed since every listed value |
| FallbackPromise.HeldStep | src/deltaPriority.ts:511-530 | with ascending timeouts and slow strangers, whoever takes over from above a source is above it too, or comes later than it may |
| FallbackPromise.AscendingTimeoutsSuffice | src/deltaPriority.ts:511-530 | then in every run, from every state, each ranked source waits out its own timeout after every delivery of a better one |
| FallbackPromise.ShorterBackupLetsIn | src/deltaPriority.ts:511-530 | the run: a lower-ranked source with a shorter timeout takes over, and the one between displaces it in the same millisecond |
| FallbackPromise.StrangerLetsIn | src/deltaPriority.ts:490-500 | the run: an unlisted source takes over, and a backup displaces it at once |
| FallbackPromise.BackupsWaitExactlyWhen | docs/setup/source-priority.md:29-37 | for any ranking, override or group, with any excludes and canonicaliser: every ranked source waits out its own timeout after every better delivery, in every run from every state, iff below the best live source no timeout exceeds that of a lower rank, and unlisted sources are disabled, absent or no faster |
| FallbackPromise.StrangersWaitExactlyWhen | docs/setup/source-priority.md:74 | for any ranking whose best live source has no timeout, and every window: unlisted sources wait it out after every value of every enabled listed source iff they are disabled or absent, or the window plus each live timeout is at most the unknown-source timeout |
| FallbackPromise.StrangerPassesBackup | docs/setup/source-priority.md:74 | otherwise some run delivers an unlisted source within the window of a listed one that still publishes |
| FallbackPromise.FollowsDocumentExactlyWhen | docs/setup/source-priority.md:29-39 | the code delivers listed sources by the documented takeover rule, in every run from every state, iff there is at most one live backup and no enabled unlisted source beside one |
| FallbackPromise.BackupDisplacesWorse | docs/setup/source-priority.md:39 | the run: a backup returns and displaces a worse winner at once, which the document grants to the preferred source only |
| TimeoutSettings.TimeoutsOfGroups | src/deltaPriority.ts:209-223 | in every active group only the first rank has no timeout, all others the fallback |
| TimeoutSettings.GroupBackupsWaitExactlyWhen | src/deltaPriority.ts:198-227 | in any configuration, on a path without override: the backups of an active group wait out the fallback iff the unknown-source timeout is negative or at least the fallback, or there is no unlisted source, no backup or no preferred source to publish |
| TimeoutSettings.SomeUnlisted | docs/setup/source-priority.md:74 | whatever is listed, there are unlisted sources |
| TimeoutSettings.SoundGroupFacts | src/deltaPriority.ts:198-227 | a group of two or more devices of its own has a preferred source, a backup if backups are enabled, and strangers |
| TimeoutSettings.DefaultsKeepNeitherPromise | src/deltaPriority.ts:178-277 | with the default times both promises fail in every such group, the second even for a window of zero |
| TimeoutSettings.EntriesAreLive | src/deltaPriority.ts:180-196 | the live devices of an override are its enabled entries, each with its place and timeout |
| TimeoutSettings.OverrideBackupsWaitExactlyWhen | docs/setup/source-priority.md:29-37 | the entries of an override wait out their times iff the times of the enabled ones below the first never decrease, and unlisted sources are disabled or no faster than any |
| TimeoutSettings.OverrideStrangersWaitExactlyWhen | docs/setup/source-priority.md:74 | unlisted sources keep a window iff disabled, or it leaves room for every enabled time below the unknown-source timeout |
| TimeoutSettings.WorkedExample | docs/setup/source-priority.md:45-56 | the worked example (none, 15 s, 30 s) holds iff unlisted sources are disabled or take at least 30 s |
| TimeoutSettings.ShorterThirdLetsSecondIn | docs/setup/source-priority.md:29-37 | the run, with unlisted sources disabled: times none, 15 s and 5 s deliver the second source 5 s after the first |
| Dormancy.ListingsAreLast | src/deltaPriority.ts:115-129 | the table built by the loop holds the status of each identity's last listing |
| Dormancy.DormancyAsDocumentedExactlyWhen | src/deltaPriority.ts:87-139 | the code's dormancy is the documented one for every override iff no active listing is followed only by inactive ones |
| Dormancy.OverrideDormancyAsDocumentedExactlyWhen | src/deltaPriority.ts:87-139 | for one override the two agree iff some source it names is not listed last by an inactive group, or no source it names is listed by an active one |
| Dormancy.DormantOverrideIsAbsent | src/deltaPriority.ts:293-301 | a dormant override compiles to no override |
| Dormancy.DormantOverrideNeverActs | src/deltaPriority.ts:293-301 | in any run deleting a dormant override changes no output delta and no routed path |
| GroupClaims.FirstActiveGroupWins | src/deltaPriority.ts:207-218 | a source belongs to the first active group that lists its device, and to none iff no active group does |
| GroupClaims.LastEntryRanks | src/deltaPriority.ts:184-194 | an identity's last entry decides its rank and timeout in an override |
| GroupClaims.RankedExactlyMembers | src/deltaPriority.ts:209-224 | a group's ranking holds exactly its members |
| GroupClaims.RankingOfGroup | src/deltaPriority.ts:205-226 | with distinct ids each active group is compiled to its own ranking |
| GroupClaims.ValidatorSeesDevicesExactlyWhen | src/serverroutes.ts:163-182 | groups that pass the validator have no device in common iff no device is listed under two references in two active groups |
| GroupClaims.AliasSlipsThrough | src/serverroutes.ts:163-182 | one device seen through two gateways and put in two groups passes the validator, and the first group owns both references |
| GroupClaims.ClaimJudgesEveryoneExactlyWhen | src/deltaPriority.ts:319-325 | a claiming group's ranking judges every source iff no other active group has a member |
| GroupClaims.OtherMemberEscapes | src/deltaPriority.ts:437-446 | a member of another active group is judged by its own, different ranking |
| SourceRefMigration.RewriteEntries | src/sourceref-migration.ts:106-124 | rewrites or dedupes one override in place and reports whether anything changed |
| SourceRefMigration.Settings.MigrateOverridesInPlace | src/sourceref-migration.ts:102-126 | every override is rewritten, and the flag tells exactly whether one changed |
| SourceRefMigration.Settings.MigrateConflictsInPlace | src/sourceref-migration.ts:138-161 | the ignored conflicts of the old reference are renamed one by one, an entry already under the new name staying |
| SourceRefMigration.Settings.MigrateGroupsInPlace | src/sourceref-migration.ts:163-184 | every group is rewritten, and the flag tells exactly whether one changed |
| SourceRefMigration.Settings.MigrateSourceRef | src/sourceref-migration.ts:85-184 | overrides, aliases, ignored conflicts and groups are migrated, unless the old device is still on the bus; the flag tells exactly whether anything changed |
| SourceRefMigration.OverridesForgetOldRef | src/sourceref-migration.ts:103-125 | no override names the old reference, the new one stands iff either did, third sources keep their entries in order |
| SourceRefMigration.GroupsForgetOldRefExactlyWhen | src/sourceref-migration.ts:165-183 | the old reference survives in a group iff listed twice without the new one; membership of all others is kept |
| SourceRefMigration.AliasesAreMoved | src/sourceref-migration.ts:129-136 | the old reference has no alias left, the new one has one iff either had, its own first, and no third alias changes |
| SourceRefMigration.ConflictsForgetOldRef | src/sourceref-migration.ts:143-157 | no ignored conflict names the old reference, and every pair stays ignored under the new name |
| SourceRefMigration.ConflictsFollow | src/sourceref-migration.ts:138-164 | the pairs ignored afterwards are those ignored before, under their new names, and keys stay in sorted order |
| SourceRefMigration.DisjointnessKeptExactlyWhen | src/sourceref-migration.ts:163-184 | groups the save validator accepts stay acceptable iff no two active groups of different ids hold old and new reference apart |
| SourceRefMigration.TablesKept | src/sourceref-migration.ts:98-184 | under a fresh new name the compiled tables, excludes included, agree device by device before and after |
| SourceRefMigration.ExcludesKept | src/index.ts:438-446 | the exclude identities agree device by device |
| SourceRefMigration.SeededStatesAgree | src/deltaPriority.ts:342-364 | engines seeded before and after start in corresponding states |
| SourceRefMigration.RunKept | src/deltaPriority.ts:422-533 | engines with corresponding tables and states decide alike on a run and its renaming |
| SourceRefMigration.MigrationPreservesMeaning | src/sourceref-migration.ts:98-184 | a fresh engine on the migrated configuration, seeded or not, with or without excludes, delivers from the renamed run exactly the renamed deliveries of the old one |
| UnionFind.Forest.Add | src/deltacache.ts:1385-1387 | a new source is its own class |
| UnionFind.Forest.Find | src/deltacache.ts:1374-1378 | terminates and returns the root of the class |
| UnionFind.Forest.Union | src/deltacache.ts:1379-1383 | merges exactly the two classes and keeps the parent links a forest |
| UnionFind.MergeKeepsForest | src/deltacache.ts:1379-1383 | hanging one root under another keeps a forest |
| UnionFind.LinkPath | src/deltacache.ts:1384-1389 | all publishers of a path end in one class, and classes hold connected sources only |
| UnionFind.LinkAll | src/deltacache.ts:1384-1389 | the same for every residue path |
| UnionFind.MergeIsSound | src/deltacache.ts:1379-1388 | merging the classes of two publishers of one path joins connected sources only |
| UnionFind.ConnectedThrough | src/deltacache.ts:1361-1363 | chains of residue paths compose |
| UnionFind.ChainStaysInClass | src/deltacache.ts:1384-1389 | a chain of residue paths never leaves its class |
| UnionFind.CollectBuckets | src/deltacache.ts:1390-1403 | buckets hold the paths of one root and exactly their publishers |
| UnionFind.BucketsPartition | src/deltacache.ts:1394-1403 | every residue path lies in exactly one bucket, none empty |
| UnionFind.ComponentIsClass | src/deltacache.ts:1394-1403 | a bucket holds a source iff it is connected to the bucket's others |
| UnionFind.BucketsAreClasses | src/deltacache.ts:1394-1403 | two sources share a bucket iff connected, and buckets share no source |
| UnionFind.Components | src/deltacache.ts:1361-1414 | residue grouping is exactly the connected components |
| StringOrder.LessTotal | src/deltacache.ts:1348-1355 | the order of the sorts is total and strict |
| StringOrder.LessTransitive | src/deltacache.ts:1348-1355 | and transitive |
| StringOrder.InsertSorted | src/deltacache.ts:1405-1410 | inserting keeps a list strictly sorted |
| StringOrder.SortSet | src/deltacache.ts:1405-1410 | lists exactly the set, strictly increasing |
| SaveValidator.AdmitGroup | src/serverroutes.ts:168-180 | a group is admitted iff none of its sources was seen under another id |
| SaveValidator.OverlapAccepted | src/serverroutes.ts:162-182 | a payload passes iff no two active groups of different ids share a source |
| CacheWalk.WalkBranch | src/deltacache.ts:1191-1221 | the recursion lists what the walk lists, in order |
| CacheWalk.MetaIsNotWalked | src/deltacache.ts:1193 | metadata is not walked, whatever stands below it |
| CacheWalk.WalkSees | src/deltacache.ts:1191-1220 | a source is listed on a path iff the walk reaches it: no node on the way has a cached delta ahead of the turn |
| CacheWalk.FoundIsSeen | src/deltacache.ts:1191-1220 | with nothing hidden every cached source is reached |
| CacheWalk.HiddenSource | src/deltacache.ts:1196-1217 | with something hidden some cached source is not |
| CacheWalk.ListedIsCached | src/deltacache.ts:1191-1220 | the walk lists nothing that is not in the last-write map |
| CacheWalk.WalkIsCacheExactlyWhen | src/deltacache.ts:1191-1221 | the walk lists exactly the sources cached on each path iff at no node a cached delta stands ahead of a branch with cached deltas |
| CacheWalk.ArrivalOrderHides | src/deltacache.ts:1196-1217 | of two values, on a path and below it, the lower one is hidden iff the upper one arrived first |
| ReconciledGroups.BuildViews | src/deltacache.ts:1189-1221 | publishers per path, in the order of the walk, and paths per source are exactly those of the walked leaves, without notifications |
| ReconciledGroups.InvertHistory | src/deltacache.ts:1223-1233 | the inverted history says who published what |
| ReconciledGroups.ClaimMembers | src/deltacache.ts:1238-1257 | every listed source is claimed by the first active group that lists it, or else by the first inactive one |
| ReconciledGroups.ClaimPass | src/deltacache.ts:1244-1256 | one pass adds the members of active, or inactive, groups and keeps earlier claims |
| ReconciledGroups.BestGroup | src/deltacache.ts:1265-1278 | the first active group with the most live publishers |
| ReconciledGroups.CountPositive | src/deltacache.ts:1265-1270 | the groups counted are distinct and exactly those with a publisher |
| ReconciledGroups.PathOwners | src/deltacache.ts:1259-1280 | each path is owned by its best active group, if any |
| ReconciledGroups.GroupPaths | src/deltacache.ts:1304-1326 | a card lists exactly the paths of two of its members that no other active group owns |
| ReconciledGroups.HasTwo | src/deltacache.ts:1318-1323 | the count that stops at two answers whether two members published |
| ReconciledGroups.NewcomersOnPath | src/deltacache.ts:1332-1346 | adds the publishers of a path that are no members and unclaimed by others, claiming them for an active group |
| ReconciledGroups.Newcomers | src/deltacache.ts:1328-1347 | the same over all paths of the card |
| ReconciledGroups.SavedCard | src/deltacache.ts:1303-1358 | one saved group's card |
| ReconciledGroups.SavedCards | src/deltacache.ts:1302-1359 | one card for each saved group in order, and everyone attached to one |
| ReconciledGroups.ResidueCards | src/deltacache.ts:1404-1413 | one sorted card for each component |
| ReconciledGroups.ReconcileCards | src/deltacache.ts:1223-1414 | the cards of the saved groups and of the residue components, over the view of what was walked |
| ReconciledGroups.SortCards | src/deltacache.ts:1416 | the same cards in the order of their ids |
| ReconciledGroups.GetReconciledGroups | src/deltacache.ts:1169-1417 | nothing without a self branch; otherwise the cards of the saved groups and of the residue components over the walk of the branch, ordered by id |
| ReconciledGroups.JoinDetermines | src/deltacache.ts:1407 | unsaved cards of different sources have different ids |
| ReconciledTheorems.ClaimsAreExplained | src/deltacache.ts:1335-1345 | at every saved group the claims are those of members and of newcomers of earlier active groups |
| ReconciledTheorems.NewcomerFacts | src/deltacache.ts:1333-1335 | a newcomer is a member of no saved group and claimed by none |
| ReconciledTheorems.HomeOfSource | src/deltacache.ts:1338-1345 | a source on an active saved card belongs to that one group |
| ReconciledTheorems.SharedSourceSameCard | src/deltacache.ts:1291-1299 | two active cards with a common source are the same card |
| ReconciledTheorems.ReconciledViewIsSaveable | src/deltacache.ts:1291-1299 | in every reconciled view no source is on two active cards, so the save validator accepts it |
| ReconciledTheorems.PathIsOwned | src/deltacache.ts:1310-1312 | a path on an active card is owned by that card's group |
| ReconciledTheorems.EveryPathOnOneCard | src/deltacache.ts:1259-1261 | no path is on two active cards, and none on both a saved card, active or not, and a residue card |
| ReconciledTheorems.CardPublishersAttached | src/deltacache.ts:1328-1347 | every publisher of a path on a saved card is on some saved card |
| ReconciledTheorems.ResidueIsComponents | src/deltacache.ts:1361-1414 | a residue path is on one card with all its publishers, and two sources share a residue card iff a chain of residue paths links them |
| ReconciledTheorems.ViewSeesWholeCache | src/deltacache.ts:1186-1221 | when the walk misses nothing, the view is over exactly the sources cached on each path, by canonical name |
| CardContents.UnsavedConflictsAreOffered | src/deltacache.ts:1361-1413 | a path is on an unsaved card, together with all its publishers, iff two different sources publish it and none of its publishers is on a saved group's card |
| CardContents.SavedCardsAreRight | src/deltacache.ts:1259-1358 | every saved group has its card: members then newcomers; a path iff two members publish it and, for an active group, none has more members on it, nor as many and the first to publish; a newcomer iff it publishes a path of the card, no group lists it and no active group before took it |
| CardContents.OwnerHasMost | src/deltacache.ts:1262-1280 | the owner of a path outranks every other active group: more members publish it, or as many and the first |
| CardContents.ContestedInGroupIsListed | src/deltacache.ts:1303-1326 | a path that two members of an active group publish is on the card of some active group |
| DeltaCacheTrie.JoinSplit | src/deltacache.ts:231-234 | joining the parts of a path restores it |
| DeltaCacheTrie.PartsDetermine | src/deltacache.ts:231-234 | with two-part contexts and non-empty paths the key path determines context, path and source |
| DeltaCacheTrie.LookupIsSplitExactlyWhen | src/deltacache.ts:222-229 | the memo answers with the split iff the path is no name that every object inherits, or its context is not in the memo, or the path was asked before |
| DeltaCacheTrie.MemoStaysRight | src/deltacache.ts:235-247 | after any run every remembered split is the split |
| DeltaCacheTrie.DeltaCache.GetContextAndPathParts | src/deltacache.ts:221-248 | answers what the memo answers, something inherited included, and remembers the split unless a segment is forbidden |
| DeltaCacheTrie.DeltaCache.ForgetSplits | src/deltacache.ts:207-212 | the periodic reset empties the memo and touches nothing else |
| DeltaCacheTrie.DeltaCache.Ingest | src/deltacache.ts:628-651 | one value is stored at the end of the key path the memo answers |
| DeltaCacheTrie.DeltaCache.RemoveSource | src/deltacache.ts:487-500 | the source's cached deltas go |
| DeltaCacheTrie.DeltaCache.DeleteContextEntries | src/deltacache.ts:851-859 | the context's branch and splits go, and the call throws, changing nothing, iff the cache has no branch for the type and no object inherits one |
| DeltaCacheTrie.FindStore | src/deltacache.ts:1673-1700 | storing changes the lookup at its own key path only, and none when a segment is forbidden or inherited by every object |
| DeltaCacheTrie.FindEvict | src/deltacache.ts:488-500 | evicting changes exactly the lookups that end in the source |
| DeltaCacheTrie.FindDropContext | src/deltacache.ts:853-856 | dropping a context changes exactly the lookups below it |
| DeltaCacheTrie.TrieAgreesWithFlatMap | src/deltacache.ts:607-651 | after any run in which the memo answers right the tree holds exactly the flat map's last writes |
| DeltaCacheTrie.MisfiledExactlyWhen | src/deltacache.ts:222-229 | after such a run a value on an inherited name is refused, and the agreement kept, iff its context is not in the memo or the path was asked before; otherwise it is stored outside its context |
| DeltaCacheTrie.InheritedPathIsMisfiled | src/deltacache.ts:222-229 | the input: any value of a context, then one on a path such as `constructor`, which is stored under the key `undefined` |
| DeltaCacheTrie.ConstructorIsMisfiled | src/deltacache.ts:222-229 | the input by name: a value on `constructor` is found under `undefined` |
| DeltaCacheTrie.ToStringIsLost | src/deltacache.ts:1690-1698 | the input by name: a value on `toString` is nowhere in the cache |
| DeltaCacheTrie.KeptExactlyWhen | src/deltacache.ts:1681-1699 | a value is found at its own key path iff no segment is `__proto__`, `constructor`, `prototype` or another name every object inherits |
| DeltaCacheTrie.RememberedExactlyWhen | src/deltacache.ts:235-247 | a split is remembered unless a segment is forbidden or something inherited was answered, and none is forgotten |
| DeltaCacheTrie.DropThrowsExactlyWhen | src/deltacache.ts:853-856 | dropping throws iff a two-part context's type has neither a branch nor an inherited value |
| DeltaCacheTrie.ScanIsComplete | src/deltacache.ts:1629-1662 | a scan meets every stored message once, each at its own key path |
| DeltaCacheTrie.ContextScanIsLastWrites | src/deltacache.ts:1629-1662 | after any such run scanning a context yields one message per (path, source), the last since that source or context was removed |
| LivePreferred.PreferredSources.Schedule | src/deltacache.ts:342-343 | arms the timer |
| LivePreferred.PreferredSources.Value | src/deltacache.ts:302-319 | a routed value updates the winner and marks real changes, an unrouted one drops the winner |
| LivePreferred.PreferredSources.Ingest | src/deltacache.ts:657-663 | an ingested value only fills a gap, and marks nothing |
| LivePreferred.PreferredSources.Remove | src/deltacache.ts:520-544 | every key won by the source goes to the given replacement or loses its winner, and is marked |
| LivePreferred.PreferredSources.Drop | src/deltacache.ts:473-484 | the given keys lose their winner and are marked |
| LivePreferred.PreferredSources.SetRoutesPathPredicate | src/deltacache.ts:464-485 | exactly the winners the new predicate does not route are dropped |
| LivePreferred.PreferredSources.PruneContexts | src/deltacache.ts:872-889 | exactly the winners of the given contexts are dropped |
| LivePreferred.PreferredSources.Emit | src/deltacache.ts:347-367 | sends the winner or a tombstone of every marked key, and clears marks and timer |
| LivePreferred.StepKeepsCoherent | src/deltacache.ts:342-368 | every step keeps: the timer is armed iff something is marked, and a winner shown and unmarked is the server's |
| LivePreferred.AlwaysCoherent | src/deltacache.ts:342-368 | so in every reachable state of server and client |
| LivePreferred.LacksExactlyWhen | src/deltacache.ts:657-663 | with no change pending a client lacks a winner iff an ingest filled it silently and nothing has told the client since |
| LivePreferred.NoStaleWinnerAfterEmit | src/deltacache.ts:351-356 | right after an emit whatever a client shows is the server's winner, and what it lacks are exactly the silently filled keys |
| LivePreferred.FirstWinnerUnannounced | src/deltacache.ts:657-663 | a winner filled in by an ingest and then confirmed by routed values of its own only is never announced to a connected client |
| LivePreferred.CleanupsAreComplete | src/deltacache.ts:464-485 | after a new predicate or a prune exactly the winners that should stay are left |
| LivePreferred.RemovedStillWinsExactlyWhen | src/deltacache.ts:520-541 | after a removal the source still wins exactly the keys whose replacement is itself under another name |
| LivePreferred.PruneTwice | src/deltacache.ts:872-889 | pruning in two goes is pruning at once |
| PreferredFlow.DeltaAt | src/index.ts:339-350 | what one delta makes of a path's record: filled by the first value ingested, then, if a value is let through, the last one's source when the engine routes the path and nothing when not |
| PreferredFlow.RecordedWinnerIs | src/deltacache.ts:302-319 | after any run the recorded winner is the source delivered last if the path was routed right after that delivery; if not, the first to publish since, whom the engine turned away |
| PreferredFlow.WinnerIsLastDeliveredExactlyWhen | src/deltacache.ts:302-319 | so it is the source delivered last iff the path was routed then, or the first to publish since is the same |
| PreferredFlow.UndeliveredWinnerIs | src/deltacache.ts:657-663 | a path nothing was delivered on has its first publisher as recorded winner |
| PreferredFlow.UnknownExactlyWhen | src/index.ts:339-350 | with no change pending a connected client does not know the winner iff an ingest filled the empty record and every delivery since was routed and from the same source |
| PreferredFlow.OverrideWinnerUnannounced | src/index.ts:339-350 | the input: on a path with an override the first winner is not announced, however many emits follow |
| PreferredFlow.WithheldBackupIsRecorded | src/index.ts:339-350 | the input on a group's path: a lone publisher's record is withdrawn, and a backup the engine withholds is recorded as the winner without a mark |
| PreferredFlow.TakeoverUnannounced | src/index.ts:339-350 | and when that backup takes the path over, nobody is told |
| PreferredFlow.ReturnIsAnnounced | src/index.ts:339-350 | while a further value of the first publisher replaces the record and is announced |
| PreferredFlow.KeptExactlyWhen | src/deltacache.ts:267-277 | a path is kept unless it is the root or a segment is a prototype key |
| PreferredFlow.RefusedPathHasNoRecord | src/deltacache.ts:267-277 | a refused path never has a recorded winner |
| ContextSweep.DeltaCacheSweeper.DeleteContext | src/deltacache.ts:842-845 | entries and winners of one context go, or nothing when the entries cannot be dropped |
| ContextSweep.DeltaCacheSweeper.PruneContexts | src/deltacache.ts:891-908 | the sweep drops entry by entry and the winners at the end; an exception on the way skips the winners |
| ContextSweep.DropKeepsTypes | src/deltacache.ts:851-856 | dropping a context changes nothing about which contexts throw |
| ContextSweep.SweepIs | src/deltacache.ts:895-901 | the sweep throws iff a silent context has a type without a branch, and prunes exactly the silent contexts before the first |
| ContextSweep.SweepDropsEntries | src/deltacache.ts:895-901 | after a sweep the cache holds exactly the last writes of the contexts that were not pruned |
| ContextSweep.TouchSetsTime | src/deltacache.ts:692-694 | a delta gives its context the new modification time |
| ContextSweep.RootHasNoWinner | src/deltacache.ts:629 | root values record no winner |
| ContextSweep.DeleteEachIs | src/deltacache.ts:842-845 | deleting one by one drops the same entries, and the winners of every context reached |
| ContextSweep.PruneNothing | src/deltacache.ts:872-889 | pruning changes nothing iff none of the contexts holds a winner |
| ContextSweep.BatchedSweepIsOneByOneExactlyWhen | src/deltacache.ts:902-907 | the batched sweep equals deleting one by one iff it does not throw or no silent context before the first that throws holds a winner |
| ContextSweep.SweepStaysWedged | src/deltacache.ts:895-901 | a sweep over a context that cannot be dropped throws, keeps that context and drops no winner |
| ContextSweep.NoLaterSweepDropsWinners | src/deltacache.ts:891-908 | after a sweep that threw, and whatever is ingested in between, every later sweep throws and drops no winner, until the context that threw is heard again or its type gets a value |
| ContextSweep.ThrowsExactlyWhenWedged | src/deltacache.ts:895-901 | a sweep throws iff some silent context cannot be dropped |
| ContextSweep.StrandedForGood | src/deltacache.ts:891-908 | the winners of the contexts a throwing sweep had reached stay through all later deltas and sweeps, also once sweeps recover, until the context itself has a delta again |
| ContextSweep.MetaUpdateStrandsWinner | src/deltacache.ts:692-694 | the run: a context whose type only ever had an update without values makes the sweep throw and strands the winner of another |
| SourceRemoval.SourceRemover.PickReplacementSource | src/deltacache.ts:548-568 | picks the first source cached at the key, if any |
| SourceRemoval.SourceRemover.BuildReplacements | src/deltacache.ts:522-533 | the canonical replacement of every key |
| SourceRemoval.SourceRemover.RemoveSource | src/deltacache.ts:487-544 | the cached deltas go first, then every key the source won passes to its replacement or loses its winner |
| SourceRemoval.PicksWhatIsCached | src/deltacache.ts:560-567 | the replacement is a source the last-write map still holds there, and there is one iff it holds any |
| SourceRemoval.RemovedStillWinsExactlyWhen | src/deltacache.ts:517-535 | the removed source still wins a key iff it won it and the first source left there is the same device under another reference |
| SourceRemoval.RemovedWithAliasesWinsNothing | src/deltacache.ts:520-541 | without an alias left it wins the key no more, and the key has a winner iff another source is still cached there |
| SourceRemoval.MetaStays | src/deltacache.ts:487-563 | metadata is neither evicted nor picked as a replacement |
| SettingsPersistence.SplitPrioritiesFromSettings | src/config/priorities-file.ts:155-168 | parts the settings into priority keys and the rest |
| SettingsPersistence.LoadPrioritiesIntoSettings | src/config/priorities-file.ts:92-104 | stored priority keys win, legacy keys are folded and dropped, a missing file changes nothing |
| SettingsPersistence.CopyKeys | src/config/priorities-file.ts:96-100 | overlays the stored priority keys |
| SettingsPersistence.LoadOfSplit | src/config/priorities-file.ts:92-168 | loading two files of different saves takes each key from the file that owns it |
| SettingsPersistence.FoldedIs | src/config/priorities-file.ts:36-53 | folding keeps the current overrides, or else takes the legacy ones, and drops exactly the legacy keys |
| SettingsPersistence.PriorityKeysAre | src/config/priorities-file.ts:26-34 | which five keys live in priorities.json |
| SettingsPersistence.SplitLoadRoundTripExactlyWhen | src/config/priorities-file.ts:92-168 | save and reload is the identity iff the settings carry no legacy key |
| SettingsPersistence.MigratePrioritiesIntoSeparateFile | src/config/priorities-file.ts:116-148 | what the boot migration leaves in settings and writes, in each outcome |
| SettingsPersistence.BootMigrationRoundTrip | src/config/priorities-file.ts:106-148 | the next boot loads the folded settings back, whether or not the stop came before settings.json was stripped |
| SettingsPersistence.SettingsWriter.WriteSettingsFile | src/config/config.ts:617-670 | takes the snapshot now and queues behind earlier calls |
| SettingsPersistence.SettingsWriter.Settle | src/config/config.ts:661-669 | the call is told its result and the next one starts, failed or not |
| SettingsPersistence.SettingsWriter.OnCompletion | src/atomicWrite.ts:16-30 | one completion of write, rename or unlink moves the files and the queue |
| SettingsPersistence.StepConsistent | src/config/config.ts:648-668 | every step keeps both files complete and in order, and moves neither back |
| SettingsPersistence.CrashConsistency | src/config/config.ts:648-656 | stopped anywhere, priorities.json is call i and settings.json call j, both complete, j <= i, both monotone |
| SettingsPersistence.ReloadAfterCrash | src/config/config.ts:648-653 | stopped at any step: each file is the starting one or a complete snapshot, and the loader lays the saved priorities over settings.json, the starting one included |
| SettingsPersistence.DrainedQueueReloadsLastCall | src/config/config.ts:617-670 | drained with a successful last call, reloading yields that call's settings iff they carry no legacy key |
| SettingsPersistence.QueueAlwaysDrains | src/config/config.ts:662-668 | a failure never wedges the queue: five completions per call settle every call, whatever they report |
| SettingsPersistence.CallsAreToldRight | src/config/config.ts:648-669 | in every run a finished call was told success iff no write or rename of its own failed |
| SettingsPersistence.DrainedWithoutFailure | src/config/config.ts:648-669 | with nothing failing, a drained queue has told every call success, and the two files are the whole snapshot of the last call |
| SettingsPersistence.NoTemporaryIsLeft | src/atomicWrite.ts:16-30 | with no clean-up failing, a drained queue leaves no temporary file |
| LatestValues.SetItemIs | src/LatestValuesAccumulator.ts:47-54 | one entry per key, replaced by the newer item |
| LatestValues.SetItemInPlace | src/LatestValuesAccumulator.ts:47-54 | a newer item takes the place of the one with its key, or goes to the end |
| LatestValues.SameKeyExactlyWhen | src/LatestValuesAccumulator.ts:47 | values replace each other iff context, path and source agree, a missing source counting as `unknown` |
| LatestValues.AccumulateKeepsLatest | src/LatestValuesAccumulator.ts:32-57 | the accumulator holds one entry per key, and the entries are the last writes |
| LatestValues.AccumulateLatestValue | src/LatestValuesAccumulator.ts:39-57 | the loops accumulate exactly the values of the delta, in order |
| LatestValues.SameItemsSameWrites | src/LatestValuesAccumulator.ts:67-124 | with one item per key, last writes do not depend on order |
| LatestValues.BuildFlushDeltas | src/LatestValuesAccumulator.ts:67-124 | one delta per context group, each with the total count and the duration |
| LatestValues.FlushConserves | src/LatestValuesAccumulator.ts:67-124 | the flush carries exactly the accumulated items as a multiset, in distinct non-empty groups |
| LatestValues.FlushUpdatesDistinct | src/LatestValuesAccumulator.ts:85-100 | no two updates of a flush delta share source and timestamp, and none is empty |
| Backpressure.BackpressureManager.CheckBufferSize | src/BackpressureManager.ts:119-141 | tracks since when the buffer is too large, and destroys the connection once that lasts too long |
| Backpressure.BackpressureManager.SendDelta | src/BackpressureManager.ts:80-98 | writes, or enters backpressure and accumulates, then checks the buffer |
| Backpressure.BackpressureManager.FlushNow | src/BackpressureManager.ts:100-117 | writes the grouped values, labels them, and leaves backpressure; does nothing when nothing waits |
| Backpressure.BackpressureManager.Drain | src/BackpressureManager.ts:72-78 | flushes iff active, something waits and the buffer is low |
| Backpressure.BackpressureManager.Clear | src/BackpressureManager.ts:143-148 | drops what waits |
| Backpressure.SendLosesNothing | src/BackpressureManager.ts:80-98 | a send keeps: written overlaid with waiting is sent |
| Backpressure.FlushLosesNothing | src/BackpressureManager.ts:100-117 | a flush keeps it too |
| Backpressure.LatestValuesAlwaysReach | src/BackpressureManager.ts:72-148 | in every reachable state the receiver's last writes overlaid with the accumulator are the last writes of everything sent, less what a clear dropped, and waiting implies active |
| Backpressure.ReceiverCatchesUp | src/BackpressureManager.ts:100-117 | after a flush the receiver's last writes are those of everything sent |
| Backpressure.DrainAboveExitChangesNothing | src/BackpressureManager.ts:72-78 | in every reachable state a drain that finds the buffer above the exit threshold changes nothing |
| Backpressure.DrainWritesWhatWaits | src/BackpressureManager.ts:72-78 | a drain that finds it low writes exactly the waiting items and leaves backpressure, or changes nothing if nothing waits |
| Backpressure.SendsPassExactlyWhenBufferLow | src/BackpressureManager.ts:80-92 | in every reachable idle state a delta is written as it is, and nothing else changes hands, iff the buffer is within the enter threshold; otherwise it is held back and backpressure begins |
| Backpressure.PhaseHasBeginning | src/BackpressureManager.ts:83-86 | an active phase records the time of the send that began it, and an idle state none |
| Backpressure.ActiveSendsWriteNothing | src/BackpressureManager.ts:82-92 | while active a send writes nothing and stays active |
| Backpressure.WaitingExactlyWhen | src/BackpressureManager.ts:82-111 | in every reachable state something waits iff the current phase has seen a delta with values |
| Backpressure.DrainEndsPhaseExactlyWhen | src/BackpressureManager.ts:72-78 | in every reachable state a drain that finds the buffer low ends inactive iff there was no phase or it has seen a delta with values |
| Backpressure.ValuelessPhaseStartsExactlyWhen | src/BackpressureManager.ts:80-92 | in every reachable state a delta without values starts a phase iff it meets a buffer over the threshold, and then nothing waits |
| Backpressure.MetaUpdateSticks | src/BackpressureManager.ts:72-101 | the run: one meta update into a full buffer, then any drains and flushes, and the connection is still in backpressure |
| Backpressure.ValuelessBackpressureLasts | src/BackpressureManager.ts:72-101 | active with nothing waiting, no drain, flush or check ends the phase and nothing is written, until a value is sent or the manager cleared |
| Backpressure.ExceededSince | src/BackpressureManager.ts:122-140 | the recorded start is a measurement since which every measurement found the buffer too large |
| Backpressure.DestroyedOnlyWhenSustained | src/BackpressureManager.ts:119-141 | a step closes the connection iff it measures a buffer that has been too large since a first measurement longer ago than the check time |
| Backpressure.DestroyedExactlyWhen | src/BackpressureManager.ts:119-141 | in every run the connection is closed iff some step was such a measurement, and never without a maximum |
| Backpressure.AlwaysRecorded | src/BackpressureManager.ts:122-140 | the recorded start is the time of the measurement at which the excess began |
| RootFlattening.CollectLeaves | src/subscriptionmanager.ts:546-561 | appends the accepted leaves depth first |
| RootFlattening.FlattenRootDelta | src/subscriptionmanager.ts:563-582 | one delta per accepted leaf, none for meta or non-objects |
| RootFlattening.FlattenCachedRootDeltas | src/subscriptionmanager.ts:584-608 | replaces root values by leaves and drops what becomes empty |
| RootFlattening.LiveAndCachedAgree | src/subscriptionmanager.ts:563-608 | live and cached flattening of a root delta yield the same leaves in the same order |
| RootFlattening.LiveLeavesAre | src/subscriptionmanager.ts:572-581 | every live leaf keeps the envelope of its root delta, is accepted, no metadata and no object |
| RootFlattening.LeavesAreFiltered | src/subscriptionmanager.ts:555-559 | the filter on paths takes leaves out and changes nothing else |
| RootFlattening.CachedFlattenAppend | src/subscriptionmanager.ts:588-607 | cached deltas are flattened one by one, in order |
| RootFlattening.FlatUpdatesAppend | src/subscriptionmanager.ts:589-602 | so are the updates of a delta |
| RootFlattening.RootLeavesAppend | src/subscriptionmanager.ts:592-596 | and the values of an update |
| RootFlattening.LeavesRebuild | src/subscriptionmanager.ts:546-561 | assigning the leaves of a clean object by key path rebuilds it |
| RootFlattening.LeavesRoundTrip | src/subscriptionmanager.ts:546-561 | assigning them by dotted path does, keys in order included |
| RootFlattening.LeafPathsDistinct | src/subscriptionmanager.ts:546-561 | the leaf paths of a clean object are distinct |
| DeltaChain.Chain.Register | src/deltachain.ts:59-60 | a handler joins the end of the chain |
| DeltaChain.Chain.Unregister | src/deltachain.ts:61-66 | the undo takes out the first registration of the function |
| DeltaChain.UndoRestoresExactlyWhen | src/deltachain.ts:59-67 | registering and undoing restores the order of the chain iff no other function follows an earlier registration of the same one |
| DeltaChain.Chain.Process | src/deltachain.ts:20-22 | a message runs through the whole chain |
| DeltaChain.Chain.DoProcess | src/deltachain.ts:24-57 | the recursion with its flag dispatches the depth-first sequence |
| DeltaChain.DispatchIsFlatMap | src/deltachain.ts:24-57 | dispatch is the handler-by-handler flat-map, a handler that throws before `next` passing on what it left of the delta |
| DeltaChain.DispatchedExactlyOnce | src/deltachain.ts:35-56 | if every handler calls `next` once or throws first, dispatch happens exactly once |
| DeltaChain.BrokenHandlerIsTransparent | src/deltachain.ts:35-56 | a handler that always throws before `next`, leaving the delta alone, can be left out |
| DeltaChain.BrokenHandlerIsTransparentExactlyWhen | src/deltachain.ts:35-56 | a handler that always throws before `next` can be left out of every chain iff it leaves every delta as it was |
| LoginRateLimiter.Limiter.Check | src/login-rate-limiter.ts:31-47 | counts the check in its window and answers by the count |
| LoginRateLimiter.Limiter.Cleanup | src/login-rate-limiter.ts:20-27 | the sweep drops exactly the expired entries |
| LoginRateLimiter.IntervalFills | src/login-rate-limiter.ts:31-47 | how far an interval can have filled, by where the current window starts |
| LoginRateLimiter.SlidingWindowBound | src/login-rate-limiter.ts:31-47 | any half-open interval of one window's length holds at most 2 * max - 1 allowed checks of an address, none for max 0 |
| LoginRateLimiter.SlidingWindowBoundIsExact | src/login-rate-limiter.ts:31-47 | some run attains that bound |
| LoginRateLimiter.SweepsAreInvisible | src/login-rate-limiter.ts:20-47 | sweeps anywhere, and checks of other addresses, change no later answer |
| LoginRateLimiter.SweepDropsEndedWindows | src/login-rate-limiter.ts:20-27 | a sweep keeps an entry iff a check at that time would still count in its window |
| LoginRateLimiter.RunAllowsAsReplay | src/login-rate-limiter.ts:20-47 | a run allows an address what a limiter without sweeps and other addresses would |
| LoginRateLimiter.RunObeysBound | src/login-rate-limiter.ts:20-47 | in any run, with sweeps anywhere and other addresses in between, the checks the run itself allows an address obey the bound |
| Staleness.SortInts | src/staleness.ts:216 | sorts the samples |
| Staleness.MiddleIsUpperMedian | src/staleness.ts:216-217 | the middle sample has more than half of the samples at or below it and half at or above |
| Staleness.AutoSampler.constructor | src/staleness.ts:184-194 | a first arrival starts the clock with no sample |
| Staleness.AutoSampler.RecordAutoSample | src/staleness.ts:195-200 | appends a positive gap to the ring; any other moves only the clock |
| Staleness.AutoSampler.RingHoldsLastGaps | src/staleness.ts:198-200 | the filled prefix of the ring is, as a multiset, the last gaps it has room for |
| Staleness.AutoSampler.DeriveAutoTimeoutMs | src/staleness.ts:209-222 | none while warming up or without samples, otherwise five upper medians of the last gaps, clamped |
| Staleness.Clamp | src/staleness.ts:219-221 | stays within 2000 and 300000 ms and changes nothing inside them |
| Staleness.StalenessEnforcer.OnIncoming | src/staleness.ts:175-201 | fresh data clears the source's report and adds its gap to its own sampler, touching no other |
| Staleness.StalenessEnforcer.AddSampler | src/staleness.ts:184-194 | a first arrival gets a sampler of its own without a sample |
| Staleness.StalenessEnforcer.Sample | src/staleness.ts:195-200 | a further arrival adds its gap |
| Staleness.StalenessEnforcer.OnContextRemoved | src/staleness.ts:229-241 | a removed context takes exactly its reports and samplers along |
| Staleness.StalenessEnforcer.CheckLeafGroup | src/staleness.ts:284-332 | reports the newly overdue sources of a path, never a notification |
| Staleness.SweepIsChecks | src/staleness.ts:303-331 | a sweep reports exactly the overdue and unreported sources, each once |
| Staleness.ReportedExactlyWhen | src/staleness.ts:318-331 | a numeric value is reported iff not reported yet and silent for longer than its own timeout and than the failover window of its path |
| Staleness.NeverReported | src/staleness.ts:304-325 | strings, flags, nulls, metadata, unreadable timestamps and values that never time out are not reported |
| Staleness.ReportsInOrder | src/staleness.ts:301-331 | reports come in the order of the cached sources |
| Staleness.ReportedSoFarExactlyWhen | src/staleness.ts:326-331 | a source counts as reported iff it was found overdue and neither heard nor removed since |
| Staleness.OneReportPerSilence | src/staleness.ts:326-331 | between two reports of a source comes fresh data or the removal of its context |
| Staleness.NoFailoverPending | src/deltaPriority.ts:244-256 | past the failover floor every enabled ranked source is already preferred, so a stale signal cannot race a takeover |
| Staleness.FailoverWindowIs | src/deltaPriority.ts:559-583 | the window is the largest timeout of the path's override or claiming group, zero without one |
| Staleness.SmallerFloorLeavesPending | src/deltaPriority.ts:559-583 | no smaller floor would do: the source with the longest timeout is still waiting until the window has passed |

## Left out

- HTTP routes, Express middleware, tokens, OIDC, WebSocket plumbing, the admin UI beyond the merge of winner events, and
  Bacon streams: I/O and library glue. Timers are an armed flag and a step, `Date.now()` is a parameter.
- `FullSignalK`, `getSourceId`, path metadata and the canonicaliser's tables: given as pure functions or parameters.
- The TypeBox schema check and the timeout normalisation around the overlap check; a saved group id is non-empty because
  the schema demands it.
- The write that strips migrated keys at boot (`src/config/config.ts:603-614`) bypasses the queue and shares its temporary
  file with queued writes.
- JSON bytes, unreadable files and `resetPriorities`, which bypasses the queue; `disableWriteSettings` and failures to
  stringify, which call back before anything is queued.
- DeltaPriority.PriorityEngine.ToPreferredDelta: a delta that holds one update object twice is not modelled.
- Timeouts are integers; a fractional or missing timeout of an entry is not modelled.
- DeltaCacheTrie.DeltaCache.Ingest: the cache tree is a value in a field, so sharing of branches between holders is not
  modelled; the bookkeeping of new sources and of freshness that the same loop does is left out.
- DeltaCacheTrie.TrieAgreesWithFlatMap: excludes what breaks the law in the code: root ('' path) messages, a source
  reference equal to a path segment or to `__proto__`, `meta` segments, and sibling segments `path` and `value`, which make a
  branch look like a cached delta.
- DeltaCacheTrie.DeltaCache.GetContextAndPathParts: a context that is itself the name of an inherited property (no dot), and
  what happens on the shared object that a walk over such a name reaches.
- LivePreferred.PreferredSources.Value: whether the value is routed is a parameter; `PreferredFlow` takes it from the engine.
- PreferredFlow.DeltaAt: one engine and canonicaliser throughout; a path with a prototype key counts as refused, also where
  the memo misfiles it.
- ContextSweep.NoLaterSweepDropsWinners: its deltas are split right, without the memo's inherited answers.
- Key order of objects with integer-like keys; only the results about the walk and the replacement of a removed source depend
  on key order.
- ReconciledGroups.GetReconciledGroups: `localeCompare` is any total, transitive comparison.
- LivePreferred.PreferredSources.Remove: takes the replacements as given; `SourceRemoval` supplies those of the code.
- SourceRefMigration.Settings.MigrateSourceRef: the channel-labels file and the notification of clients are not modelled, the
  keys of ignored conflicts are pairs, and whether the old device is still on the bus is a parameter.
- SourceRefMigration.MigrationPreservesMeaning: holds for a new reference that configuration and run do not mention yet, when
  neither end of the renaming shares its device identity with a third reference and no group lists one twice; merging two
  devices is a change of meaning.
- Backpressure: meta updates sent during backpressure are dropped, by the code's design; `beforeWrite` callbacks.
- DeltaChain.Chain.DoProcess: handlers are fixed functions of the delta; handlers that keep state, change a delta after passing
  it on, call `next` later, or unregister while a message is processed, and a dispatch that throws, are not modelled.
- Staleness.StalenessEnforcer.CheckLeafGroup: the update contract and the base timeouts, from path metadata, are parameters.
