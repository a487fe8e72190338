/**
 Persistence of settings in two files (src/config/config.ts, src/config/priorities-file.ts, src/atomicWrite.ts): the
 split and its inverse, and the queue of two-file writes under failures and crashes.
 */
module SettingsPersistence {
  import opened Common

  type Settings = map<string, Json>

  const PRIORITIES_KEYS: seq<string> :=
    ["priorityGroups", "priorityOverrides", "priorityDefaults", "sourceAliases", "ignoredInstanceConflicts"]
  const LEGACY_KEYS: seq<string> := ["sourcePriorities", "sourcePriorityOverrides"]

  function Without(settings: Settings, keys: seq<string>): Settings {
    map k | k in settings && k !in keys :: settings[k]
  }

  function Only(settings: Settings, keys: seq<string>): Settings {
    map k | k in settings && k in keys :: settings[k]
  }

  method SplitPrioritiesFromSettings(settings: Settings) returns (rest: Settings, priorities: Settings)
    ensures rest == Without(settings, PRIORITIES_KEYS) && priorities == Only(settings, PRIORITIES_KEYS)
  {
    rest, priorities := settings, map[];
    for i := 0 to |PRIORITIES_KEYS|
      invariant rest == Without(settings, PRIORITIES_KEYS[..i])
      invariant priorities == Only(settings, PRIORITIES_KEYS[..i])
    {
      var key := PRIORITIES_KEYS[i];
      assert PRIORITIES_KEYS[..i + 1] == PRIORITIES_KEYS[..i] + [key];
      if key in rest {
        priorities := priorities[key := rest[key]];
        rest := rest - {key};
      }
    }
    assert PRIORITIES_KEYS[..|PRIORITIES_KEYS|] == PRIORITIES_KEYS;
  }

  function FoldLegacyKeys(stored: Settings): Settings {
    var folded := if "sourcePriorities" in stored && "priorityOverrides" !in stored
                  then stored["priorityOverrides" := stored["sourcePriorities"]] else stored;
    Without(folded, LEGACY_KEYS)
  }

  /** Folding keeps the current overrides, or else takes the legacy ones, drops legacy keys and leaves all others. */
  lemma FoldedIs(stored: Settings)
    ensures var folded := FoldLegacyKeys(stored);
      && folded.Keys == (stored.Keys - {"sourcePriorities", "sourcePriorityOverrides"})
           + (if "sourcePriorities" in stored then {"priorityOverrides"} else {})
      && forall k | k in folded ::
           folded[k] == if k in stored then stored[k] else stored["sourcePriorities"]
  {
  }

  /** Which settings live in priorities.json. */
  lemma PriorityKeysAre(settings: Settings, k: string)
    ensures k in Only(settings, PRIORITIES_KEYS) <==>
      k in settings && k in {"priorityGroups", "priorityOverrides", "priorityDefaults", "sourceAliases",
                             "ignoredInstanceConflicts"}
  {
  }

  /** What the loader makes of the two files: stored priority keys win, legacy keys are dropped. */
  function Load(settings: Settings, stored: Option<Settings>): Settings {
    match stored
    case None => settings
    case Some(s) => Without(settings + Only(FoldLegacyKeys(s), PRIORITIES_KEYS), LEGACY_KEYS)
  }

  method LoadPrioritiesIntoSettings(settings: Settings, stored: Option<Settings>) returns (loaded: Settings)
    ensures loaded == Load(settings, stored)
  {
    if stored.None? { return settings; }
    loaded := CopyKeys(settings, FoldLegacyKeys(stored.value), PRIORITIES_KEYS);
    loaded := Without(loaded, LEGACY_KEYS);
  }

  method CopyKeys(settings: Settings, stored: Settings, keys: seq<string>) returns (merged: Settings)
    ensures merged == settings + Only(stored, keys)
  {
    merged := settings;
    for i := 0 to |keys|
      invariant merged == settings + Only(stored, keys[..i])
    {
      assert keys[..i + 1] == keys[..i] + [keys[i]];
      if keys[i] in stored { merged := merged[keys[i] := stored[keys[i]]]; }
    }
    assert keys[..|keys|] == keys;
  }

  /** The priority keys of `newer` over the settings of `older`, less the legacy keys. */
  function Overlaid(older: Settings, newer: Settings): Settings {
    Without(older + Only(newer, PRIORITIES_KEYS), LEGACY_KEYS)
  }

  /** Loading what a save of `newer` left in priorities.json over any settings.json: its priority keys win. */
  lemma LoadOfSplit(older: Settings, newer: Settings)
    ensures Load(older, Some(Only(newer, PRIORITIES_KEYS)))
      == Overlaid(older, newer)
  {
    var stored := Only(newer, PRIORITIES_KEYS);
    assert "sourcePriorities" !in PRIORITIES_KEYS && "sourcePriorityOverrides" !in PRIORITIES_KEYS;
    assert Only(FoldLegacyKeys(stored), PRIORITIES_KEYS) == stored;
  }

  predicate HasLegacyKey(settings: Settings) {
    exists k | k in LEGACY_KEYS :: k in settings
  }

  /** Saving and reloading gives the settings back exactly when they carry no legacy key. */
  lemma SplitLoadRoundTripExactlyWhen(settings: Settings)
    ensures Load(Without(settings, PRIORITIES_KEYS), Some(Only(settings, PRIORITIES_KEYS))) == settings
      <==> !HasLegacyKey(settings)
  {
    LoadOfSplit(Without(settings, PRIORITIES_KEYS), settings);
    assert Without(settings, PRIORITIES_KEYS) + Only(settings, PRIORITIES_KEYS) == settings;
    var loaded := Without(settings, LEGACY_KEYS);
    if !HasLegacyKey(settings) {
      assert loaded == settings;
    } else {
      var k :| k in LEGACY_KEYS && k in settings;
      assert k !in loaded;
    }
  }

  /** The one-shot migration at boot, when no priorities file exists: what is left in settings and what is written. */
  method MigratePrioritiesIntoSeparateFile(settings: Settings, stored: Option<Settings>, writeOk: bool)
    returns (migrated: bool, rest: Settings, written: Option<Settings>)
    ensures stored.Some? ==> !migrated && rest == settings && written == None
    ensures stored.None? ==>
      && (migrated <==> Only(FoldLegacyKeys(settings), PRIORITIES_KEYS) != map[] && writeOk)
      && (migrated ==> written == Some(Only(FoldLegacyKeys(settings), PRIORITIES_KEYS))
                       && rest == Without(FoldLegacyKeys(settings), PRIORITIES_KEYS))
      && (!migrated ==> written == None && rest == FoldLegacyKeys(settings))
  {
    if stored.Some? { return false, settings, None; }
    var folded := FoldLegacyKeys(settings);
    var left, present := SplitPrioritiesFromSettings(folded);
    if present == map[] || !writeOk { return false, folded, None; }
    return true, left, Some(present);
  }

  /**
   The migration loses nothing, wherever it stops: the next boot loads the folded settings from priorities.json and
   settings.json, whether settings.json was already stripped or is still the old one, legacy keys included.
   */
  lemma BootMigrationRoundTrip(settings: Settings)
    ensures var folded := FoldLegacyKeys(settings);
      && Load(Without(folded, PRIORITIES_KEYS), Some(Only(folded, PRIORITIES_KEYS))) == folded
      && Load(settings, Some(Only(folded, PRIORITIES_KEYS))) == folded
  {
    FoldedHasNoLegacyKey(settings);
    SplitLoadRoundTripExactlyWhen(FoldLegacyKeys(settings));
    LoadOverUnstripped(settings);
  }

  lemma LoadOverUnstripped(settings: Settings)
    ensures Load(settings, Some(Only(FoldLegacyKeys(settings), PRIORITIES_KEYS))) == FoldLegacyKeys(settings)
  {
    var folded := FoldLegacyKeys(settings);
    LoadOfSplit(settings, folded);
    assert "sourcePriorities" !in PRIORITIES_KEYS && "sourcePriorityOverrides" !in PRIORITIES_KEYS;
    assert "priorityOverrides" in PRIORITIES_KEYS;
  }

  lemma FoldedHasNoLegacyKey(settings: Settings)
    ensures !HasLegacyKey(FoldLegacyKeys(settings))
  {
  }

  // ---------------------------------------------------------------- the write queue

  /** A file holds nothing, an interrupted write, or a complete snapshot: version 0 is what the run started from,
      version n + 1 the snapshot of call n. */
  datatype File = Absent | Torn | Whole(version: nat, data: Settings)

  datatype Disk = Disk(priorities: File, prioritiesTmp: File, settings: File, settingsTmp: File)

  /** The I/O operation the queue waits for. */
  datatype Phase =
    | Idle
    | PrioritiesWrite
    | PrioritiesRename
    | PrioritiesUnlink
    | SettingsWrite
    | SettingsRename
    | SettingsUnlink

  /** `calls` are the snapshots taken, `results` what the finished calls were told. */
  datatype Store = Store(calls: seq<Settings>, results: seq<bool>, phase: Phase, disk: Disk)

  datatype Event =
    | Call(settings: Settings)
    | Completed(ok: bool, torn: bool)

  function Head(s: Store): nat {
    |s.results|
  }

  function Enqueue(s: Store, settings: Settings): Store {
    s.(calls := s.calls + [settings], phase := if s.phase == Idle then PrioritiesWrite else s.phase)
  }

  /** The head call is told its result and the next one, if any, starts. */
  function Finish(s: Store, ok: bool): Store {
    s.(results := s.results + [ok], phase := if |s.results| + 1 < |s.calls| then PrioritiesWrite else Idle)
  }

  /** A failed write may leave the temporary file torn. */
  function AfterWrite(old_: File, whole: File, ok: bool, torn: bool): File {
    if ok then whole else if torn then Torn else old_
  }

  /** One I/O completion of the head call. */
  function Complete(s: Store, ok: bool, torn: bool): Store
    requires s.phase != Idle && Head(s) < |s.calls|
  {
    var snapshot, d := s.calls[Head(s)], s.disk;
    match s.phase
    case PrioritiesWrite =>
      var whole := Whole(Head(s) + 1, Only(snapshot, PRIORITIES_KEYS));
      s.(disk := d.(prioritiesTmp := AfterWrite(d.prioritiesTmp, whole, ok, torn)),
         phase := if ok then PrioritiesRename else PrioritiesUnlink)
    case PrioritiesRename =>
      if ok then s.(disk := d.(priorities := d.prioritiesTmp, prioritiesTmp := Absent), phase := SettingsWrite)
      else s.(phase := PrioritiesUnlink)
    case PrioritiesUnlink =>
      Finish(s.(disk := d.(prioritiesTmp := if ok then Absent else d.prioritiesTmp)), false)
    case SettingsWrite =>
      var whole := Whole(Head(s) + 1, Without(snapshot, PRIORITIES_KEYS));
      s.(disk := d.(settingsTmp := AfterWrite(d.settingsTmp, whole, ok, torn)),
         phase := if ok then SettingsRename else SettingsUnlink)
    case SettingsRename =>
      if ok then Finish(s.(disk := d.(settings := d.settingsTmp, settingsTmp := Absent)), true)
      else s.(phase := SettingsUnlink)
    case SettingsUnlink =>
      Finish(s.(disk := d.(settingsTmp := if ok then Absent else d.settingsTmp)), false)
  }

  /** A completion with nothing under way does not occur; it is ignored. */
  function Step(s: Store, e: Event): Store {
    match e
    case Call(settings) => Enqueue(s, settings)
    case Completed(ok, torn) => if s.phase == Idle || Head(s) >= |s.calls| then s else Complete(s, ok, torn)
  }

  class SettingsWriter {
    var calls: seq<Settings>
    var results: seq<bool>
    var phase: Phase
    var disk: Disk

    ghost function Abs(): Store
      reads this
    {
      Store(calls, results, phase, disk)
    }

    constructor (start: Disk)
      ensures Abs() == Store([], [], Idle, start)
    {
      calls, results, phase, disk := [], [], Idle, start;
    }

    /** The snapshot is taken now; the write waits behind earlier ones. */
    method WriteSettingsFile(settings: Settings)
      modifies this`calls, this`phase
      ensures Abs() == Step(old(Abs()), Call(settings))
    {
      calls := calls + [settings];
      if phase == Idle { phase := PrioritiesWrite; }
    }

    method Settle(ok: bool)
      requires phase != Idle && |results| < |calls|
      modifies this`results, this`phase
      ensures Abs() == Finish(old(Abs()), ok)
    {
      results := results + [ok];
      phase := if |results| < |calls| then PrioritiesWrite else Idle;
    }

    /** The promise of the pending I/O operation settles. */
    method OnCompletion(ok: bool, torn: bool)
      requires phase != Idle && |results| < |calls|
      modifies this
      ensures Abs() == Step(old(Abs()), Completed(ok, torn))
    {
      var version, snapshot := |results| + 1, calls[|results|];
      var rest, priorities := SplitPrioritiesFromSettings(snapshot);
      match phase {
        case PrioritiesWrite =>
          disk := disk.(prioritiesTmp := AfterWrite(disk.prioritiesTmp, Whole(version, priorities), ok, torn));
          phase := if ok then PrioritiesRename else PrioritiesUnlink;
        case PrioritiesRename =>
          if ok { disk := disk.(priorities := disk.prioritiesTmp, prioritiesTmp := Absent); }
          phase := if ok then SettingsWrite else PrioritiesUnlink;
        case PrioritiesUnlink =>
          if ok { disk := disk.(prioritiesTmp := Absent); }
          Settle(false);
        case SettingsWrite =>
          disk := disk.(settingsTmp := AfterWrite(disk.settingsTmp, Whole(version, rest), ok, torn));
          phase := if ok then SettingsRename else SettingsUnlink;
        case SettingsRename =>
          if ok {
            disk := disk.(settings := disk.settingsTmp, settingsTmp := Absent);
            Settle(true);
          } else {
            phase := SettingsUnlink;
          }
        case SettingsUnlink =>
          if ok { disk := disk.(settingsTmp := Absent); }
          Settle(false);
      }
    }
  }

  // ---------------------------------------------------------------- runs

  function Run(start: Store, es: seq<Event>): Store {
    if es == [] then start else Step(Run(start, es[..|es| - 1]), es[|es| - 1])
  }

  /** A missing file counts as the version the run started from. */
  function Version(file: File): nat {
    if file.Whole? then file.version else 0
  }

  /** An idle queue over files that are each complete or missing. */
  ghost predicate Fresh(s: Store) {
    && s.calls == [] && s.results == [] && s.phase == Idle
    && !s.disk.priorities.Torn? && !s.disk.settings.Torn?
    && Version(s.disk.priorities) == Version(s.disk.settings) == 0
  }

  /** What priorities.json holds at a version. */
  function PrioritiesAt(start: Store, s: Store, version: nat): File
    requires version <= |s.calls|
  {
    if version == 0 then start.disk.priorities else Whole(version, Only(s.calls[version - 1], PRIORITIES_KEYS))
  }

  /** What settings.json holds at a version. */
  function SettingsAt(start: Store, s: Store, version: nat): File
    requires version <= |s.calls|
  {
    if version == 0 then start.disk.settings else Whole(version, Without(s.calls[version - 1], PRIORITIES_KEYS))
  }

  predicate PrioritiesDone(phase: Phase) {
    phase == SettingsWrite || phase == SettingsRename || phase == SettingsUnlink
  }

  /** priorities.json is complete and of call i, settings.json is complete and of call j, and j <= i. */
  ghost predicate Consistent(start: Store, s: Store) {
    var i, j := Version(s.disk.priorities), Version(s.disk.settings);
    && (s.phase == Idle <==> |s.results| == |s.calls|) && |s.results| <= |s.calls|
    && j <= i && j <= Head(s)
    && (if PrioritiesDone(s.phase) then i == Head(s) + 1 else i <= Head(s))
    && s.disk.priorities == PrioritiesAt(start, s, i) && s.disk.settings == SettingsAt(start, s, j)
    && (s.phase == PrioritiesRename ==> s.disk.prioritiesTmp == PrioritiesAt(start, s, Head(s) + 1))
    && (s.phase == SettingsRename ==> s.disk.settingsTmp == SettingsAt(start, s, Head(s) + 1))
    && (forall k | 0 <= k < |s.results| && s.results[k] :: j >= k + 1)
  }

  lemma StepConsistent(start: Store, s: Store, e: Event)
    requires Consistent(start, s)
    ensures Consistent(start, Step(s, e))
    ensures Version(Step(s, e).disk.priorities) >= Version(s.disk.priorities)
    ensures Version(Step(s, e).disk.settings) >= Version(s.disk.settings)
  {
    hide Only, Without;
  }

  /**
   Whenever the process stops, both files hold complete snapshots, settings.json never newer than priorities.json, and
   each no older than it was at any earlier point of the run.
   */
  lemma {:induction false} CrashConsistency(start: Store, es: seq<Event>, earlier: nat)
    requires Fresh(start) && earlier <= |es|
    ensures var s, before := Run(start, es), Run(start, es[..earlier]);
      && Consistent(start, s) && Consistent(start, before)
      && Version(before.disk.priorities) <= Version(s.disk.priorities)
      && Version(before.disk.settings) <= Version(s.disk.settings)
  {
    if es == [] {
      assert es[..earlier] == es;
    } else {
      var n := |es| - 1;
      CrashConsistency(start, es[..n], if earlier <= n then earlier else n);
      StepConsistent(start, Run(start, es[..n]), es[n]);
      hide Consistent, Step;
      if earlier <= n { assert es[..n][..earlier] == es[..earlier]; } else { assert es[..earlier] == es; }
    }
  }

  /** What the loader finds on a consistent disk. */
  ghost predicate Reloads(start: Store, s: Store)
    requires Version(s.disk.settings) <= Version(s.disk.priorities) <= |s.calls|
  {
    var i, j := Version(s.disk.priorities), Version(s.disk.settings);
    && (i == 0 ==> s.disk.priorities == start.disk.priorities)
    && (j == 0 ==> s.disk.settings == start.disk.settings)
    && (j >= 1 ==> s.disk.settings == Whole(j, Without(s.calls[j - 1], PRIORITIES_KEYS)))
    && (i >= 1 ==> s.disk.priorities.Whole?)
    && (i >= 1 && s.disk.settings.Whole? ==>
          Load(s.disk.settings.data, Some(s.disk.priorities.data)) == Overlaid(s.disk.settings.data, s.calls[i - 1]))
  }

  /**
   After a crash the loader sees the priorities of one call over everything else of the same or an earlier one, or over
   the settings the run started from.
   */
  lemma ReloadAfterCrash(start: Store, es: seq<Event>)
    requires Fresh(start)
    ensures var s := Run(start, es);
      && Version(s.disk.settings) <= Version(s.disk.priorities) <= |s.calls|
      && !s.disk.priorities.Torn? && !s.disk.settings.Torn? && Reloads(start, s)
  {
    CrashConsistency(start, es, 0);
    hide *;
    ConsistentReloads(start, Run(start, es));
  }

  lemma ConsistentReloads(start: Store, s: Store)
    requires Fresh(start) && Consistent(start, s)
    ensures Version(s.disk.settings) <= Version(s.disk.priorities) <= |s.calls|
    ensures !s.disk.priorities.Torn? && !s.disk.settings.Torn? && Reloads(start, s)
  {
    hide Fresh, Consistent, Without, Only, Load, Overlaid, Version;
    RunKeepsNothingTorn(start, s);
    var i := Version(s.disk.priorities);
    if i >= 1 && s.disk.settings.Whole? { LoadOfSplit(s.disk.settings.data, s.calls[i - 1]); }
  }

  lemma RunKeepsNothingTorn(start: Store, s: Store)
    requires Fresh(start) && Consistent(start, s)
    ensures !s.disk.priorities.Torn? && !s.disk.settings.Torn?
    ensures var i, j := Version(s.disk.priorities), Version(s.disk.settings);
      && j <= i <= |s.calls|
      && (i == 0 ==> s.disk.priorities == start.disk.priorities)
      && (j == 0 ==> s.disk.settings == start.disk.settings)
      && (i >= 1 ==> s.disk.priorities == Whole(i, Only(s.calls[i - 1], PRIORITIES_KEYS)))
      && (j >= 1 ==> s.disk.settings == Whole(j, Without(s.calls[j - 1], PRIORITIES_KEYS)))
  {
    hide Only, Without;
  }

  lemma SettledVersions(start: Store, s: Store)
    requires Consistent(start, s) && s.phase == Idle && s.results != [] && s.results[|s.results| - 1]
    ensures |s.results| == |s.calls|
    ensures s.disk.priorities == Whole(|s.calls|, Only(s.calls[|s.calls| - 1], PRIORITIES_KEYS))
    ensures s.disk.settings == Whole(|s.calls|, Without(s.calls[|s.calls| - 1], PRIORITIES_KEYS))
  {
    hide Only, Without;
  }

  /**
   When the queue has drained and the last call succeeded, reloading yields that call's settings, unless they carry
   legacy keys.
   */
  lemma DrainedQueueReloadsLastCall(start: Store, es: seq<Event>)
    requires Fresh(start) && Run(start, es).phase == Idle
    requires Run(start, es).results != [] && Run(start, es).results[|Run(start, es).results| - 1]
    ensures Run(start, es).disk.priorities.Whole? && Run(start, es).disk.settings.Whole?
    ensures var s := Run(start, es);
      && |s.results| == |s.calls|
      && (Load(s.disk.settings.data, Some(s.disk.priorities.data)) == s.calls[|s.calls| - 1]
          <==> !HasLegacyKey(s.calls[|s.calls| - 1]))
  {
    hide Run, Load, Only, Without, HasLegacyKey;
    CrashConsistency(start, es, 0);
    var s := Run(start, es);
    SettledVersions(start, s);
    hide Consistent, Fresh;
    SplitLoadRoundTripExactlyWhen(s.calls[|s.calls| - 1]);
  }

  /** The I/O completions still to come, at most. */
  function Remaining(s: Store): int {
    5 * (|s.calls| - |s.results|) -
    (match s.phase
     case Idle => 0
     case PrioritiesWrite => 0
     case PrioritiesRename => 1
     case PrioritiesUnlink => 2
     case SettingsWrite => 2
     case SettingsRename => 3
     case SettingsUnlink => 4)
  }

  /** A failure never wedges the queue: however the completions turn out, five per call settle every call. */
  lemma {:induction false} QueueAlwaysDrains(start: Store, s: Store, completions: seq<Event>)
    requires Consistent(start, s) && (forall e | e in completions :: e.Completed?) && |completions| >= Remaining(s)
    ensures Run(s, completions).phase == Idle && |Run(s, completions).results| == |Run(s, completions).calls|
    ensures Run(s, completions).calls == s.calls && s.results <= Run(s, completions).results
  {
    ProgressOfRun(start, s, completions);
    assert Remaining(Run(s, completions)) <= 0;
  }

  lemma {:induction false} ProgressOfRun(start: Store, s: Store, completions: seq<Event>)
    requires Consistent(start, s) && forall e | e in completions :: e.Completed?
    ensures var s1 := Run(s, completions);
      && Consistent(start, s1) && s1.calls == s.calls && s.results <= s1.results
      && (s1.phase == Idle || Remaining(s1) <= Remaining(s) - |completions|)
  {
    if completions != [] {
      var n := |completions| - 1;
      ProgressOfRun(start, s, completions[..n]);
      assert completions[n] in completions;
      StepConsistent(start, Run(s, completions[..n]), completions[n]);
      CompletionProgress(Run(s, completions[..n]), completions[n]);
      hide Consistent, Step;
    }
  }

  lemma CompletionProgress(s: Store, e: Event)
    requires e.Completed? && (s.phase == Idle <==> |s.results| == |s.calls|) && |s.results| <= |s.calls|
    ensures var s1 := Step(s, e);
      && s1.calls == s.calls && s.results <= s1.results
      && (if s.phase == Idle then s1 == s else Remaining(s1) < Remaining(s))
  {
  }

  // ---------------------------------------------------------------- what the calls are told

  /** The snapshots taken, in the order of the calls. */
  function Taken(es: seq<Event>): seq<Settings> {
    if es == [] then []
    else
      var before := Taken(es[..|es| - 1]);
      match es[|es| - 1]
      case Call(settings) => before + [settings]
      case Completed(_, _) => before
  }

  lemma {:induction false} CallsAreTaken(start: Store, es: seq<Event>)
    requires start.calls == []
    ensures Run(start, es).calls == Taken(es)
  {
    if es != [] { CallsAreTaken(start, es[..|es| - 1]); }
  }

  /** The pending operation is a write or a rename; removing a temporary file after a failure is neither. */
  predicate WritesOrRenames(phase: Phase) {
    phase == PrioritiesWrite || phase == PrioritiesRename || phase == SettingsWrite || phase == SettingsRename
  }

  /** At event `n` a write or rename of call `k` fails. */
  ghost predicate FailsAt(start: Store, es: seq<Event>, n: nat, k: nat) {
    && n < |es| && es[n].Completed? && !es[n].ok
    && WritesOrRenames(Run(start, es[..n]).phase) && Head(Run(start, es[..n])) == k
  }

  ghost predicate Failed(start: Store, es: seq<Event>, k: nat) {
    exists n: nat :: FailsAt(start, es, n, k)
  }

  lemma FailedLast(start: Store, init: seq<Event>, e: Event, k: nat)
    ensures var s := Run(start, init);
      Failed(start, init + [e], k) <==>
        Failed(start, init, k) || (e.Completed? && !e.ok && WritesOrRenames(s.phase) && Head(s) == k)
  {
    hide Run;
    var es := init + [e];
    assert es[..|init|] == init;
    forall n: nat | n < |init| ensures FailsAt(start, es, n, k) <==> FailsAt(start, init, n, k) {
      assert es[..n] == init[..n] && es[n] == init[n];
    }
    if Failed(start, es, k) {
      var n: nat :| FailsAt(start, es, n, k);
      if n < |init| { assert FailsAt(start, init, n, k); }
    }
    if Failed(start, init, k) {
      var n: nat :| FailsAt(start, init, n, k);
      assert FailsAt(start, es, n, k);
    }
    if e.Completed? && !e.ok && WritesOrRenames(Run(start, init).phase) && Head(Run(start, init)) == k {
      assert FailsAt(start, es, |init|, k);
    }
  }

  /** Finished calls were told what became of them, the call under way cleans up exactly after a failure. */
  ghost predicate ToldRight(start: Store, es: seq<Event>, s: Store) {
    && (forall k | 0 <= k < |s.results| :: s.results[k] <==> !Failed(start, es, k))
    && (Failed(start, es, Head(s)) <==> s.phase == PrioritiesUnlink || s.phase == SettingsUnlink)
    && (forall k: nat | k > Head(s) :: !Failed(start, es, k))
    && (s.phase == Idle ==> |s.results| == |s.calls|) && (s.phase != Idle ==> |s.results| < |s.calls|)
  }

  lemma ToldRightStep(start: Store, init: seq<Event>, e: Event)
    requires ToldRight(start, init, Run(start, init))
    ensures ToldRight(start, init + [e], Run(start, init + [e]))
  {
    var s, es := Run(start, init), init + [e];
    assert es[..|init|] == init && Run(start, es) == Step(s, e);
    forall k: nat
      ensures Failed(start, es, k) <==>
        Failed(start, init, k) || (e.Completed? && !e.ok && WritesOrRenames(s.phase) && Head(s) == k)
    {
      FailedLast(start, init, e, k);
    }
    hide Run, Failed, Only, Without;
  }

  /**
   In every run: a finished call was told success exactly when no write or rename of its own failed. Removing a leftover
   temporary file decides nothing.
   */
  lemma {:induction false} CallsAreToldRight(start: Store, es: seq<Event>)
    requires Fresh(start)
    ensures ToldRight(start, es, Run(start, es))
  {
    hide ToldRight;
    if es == [] {
      NothingTold(start);
    } else {
      var init, e := es[..|es| - 1], es[|es| - 1];
      assert es == init + [e];
      CallsAreToldRight(start, init);
      ToldRightStep(start, init, e);
    }
  }

  lemma NothingTold(start: Store)
    requires Fresh(start)
    ensures ToldRight(start, [], Run(start, []))
  {
  }

  /**
   Liveness of success: when nothing fails and the queue has drained, every call was told success, and the two files are
   together the whole snapshot of the last call.
   */
  lemma DrainedWithoutFailure(start: Store, es: seq<Event>)
    requires Fresh(start) && Run(start, es).phase == Idle && Taken(es) != []
    requires forall e | e in es && e.Completed? :: e.ok
    ensures var s, n := Run(start, es), |Taken(es)|;
      && |s.results| == n && (forall k | 0 <= k < n :: s.results[k])
      && s.disk.priorities == Whole(n, Only(Taken(es)[n - 1], PRIORITIES_KEYS))
      && s.disk.settings == Whole(n, Without(Taken(es)[n - 1], PRIORITIES_KEYS))
  {
    hide Run, Only, Without, Consistent, Fresh, Taken;
    var s := Run(start, es);
    CallsAreToldRight(start, es);
    CrashConsistency(start, es, 0);
    CallsOf(start, es);
    NothingFailed(start, es);
    SettledVersions(start, s);
  }

  lemma NothingFailed(start: Store, es: seq<Event>)
    requires forall e | e in es && e.Completed? :: e.ok
    ensures forall k: nat :: !Failed(start, es, k)
  {
    hide Run;
    forall n: nat, k: nat ensures !FailsAt(start, es, n, k) {
      assert n < |es| ==> es[n] in es;
    }
  }

  lemma CallsOf(start: Store, es: seq<Event>)
    requires Fresh(start)
    ensures Run(start, es).calls == Taken(es)
  {
    CallsAreTaken(start, es);
  }

  // ---------------------------------------------------------------- no leftovers

  /** The operation under way may have its temporary file on disk, no other does. */
  ghost predicate Tidy(s: Store) {
    && (s.disk.prioritiesTmp != Absent ==>
          s.phase == PrioritiesWrite || s.phase == PrioritiesRename || s.phase == PrioritiesUnlink)
    && (s.disk.settingsTmp != Absent ==>
          s.phase == SettingsWrite || s.phase == SettingsRename || s.phase == SettingsUnlink)
    && (s.phase == PrioritiesWrite || s.phase == SettingsWrite ==>
          s.disk.prioritiesTmp == Absent && s.disk.settingsTmp == Absent)
  }

  lemma TidyStep(s: Store, e: Event)
    requires Tidy(s) && (e.Completed? && (s.phase == PrioritiesUnlink || s.phase == SettingsUnlink) ==> e.ok)
    ensures Tidy(Step(s, e))
  {
    hide Only, Without;
  }

  /** When no clean-up fails, no temporary file outlives its call: a drained queue leaves the two files only. */
  lemma {:induction false} NoTemporaryIsLeft(start: Store, es: seq<Event>)
    requires Fresh(start) && start.disk.prioritiesTmp == Absent && start.disk.settingsTmp == Absent
    requires forall n | 0 <= n < |es| && es[n].Completed? :: CleansUp(Run(start, es[..n]), es[n])
    ensures Tidy(Run(start, es))
    ensures Run(start, es).phase == Idle ==>
      Run(start, es).disk.prioritiesTmp == Absent && Run(start, es).disk.settingsTmp == Absent
  {
    if es != [] {
      var n := |es| - 1;
      forall m | 0 <= m < n && es[..n][m].Completed? ensures CleansUp(Run(start, es[..n][..m]), es[..n][m]) {
        assert es[..n][..m] == es[..m] && es[..n][m] == es[m];
      }
      NoTemporaryIsLeft(start, es[..n]);
      hide Step, Fresh;
      TidyStep(Run(start, es[..n]), es[n]);
    }
  }

  /** A clean-up succeeds. */
  predicate CleansUp(s: Store, e: Event)
    requires e.Completed?
  {
    s.phase == PrioritiesUnlink || s.phase == SettingsUnlink ==> e.ok
  }
}
