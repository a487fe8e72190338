/**
 Rewriting one source reference through the saved settings (src/sourceref-migration.ts): what is rewritten, when the
 result still passes the save validator, and that the priority engine decides as before, up to the new name.
 */
module SourceRefMigration {
  import opened Common
  import opened DeltaPriority
  import opened PriorityRuns
  import opened SaveValidator
  import opened StringOrder

  // ---------------------------------------------------------------- the rewrite on values

  function Rename(oldRef: SourceRef, newRef: SourceRef, ref: SourceRef): SourceRef {
    if ref == oldRef then newRef else ref
  }

  predicate NamesEntry(entries: seq<SourcePriority>, ref: SourceRef) {
    exists i | 0 <= i < |entries| :: entries[i].sourceRef == ref
  }

  function EntryIsNot(ref: SourceRef): SourcePriority -> bool {
    (e: SourcePriority) => e.sourceRef != ref
  }

  function RefIsNot(ref: SourceRef): SourceRef -> bool {
    (r: SourceRef) => r != ref
  }

  function RenameEntries(entries: seq<SourcePriority>, oldRef: SourceRef, newRef: SourceRef): seq<SourcePriority> {
    seq(|entries|, i requires 0 <= i < |entries| =>
      entries[i].(sourceRef := Rename(oldRef, newRef, entries[i].sourceRef)))
  }

  function RenameRefs(refs: seq<SourceRef>, oldRef: SourceRef, newRef: SourceRef): seq<SourceRef> {
    seq(|refs|, i requires 0 <= i < |refs| => Rename(oldRef, newRef, refs[i]))
  }

  function MigrateEntries(entries: seq<SourcePriority>, oldRef: SourceRef, newRef: SourceRef): seq<SourcePriority> {
    if NamesEntry(entries, newRef) then Filter(EntryIsNot(oldRef), entries) else RenameEntries(entries, oldRef, newRef)
  }

  /** Only the first listing of the old reference is rewritten, as `indexOf` finds it. */
  function ReplaceFirst(refs: seq<SourceRef>, oldRef: SourceRef, newRef: SourceRef): seq<SourceRef> {
    if refs == [] then []
    else if refs[0] == oldRef then [newRef] + refs[1..]
    else [refs[0]] + ReplaceFirst(refs[1..], oldRef, newRef)
  }

  function MigrateSources(refs: seq<SourceRef>, oldRef: SourceRef, newRef: SourceRef): seq<SourceRef> {
    if newRef in refs then Filter(RefIsNot(oldRef), refs) else ReplaceFirst(refs, oldRef, newRef)
  }

  function MigrateOverrides(overrides: map<Path, seq<SourcePriority>>, oldRef: SourceRef, newRef: SourceRef)
    : map<Path, seq<SourcePriority>>
  {
    map p | p in overrides :: MigrateEntries(overrides[p], oldRef, newRef)
  }

  function MigrateGroups(groups: seq<PriorityGroup>, oldRef: SourceRef, newRef: SourceRef): seq<PriorityGroup> {
    seq(|groups|, i requires 0 <= i < |groups| =>
      groups[i].(sources := MigrateSources(groups[i].sources, oldRef, newRef)))
  }

  function MigrateAliases(aliases: map<SourceRef, string>, oldRef: SourceRef, newRef: SourceRef): map<SourceRef,
                          string> {
    if oldRef !in aliases then aliases
    else (if newRef in aliases then aliases else aliases[newRef := aliases[oldRef]]) - {oldRef}
  }

  /** The old reference's alias is the new one's unless that has one, and no other alias changes. */
  ghost predicate AliasesMoved(before: map<SourceRef, string>, after: map<SourceRef, string>, oldRef: SourceRef,
                               newRef: SourceRef)
  {
    && oldRef !in after
    && (newRef in after <==> oldRef in before || newRef in before)
    && (newRef in after ==> after[newRef] == if newRef in before then before[newRef] else before[oldRef])
    && (forall r | r != oldRef && r != newRef ::
          (r in after <==> r in before) && (r in before ==> after[r] == before[r]))
  }

  lemma AliasesAreMoved(aliases: map<SourceRef, string>, oldRef: SourceRef, newRef: SourceRef)
    requires oldRef != newRef
    ensures AliasesMoved(aliases, MigrateAliases(aliases, oldRef, newRef), oldRef, newRef)
  {
  }

  /** The key of an ignored conflict: two references in sorted order. */
  datatype Conflict = Conflict(first: SourceRef, second: SourceRef)

  predicate Involves(k: Conflict, ref: SourceRef) {
    k.first == ref || k.second == ref
  }

  function RenameConflict(k: Conflict, oldRef: SourceRef, newRef: SourceRef): Conflict {
    var a, b := Rename(oldRef, newRef, k.first), Rename(oldRef, newRef, k.second);
    if Less(b, a) then Conflict(b, a) else Conflict(a, b)
  }

  ghost predicate RenamedTo(done: set<Conflict>, k: Conflict, oldRef: SourceRef, newRef: SourceRef) {
    exists d :: d in done && RenameConflict(d, oldRef, newRef) == k
  }

  ghost predicate ValueOfRenamed(before: map<Conflict, string>, done: set<Conflict>, k: Conflict, value: string,
                                 oldRef: SourceRef, newRef: SourceRef)
  {
    exists d :: d in done && d in before && RenameConflict(d, oldRef, newRef) == k && value == before[d]
  }

  ghost predicate ConflictAt(before: map<Conflict, string>, after: map<Conflict, string>, done: set<Conflict>,
                             k: Conflict, oldRef: SourceRef, newRef: SourceRef)
  {
    && (k in after <==> (k in before && k !in done) || RenamedTo(done, k, oldRef, newRef))
    && (k in before && k !in done ==> after[k] == before[k])
    && (k in after && (k !in before || k in done) ==> ValueOfRenamed(before, done, k, after[k], oldRef, newRef))
  }

  /**
   The conflicts after those in `done` have been renamed; where the renamed key is taken, the entry that has it stays.
   */
  ghost predicate ConflictsRenamed(before: map<Conflict, string>, after: map<Conflict, string>, done: set<Conflict>,
                                   oldRef: SourceRef, newRef: SourceRef)
  {
    forall k :: ConflictAt(before, after, done, k, oldRef, newRef)
  }

  function ConflictsOf(conflicts: map<Conflict, string>, ref: SourceRef): set<Conflict> {
    set k | k in conflicts && Involves(k, ref)
  }

  // ---------------------------------------------------------------- the settings object

  /** The rewrite of one override list, and whether it changed anything. */
  method RewriteEntries(entries: seq<SourcePriority>, oldRef: SourceRef, newRef: SourceRef)
    returns (out: seq<SourcePriority>, changed: bool)
    ensures out == MigrateEntries(entries, oldRef, newRef)
    ensures changed <==> out != entries
  {
    out, changed := entries, false;
    if NamesEntry(entries, newRef) {
      var filtered := Filter(EntryIsNot(oldRef), entries);
      ShorterUnlessSame(EntryIsNot(oldRef), entries);
      if |filtered| != |entries| { out, changed := filtered, true; }
    } else {
      for i := 0 to |entries|
        invariant |out| == |entries|
        invariant forall k | 0 <= k < |entries| ::
          out[k] == (if k < i then RenameEntries(entries, oldRef, newRef)[k] else entries[k])
        invariant changed <==> exists k :: 0 <= k < |entries| && out[k] != entries[k]
      {
        if entries[i].sourceRef == oldRef {
          out := out[i := entries[i].(sourceRef := newRef)];
          changed := true;
          assert out[i] != entries[i];
        }
      }
      assert out == RenameEntries(entries, oldRef, newRef);
    }
  }

  class Settings {
    var priorityOverrides: map<Path, seq<SourcePriority>>
    var sourceAliases: map<SourceRef, string>
    var ignoredInstanceConflicts: map<Conflict, string>
    var priorityGroups: seq<PriorityGroup>

    constructor (overrides: map<Path, seq<SourcePriority>>, aliases: map<SourceRef, string>,
                 conflicts: map<Conflict, string>, groups: seq<PriorityGroup>)
      ensures priorityOverrides == overrides && sourceAliases == aliases
      ensures ignoredInstanceConflicts == conflicts && priorityGroups == groups
    {
      priorityOverrides, sourceAliases := overrides, aliases;
      ignoredInstanceConflicts, priorityGroups := conflicts, groups;
    }

    method MigrateOverridesInPlace(oldRef: SourceRef, newRef: SourceRef) returns (changed: bool)
      modifies this`priorityOverrides
      ensures priorityOverrides == MigrateOverrides(old(priorityOverrides), oldRef, newRef)
      ensures changed <==> priorityOverrides != old(priorityOverrides)
    {
      changed := false;
      var todo := priorityOverrides.Keys;
      while todo != {}
        invariant todo <= priorityOverrides.Keys == old(priorityOverrides).Keys
        invariant forall p | p in priorityOverrides ::
          priorityOverrides[p] == (if p in todo then old(priorityOverrides)[p]
                                   else MigrateEntries(old(priorityOverrides)[p], oldRef, newRef))
        invariant changed <==> exists p :: p in priorityOverrides && priorityOverrides[p] != old(priorityOverrides)[p]
      {
        var p :| p in todo;
        todo := todo - {p};
        var entries, rewritten := RewriteEntries(priorityOverrides[p], oldRef, newRef);
        priorityOverrides := priorityOverrides[p := entries];
        changed := changed || rewritten;
      }
    }

    method MigrateGroupsInPlace(oldRef: SourceRef, newRef: SourceRef) returns (changed: bool)
      modifies this`priorityGroups
      ensures priorityGroups == MigrateGroups(old(priorityGroups), oldRef, newRef)
      ensures changed <==> priorityGroups != old(priorityGroups)
    {
      changed := false;
      for i := 0 to |priorityGroups|
        invariant |priorityGroups| == |old(priorityGroups)|
        invariant forall k | 0 <= k < |priorityGroups| ::
          priorityGroups[k] == (if k < i then MigrateGroups(old(priorityGroups), oldRef, newRef)[k]
                                else old(priorityGroups)[k])
        invariant changed <==> exists k :: 0 <= k < |priorityGroups| && priorityGroups[k] != old(priorityGroups)[k]
      {
        var sources := priorityGroups[i].sources;
        var rewritten := sources;
        if newRef in sources {
          var filtered := Filter(RefIsNot(oldRef), sources);
          if |filtered| != |sources| { rewritten := filtered; } else { ShorterUnlessSame(RefIsNot(oldRef), sources); }
        } else {
          var idx := 0;
          while idx < |sources| && sources[idx] != oldRef
            invariant 0 <= idx <= |sources|
            invariant oldRef !in sources[..idx]
          {
            idx := idx + 1;
          }
          ReplaceFirstAt(sources, oldRef, newRef, idx);
          if idx < |sources| { rewritten := sources[idx := newRef]; }
        }
        if rewritten != sources {
          priorityGroups := priorityGroups[i := priorityGroups[i].(sources := rewritten)];
          changed := true;
          assert priorityGroups[i] != old(priorityGroups)[i];
        }
      }
    }

    /** The renamed keys are collected first and replaced one by one afterwards. */
    method MigrateConflictsInPlace(oldRef: SourceRef, newRef: SourceRef) returns (changed: bool)
      modifies this`ignoredInstanceConflicts
      ensures ConflictsRenamed(old(ignoredInstanceConflicts), ignoredInstanceConflicts,
                               ConflictsOf(old(ignoredInstanceConflicts), oldRef), oldRef, newRef)
      ensures changed <==> ConflictsOf(old(ignoredInstanceConflicts), oldRef) != {}
    {
      ghost var before := ignoredInstanceConflicts;
      assert ConflictsRenamed(before, before, {}, oldRef, newRef);
      hide ConflictsRenamed, RenameConflict;
      var updates := ConflictsOf(ignoredInstanceConflicts, oldRef);
      ghost var all := updates;
      changed := updates != {};
      assert all - updates == {};
      while updates != {}
        invariant updates <= all == ConflictsOf(before, oldRef)
        invariant ConflictsRenamed(before, ignoredInstanceConflicts, all - updates, oldRef, newRef)
      {
        var oldKey :| oldKey in updates;
        var newKey := RenameConflict(oldKey, oldRef, newRef);
        OneMoreConflict(before, ignoredInstanceConflicts, all - updates, oldKey, oldRef, newRef);
        assert all - (updates - {oldKey}) == (all - updates) + {oldKey};
        updates := updates - {oldKey};
        ignoredInstanceConflicts := ReplaceConflict(ignoredInstanceConflicts, oldKey, newKey);
      }
      assert all - updates == all;
    }

    /** `oldStillOnBus` is the takeover guard: the old CAN Name is still observed, so nothing is rewritten. */
    method MigrateSourceRef(oldRef: SourceRef, newRef: SourceRef, oldStillOnBus: bool) returns (changed: bool)
      modifies this
      ensures oldStillOnBus ==> unchanged(this)
      ensures !oldStillOnBus ==>
        && priorityOverrides == MigrateOverrides(old(priorityOverrides), oldRef, newRef)
        && sourceAliases == MigrateAliases(old(sourceAliases), oldRef, newRef)
        && (oldRef != newRef ==> AliasesMoved(old(sourceAliases), sourceAliases, oldRef, newRef))
        && ConflictsRenamed(old(ignoredInstanceConflicts), ignoredInstanceConflicts,
                            ConflictsOf(old(ignoredInstanceConflicts), oldRef), oldRef, newRef)
        && priorityGroups == MigrateGroups(old(priorityGroups), oldRef, newRef)
      ensures !oldStillOnBus ==>
        (changed <==> priorityOverrides != old(priorityOverrides) || sourceAliases != old(sourceAliases)
                      || priorityGroups != old(priorityGroups)
                        || ConflictsOf(old(ignoredInstanceConflicts), oldRef) != {})
      ensures oldRef != newRef ==> (changed <==> !unchanged(this))
    {
      if oldStillOnBus { return false; }
      var overridesChanged := MigrateOverridesInPlace(oldRef, newRef);
      var aliasesChanged := oldRef in sourceAliases;
      if aliasesChanged {
        if newRef !in sourceAliases {
          sourceAliases := sourceAliases[newRef := sourceAliases[oldRef]];
        }
        sourceAliases := sourceAliases - {oldRef};
      }
      var conflictsChanged := MigrateConflictsInPlace(oldRef, newRef);
      if oldRef != newRef {
        AliasesAreMoved(old(sourceAliases), oldRef, newRef);
        ConflictsForgetOldRef(old(ignoredInstanceConflicts), ignoredInstanceConflicts, oldRef, newRef);
      }
      var groupsChanged := MigrateGroupsInPlace(oldRef, newRef);
      changed := overridesChanged || aliasesChanged || conflictsChanged || groupsChanged;
    }
  }

  lemma {:induction false} ShorterUnlessSame<T(!new)>(keep: T -> bool, s: seq<T>)
    ensures |Filter(keep, s)| <= |s|
    ensures |Filter(keep, s)| == |s| ==> Filter(keep, s) == s
  {
    if s != [] {
      ShorterUnlessSame(keep, s[..|s| - 1]);
      assert s == s[..|s| - 1] + [s[|s| - 1]];
    }
  }

  lemma {:induction false} ReplaceFirstAt(refs: seq<SourceRef>, oldRef: SourceRef, newRef: SourceRef, idx: nat)
    requires idx <= |refs| && oldRef !in refs[..idx] && (idx < |refs| ==> refs[idx] == oldRef)
    ensures ReplaceFirst(refs, oldRef, newRef) == if idx < |refs| then refs[idx := newRef] else refs
  {
    if idx > 0 {
      assert refs[0] == refs[..idx][0];
      assert refs[1..][..idx - 1] == refs[..idx][1..];
      ReplaceFirstAt(refs[1..], oldRef, newRef, idx - 1);
    }
  }

  lemma RenamedOnce(d: Conflict, oldRef: SourceRef, newRef: SourceRef)
    requires Involves(RenameConflict(d, oldRef, newRef), oldRef)
    ensures RenameConflict(RenameConflict(d, oldRef, newRef), oldRef, newRef) == RenameConflict(d, oldRef, newRef)
  {
    LessTotal(Rename(oldRef, newRef, d.first), Rename(oldRef, newRef, d.second));
  }

  /**
   The settings map after one key has been deleted and its entry put back under the new name, unless that is taken.
   */
  function ReplaceConflict(now: map<Conflict, string>, oldKey: Conflict, newKey: Conflict): map<Conflict, string>
    requires oldKey in now
  {
    var without := now - {oldKey};
    if newKey in without then without else without[newKey := now[oldKey]]
  }

  /** Replacing one key is one more step of the renaming. */
  lemma OneMoreConflict(before: map<Conflict, string>, now: map<Conflict, string>, done: set<Conflict>,
                        oldKey: Conflict, oldRef: SourceRef, newRef: SourceRef)
    requires ConflictsRenamed(before, now, done, oldRef, newRef)
    requires oldKey in before && oldKey !in done && Involves(oldKey, oldRef)
    ensures oldKey in now
    ensures ConflictsRenamed(before, ReplaceConflict(now, oldKey, RenameConflict(oldKey, oldRef, newRef)),
      done + {oldKey},
                             oldRef, newRef)
  {
    assert ConflictAt(before, now, done, oldKey, oldRef, newRef);
    var after := ReplaceConflict(now, oldKey, RenameConflict(oldKey, oldRef, newRef));
    forall k ensures ConflictAt(before, after, done + {oldKey}, k, oldRef, newRef) {
      OneMoreConflictAt(before, now, done, oldKey, k, oldRef, newRef);
    }
  }

  lemma OneMoreConflictAt(before: map<Conflict, string>, now: map<Conflict, string>, done: set<Conflict>,
                          oldKey: Conflict, k: Conflict, oldRef: SourceRef, newRef: SourceRef)
    requires ConflictAt(before, now, done, k, oldRef, newRef) && ConflictAt(before, now, done, oldKey, oldRef, newRef)
    requires oldKey in before && oldKey !in done && oldKey in now && Involves(oldKey, oldRef)
    ensures ConflictAt(before, ReplaceConflict(now, oldKey, RenameConflict(oldKey, oldRef, newRef)), done + {oldKey}, k,
                       oldRef, newRef)
  {
    var newKey := RenameConflict(oldKey, oldRef, newRef);
    assert RenamedTo(done + {oldKey}, k, oldRef, newRef) <==> RenamedTo(done, k, oldRef, newRef) || k == newKey by {
      if k == newKey { assert oldKey in done + {oldKey}; }
      if d :| d in done && RenameConflict(d, oldRef, newRef) == k { assert d in done + {oldKey}; }
    }
    if RenamedTo(done, oldKey, oldRef, newRef) {
      var d :| d in done && RenameConflict(d, oldRef, newRef) == oldKey;
      RenamedOnce(d, oldRef, newRef);
    }
    assert k == newKey ==> ValueOfRenamed(before, done + {oldKey}, k, before[oldKey], oldRef, newRef) by {
      assert oldKey in done + {oldKey};
    }
    if k in now && ValueOfRenamed(before, done, k, now[k], oldRef, newRef) {
      var d :| d in done && d in before && RenameConflict(d, oldRef, newRef) == k && now[k] == before[d];
      assert d in done + {oldKey};
      assert ValueOfRenamed(before, done + {oldKey}, k, now[k], oldRef, newRef);
    }
    hide RenameConflict, RenamedTo, ValueOfRenamed;
  }

  // ---------------------------------------------------------------- what is left of the old reference

  /** The key stands for the two references, in either order. */
  predicate StandsFor(k: Conflict, a: SourceRef, b: SourceRef) {
    (k.first == a && k.second == b) || (k.first == b && k.second == a)
  }

  lemma RenamedConflictIs(k: Conflict, oldRef: SourceRef, newRef: SourceRef)
    ensures var renamed := RenameConflict(k, oldRef, newRef);
      && StandsFor(renamed, Rename(oldRef, newRef, k.first), Rename(oldRef, newRef, k.second))
      && !Less(renamed.second, renamed.first)
  {
    LessTotal(Rename(oldRef, newRef, k.first), Rename(oldRef, newRef, k.second));
  }

  /** The pair is ignored, in whichever order the key has it. */
  ghost predicate IsIgnored(conflicts: map<Conflict, string>, a: SourceRef, b: SourceRef) {
    exists k :: k in conflicts && StandsFor(k, a, b)
  }

  ghost predicate InOrder(conflicts: map<Conflict, string>) {
    forall k | k in conflicts :: !Less(k.second, k.first)
  }

  /**
   With two different references no ignored conflict names the old one, and every pair ignored before is ignored under
   the new name.
   */
  lemma ConflictsForgetOldRef(before: map<Conflict, string>, after: map<Conflict, string>, oldRef: SourceRef,
                              newRef: SourceRef)
    requires oldRef != newRef && ConflictsRenamed(before, after, ConflictsOf(before, oldRef), oldRef, newRef)
    ensures forall k | k in after :: k.first != oldRef && k.second != oldRef
    ensures forall k | k in before :: (if Involves(k, oldRef) then RenameConflict(k, oldRef, newRef) else k) in after
    ensures after == before <==> ConflictsOf(before, oldRef) == {}
  {
    var all := ConflictsOf(before, oldRef);
    forall k
      ensures k in after ==> !Involves(k, oldRef)
      ensures k in before ==> (if Involves(k, oldRef) then RenameConflict(k, oldRef, newRef) else k) in after
      ensures all == {} ==> (k in after <==> k in before) && (k in before ==> after[k] == before[k])
    {
      assert ConflictAt(before, after, all, k, oldRef, newRef);
      var renamed := RenameConflict(k, oldRef, newRef);
      assert ConflictAt(before, after, all, renamed, oldRef, newRef);
      if k in before && Involves(k, oldRef) { assert RenamedTo(all, renamed, oldRef, newRef); }
    }
    if k :| k in all { assert k in before && k !in after; }
  }

  /** Some pair ignored before has become this one. */
  ghost predicate CameFrom(before: map<Conflict, string>, n: Conflict, oldRef: SourceRef, newRef: SourceRef) {
    exists k :: k in before && StandsFor(n, Rename(oldRef, newRef, k.first), Rename(oldRef, newRef, k.second))
  }

  lemma ConflictFollows(before: map<Conflict, string>, after: map<Conflict, string>, oldRef: SourceRef,
                        newRef: SourceRef, k: Conflict)
    requires oldRef != newRef && ConflictsRenamed(before, after, ConflictsOf(before, oldRef), oldRef, newRef)
    requires k in before
    ensures IsIgnored(after, Rename(oldRef, newRef, k.first), Rename(oldRef, newRef, k.second))
  {
    ConflictsForgetOldRef(before, after, oldRef, newRef);
    hide ConflictsRenamed, RenameConflict;
    RenamedConflictIs(k, oldRef, newRef);
    var n := if Involves(k, oldRef) then RenameConflict(k, oldRef, newRef) else k;
    assert n in after && StandsFor(n, Rename(oldRef, newRef, k.first), Rename(oldRef, newRef, k.second));
  }

  lemma ConflictCameFrom(before: map<Conflict, string>, after: map<Conflict, string>, oldRef: SourceRef,
                         newRef: SourceRef, n: Conflict)
    requires oldRef != newRef && ConflictsRenamed(before, after, ConflictsOf(before, oldRef), oldRef, newRef)
    requires n in after
    ensures CameFrom(before, n, oldRef, newRef) && (n in before || !Less(n.second, n.first))
  {
    assert ConflictAt(before, after, ConflictsOf(before, oldRef), n, oldRef, newRef);
    hide ConflictsRenamed, RenameConflict, Less;
    if RenamedTo(ConflictsOf(before, oldRef), n, oldRef, newRef) {
      var k :| k in ConflictsOf(before, oldRef) && RenameConflict(k, oldRef, newRef) == n;
      RenamedConflictIs(k, oldRef, newRef);
    } else {
      assert n in before && StandsFor(n, Rename(oldRef, newRef, n.first), Rename(oldRef, newRef, n.second));
    }
  }

  /** The pairs ignored afterwards are those ignored before, under their new names, and keys stay in sorted order. */
  lemma ConflictsFollow(before: map<Conflict, string>, after: map<Conflict, string>, oldRef: SourceRef,
                        newRef: SourceRef)
    requires oldRef != newRef && ConflictsRenamed(before, after, ConflictsOf(before, oldRef), oldRef, newRef)
    ensures forall k | k in before ::
      IsIgnored(after, Rename(oldRef, newRef, k.first), Rename(oldRef, newRef, k.second))
    ensures forall n | n in after :: CameFrom(before, n, oldRef, newRef)
    ensures InOrder(before) ==> InOrder(after)
  {
    hide ConflictsRenamed, ConflictsOf, CameFrom, IsIgnored, Less;
    forall k | k in before
      ensures IsIgnored(after, Rename(oldRef, newRef, k.first), Rename(oldRef, newRef, k.second))
    {
      ConflictFollows(before, after, oldRef, newRef, k);
    }
    forall n | n in after ensures CameFrom(before, n, oldRef, newRef) && (n in before || !Less(n.second, n.first)) {
      ConflictCameFrom(before, after, oldRef, newRef, n);
    }
  }

  function OtherEntry(oldRef: SourceRef, newRef: SourceRef): SourcePriority -> bool {
    (e: SourcePriority) => e.sourceRef != oldRef && e.sourceRef != newRef
  }

  lemma {:induction false} OthersAfterFilter<T(!new)>(keep: T -> bool, other: T -> bool, s: seq<T>)
    requires forall x :: other(x) ==> keep(x)
    ensures Filter(other, Filter(keep, s)) == Filter(other, s)
  {
    if s != [] {
      var init, x := s[..|s| - 1], s[|s| - 1];
      OthersAfterFilter(keep, other, init);
      FilterLast(other, Filter(keep, init), x);
    }
  }

  lemma {:induction false} OthersAfterRename(entries: seq<SourcePriority>, oldRef: SourceRef, newRef: SourceRef)
    ensures Filter(OtherEntry(oldRef, newRef), RenameEntries(entries, oldRef, newRef))
      == Filter(OtherEntry(oldRef, newRef), entries)
  {
    if entries != [] {
      var init, e := entries[..|entries| - 1], entries[|entries| - 1];
      OthersAfterRename(init, oldRef, newRef);
      var e' := e.(sourceRef := Rename(oldRef, newRef, e.sourceRef));
      assert RenameEntries(entries, oldRef, newRef) == RenameEntries(init, oldRef, newRef) + [e'];
      FilterLast(OtherEntry(oldRef, newRef), RenameEntries(init, oldRef, newRef), e');
    }
  }

  /** No override names the old reference any more, and every third source keeps its entries in order. */
  lemma OverridesForgetOldRef(entries: seq<SourcePriority>, oldRef: SourceRef, newRef: SourceRef)
    requires oldRef != newRef
    ensures var after := MigrateEntries(entries, oldRef, newRef);
      && !NamesEntry(after, oldRef)
      && (NamesEntry(after, newRef) <==> NamesEntry(entries, oldRef) || NamesEntry(entries, newRef))
      && Filter(OtherEntry(oldRef, newRef), after) == Filter(OtherEntry(oldRef, newRef), entries)
  {
    if NamesEntry(entries, newRef) {
      OthersAfterFilter(EntryIsNot(oldRef), OtherEntry(oldRef, newRef), entries);
      var i :| 0 <= i < |entries| && entries[i].sourceRef == newRef;
      assert entries[i] in Filter(EntryIsNot(oldRef), entries);
      var after := Filter(EntryIsNot(oldRef), entries);
      forall k | 0 <= k < |after| ensures after[k].sourceRef != oldRef { assert after[k] in after; }
    } else {
      OthersAfterRename(entries, oldRef, newRef);
      var after := RenameEntries(entries, oldRef, newRef);
      forall k | 0 <= k < |entries| ensures after[k].sourceRef != oldRef {}
      if NamesEntry(entries, oldRef) {
        var i :| 0 <= i < |entries| && entries[i].sourceRef == oldRef;
        assert after[i].sourceRef == newRef;
      }
    }
  }

  lemma {:induction false} ReplaceFirstFacts(refs: seq<SourceRef>, oldRef: SourceRef, newRef: SourceRef)
    requires newRef !in refs
    ensures var after := ReplaceFirst(refs, oldRef, newRef);
      && (forall r | r != oldRef && r != newRef :: r in after <==> r in refs)
      && (newRef in after <==> oldRef in refs)
      && (oldRef in after <==> multiset(refs)[oldRef] >= 2)
  {
    if refs != [] {
      assert refs == [refs[0]] + refs[1..];
      ReplaceFirstFacts(refs[1..], oldRef, newRef);
    }
  }

  /**
   The old reference survives in a group exactly when the group lists it twice and lacks the new one; the group lists
   the new reference exactly when it listed either.
   */
  lemma GroupsForgetOldRefExactlyWhen(refs: seq<SourceRef>, oldRef: SourceRef, newRef: SourceRef)
    requires oldRef != newRef
    ensures var after := MigrateSources(refs, oldRef, newRef);
      && (oldRef in after <==> newRef !in refs && multiset(refs)[oldRef] >= 2)
      && (newRef in after <==> oldRef in refs || newRef in refs)
      && (forall r | r != oldRef && r != newRef :: r in after <==> r in refs)
  {
    if newRef !in refs { ReplaceFirstFacts(refs, oldRef, newRef); }
  }

  lemma {:induction false} ReplaceFirstRenames(refs: seq<SourceRef>, oldRef: SourceRef, newRef: SourceRef)
    requires Distinct(refs)
    ensures ReplaceFirst(refs, oldRef, newRef) == RenameRefs(refs, oldRef, newRef)
  {
    if refs != [] {
      var rest := refs[1..];
      ReplaceFirstRenames(rest, oldRef, newRef);
      assert RenameRefs(refs, oldRef, newRef) == [Rename(oldRef, newRef, refs[0])] + RenameRefs(rest, oldRef, newRef);
      if refs[0] == oldRef {
        assert forall i | 0 <= i < |rest| :: rest[i] == refs[i + 1] != oldRef;
        assert rest == RenameRefs(rest, oldRef, newRef);
      }
    }
  }

  /**
   A configuration the save validator accepts stays acceptable exactly when no two active groups of different ids hold
   the old and the new reference apart.
   */
  lemma DisjointnessKeptExactlyWhen(groups: seq<PriorityGroup>, oldRef: SourceRef, newRef: SourceRef)
    requires oldRef != newRef && NoSharedSource(groups)
    ensures NoSharedSource(MigrateGroups(groups, oldRef, newRef)) <==>
      forall i, j | 0 <= i < |groups| && 0 <= j < |groups| && !groups[i].inactive && !groups[j].inactive
        && oldRef in groups[i].sources && newRef in groups[j].sources :: groups[i].id == groups[j].id
  {
    hide MigrateSources;
    var after := MigrateGroups(groups, oldRef, newRef);
    forall i, r | 0 <= i < |groups|
      ensures r in after[i].sources ==> r in groups[i].sources || (r == newRef && oldRef in groups[i].sources)
      ensures newRef in after[i].sources <==> oldRef in groups[i].sources || newRef in groups[i].sources
    {
      GroupsForgetOldRefExactlyWhen(groups[i].sources, oldRef, newRef);
    }
    if i, j :| (0 <= i < |groups| && 0 <= j < |groups| && !groups[i].inactive && !groups[j].inactive
                && oldRef in groups[i].sources && newRef in groups[j].sources && groups[i].id != groups[j].id)
    {
      assert newRef in after[i].sources && newRef in after[j].sources;
    }
  }

  // ---------------------------------------------------------------- the engine decides as before

  /**
   The references a run and a configuration may mention: closed under the canonicaliser, which commutes with the
   renaming, none of them the new reference, and none sharing a device identity with either end of the renaming.
   */
  ghost predicate Scope(xs: set<SourceRef>, oldRef: SourceRef, newRef: SourceRef, canon: SourceRef -> SourceRef,
                        canon': SourceRef -> SourceRef)
  {
    && "" in xs && FANOUT_SOURCEREF in xs && newRef !in xs && oldRef != newRef
    && oldRef != "" && oldRef != FANOUT_SOURCEREF
    && (forall x | x in xs :: canon(x) in xs && canon'(Rename(oldRef, newRef, x)) == Rename(oldRef, newRef, canon(x)))
    && (forall x | x in xs && x != oldRef ::
          SourceRefIdentity(x) != SourceRefIdentity(oldRef) && SourceRefIdentity(x) != SourceRefIdentity(newRef))
  }

  type Pairs = set<(Identity, Identity)>

  /** The identity of each reference in scope, before and after the renaming. */
  ghost function IdentityPairs(xs: set<SourceRef>, oldRef: SourceRef, newRef: SourceRef): Pairs {
    set x | x in xs :: (SourceRefIdentity(x), SourceRefIdentity(Rename(oldRef, newRef, x)))
  }

  /** The renaming neither merges nor splits devices. */
  ghost predicate OneToOne(pairs: Pairs) {
    forall a, b | a in pairs && b in pairs :: a.0 == b.0 <==> a.1 == b.1
  }

  lemma ScopeIsOneToOne(xs: set<SourceRef>, oldRef: SourceRef, newRef: SourceRef, canon: SourceRef -> SourceRef,
                        canon': SourceRef -> SourceRef)
    requires Scope(xs, oldRef, newRef, canon, canon')
    ensures OneToOne(IdentityPairs(xs, oldRef, newRef))
  {
  }

  /** `m'` says of a renamed identity what `m` says of the original. */
  ghost predicate SameUnder<V>(pairs: Pairs, m: map<Identity, V>, m': map<Identity, V>) {
    forall a | a in pairs :: (a.0 in m <==> a.1 in m') && (a.0 in m ==> m[a.0] == m'[a.1])
  }

  ghost predicate PairedRefs(pairs: Pairs, refs: seq<SourceRef>, refs': seq<SourceRef>) {
    |refs| == |refs'| && forall i | 0 <= i < |refs| ::
      (SourceRefIdentity(refs[i]), SourceRefIdentity(refs'[i])) in pairs
  }

  ghost predicate PairedEntries(pairs: Pairs, entries: seq<SourcePriority>, entries': seq<SourcePriority>) {
    |entries| == |entries'| && forall i | 0 <= i < |entries| ::
      (SourceRefIdentity(entries[i].sourceRef), SourceRefIdentity(entries'[i].sourceRef)) in pairs
      && entries[i].timeout == entries'[i].timeout
  }

  ghost predicate RefsIn(refs: seq<SourceRef>, xs: set<SourceRef>) {
    forall i | 0 <= i < |refs| :: refs[i] in xs
  }

  ghost predicate EntriesIn(entries: seq<SourcePriority>, xs: set<SourceRef>) {
    forall i | 0 <= i < |entries| :: entries[i].sourceRef in xs
  }

  lemma {:induction false} OverrideRanksKept(pairs: Pairs, entries: seq<SourcePriority>, entries': seq<SourcePriority>)
    requires OneToOne(pairs) && PairedEntries(pairs, entries, entries')
    ensures SameUnder(pairs, OverridePrecedences(entries), OverridePrecedences(entries'))
  {
    hide SourceRefIdentity;
    if entries != [] {
      OverrideRanksKept(pairs, entries[..|entries| - 1], entries'[..|entries| - 1]);
    }
  }

  lemma {:induction false} GroupRanksKept(pairs: Pairs, refs: seq<SourceRef>, refs': seq<SourceRef>, fallbackMs: int)
    requires OneToOne(pairs) && PairedRefs(pairs, refs, refs')
    ensures SameUnder(pairs, GroupRanking(refs, fallbackMs), GroupRanking(refs', fallbackMs))
  {
    hide SourceRefIdentity;
    if refs != [] {
      GroupRanksKept(pairs, refs[..|refs| - 1], refs'[..|refs| - 1], fallbackMs);
    }
  }

  lemma {:induction false} ClaimsKept(pairs: Pairs, owners: map<Identity, string>, owners': map<Identity, string>,
                                      refs: seq<SourceRef>, refs': seq<SourceRef>, id: string)
    requires OneToOne(pairs) && PairedRefs(pairs, refs, refs') && SameUnder(pairs, owners, owners')
    ensures SameUnder(pairs, ClaimSources(owners, refs, id), ClaimSources(owners', refs', id))
  {
    hide SourceRefIdentity;
    if refs != [] {
      ClaimsKept(pairs, owners, owners', refs[..|refs| - 1], refs'[..|refs| - 1], id);
    }
  }

  lemma {:induction false} ListingsKept(pairs: Pairs, listed: map<Identity, bool>, listed': map<Identity, bool>,
                                        refs: seq<SourceRef>, refs': seq<SourceRef>, inactive: bool)
    requires OneToOne(pairs) && PairedRefs(pairs, refs, refs') && SameUnder(pairs, listed, listed')
    ensures SameUnder(pairs, ListSources(listed, refs, inactive), ListSources(listed', refs', inactive))
  {
    hide SourceRefIdentity;
    if refs != [] {
      ListingsKept(pairs, listed, listed', refs[..|refs| - 1], refs'[..|refs| - 1], inactive);
    }
  }

  ghost predicate PairedGroups(pairs: Pairs, groups: seq<PriorityGroup>, groups': seq<PriorityGroup>) {
    |groups| == |groups'| && forall i | 0 <= i < |groups| ::
      (PairedRefs(pairs, groups[i].sources, groups'[i].sources)
       && groups[i].id == groups'[i].id && groups[i].inactive == groups'[i].inactive)
  }

  ghost predicate SameRankings(pairs: Pairs, rankings: map<string, Precedences>, rankings': map<string, Precedences>) {
    rankings.Keys == rankings'.Keys && forall g | g in rankings :: SameUnder(pairs, rankings[g], rankings'[g])
  }

  lemma {:induction false} GroupTablesKept(pairs: Pairs, groups: seq<PriorityGroup>, groups': seq<PriorityGroup>,
                                           fallbackMs: int)
    requires OneToOne(pairs) && PairedGroups(pairs, groups, groups')
    ensures SameUnder(pairs, SourceToGroup(groups), SourceToGroup(groups'))
    ensures SameUnder(pairs, Listings(groups), Listings(groups'))
    ensures SameRankings(pairs, GroupRankings(groups, fallbackMs), GroupRankings(groups', fallbackMs))
  {
    if groups != [] {
      var n := |groups| - 1;
      var before, before', g, g' := groups[..n], groups'[..n], groups[n], groups'[n];
      GroupTablesKept(pairs, before, before', fallbackMs);
      ListingsKept(pairs, Listings(before), Listings(before'), g.sources, g'.sources, g.inactive);
      ClaimsKept(pairs, SourceToGroup(before), SourceToGroup(before'), g.sources, g'.sources, g.id);
      GroupRanksKept(pairs, g.sources, g'.sources, fallbackMs);
    }
  }

  /** Every configured reference is in scope and no group lists one twice. */
  ghost predicate ConfigIn(cfg: Config, xs: set<SourceRef>) {
    && (forall p | p in cfg.overrides :: EntriesIn(cfg.overrides[p], xs))
    && (forall i | 0 <= i < |cfg.groups| :: RefsIn(cfg.groups[i].sources, xs) && Distinct(cfg.groups[i].sources))
  }

  /** The exclude identities of a per-subscription engine, from the references its subscriber names. */
  function ExcludeIdentities(canon: SourceRef -> SourceRef, refs: set<SourceRef>): set<Identity> {
    set r | r in refs && r != "" :: SourceRefIdentity(canon(r))
  }

  function RenameSet(refs: set<SourceRef>, oldRef: SourceRef, newRef: SourceRef): set<SourceRef> {
    set r | r in refs :: Rename(oldRef, newRef, r)
  }

  function RenameSeed(seed: map<Path, seq<SourceRef>>, oldRef: SourceRef, newRef: SourceRef)
    : map<Path, seq<SourceRef>>
  {
    map p | p in seed :: RenameRefs(seed[p], oldRef, newRef)
  }

  /** The engine's configuration from the migrated settings, with seed and excluded references under the new name. */
  function Migrate(cfg: Config, excluded: set<SourceRef>, oldRef: SourceRef, newRef: SourceRef,
                   canon': SourceRef -> SourceRef): Config
  {
    cfg.(overrides := MigrateOverrides(cfg.overrides, oldRef, newRef),
         groups := MigrateGroups(cfg.groups, oldRef, newRef), canonicalise := canon',
         seed := RenameSeed(cfg.seed, oldRef, newRef),
         excludes := ExcludeIdentities(canon', RenameSet(excluded, oldRef, newRef)))
  }

  /** The canonical forms of a reference and of its renaming are paired. */
  lemma CanonicalPair(xs: set<SourceRef>, oldRef: SourceRef, newRef: SourceRef, canon: SourceRef -> SourceRef,
                      canon': SourceRef -> SourceRef, x: SourceRef)
    requires Scope(xs, oldRef, newRef, canon, canon') && x in xs
    ensures (SourceRefIdentity(canon(x)), SourceRefIdentity(canon'(Rename(oldRef, newRef, x))))
         in IdentityPairs(xs, oldRef, newRef)
    ensures x != "" <==> Rename(oldRef, newRef, x) != ""
  {
    hide SourceRefIdentity, IdentityPairs;
    InPairs(xs, oldRef, newRef, canon(x));
  }

  lemma ExcludesKept(xs: set<SourceRef>, oldRef: SourceRef, newRef: SourceRef, canon: SourceRef -> SourceRef,
                     canon': SourceRef -> SourceRef, excluded: set<SourceRef>, a: (Identity, Identity))
    requires Scope(xs, oldRef, newRef, canon, canon') && excluded <= xs && a in IdentityPairs(xs, oldRef, newRef)
    ensures a.0 in ExcludeIdentities(canon, excluded)
      <==> a.1 in ExcludeIdentities(canon', RenameSet(excluded, oldRef, newRef))
  {
    ScopeIsOneToOne(xs, oldRef, newRef, canon, canon');
    forall r | r in excluded
      ensures r != "" <==> Rename(oldRef, newRef, r) != ""
      ensures SourceRefIdentity(canon(r)) == a.0 <==> SourceRefIdentity(canon'(Rename(oldRef, newRef, r))) == a.1
    {
      CanonicalPair(xs, oldRef, newRef, canon, canon', r);
    }
    hide SourceRefIdentity, IdentityPairs, Scope, OneToOne, Rename;
    if a.0 in ExcludeIdentities(canon, excluded) {
      var r :| r in excluded && r != "" && SourceRefIdentity(canon(r)) == a.0;
      assert Rename(oldRef, newRef, r) in RenameSet(excluded, oldRef, newRef);
    }
  }

  lemma MigratedGroupsPaired(xs: set<SourceRef>, oldRef: SourceRef, newRef: SourceRef, groups: seq<PriorityGroup>)
    requires newRef !in xs
    requires forall i | 0 <= i < |groups| :: RefsIn(groups[i].sources, xs) && Distinct(groups[i].sources)
    ensures PairedGroups(IdentityPairs(xs, oldRef, newRef), groups, MigrateGroups(groups, oldRef, newRef))
  {
    var pairs := IdentityPairs(xs, oldRef, newRef);
    forall i | 0 <= i < |groups|
      ensures PairedRefs(pairs, groups[i].sources, MigrateGroups(groups, oldRef, newRef)[i].sources)
    {
      var refs := groups[i].sources;
      assert newRef !in refs;
      ReplaceFirstRenames(refs, oldRef, newRef);
      RenamedRefsPaired(xs, oldRef, newRef, refs);
    }
  }

  lemma RenamedRefsPaired(xs: set<SourceRef>, oldRef: SourceRef, newRef: SourceRef, refs: seq<SourceRef>)
    requires RefsIn(refs, xs)
    ensures PairedRefs(IdentityPairs(xs, oldRef, newRef), refs, RenameRefs(refs, oldRef, newRef))
  {
  }

  lemma RenamedEntriesPaired(xs: set<SourceRef>, oldRef: SourceRef, newRef: SourceRef, entries: seq<SourcePriority>)
    requires newRef !in xs && EntriesIn(entries, xs)
    ensures PairedEntries(IdentityPairs(xs, oldRef, newRef), entries, RenameEntries(entries, oldRef, newRef))
    ensures MigrateEntries(entries, oldRef, newRef) == RenameEntries(entries, oldRef, newRef)
  {
  }

  lemma DormancyKept(pairs: Pairs, entries: seq<SourcePriority>, entries': seq<SourcePriority>,
                     groups: seq<PriorityGroup>, groups': seq<PriorityGroup>)
    requires PairedEntries(pairs, entries, entries') && |groups| == |groups'|
    requires forall i | 0 <= i < |entries| ::
      ((entries[i].sourceRef == "" <==> entries'[i].sourceRef == "")
       && (entries[i].sourceRef == FANOUT_SOURCEREF <==> entries'[i].sourceRef == FANOUT_SOURCEREF))
    requires SameUnder(pairs, Listings(groups), Listings(groups'))
    ensures IsDormant(entries', groups') <==> IsDormant(entries, groups)
    ensures IsFanOut(entries') <==> IsFanOut(entries)
  {
    forall i | 0 <= i < |entries|
      ensures Ineligible(Listings(groups'), entries'[i]) <==> Ineligible(Listings(groups), entries[i])
    {
      assert (SourceRefIdentity(entries[i].sourceRef), SourceRefIdentity(entries'[i].sourceRef)) in pairs;
    }
  }

  /** The compiled tables before and after, in step identity by identity. */
  ghost predicate SameTables(pairs: Pairs, t: Tables, t': Tables) {
    && t.fanOut == t'.fanOut
    && SameRankings(pairs, t.overrides, t'.overrides) && SameRankings(pairs, t.groups, t'.groups)
    && SameUnder(pairs, t.sourceGroup, t'.sourceGroup)
    && t.unknownTimeout == t'.unknownTimeout
    && forall a | a in pairs :: a.0 in t.excludes <==> a.1 in t'.excludes
  }

  lemma OverrideKept(xs: set<SourceRef>, oldRef: SourceRef, newRef: SourceRef, entries: seq<SourcePriority>,
                     groups: seq<PriorityGroup>, groups': seq<PriorityGroup>)
    requires newRef !in xs && "" in xs && FANOUT_SOURCEREF in xs && oldRef != "" && oldRef != FANOUT_SOURCEREF
    requires EntriesIn(entries, xs) && |groups| == |groups'| && OneToOne(IdentityPairs(xs, oldRef, newRef))
    requires SameUnder(IdentityPairs(xs, oldRef, newRef), Listings(groups), Listings(groups'))
    ensures var entries' := MigrateEntries(entries, oldRef, newRef);
      && (IsDormant(entries', groups') <==> IsDormant(entries, groups))
      && (IsFanOut(entries') <==> IsFanOut(entries))
      && SameUnder(IdentityPairs(xs, oldRef, newRef), OverridePrecedences(entries), OverridePrecedences(entries'))
  {
    var pairs := IdentityPairs(xs, oldRef, newRef);
    RenamedEntriesPaired(xs, oldRef, newRef, entries);
    var entries' := RenameEntries(entries, oldRef, newRef);
    DormancyKept(pairs, entries, entries', groups, groups');
    OverrideRanksKept(pairs, entries, entries');
  }

  lemma OverrideTablesKept(pairs: Pairs, cfg: Config, cfg': Config)
    requires cfg.overrides.Keys == cfg'.overrides.Keys
    requires forall p | p in cfg.overrides ::
      ((IsDormant(cfg'.overrides[p], cfg'.groups) <==> IsDormant(cfg.overrides[p], cfg.groups))
       && (IsFanOut(cfg'.overrides[p]) <==> IsFanOut(cfg.overrides[p]))
       && SameUnder(pairs, OverridePrecedences(cfg.overrides[p]), OverridePrecedences(cfg'.overrides[p])))
    ensures Compile(cfg).fanOut == Compile(cfg').fanOut
    ensures SameRankings(pairs, Compile(cfg).overrides, Compile(cfg').overrides)
  {
    hide IsDormant, IsFanOut, SameUnder, OverridePrecedences, SourceToGroup, GroupRankings;
    assert ActiveOverrides(cfg).Keys == ActiveOverrides(cfg').Keys;
  }

  lemma TablesKept(xs: set<SourceRef>, oldRef: SourceRef, newRef: SourceRef, cfg: Config, excluded: set<SourceRef>,
                   canon': SourceRef -> SourceRef)
    requires Scope(xs, oldRef, newRef, cfg.canonicalise, canon') && ConfigIn(cfg, xs)
    requires excluded <= xs && cfg.excludes == ExcludeIdentities(cfg.canonicalise, excluded)
    ensures SameTables(IdentityPairs(xs, oldRef, newRef), Compile(cfg),
      Compile(Migrate(cfg, excluded, oldRef, newRef, canon')))
  {
    hide SourceRefIdentity, IsDormant, IsFanOut, SameUnder, OverridePrecedences, MigrateEntries, IdentityPairs;
    hide SourceToGroup, GroupRankings, Listings, ExcludeIdentities, RenameSet, RenameSeed;
    var cfg' := Migrate(cfg, excluded, oldRef, newRef, canon');
    var pairs := IdentityPairs(xs, oldRef, newRef);
    ScopeIsOneToOne(xs, oldRef, newRef, cfg.canonicalise, canon');
    MigratedGroupsPaired(xs, oldRef, newRef, cfg.groups);
    GroupTablesKept(pairs, cfg.groups, cfg'.groups, cfg.fallbackMs);
    forall p | p in cfg.overrides
      ensures IsDormant(cfg'.overrides[p], cfg'.groups) <==> IsDormant(cfg.overrides[p], cfg.groups)
      ensures IsFanOut(cfg'.overrides[p]) <==> IsFanOut(cfg.overrides[p])
      ensures SameUnder(pairs, OverridePrecedences(cfg.overrides[p]), OverridePrecedences(cfg'.overrides[p]))
    {
      OverrideKept(xs, oldRef, newRef, cfg.overrides[p], cfg.groups, cfg'.groups);
    }
    OverrideTablesKept(pairs, cfg, cfg');
    forall a | a in pairs ensures a.0 in cfg.excludes <==> a.1 in cfg'.excludes {
      ExcludesKept(xs, oldRef, newRef, cfg.canonicalise, canon', excluded, a);
    }
  }

  function RenameEvent(oldRef: SourceRef, newRef: SourceRef, e: Event): Event {
    e.(source := Rename(oldRef, newRef, e.source))
  }

  function RenameRun(oldRef: SourceRef, newRef: SourceRef, es: seq<Event>): seq<Event> {
    seq(|es|, i requires 0 <= i < |es| => RenameEvent(oldRef, newRef, es[i]))
  }

  lemma RenameRunLast(oldRef: SourceRef, newRef: SourceRef, es: seq<Event>, e: Event)
    ensures RenameRun(oldRef, newRef, es + [e]) == RenameRun(oldRef, newRef, es) + [RenameEvent(oldRef, newRef, e)]
  {
  }

  /** Same claim, and the same incumbent up to the renaming. */
  ghost predicate SameSlice(xs: set<SourceRef>, oldRef: SourceRef, newRef: SourceRef, ps: PathState, ps': PathState) {
    && ps.claim == ps'.claim && ps.latest.sourceRef in xs
    && ps'.latest == TimestampedSource(Rename(oldRef, newRef, ps.latest.sourceRef), ps.latest.timestamp)
  }

  /** A preference depends on the sources only through their ranks and on whether they are the same. */
  lemma PreferenceKept(pairs: Pairs, t: Tables, t': Tables, ranking: Precedences, ranking': Precedences,
                       latest: TimestampedSource, latest': TimestampedSource, src: SourceRef, src': SourceRef, now: int)
    requires SameUnder(pairs, ranking, ranking') && t.unknownTimeout == t'.unknownTimeout
    requires (Key(t, src), Key(t', src')) in pairs && (Key(t, latest.sourceRef), Key(t', latest'.sourceRef)) in pairs
    requires (latest.sourceRef == src <==> latest'.sourceRef == src') && latest.timestamp == latest'.timestamp
    ensures IsPreferred(t, ranking, latest, src, now) <==> IsPreferred(t', ranking', latest', src', now)
  {
    hide SourceRefIdentity;
  }

  lemma InPairs(xs: set<SourceRef>, oldRef: SourceRef, newRef: SourceRef, x: SourceRef)
    requires x in xs
    ensures (SourceRefIdentity(x), SourceRefIdentity(Rename(oldRef, newRef, x))) in IdentityPairs(xs, oldRef, newRef)
  {
  }

  lemma GoverningKept(pairs: Pairs, t: Tables, t': Tables, claim: Option<string>, p: Path, src: SourceRef,
                      src': SourceRef)
    requires SameTables(pairs, t, t') && (SourceRefIdentity(src), SourceRefIdentity(src')) in pairs
    ensures GroupOf(t, SourceRefIdentity(src)) == GroupOf(t', SourceRefIdentity(src'))
    ensures var g, g' := Governing(t, claim, p, src), Governing(t', claim, p, src');
      (g.Some? <==> g'.Some?) && (g.Some? ==> SameUnder(pairs, g.value, g'.value))
  {
    hide SourceRefIdentity;
  }

  lemma SliceStepKept(xs: set<SourceRef>, oldRef: SourceRef, newRef: SourceRef, t: Tables, t': Tables, p: Path,
                      ps: PathState, ps': PathState, e: Event)
    requires Scope(xs, oldRef, newRef, t.canonicalise, t'.canonicalise)
    requires SameTables(IdentityPairs(xs, oldRef, newRef), t, t')
    requires SameSlice(xs, oldRef, newRef, ps, ps') && e.source in xs
    ensures var (ps1, ok) := PathStep(t, p, ps, e);
      var (ps1', ok') := PathStep(t', p, ps', RenameEvent(oldRef, newRef, e));
      ok == ok' && SameSlice(xs, oldRef, newRef, ps1, ps1')
  {
    hide SourceRefIdentity, IsPreferred, Governing, IdentityPairs, SameUnder, GroupOf, PathStep;
    var pairs := IdentityPairs(xs, oldRef, newRef);
    var src, src' := t.canonicalise(e.source), t'.canonicalise(Rename(oldRef, newRef, e.source));
    assert src in xs && src' == Rename(oldRef, newRef, src);
    InPairs(xs, oldRef, newRef, src);
    InPairs(xs, oldRef, newRef, t.canonicalise(src));
    InPairs(xs, oldRef, newRef, t.canonicalise(ps.latest.sourceRef));
    var group := GroupOf(t, SourceRefIdentity(src));
    var claim := if p !in t.overrides && group.Some? && ps.claim.None? then group else ps.claim;
    GoverningKept(pairs, t, t', claim, p, src, src');
    var e' := RenameEvent(oldRef, newRef, e);
    assert Excluded(t, e.source) <==> Excluded(t', e'.source);
    if Excluded(t, e.source) || Bypasses(t, p) {
      PathStepIdle(t, p, ps, e);
      PathStepIdle(t', p, ps', e');
    } else {
      PathStepJudged(t, p, ps, e, claim);
      PathStepJudged(t', p, ps', e', claim);
      var g, g' := Governing(t, claim, p, src), Governing(t', claim, p, src');
      if g.Some? {
        PreferenceKept(pairs, t, t', g.value, g'.value, ps.latest, ps'.latest, src, src', e.now);
      }
    }
  }

  ghost predicate SameState(xs: set<SourceRef>, oldRef: SourceRef, newRef: SourceRef, self: Context, st: State,
                            st': State) {
    forall p :: SameSlice(xs, oldRef, newRef, Slice(st, self, p), Slice(st', self, p))
  }

  lemma StateStepKept(xs: set<SourceRef>, oldRef: SourceRef, newRef: SourceRef, t: Tables, t': Tables, self: Context,
                      st: State, st': State, e: Event)
    requires Scope(xs, oldRef, newRef, t.canonicalise, t'.canonicalise)
    requires SameTables(IdentityPairs(xs, oldRef, newRef), t, t')
    requires SameState(xs, oldRef, newRef, self, st, st') && e.source in xs
    ensures var (st1, ok) := Step(t, self, st, e);
      var (st1', ok') := Step(t', self, st', RenameEvent(oldRef, newRef, e));
      ok == ok' && SameState(xs, oldRef, newRef, self, st1, st1')
  {
    hide Step, PathStep, SameTables, Scope, Slice, SameSlice, IdentityPairs;
    var e' := RenameEvent(oldRef, newRef, e);
    SliceStepKept(xs, oldRef, newRef, t, t', e.path, Slice(st, self, e.path), Slice(st', self, e.path), e);
    SliceOfStep(t, self, st, e, e.path);
    SliceOfStep(t', self, st', e', e.path);
    forall p
      ensures SameSlice(xs, oldRef, newRef, Slice(Step(t, self, st, e).0, self, p),
        Slice(Step(t', self, st', e').0, self, p))
    {
      SliceOfStep(t, self, st, e, p);
      SliceOfStep(t', self, st', e', p);
    }
  }

  lemma {:induction false} RunKept(xs: set<SourceRef>, oldRef: SourceRef, newRef: SourceRef, t: Tables, t': Tables,
                                   self: Context, st: State, st': State, es: seq<Event>)
    requires Scope(xs, oldRef, newRef, t.canonicalise, t'.canonicalise)
    requires SameTables(IdentityPairs(xs, oldRef, newRef), t, t') && SameState(xs, oldRef, newRef, self, st, st')
    requires forall e | e in es :: e.source in xs
    ensures SameState(xs, oldRef, newRef, self, After(t, self, st, es),
      After(t', self, st', RenameRun(oldRef, newRef, es)))
    ensures Delivered(t', self, st', RenameRun(oldRef, newRef, es))
      == RenameRun(oldRef, newRef, Delivered(t, self, st, es))
  {
    hide Step, SameTables, Scope, SameState, IdentityPairs, RenameEvent, After, Delivered;
    if es == [] {
      RunNothing(t, self, st);
      RunNothing(t', self, st');
      assert RenameRun(oldRef, newRef, es) == [];
    } else {
      hide RenameRun;
      var init, e := es[..|es| - 1], es[|es| - 1];
      assert e in es && es == init + [e];
      RunKept(xs, oldRef, newRef, t, t', self, st, st', init);
      OneMoreKept(xs, oldRef, newRef, t, t', self, st, st', init, e);
    }
  }

  lemma OneMoreKept(xs: set<SourceRef>, oldRef: SourceRef, newRef: SourceRef, t: Tables, t': Tables, self: Context,
                    st: State, st': State, init: seq<Event>, e: Event)
    requires Scope(xs, oldRef, newRef, t.canonicalise, t'.canonicalise)
    requires SameTables(IdentityPairs(xs, oldRef, newRef), t, t') && e.source in xs
    requires var init' := RenameRun(oldRef, newRef, init);
      && SameState(xs, oldRef, newRef, self, After(t, self, st, init), After(t', self, st', init'))
      && Delivered(t', self, st', init') == RenameRun(oldRef, newRef, Delivered(t, self, st, init))
    ensures var es, es' := init + [e], RenameRun(oldRef, newRef, init + [e]);
      && SameState(xs, oldRef, newRef, self, After(t, self, st, es), After(t', self, st', es'))
      && Delivered(t', self, st', es') == RenameRun(oldRef, newRef, Delivered(t, self, st, es))
  {
    hide Step, SameTables, Scope, SameState, IdentityPairs, RenameEvent, RenameRun, After, Delivered;
    var init', e' := RenameRun(oldRef, newRef, init), RenameEvent(oldRef, newRef, e);
    RenameRunLast(oldRef, newRef, init, e);
    RunLast(t, self, st, init, e);
    RunLast(t', self, st', init', e');
    StateStepKept(xs, oldRef, newRef, t, t', self, After(t, self, st, init), After(t', self, st', init'), e);
    RenameRunLast(oldRef, newRef, Delivered(t, self, st, init), e);
  }

  // ---------------------------------------------------------------- seeded engines

  ghost predicate PairedIdentities(pairs: Pairs, ids: seq<Identity>, ids': seq<Identity>) {
    |ids| == |ids'| && forall i | 0 <= i < |ids| :: (ids[i], ids'[i]) in pairs
  }

  lemma PairedMembership(pairs: Pairs, ids: seq<Identity>, ids': seq<Identity>, a: (Identity, Identity))
    requires OneToOne(pairs) && PairedIdentities(pairs, ids, ids') && a in pairs
    ensures a.0 in ids <==> a.1 in ids'
  {
    forall i | 0 <= i < |ids| ensures ids[i] == a.0 <==> ids'[i] == a.1 {
      assert (ids[i], ids'[i]) in pairs;
    }
  }

  /** One more seeded reference on each side. */
  lemma SeedOneMore(pairs: Pairs, canon: SourceRef -> SourceRef, canon': SourceRef -> SourceRef, refs: seq<SourceRef>,
                    refs': seq<SourceRef>, r: SourceRef, r': SourceRef)
    requires OneToOne(pairs) && PairedIdentities(pairs, SeedIdentities(canon, refs), SeedIdentities(canon', refs'))
    requires (SourceRefIdentity(canon(r)), SourceRefIdentity(canon'(r'))) in pairs
    ensures PairedIdentities(pairs, SeedIdentities(canon, refs + [r]), SeedIdentities(canon', refs' + [r']))
  {
    hide SourceRefIdentity;
    assert (refs + [r])[..|refs|] == refs && (refs' + [r'])[..|refs'|] == refs';
    PairedMembership(pairs, SeedIdentities(canon, refs), SeedIdentities(canon', refs'),
                     (SourceRefIdentity(canon(r)), SourceRefIdentity(canon'(r'))));
    hide OneToOne;
  }

  lemma {:induction false} SeedIdentitiesKept(xs: set<SourceRef>, oldRef: SourceRef, newRef: SourceRef,
                                              canon: SourceRef -> SourceRef, canon': SourceRef -> SourceRef,
                                              refs: seq<SourceRef>)
    requires Scope(xs, oldRef, newRef, canon, canon') && RefsIn(refs, xs)
    ensures PairedIdentities(IdentityPairs(xs, oldRef, newRef), SeedIdentities(canon, refs),
                             SeedIdentities(canon', RenameRefs(refs, oldRef, newRef)))
  {
    hide SourceRefIdentity, IdentityPairs, Scope, OneToOne, Rename;
    if refs != [] {
      hide PairedIdentities, SeedIdentities;
      var init, r := refs[..|refs| - 1], refs[|refs| - 1];
      SeedIdentitiesKept(xs, oldRef, newRef, canon, canon', init);
      ScopeIsOneToOne(xs, oldRef, newRef, canon, canon');
      CanonicalPair(xs, oldRef, newRef, canon, canon', r);
      assert refs == init + [r];
      assert RenameRefs(refs, oldRef, newRef) == RenameRefs(init, oldRef, newRef) + [Rename(oldRef, newRef, r)];
      SeedOneMore(IdentityPairs(xs, oldRef, newRef), canon, canon', init, RenameRefs(init, oldRef, newRef),
                  r, Rename(oldRef, newRef, r));
    }
  }

  lemma {:induction false} FirstGroupKept(pairs: Pairs, t: Tables, t': Tables, ids: seq<Identity>, ids': seq<Identity>)
    requires SameTables(pairs, t, t') && PairedIdentities(pairs, ids, ids')
    ensures FirstGroup(t, ids) == FirstGroup(t', ids')
  {
    if ids != [] {
      assert (ids[0], ids'[0]) in pairs;
      FirstGroupKept(pairs, t, t', ids[1..], ids'[1..]);
    }
  }

  lemma SeededStatesAgree(xs: set<SourceRef>, oldRef: SourceRef, newRef: SourceRef, t: Tables, t': Tables,
                          self: Context, seed: map<Path, seq<SourceRef>>)
    requires Scope(xs, oldRef, newRef, t.canonicalise, t'.canonicalise)
    requires SameTables(IdentityPairs(xs, oldRef, newRef), t, t') && forall p | p in seed :: RefsIn(seed[p], xs)
    ensures SameState(xs, oldRef, newRef, self, SeededState(t, seed), SeededState(t', RenameSeed(seed, oldRef, newRef)))
  {
    hide SourceRefIdentity, SeedIdentities, SameTables, IdentityPairs;
    var seed', pairs := RenameSeed(seed, oldRef, newRef), IdentityPairs(xs, oldRef, newRef);
    forall p | p in seed
      ensures SeedClaim(t, SeedIdentities(t.canonicalise, seed[p]))
        == SeedClaim(t', SeedIdentities(t'.canonicalise, seed'[p]))
    {
      SeedIdentitiesKept(xs, oldRef, newRef, t.canonicalise, t'.canonicalise, seed[p]);
      FirstGroupKept(pairs, t, t', SeedIdentities(t.canonicalise, seed[p]), SeedIdentities(t'.canonicalise, seed'[p]));
    }
  }

  /**
   A fresh engine on the migrated configuration, seeded or not and with or without excludes, delivers from the renamed
   run exactly the renamed deliveries of a fresh engine on the old configuration.
   */
  lemma MigrationPreservesMeaning(xs: set<SourceRef>, oldRef: SourceRef, newRef: SourceRef, cfg: Config,
                                  excluded: set<SourceRef>, canon': SourceRef -> SourceRef, self: Context,
                                  es: seq<Event>)
    requires Scope(xs, oldRef, newRef, cfg.canonicalise, canon') && ConfigIn(cfg, xs)
    requires excluded <= xs && cfg.excludes == ExcludeIdentities(cfg.canonicalise, excluded)
    requires forall p | p in cfg.seed :: RefsIn(cfg.seed[p], xs)
    requires forall e | e in es :: e.source in xs
    ensures var cfg' := Migrate(cfg, excluded, oldRef, newRef, canon');
      var t, t' := Compile(cfg), Compile(cfg');
      Delivered(t', self, SeededState(t', cfg'.seed), RenameRun(oldRef, newRef, es))
        == RenameRun(oldRef, newRef, Delivered(t, self, SeededState(t, cfg.seed), es))
  {
    hide SeededState, Delivered, RenameRun, SameTables, Scope, SameState;
    var cfg' := Migrate(cfg, excluded, oldRef, newRef, canon');
    var t, t' := Compile(cfg), Compile(cfg');
    TablesKept(xs, oldRef, newRef, cfg, excluded, canon');
    SeededStatesAgree(xs, oldRef, newRef, t, t', self, cfg.seed);
    RunKept(xs, oldRef, newRef, t, t', self, SeededState(t, cfg.seed), SeededState(t', cfg'.seed), es);
  }
}
