/** The overlap check that guards saved priorities (src/serverroutes.ts, validatePrioritiesPayload). */
module SaveValidator {
  import opened Common
  import opened DeltaPriority

  /** Group ids are non-empty and distinct. */
  ghost predicate ProperIds(groups: seq<PriorityGroup>) {
    && (forall i | 0 <= i < |groups| :: groups[i].id != "")
    && (forall i, j | 0 <= i < j < |groups| :: groups[i].id != groups[j].id)
  }

  /** No source sits in two active groups of different ids. */
  ghost predicate NoSharedSource(groups: seq<PriorityGroup>) {
    forall i, j, r | 0 <= i < j < |groups| && !groups[i].inactive && !groups[j].inactive
      && r in groups[i].sources && r in groups[j].sources :: groups[i].id == groups[j].id
  }

  ghost predicate SeenUpTo(groups: seq<PriorityGroup>, i: nat, seen: map<SourceRef, string>)
    requires i <= |groups|
  {
    && (forall k, r | 0 <= k < i && !groups[k].inactive && r in groups[k].sources ::
      r in seen && seen[r] == groups[k].id)
    && (forall r | r in seen :: seen[r] != "" && exists k ::
      0 <= k < i && !groups[k].inactive && r in groups[k].sources)
  }

  /** `seen` after the first `j` sources of active group `i`. */
  ghost predicate SeenWithin(before: map<SourceRef, string>, g: PriorityGroup, j: nat, seen: map<SourceRef, string>)
    requires j <= |g.sources|
  {
    && (forall r | r in seen :: r in before || r in g.sources[..j])
    && (forall r | r in before :: r in seen && seen[r] == before[r])
    && (forall r | r in g.sources[..j] :: r in seen && seen[r] == g.id)
  }

  /** The inner loop: the group's sources against those of the active groups before it. */
  method AdmitGroup(g: PriorityGroup, before: map<SourceRef, string>) returns (ok: bool, seen: map<SourceRef, string>)
    requires g.id != "" && forall r | r in before :: before[r] != ""
    ensures ok <==> forall r | r in g.sources && r in before :: before[r] == g.id
    ensures ok ==> SeenWithin(before, g, |g.sources|, seen)
  {
    seen := before;
    for j := 0 to |g.sources|
      invariant SeenWithin(before, g, j, seen)
      invariant forall r | r in g.sources[..j] && r in before :: before[r] == g.id
    {
      var src := g.sources[j];
      assert g.sources[..j + 1] == g.sources[..j] + [src];
      var prev := if src in seen then seen[src] else "";
      if prev != "" && prev != g.id { return false, seen; }
      seen := seen[src := g.id];
    }
    assert g.sources[..|g.sources|] == g.sources;
    ok := true;
  }

  /** Group ids are non-empty: the payload schema has already checked that. */
  method OverlapAccepted(groups: seq<PriorityGroup>) returns (ok: bool)
    requires forall i | 0 <= i < |groups| :: groups[i].id != ""
    ensures ok <==> NoSharedSource(groups)
  {
    var seen: map<SourceRef, string> := map[];
    for i := 0 to |groups|
      invariant SeenUpTo(groups, i, seen)
    {
      if groups[i].inactive { continue; }
      ghost var before := seen;
      var admitted, after := AdmitGroup(groups[i], seen);
      seen := after;
      if !admitted {
        ghost var r :| r in groups[i].sources && r in before && before[r] != groups[i].id;
        ghost var k :| 0 <= k < i && !groups[k].inactive && r in groups[k].sources;
        assert before[r] == groups[k].id;
        return false;
      }
      SeenAdvances(groups, i, before, seen);
    }
    forall i, j, r | 0 <= i < j < |groups| && !groups[i].inactive && !groups[j].inactive
      && r in groups[i].sources && r in groups[j].sources
      ensures groups[i].id == groups[j].id
    {
      assert seen[r] == groups[i].id;
    }
    return true;
  }

  lemma SeenAdvances(groups: seq<PriorityGroup>, i: nat, before: map<SourceRef, string>, after: map<SourceRef, string>)
    requires i < |groups| && !groups[i].inactive && groups[i].id != "" && SeenUpTo(groups, i, before)
    requires SeenWithin(before, groups[i], |groups[i].sources|, after)
    ensures SeenUpTo(groups, i + 1, after)
  {
    var sources := groups[i].sources;
    assert sources[..|sources|] == sources;
  }
}
