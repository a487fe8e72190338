/**
 The source-priority engine of src/deltaPriority.ts. The functions say what each decision is; the class
 at the end keeps the closure maps of the source and is proved to compute those functions.
 */
module DeltaPriority {
  import opened Common

  type Identity = string

  datatype SourcePriority = SourcePriority(sourceRef: SourceRef, timeout: int)
  datatype PriorityGroup = PriorityGroup(id: string, sources: seq<SourceRef>, inactive: bool)

  datatype Config = Config(
    groups: seq<PriorityGroup>,
    overrides: map<Path, seq<SourcePriority>>,
    fallbackMs: int,
    unknownSourceTimeout: int,
    canonicalise: SourceRef -> SourceRef,
    seed: map<Path, seq<SourceRef>>,
    excludes: set<Identity>)

  const FANOUT_SOURCEREF: SourceRef := "*"

  // ---------------------------------------------------------------- device identity

  predicate IsHex(c: char) {
    '0' <= c <= '9' || 'a' <= c <= 'f' || 'A' <= c <= 'F'
  }

  function LowerHex(c: char): char {
    if c == 'A' then 'a' else if c == 'B' then 'b' else if c == 'C' then 'c'
    else if c == 'D' then 'd' else if c == 'E' then 'e' else if c == 'F' then 'f' else c
  }

  function LowerHexString(s: string): string {
    seq(|s|, i requires 0 <= i < |s| => LowerHex(s[i]))
  }

  /** A reference ending in a dot and sixteen hex digits carries an NMEA 2000 CAN Name. */
  predicate HasCanName(ref: SourceRef) {
    |ref| >= 17 && ref[|ref| - 17] == '.' && forall i | |ref| - 16 <= i < |ref| :: IsHex(ref[i])
  }

  function SourceRefIdentity(ref: SourceRef): Identity {
    if HasCanName(ref) then LowerHexString(ref[|ref| - 16..]) else ref
  }

  // ---------------------------------------------------------------- compiled configuration

  datatype Precedence = Precedence(rank: nat, timeout: int)
  type Precedences = map<Identity, Precedence>

  predicate IsFanOut(entries: seq<SourcePriority>) {
    |entries| == 1 && entries[0].sourceRef == FANOUT_SOURCEREF
  }

  /** Later entries of one identity overwrite earlier ones, as `Map.set` does. */
  function OverridePrecedences(entries: seq<SourcePriority>): Precedences {
    if entries == [] then map[]
    else
      var n := |entries| - 1;
      OverridePrecedences(entries[..n])[SourceRefIdentity(entries[n].sourceRef) := Precedence(n, entries[n].timeout)]
  }

  function GroupRanking(sources: seq<SourceRef>, fallbackMs: int): Precedences {
    if sources == [] then map[]
    else
      var n := |sources| - 1;
      GroupRanking(sources[..n], fallbackMs)
        [SourceRefIdentity(sources[n]) := Precedence(n, if n == 0 then 0 else fallbackMs)]
  }

  /** First active group wins on overlap. */
  function ClaimSources(owners: map<Identity, string>, sources: seq<SourceRef>, id: string): map<Identity, string> {
    if sources == [] then owners
    else
      var n := |sources| - 1;
      var before := ClaimSources(owners, sources[..n], id);
      var identity := SourceRefIdentity(sources[n]);
      if identity in before then before else before[identity := id]
  }

  function SourceToGroup(groups: seq<PriorityGroup>): map<Identity, string> {
    if groups == [] then map[]
    else
      var n := |groups| - 1;
      var before := SourceToGroup(groups[..n]);
      if groups[n].inactive then before else ClaimSources(before, groups[n].sources, groups[n].id)
  }

  function GroupRankings(groups: seq<PriorityGroup>, fallbackMs: int): map<string, Precedences> {
    if groups == [] then map[]
    else
      var n := |groups| - 1;
      var before := GroupRankings(groups[..n], fallbackMs);
      if groups[n].inactive then before else before[groups[n].id := GroupRanking(groups[n].sources, fallbackMs)]
  }

  /** The last listing of an identity decides whether it counts as inactive. */
  function ListSources(listed: map<Identity, bool>, sources: seq<SourceRef>, inactive: bool): map<Identity, bool> {
    if sources == [] then listed
    else
      var n := |sources| - 1;
      ListSources(listed, sources[..n], inactive)[SourceRefIdentity(sources[n]) := inactive]
  }

  /** Every listed identity, with true when its last listing is in an inactive group. */
  function Listings(groups: seq<PriorityGroup>): map<Identity, bool> {
    if groups == [] then map[]
    else
      var n := |groups| - 1;
      ListSources(Listings(groups[..n]), groups[n].sources, groups[n].inactive)
  }

  /** An entry without a reference is skipped; any other keeps the override alive unless its identity is inactive. */
  predicate Ineligible(listings: map<Identity, bool>, entry: SourcePriority) {
    entry.sourceRef == "" ||
    (SourceRefIdentity(entry.sourceRef) in listings && listings[SourceRefIdentity(entry.sourceRef)])
  }

  predicate IsDormant(entries: seq<SourcePriority>, groups: seq<PriorityGroup>) {
    && entries != []
    && !IsFanOut(entries)
    && groups != []
    && forall i | 0 <= i < |entries| :: Ineligible(Listings(groups), entries[i])
  }

  /** What the engine looks up while it runs. */
  datatype Tables = Tables(
    overrides: map<Path, Precedences>,
    fanOut: set<Path>,
    sourceGroup: map<Identity, string>,
    groups: map<string, Precedences>,
    unknownTimeout: int,
    canonicalise: SourceRef -> SourceRef,
    excludes: set<Identity>)

  function ActiveOverrides(cfg: Config): map<Path, seq<SourcePriority>> {
    map p | p in cfg.overrides && !IsDormant(cfg.overrides[p], cfg.groups) :: cfg.overrides[p]
  }

  function Compile(cfg: Config): Tables {
    var active := ActiveOverrides(cfg);
    Tables(
      (map p | p in active :: OverridePrecedences(active[p])),
      (set p | p in active && IsFanOut(active[p])),
      SourceToGroup(cfg.groups),
      GroupRankings(cfg.groups, cfg.fallbackMs),
      cfg.unknownSourceTimeout,
      cfg.canonicalise,
      cfg.excludes)
  }

  predicate HasActiveGroups(groups: seq<PriorityGroup>) {
    exists i | 0 <= i < |groups| :: !groups[i].inactive
  }

  /** Without overrides, active groups and excludes the engine hands every delta back untouched. */
  predicate IsPassthrough(cfg: Config) {
    cfg.overrides == map[] && !HasActiveGroups(cfg.groups) && cfg.excludes == {}
  }

  // ---------------------------------------------------------------- state

  datatype TimestampedSource = TimestampedSource(sourceRef: SourceRef, timestamp: int)

  const NO_LATEST := TimestampedSource("", 0)

  datatype State = State(
    claims: map<Path, string>,
    seen: map<Path, set<Identity>>,
    latest: map<Context, map<Path, TimestampedSource>>)

  function GetLatest(latest: map<Context, map<Path, TimestampedSource>>, ctx: Context, path: Path): TimestampedSource {
    if ctx in latest && path in latest[ctx] then latest[ctx][path] else NO_LATEST
  }

  function SetLatest(latest: map<Context, map<Path, TimestampedSource>>, ctx: Context, path: Path,
                     winner: TimestampedSource): map<Context, map<Path, TimestampedSource>>
  {
    latest[ctx := (if ctx in latest then latest[ctx] else map[])[path := winner]]
  }

  function SeenOn(st: State, path: Path): set<Identity> {
    if path in st.seen then st.seen[path] else {}
  }

  function ClaimOn(st: State, path: Path): Option<string> {
    if path in st.claims then Some(st.claims[path]) else None
  }

  /** The distinct identities of a seed list, in first-appearance order. */
  function SeedIdentities(canonicalise: SourceRef -> SourceRef, refs: seq<SourceRef>): seq<Identity> {
    if refs == [] then []
    else
      var n := |refs| - 1;
      var before := SeedIdentities(canonicalise, refs[..n]);
      var identity := SourceRefIdentity(canonicalise(refs[n]));
      if identity in before then before else before + [identity]
  }

  /** The group of an identity; an empty group id counts as no group. */
  function GroupOf(t: Tables, identity: Identity): Option<string> {
    if identity in t.sourceGroup && t.sourceGroup[identity] != "" then Some(t.sourceGroup[identity]) else None
  }

  function FirstGroup(t: Tables, identities: seq<Identity>): Option<string> {
    if identities == [] then None
    else if GroupOf(t, identities[0]).Some? then GroupOf(t, identities[0])
    else FirstGroup(t, identities[1..])
  }

  function SeedClaim(t: Tables, identities: seq<Identity>): Option<string> {
    if |identities| >= 2 then FirstGroup(t, identities) else None
  }

  function SeededState(t: Tables, seed: map<Path, seq<SourceRef>>): State {
    State(
      map p | p in seed && seed[p] != [] && SeedClaim(t, SeedIdentities(t.canonicalise, seed[p])).Some? ::
        SeedClaim(t, SeedIdentities(t.canonicalise, seed[p])).value,
      map p | p in seed && seed[p] != [] :: (set x | x in SeedIdentities(t.canonicalise, seed[p])),
      map[])
  }

  // ---------------------------------------------------------------- one value

  predicate IsNotification(path: Path) {
    path == "notifications" || "notifications." <= path
  }

  /** A path the cascade never filters: a notification or a fan-out path. */
  predicate Bypasses(t: Tables, path: Path) {
    IsNotification(path) || path in t.fanOut
  }

  /** The publisher is remembered and an unclaimed path is claimed by the publisher's group. */
  function Observe(t: Tables, st: State, path: Path, src: SourceRef): State {
    var identity := SourceRefIdentity(src);
    var group := GroupOf(t, identity);
    st.(seen := st.seen[path := SeenOn(st, path) + {identity}],
        claims := if path !in t.overrides && group.Some? && path !in st.claims
                  then st.claims[path := group.value] else st.claims)
  }

  /** The ranking that judges `src` on `path`, or None for pass-through. */
  function Governing(t: Tables, claim: Option<string>, path: Path, src: SourceRef): Option<Precedences> {
    var group := GroupOf(t, SourceRefIdentity(src));
    if path in t.overrides then Some(t.overrides[path])
    else if group.Some? then (if group.value in t.groups then Some(t.groups[group.value]) else None)
    else if claim.Some? && claim.value != "" && claim.value in t.groups then Some(t.groups[claim.value])
    else None
  }

  function Key(t: Tables, src: SourceRef): Identity {
    SourceRefIdentity(t.canonicalise(src))
  }

  predicate IsPreferred(t: Tables, ranking: Precedences, latest: TimestampedSource, src: SourceRef, now: int) {
    var latestKnown := Key(t, latest.sourceRef) in ranking;
    var incomingKnown := Key(t, src) in ranking;
    // An unranked incumbent counts as rank 0; an unranked incoming source ranks below everything.
    var latestRank := if latestKnown then ranking[Key(t, latest.sourceRef)].rank else 0;
    var latestTimeout := if latestKnown then ranking[Key(t, latest.sourceRef)].timeout else 0;
    var timeout := if incomingKnown then ranking[Key(t, src)].timeout else t.unknownTimeout;
    var hold := if latestKnown && !incomingKnown && latestTimeout > timeout then latestTimeout else timeout;
    if timeout < 0 then false
    else if incomingKnown && !latestKnown then true
    else if latest.sourceRef == src && (latestKnown || !incomingKnown) then true
    else
      var latestIsHigher := !incomingKnown || latestRank < ranking[Key(t, src)].rank;
      !latestIsHigher || now - latest.timestamp > hold
  }

  /** One value of a self-context delta from an already canonical source: the new state and whether it is delivered. */
  function Offer(t: Tables, st: State, ctx: Context, src: SourceRef, path: Path, now: int): (State, bool) {
    if Bypasses(t, path) then (st, true)
    else
      var st1 := Observe(t, st, path, src);
      match Governing(t, ClaimOn(st1, path), path, src)
      case None => (st1, true)
      case Some(ranking) =>
        if IsPreferred(t, ranking, GetLatest(st1.latest, ctx, path), src, now)
        then (st1.(latest := SetLatest(st1.latest, ctx, path, TimestampedSource(src, now))), true)
        else (st1, false)
  }

  predicate RoutesPath(t: Tables, st: State, path: Path) {
    path in t.overrides || (path in st.claims && |SeenOn(st, path)| >= 2)
  }

  // ---------------------------------------------------------------- whole deltas

  predicate Excluded(t: Tables, src: SourceRef) {
    SourceRefIdentity(t.canonicalise(src)) in t.excludes
  }

  /** Clears the values of an excluded source's update. */
  function StripUpdate(t: Tables, u: Update): Update {
    if u.values.Some? && Excluded(t, u.source) then u.(values := Some([])) else u
  }

  function Strip(t: Tables, us: seq<Update>): seq<Update> {
    seq(|us|, i requires 0 <= i < |us| => StripUpdate(t, us[i]))
  }

  function OfferValues(t: Tables, st: State, ctx: Context, src: SourceRef, pvs: seq<PathValue>, now: int)
    : (State, seq<PathValue>)
  {
    if pvs == [] then (st, [])
    else
      var n := |pvs| - 1;
      var (st1, kept) := OfferValues(t, st, ctx, src, pvs[..n], now);
      var (st2, ok) := Offer(t, st1, ctx, src, pvs[n].path, now);
      (st2, if ok then kept + [pvs[n]] else kept)
  }

  function OfferUpdates(t: Tables, st: State, ctx: Context, us: seq<Update>, now: int): (State, seq<Update>) {
    if us == [] then (st, [])
    else
      var n := |us| - 1;
      var (st1, out) := OfferUpdates(t, st, ctx, us[..n], now);
      if us[n].values.None? then (st1, out + [us[n]])
      else
        var (st2, kept) := OfferValues(t, st1, ctx, t.canonicalise(us[n].source), us[n].values.value, now);
        (st2, out + [us[n].(values := Some(kept))])
  }

  function ProcessDelta(t: Tables, st: State, delta: Delta, now: int, self: Context): (State, Delta) {
    if delta.updates.None? then (st, delta)
    else
      var us := Strip(t, delta.updates.value);
      if delta.context != self then (st, delta.(updates := Some(us)))
      else
        var (st1, out) := OfferUpdates(t, st, delta.context, us, now);
        (st1, delta.(updates := Some(out)))
  }

  lemma OfferLast(t: Tables, st: State, ctx: Context, us: seq<Update>, u: Update, now: int)
    ensures var (st1, out) := OfferUpdates(t, st, ctx, us, now);
      OfferUpdates(t, st, ctx, us + [u], now) ==
        if u.values.None? then (st1, out + [u])
        else
          var (st2, kept) := OfferValues(t, st1, ctx, t.canonicalise(u.source), u.values.value, now);
          (st2, out + [u.(values := Some(kept))])
  {
    assert (us + [u])[..|us|] == us;
  }

  lemma OfferNothing(t: Tables, st: State, ctx: Context, now: int)
    ensures OfferUpdates(t, st, ctx, [], now) == (st, [])
  {
  }

  // ---------------------------------------------------------------- the engine object

  method BuildOverridePrecedences(entries: seq<SourcePriority>) returns (out: Precedences)
    ensures out == OverridePrecedences(entries)
  {
    out := map[];
    for i := 0 to |entries|
      invariant out == OverridePrecedences(entries[..i])
    {
      assert entries[..i + 1][..i] == entries[..i];
      out := out[SourceRefIdentity(entries[i].sourceRef) := Precedence(i, entries[i].timeout)];
    }
    assert entries[..|entries|] == entries;
  }

  method BuildGroupPrecedences(groups: seq<PriorityGroup>, fallbackMs: int)
    returns (owners: map<Identity, string>, rankings: map<string, Precedences>)
    ensures owners == SourceToGroup(groups) && rankings == GroupRankings(groups, fallbackMs)
  {
    owners, rankings := map[], map[];
    for i := 0 to |groups|
      invariant owners == SourceToGroup(groups[..i]) && rankings == GroupRankings(groups[..i], fallbackMs)
    {
      assert groups[..i + 1][..i] == groups[..i];
      var group := groups[i];
      if group.inactive { continue; }
      ghost var before := owners;
      var precedences: Precedences := map[];
      for j := 0 to |group.sources|
        invariant owners == ClaimSources(before, group.sources[..j], group.id)
        invariant precedences == GroupRanking(group.sources[..j], fallbackMs)
      {
        assert group.sources[..j + 1][..j] == group.sources[..j];
        var identity := SourceRefIdentity(group.sources[j]);
        if identity !in owners {
          owners := owners[identity := group.id];
        }
        precedences := precedences[identity := Precedence(j, if j == 0 then 0 else fallbackMs)];
      }
      assert group.sources[..|group.sources|] == group.sources;
      rankings := rankings[group.id := precedences];
    }
    assert groups[..|groups|] == groups;
  }

  /** The identities listed by any group, and those whose last listing is inactive. */
  method CollectListings(groups: seq<PriorityGroup>) returns (claimed: set<Identity>, inactive: set<Identity>)
    ensures claimed == Listings(groups).Keys
    ensures inactive == set x | x in Listings(groups) && Listings(groups)[x]
  {
    hide SourceRefIdentity;
    claimed, inactive := {}, {};
    for i := 0 to |groups|
      invariant claimed == Listings(groups[..i]).Keys
      invariant inactive == set x | x in Listings(groups[..i]) && Listings(groups[..i])[x]
    {
      assert groups[..i + 1][..i] == groups[..i];
      var g := groups[i];
      ghost var before := Listings(groups[..i]);
      for j := 0 to |g.sources|
        invariant claimed == ListSources(before, g.sources[..j], g.inactive).Keys
        invariant inactive == set x | x in claimed && ListSources(before, g.sources[..j], g.inactive)[x]
      {
        assert g.sources[..j + 1][..j] == g.sources[..j];
        var id := SourceRefIdentity(g.sources[j]);
        claimed := claimed + {id};
        inactive := if g.inactive then inactive + {id} else inactive - {id};
      }
      assert g.sources[..|g.sources|] == g.sources;
    }
    assert groups[..|groups|] == groups;
  }

  method IsOverrideDormantUnderGroups(entries: seq<SourcePriority>, groups: seq<PriorityGroup>) returns (dormant: bool)
    ensures dormant == IsDormant(entries, groups)
  {
    if entries == [] || IsFanOut(entries) || groups == [] { return false; }
    var claimed, inactive := CollectListings(groups);
    for i := 0 to |entries|
      invariant forall k | 0 <= k < i :: Ineligible(Listings(groups), entries[k])
    {
      if entries[i].sourceRef == "" { continue; }
      var id := SourceRefIdentity(entries[i].sourceRef);
      if id !in claimed || id !in inactive {
        assert !Ineligible(Listings(groups), entries[i]);
        return false;
      }
    }
    return true;
  }

  method BuildTables(cfg: Config) returns (t: Tables)
    ensures t == Compile(cfg)
  {
    hide IsDormant, IsFanOut, OverridePrecedences;
    var precedences: map<Path, Precedences>, fanOut: set<Path> := map[], {};
    var todo := cfg.overrides.Keys;
    while todo != {}
      invariant todo <= cfg.overrides.Keys
      invariant precedences == map p | p in ActiveOverrides(cfg) && p !in todo ::
        OverridePrecedences(ActiveOverrides(cfg)[p])
      invariant fanOut == set p | p in ActiveOverrides(cfg) && p !in todo && IsFanOut(ActiveOverrides(cfg)[p])
    {
      var path :| path in todo;
      todo := todo - {path};
      var dormant := IsOverrideDormantUnderGroups(cfg.overrides[path], cfg.groups);
      if dormant { continue; }
      assert path in ActiveOverrides(cfg);
      var ranked := BuildOverridePrecedences(cfg.overrides[path]);
      precedences := precedences[path := ranked];
      if IsFanOut(cfg.overrides[path]) { fanOut := fanOut + {path}; }
    }
    var owners, rankings := BuildGroupPrecedences(cfg.groups, cfg.fallbackMs);
    t := Tables(precedences, fanOut, owners, rankings, cfg.unknownSourceTimeout, cfg.canonicalise, cfg.excludes);
  }

  /** One seeded path: its distinct publishers in order, and the first group that owns one of several. */
  method SeedPath(t: Tables, refs: seq<SourceRef>) returns (identities: seq<Identity>, claim: Option<string>)
    ensures identities == SeedIdentities(t.canonicalise, refs)
    ensures claim == SeedClaim(t, identities)
  {
    identities, claim := [], None;
    for i := 0 to |refs|
      invariant identities == SeedIdentities(t.canonicalise, refs[..i])
    {
      assert refs[..i + 1][..i] == refs[..i];
      var identity := SourceRefIdentity(t.canonicalise(refs[i]));
      if identity !in identities { identities := identities + [identity]; }
    }
    assert refs[..|refs|] == refs;
    if |identities| < 2 { return; }
    for i := 0 to |identities|
      invariant claim == None && FirstGroup(t, identities) == FirstGroup(t, identities[i..])
    {
      assert identities[i..][1..] == identities[i + 1..];
      claim := GroupOf(t, identities[i]);
      if claim.Some? { return; }
    }
  }

  method SeedPublishers(t: Tables, seed: map<Path, seq<SourceRef>>)
    returns (claims: map<Path, string>, seen: map<Path, set<Identity>>)
    ensures State(claims, seen, map[]) == SeededState(t, seed)
  {
    hide SourceRefIdentity, SeedIdentities, SeedClaim, GroupOf;
    claims, seen := map[], map[];
    ghost var goal := SeededState(t, seed);
    var todo := seed.Keys;
    while todo != {}
      invariant todo <= seed.Keys
      invariant claims.Keys == goal.claims.Keys - todo && seen.Keys == goal.seen.Keys - todo
      invariant forall p | p in claims :: claims[p] == goal.claims[p]
      invariant forall p | p in seen :: seen[p] == goal.seen[p]
    {
      var path :| path in todo;
      todo := todo - {path};
      if seed[path] == [] { continue; }
      var identities, claim := SeedPath(t, seed[path]);
      seen := seen[path := set x | x in identities];
      if claim.Some? { claims := claims[path := claim.value]; }
    }
  }

  /** An update as the delta object holds it: the engine overwrites its values in place. */
  class UpdateObject {
    const source: SourceRef
    const timestamp: string
    var values: Option<seq<PathValue>>

    constructor (u: Update)
      ensures Snapshot() == u
    {
      source, timestamp, values := u.source, u.timestamp, u.values;
    }

    function Snapshot(): Update
      reads this
    {
      Update(source, timestamp, values)
    }
  }

  function Snapshots(us: seq<UpdateObject>): (r: seq<Update>)
    reads us
    ensures |r| == |us| && forall i | 0 <= i < |us| :: r[i] == us[i].Snapshot()
  {
    if us == [] then [] else Snapshots(us[..|us| - 1]) + [us[|us| - 1].Snapshot()]
  }

  /** A delta whose updates are distinct objects. */
  datatype DeltaObject = DeltaObject(context: Context, updates: Option<seq<UpdateObject>>) {
    function Updates(): seq<UpdateObject> {
      if updates.Some? then updates.value else []
    }

    ghost predicate Valid() {
      Distinct(Updates())
    }

    function Snapshot(): Delta
      reads Updates()
    {
      Delta(context, if updates.Some? then Some(Snapshots(updates.value)) else None)
    }
  }

  /** Clears the values of every excluded source's update, in place. */
  method StripExcluded(t: Tables, us: seq<UpdateObject>)
    requires Distinct(us)
    modifies us
    ensures Snapshots(us) == Strip(t, old(Snapshots(us)))
  {
    for i := 0 to |us|
      invariant forall k | 0 <= k < |us| ::
        us[k].Snapshot() == if k < i then StripUpdate(t, old(us[k].Snapshot())) else old(us[k].Snapshot())
    {
      if us[i].values.Some? && Excluded(t, us[i].source) { us[i].values := Some([]); }
    }
  }

  class PriorityEngine {
    const tables: Tables
    const passthrough: bool
    var pathToGroupId: map<Path, string>
    var pathSeenPublishers: map<Path, set<Identity>>
    var contextPathTimestamps: map<Context, map<Path, TimestampedSource>>

    ghost function Abs(): State
      reads this
    {
      State(pathToGroupId, pathSeenPublishers, contextPathTimestamps)
    }

    constructor (cfg: Config)
      ensures tables == Compile(cfg) && passthrough == IsPassthrough(cfg)
      ensures Abs() == SeededState(tables, cfg.seed)
    {
      var t := BuildTables(cfg);
      var claims, seen := SeedPublishers(t, cfg.seed);
      tables := t;
      passthrough := IsPassthrough(cfg);
      pathToGroupId := claims;
      pathSeenPublishers := seen;
      contextPathTimestamps := map[];
    }

    method ResolvePrecedences(path: Path, src: SourceRef) returns (ranking: Option<Precedences>)
      modifies this`pathToGroupId, this`pathSeenPublishers
      ensures Abs() == Observe(tables, old(Abs()), path, src)
      ensures ranking == Governing(tables, ClaimOn(Abs(), path), path, src)
    {
      var identity := SourceRefIdentity(src);
      var publishers := if path in pathSeenPublishers then pathSeenPublishers[path] else {};
      pathSeenPublishers := pathSeenPublishers[path := publishers + {identity}];
      if path in tables.overrides {
        return Some(tables.overrides[path]);
      }
      if identity in tables.sourceGroup && tables.sourceGroup[identity] != "" {
        var groupId := tables.sourceGroup[identity];
        if path !in pathToGroupId {
          pathToGroupId := pathToGroupId[path := groupId];
        }
        return if groupId in tables.groups then Some(tables.groups[groupId]) else None;
      }
      if path in pathToGroupId && pathToGroupId[path] != "" && pathToGroupId[path] in tables.groups {
        return Some(tables.groups[pathToGroupId[path]]);
      }
      return None;
    }

    method OfferValue(ctx: Context, src: SourceRef, path: Path, now: int) returns (ok: bool)
      modifies this
      ensures (Abs(), ok) == Offer(tables, old(Abs()), ctx, src, path, now)
    {
      if Bypasses(tables, path) { return true; }
      var ranking := ResolvePrecedences(path, src);
      if ranking.None? { return true; }
      ok := IsPreferred(tables, ranking.value, GetLatest(contextPathTimestamps, ctx, path), src, now);
      if ok {
        contextPathTimestamps := SetLatest(contextPathTimestamps, ctx, path, TimestampedSource(src, now));
      }
    }

    /** One update's values, of which the update keeps those delivered. */
    method OfferUpdate(ctx: Context, u: UpdateObject, now: int)
      requires u.values.Some?
      modifies this, u
      ensures u.values.Some?
      ensures (Abs(), u.values.value)
        == OfferValues(tables, old(Abs()), ctx, tables.canonicalise(u.source), old(u.values).value, now)
    {
      var src, pvs := tables.canonicalise(u.source), u.values.value;
      var acc: seq<PathValue> := [];
      for j := 0 to |pvs|
        invariant (Abs(), acc) == OfferValues(tables, old(Abs()), ctx, src, pvs[..j], now)
        invariant u.values == old(u.values)
      {
        assert pvs[..j + 1][..j] == pvs[..j];
        var ok := OfferValue(ctx, src, pvs[j].path, now);
        if ok { acc := acc + [pvs[j]]; }
      }
      assert pvs[..|pvs|] == pvs;
      u.values := Some(acc);
    }

    method OfferAll(ctx: Context, us: seq<UpdateObject>, now: int)
      requires Distinct(us)
      modifies this, us
      ensures (Abs(), Snapshots(us)) == OfferUpdates(tables, old(Abs()), ctx, old(Snapshots(us)), now)
    {
      hide OfferUpdates, OfferValues, Snapshots;
      ghost var before, start, out: seq<Update> := Snapshots(us), Abs(), [];
      assert before[..0] == [];
      OfferNothing(tables, start, ctx, now);
      for i := 0 to |us|
        invariant (Abs(), out) == OfferUpdates(tables, start, ctx, before[..i], now)
        invariant |out| == i && forall k | 0 <= k < i :: us[k].Snapshot() == out[k]
        invariant forall k | i <= k < |us| :: us[k].Snapshot() == before[k]
      {
        assert before[..i + 1] == before[..i] + [before[i]];
        OfferLast(tables, start, ctx, before[..i], before[i], now);
        if us[i].values.Some? { OfferUpdate(ctx, us[i], now); }
        out := out + [us[i].Snapshot()];
      }
      assert Snapshots(us) == out && before[..|us|] == before;
    }

    /** The function `getToPreferredDelta` returns: it filters the caller's delta in place. */
    method ToPreferredDelta(delta: DeltaObject, now: int, self: Context)
      requires delta.Valid()
      modifies this, delta.Updates()
      ensures passthrough ==> delta.Snapshot() == old(delta.Snapshot()) && Abs() == old(Abs())
      ensures !passthrough
        ==> (Abs(), delta.Snapshot()) == ProcessDelta(tables, old(Abs()), old(delta.Snapshot()), now, self)
    {
      if passthrough || delta.updates.None? { return; }
      StripExcluded(tables, delta.updates.value);
      if delta.context == self { OfferAll(delta.context, delta.updates.value, now); }
    }

    method GetMaxFailoverTimeoutMs(path: Path) returns (max: int)
      ensures max == MaxFailover(tables, Abs(), path)
    {
      if path in tables.overrides {
        max := MaxTimeoutOf(tables.overrides[path]);
      } else if path in pathToGroupId && pathToGroupId[path] != "" && pathToGroupId[path] in tables.groups {
        max := MaxTimeoutOf(tables.groups[pathToGroupId[path]]);
      } else {
        max := 0;
      }
    }
  }

  // ---------------------------------------------------------------- failover window

  /** `max` is the largest timeout ranked among `ids`, or zero when none is positive. */
  ghost predicate IsMaxTimeout(ranking: Precedences, ids: set<Identity>, max: int)
    requires ids <= ranking.Keys
  {
    && max >= 0
    && (forall id | id in ids :: ranking[id].timeout <= max)
    && (max == 0 || exists id :: id in ids && ranking[id].timeout == max)
  }

  method MaxTimeoutOf(ranking: Precedences) returns (max: int)
    ensures max == MaxTimeout(ranking)
  {
    max := 0;
    var todo := ranking.Keys;
    while todo != {}
      invariant todo <= ranking.Keys && IsMaxTimeout(ranking, ranking.Keys - todo, max)
    {
      var id :| id in todo;
      ghost var done := ranking.Keys - todo;
      todo := todo - {id};
      assert ranking.Keys - todo == done + {id};
      if ranking[id].timeout > max { max := ranking[id].timeout; }
    }
    assert ranking.Keys - todo == ranking.Keys;
  }

  ghost function MaxTimeout(ranking: Precedences): (max: int)
    ensures IsMaxTimeout(ranking, ranking.Keys, max)
  {
    MaxTimeoutExists(ranking, ranking.Keys);
    var max :| IsMaxTimeout(ranking, ranking.Keys, max);
    max
  }

  lemma {:induction false} MaxTimeoutExists(ranking: Precedences, ids: set<Identity>)
    requires ids <= ranking.Keys
    ensures exists max :: IsMaxTimeout(ranking, ids, max)
  {
    if ids == {} {
      assert IsMaxTimeout(ranking, ids, 0);
    } else {
      var id :| id in ids;
      MaxTimeoutExists(ranking, ids - {id});
      var max :| IsMaxTimeout(ranking, ids - {id}, max);
      assert forall k | k in ids :: k == id || k in ids - {id};
      assert IsMaxTimeout(ranking, ids, if ranking[id].timeout > max then ranking[id].timeout else max);
    }
  }

  ghost function MaxFailover(t: Tables, st: State, path: Path): int {
    if path in t.overrides then MaxTimeout(t.overrides[path])
    else if path in st.claims && st.claims[path] != "" && st.claims[path] in t.groups
    then MaxTimeout(t.groups[st.claims[path]])
    else 0
  }
}
