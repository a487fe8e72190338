/** Flattening root deltas into leaf paths (src/subscriptionmanager.ts), live and from the cache. */
module RootFlattening {
  import opened Common
  import opened DeltaCacheTrie

  datatype NormalizedDelta = NormalizedDelta(
    context: Context, source: SourceRef, timestamp: string, path: Path, value: Json, isMeta: bool)

  /** The leaves below an object that `accept` lets through, depth first in key order. */
  function Leaves(fields: Fields, prefix: Path, accept: Path -> bool): seq<PathValue> {
    match fields
    case End => []
    case Field(key, val, rest) =>
      var path := if prefix == "" then key else prefix + "." + key;
      var below := Leaves(rest, prefix, accept);
      if val.JObject? then Leaves(val.fields, path, accept) + below
      else if accept(path) then [PathValue(path, val)] + below
      else below
  }

  method CollectLeaves(fields: Fields, prefix: Path, accept: Path -> bool, leaves: seq<PathValue>)
    returns (out: seq<PathValue>)
    ensures out == leaves + Leaves(fields, prefix, accept)
    decreases fields
  {
    out := leaves;
    var todo := fields;
    while todo.Field?
      invariant todo == fields || todo < fields
      invariant out + Leaves(todo, prefix, accept) == leaves + Leaves(fields, prefix, accept)
      decreases todo
    {
      var path := if prefix == "" then todo.key else prefix + "." + todo.key;
      ghost var before, below := out, Leaves(todo.rest, prefix, accept);
      if todo.val.JObject? {
        ghost var inner := Leaves(todo.val.fields, path, accept);
        out := CollectLeaves(todo.val.fields, path, accept, out);
        assert before + (inner + below) == (before + inner) + below;
      } else if accept(path) {
        out := out + [PathValue(path, todo.val)];
        assert before + ([PathValue(path, todo.val)] + below) == out + below;
      }
      todo := todo.rest;
    }
  }

  method FlattenRootDelta(nd: NormalizedDelta, accept: Path -> bool) returns (out: seq<NormalizedDelta>)
    ensures nd.isMeta || !nd.value.JObject? ==> out == []
    ensures !nd.isMeta && nd.value.JObject? ==> out == LiveFlatten(nd, accept)
  {
    if nd.isMeta || !nd.value.JObject? { return []; }
    var leaves := CollectLeaves(nd.value.fields, "", accept, []);
    out := seq(|leaves|, i requires 0 <= i < |leaves| =>
      NormalizedDelta(nd.context, nd.source, nd.timestamp, leaves[i].path, leaves[i].value, false));
  }

  function LiveFlatten(nd: NormalizedDelta, accept: Path -> bool): seq<NormalizedDelta>
    requires nd.value.JObject?
  {
    var leaves := Leaves(nd.value.fields, "", accept);
    seq(|leaves|, i requires 0 <= i < |leaves| =>
      NormalizedDelta(nd.context, nd.source, nd.timestamp, leaves[i].path, leaves[i].value, false))
  }

  function RootLeaves(pvs: seq<PathValue>, accept: Path -> bool): seq<PathValue> {
    if pvs == [] then []
    else
      var pv := pvs[|pvs| - 1];
      RootLeaves(pvs[..|pvs| - 1], accept) +
        (if pv.path == "" && pv.value.JObject? then Leaves(pv.value.fields, "", accept) else [])
  }

  /** The updates of a cached delta with their root values replaced by leaves; updates left without values go. */
  function FlatUpdates(us: seq<Update>, accept: Path -> bool): seq<Update> {
    if us == [] then []
    else
      var u, before := us[|us| - 1], FlatUpdates(us[..|us| - 1], accept);
      if u.values.None? || RootLeaves(u.values.value, accept) == [] then before
      else before + [u.(values := Some(RootLeaves(u.values.value, accept)))]
  }

  lemma OneMoreValue(pvs: seq<PathValue>, k: nat, accept: Path -> bool)
    requires k < |pvs|
    ensures RootLeaves(pvs[..k + 1], accept) == RootLeaves(pvs[..k], accept) +
      (if pvs[k].path == "" && pvs[k].value.JObject? then Leaves(pvs[k].value.fields, "", accept) else [])
  {
    assert pvs[..k + 1][..k] == pvs[..k];
  }

  lemma OneMoreUpdate(us: seq<Update>, i: nat, accept: Path -> bool)
    requires i < |us|
    ensures FlatUpdates(us[..i + 1], accept) ==
      if us[i].values.None? || RootLeaves(us[i].values.value, accept) == [] then FlatUpdates(us[..i], accept)
      else FlatUpdates(us[..i], accept) + [us[i].(values := Some(RootLeaves(us[i].values.value, accept)))]
  {
    assert us[..i + 1][..i] == us[..i];
  }

  method FlattenCachedRootDeltas(deltas: seq<Delta>, accept: Path -> bool) returns (out: seq<Delta>)
    ensures out == CachedFlatten(deltas, accept)
  {
    hide Leaves;
    out := [];
    for d := 0 to |deltas|
      invariant out == CachedFlatten(deltas[..d], accept)
    {
      assert deltas[..d + 1][..d] == deltas[..d];
      var us := if deltas[d].updates.Some? then deltas[d].updates.value else [];
      var updates: seq<Update> := [];
      for i := 0 to |us|
        invariant updates == FlatUpdates(us[..i], accept)
      {
        OneMoreUpdate(us, i, accept);
        if us[i].values.None? { continue; }
        var pvs := us[i].values.value;
        var values: seq<PathValue> := [];
        for k := 0 to |pvs|
          invariant values == RootLeaves(pvs[..k], accept)
        {
          OneMoreValue(pvs, k, accept);
          if pvs[k].path == "" && pvs[k].value.JObject? {
            values := CollectLeaves(pvs[k].value.fields, "", accept, values);
          }
        }
        assert pvs[..|pvs|] == pvs;
        if values != [] { updates := updates + [us[i].(values := Some(values))]; }
      }
      assert us[..|us|] == us;
      if updates != [] { out := out + [Delta(deltas[d].context, Some(updates))]; }
    }
    assert deltas[..|deltas|] == deltas;
  }

  function CachedFlatten(deltas: seq<Delta>, accept: Path -> bool): seq<Delta> {
    if deltas == [] then []
    else
      var d, before := deltas[|deltas| - 1], CachedFlatten(deltas[..|deltas| - 1], accept);
      var updates := FlatUpdates(if d.updates.Some? then d.updates.value else [], accept);
      if updates == [] then before else before + [Delta(d.context, Some(updates))]
  }

  /** `toDelta` of streambundle.ts for a value. */
  function ToDelta(nd: NormalizedDelta): Delta {
    Delta(nd.context, Some([Update(nd.source, nd.timestamp, Some([PathValue(nd.path, nd.value)]))]))
  }

  function PairsOf(nds: seq<NormalizedDelta>): seq<PathValue> {
    seq(|nds|, i requires 0 <= i < |nds| => PathValue(nds[i].path, nds[i].value))
  }

  /** A root delta flattened live and flattened from the cache yields the same leaves in the same order. */
  lemma LiveAndCachedAgree(nd: NormalizedDelta, accept: Path -> bool)
    requires !nd.isMeta && nd.path == "" && nd.value.JObject?
    ensures var live := PairsOf(LiveFlatten(nd, accept));
      CachedFlatten([ToDelta(nd)], accept) ==
        if live == [] then [] else [Delta(nd.context, Some([Update(nd.source, nd.timestamp, Some(live))]))]
  {
    var leaves := Leaves(nd.value.fields, "", accept);
    assert PairsOf(LiveFlatten(nd, accept)) == leaves;
    var d := ToDelta(nd);
    var u, pv := d.updates.value[0], PathValue(nd.path, nd.value);
    assert [pv][..0] == [] && RootLeaves([pv], accept) == [] + leaves == leaves;
    assert [u][..0] == [] && [d][..0] == [];
    assert FlatUpdates([u], accept) == if leaves == [] then [] else [u.(values := Some(leaves))];
  }

  // ---------------------------------------------------------------- leaves determine the object

  /** Keys are non-empty, dot-free and distinct, and no nested object is empty. */
  ghost predicate Clean(fields: Fields) {
    match fields
    case End => true
    case Field(key, val, rest) =>
      && key != "" && '.' !in key && !HasKey(rest, key) && Clean(rest)
      && (val.JObject? ==> val.fields != End && Clean(val.fields))
  }

  predicate HasKey(fields: Fields, key: string) {
    match fields
    case End => false
    case Field(k, _, rest) => k == key || HasKey(rest, key)
  }

  type Leaf = (seq<string>, Json)

  /** The leaves by key path instead of dotted path. */
  function KeyedLeaves(fields: Fields): seq<Leaf> {
    match fields
    case End => []
    case Field(key, val, rest) =>
      HereLeaves(key, val) + KeyedLeaves(rest)
  }

  function HereLeaves(key: string, val: Json): seq<Leaf>
    decreases val
  {
    if val.JObject? then Under(key, KeyedLeaves(val.fields)) else [([key], val)]
  }

  function Under(key: string, leaves: seq<Leaf>): seq<Leaf> {
    seq(|leaves|, i requires 0 <= i < |leaves| => ([key] + leaves[i].0, leaves[i].1))
  }

  function PutField(fields: Fields, key: string, val: Json): Fields {
    match fields
    case End => Field(key, val, End)
    case Field(k, v, rest) => if k == key then Field(k, val, rest) else Field(k, v, PutField(rest, key, val))
  }

  function SubFields(fields: Fields, key: string): Fields {
    match fields
    case End => End
    case Field(k, v, rest) => if k == key then (if v.JObject? then v.fields else End) else SubFields(rest, key)
  }

  /** Assigning a value at a key path, creating objects on the way. */
  function Assign(fields: Fields, keys: seq<string>, val: Json): Fields
    decreases |keys|
  {
    if keys == [] then fields
    else if |keys| == 1 then PutField(fields, keys[0], val)
    else PutField(fields, keys[0], JObject(Assign(SubFields(fields, keys[0]), keys[1..], val)))
  }

  function AssignAll(fields: Fields, leaves: seq<Leaf>): Fields
    decreases |leaves|
  {
    if leaves == [] then fields else AssignAll(Assign(fields, leaves[0].0, leaves[0].1), leaves[1..])
  }

  function Append(a: Fields, b: Fields): Fields {
    match a
    case End => b
    case Field(k, v, rest) => Field(k, v, Append(rest, b))
  }

  lemma {:induction false} PutNew(a: Fields, key: string, val: Json)
    requires !HasKey(a, key)
    ensures PutField(a, key, val) == Append(a, Field(key, val, End)) && SubFields(a, key) == End
  {
    if a.Field? { PutNew(a.rest, key, val); }
  }

  lemma {:induction false} PutLast(a: Fields, key: string, old_: Json, val: Json)
    requires !HasKey(a, key)
    ensures PutField(Append(a, Field(key, old_, End)), key, val) == Append(a, Field(key, val, End))
    ensures SubFields(Append(a, Field(key, old_, End)), key) == if old_.JObject? then old_.fields else End
  {
    if a.Field? { PutLast(a.rest, key, old_, val); }
  }

  lemma {:induction false} AppendAssoc(a: Fields, b: Fields, c: Fields)
    ensures Append(Append(a, b), c) == Append(a, Append(b, c))
  {
    if a.Field? { AppendAssoc(a.rest, b, c); }
  }

  lemma {:induction false} AppendKeys(a: Fields, b: Fields, key: string)
    ensures HasKey(Append(a, b), key) <==> HasKey(a, key) || HasKey(b, key)
  {
    if a.Field? { AppendKeys(a.rest, b, key); }
  }

  lemma {:induction false} AppendEnd(a: Fields)
    ensures Append(a, End) == a
  {
    if a.Field? { AppendEnd(a.rest); }
  }

  lemma {:induction false} AssignAllAppend(fields: Fields, a: seq<Leaf>, b: seq<Leaf>)
    ensures AssignAll(fields, a + b) == AssignAll(AssignAll(fields, a), b)
    decreases |a|
  {
    if a == [] {
      assert a + b == b;
    } else {
      AssignAllAppend(Assign(fields, a[0].0, a[0].1), a[1..], b);
      assert (a + b)[1..] == a[1..] + b;
    }
  }

  /** Assignments below a key that is already there only change what is below it. */
  lemma {:induction false} AssignAllUnder(a: Fields, key: string, sub: Fields, leaves: seq<Leaf>)
    requires !HasKey(a, key) && forall i | 0 <= i < |leaves| :: leaves[i].0 != []
    ensures AssignAll(Append(a, Field(key, JObject(sub), End)), Under(key, leaves))
         == Append(a, Field(key, JObject(AssignAll(sub, leaves)), End))
    decreases |leaves|
  {
    if leaves != [] {
      var keys, val := [key] + leaves[0].0, leaves[0].1;
      var next := Assign(sub, leaves[0].0, val);
      assert keys[1..] == leaves[0].0;
      PutLast(a, key, JObject(sub), JObject(next));
      AssignAllUnder(a, key, next, leaves[1..]);
      assert Under(key, leaves)[1..] == Under(key, leaves[1..]);
    }
  }

  lemma {:induction false} KeyedNonEmpty(fields: Fields)
    requires Clean(fields)
    ensures fields != End ==> KeyedLeaves(fields) != []
    ensures forall i | 0 <= i < |KeyedLeaves(fields)| ::
      KeyedLeaves(fields)[i].0 != [] && forall k | 0 <= k < |KeyedLeaves(fields)[i].0| ::
        KeyedLeaves(fields)[i].0[k] != "" && '.' !in KeyedLeaves(fields)[i].0[k]
  {
    if fields.Field? {
      KeyedNonEmpty(fields.rest);
      if fields.val.JObject? { KeyedNonEmpty(fields.val.fields); }
    }
  }

  /** Assigning the leaves of a clean object in order appends the object. */
  lemma {:induction false} LeavesRebuild(a: Fields, fields: Fields)
    requires Clean(fields) && forall k :: HasKey(fields, k) ==> !HasKey(a, k)
    ensures AssignAll(a, KeyedLeaves(fields)) == Append(a, fields)
    decreases fields
  {
    match fields
    case End => AppendEnd(a);
    case Field(key, val, rest) =>
      var one := Append(a, Field(key, val, End));
      var here := HereLeaves(key, val);
      AssignAllAppend(a, here, KeyedLeaves(rest));
      PutNew(a, key, val);
      if val.JObject? {
        KeyedNonEmpty(val.fields);
        FirstLeafCreates(a, key, KeyedLeaves(val.fields));
        LeavesRebuild(End, val.fields);
      } else {
        assert here[1..] == [];
      }
      assert AssignAll(a, here) == one;
      forall k ensures HasKey(one, k) <==> HasKey(a, k) || k == key { AppendKeys(a, Field(key, val, End), k); }
      LeavesRebuild(one, rest);
      AppendAssoc(a, Field(key, val, End), rest);
  }

  lemma FirstLeafCreates(a: Fields, key: string, leaves: seq<Leaf>)
    requires !HasKey(a, key) && leaves != [] && forall i | 0 <= i < |leaves| :: leaves[i].0 != []
    ensures AssignAll(a, Under(key, leaves)) == Append(a, Field(key, JObject(AssignAll(End, leaves)), End))
  {
    var next := Assign(End, leaves[0].0, leaves[0].1);
    assert ([key] + leaves[0].0)[1..] == leaves[0].0;
    PutNew(a, key, JObject(next));
    AssignAllUnder(a, key, next, leaves[1..]);
    assert Under(key, leaves)[1..] == Under(key, leaves[1..]);
  }

  // ---------------------------------------------------------------- dotted paths

  function Anything(): Path -> bool {
    (p: Path) => true
  }

  lemma {:induction false} SplitJoin(keys: seq<string>)
    requires keys != [] && forall i | 0 <= i < |keys| :: '.' !in keys[i]
    ensures Split(JoinDots(keys)) == keys
  {
    if |keys| == 1 {
      SplitPiece(keys[0]);
    } else {
      SplitJoin(keys[1..]);
      SplitAtDot(keys[0], JoinDots(keys[1..]));
    }
  }

  lemma {:induction false} JoinBelow(prefix: seq<string>, key: string)
    requires prefix != []
    ensures JoinDots(prefix + [key]) == JoinDots(prefix) + "." + key
  {
    if |prefix| > 1 {
      JoinBelow(prefix[1..], key);
      assert (prefix + [key])[1..] == prefix[1..] + [key];
    } else {
      assert (prefix + [key])[1..] == [key];
    }
  }

  lemma {:induction false} JoinNotEmpty(keys: seq<string>)
    requires keys != [] && keys[0] != ""
    ensures JoinDots(keys) != ""
  {
  }

  function Dotted(prefix: seq<string>, leaves: seq<Leaf>): seq<PathValue>
    requires forall i | 0 <= i < |leaves| :: leaves[i].0 != []
  {
    seq(|leaves|, i requires 0 <= i < |leaves| => PathValue(JoinDots(prefix + leaves[i].0), leaves[i].1))
  }

  /** The dotted leaf paths are the key paths joined. */
  lemma {:induction false} LeavesAreKeyed(fields: Fields, prefix: seq<string>)
    requires Clean(fields) && (prefix != [] ==> prefix[0] != "")
    requires forall i | 0 <= i < |KeyedLeaves(fields)| :: KeyedLeaves(fields)[i].0 != []
    ensures Leaves(fields, if prefix == [] then "" else JoinDots(prefix), Anything())
      == Dotted(prefix, KeyedLeaves(fields))
    decreases fields
  {
    match fields
    case End =>
    case Field(key, val, rest) =>
      KeyedNonEmpty(rest);
      LeavesAreKeyed(rest, prefix);
      PathOfKey(prefix, key);
      DottedAppend(prefix, HereLeaves(key, val), KeyedLeaves(rest));
      if val.JObject? {
        KeyedNonEmpty(val.fields);
        LeavesAreKeyed(val.fields, prefix + [key]);
        DottedUnder(prefix, key, KeyedLeaves(val.fields));
      }
  }

  lemma PathOfKey(prefix: seq<string>, key: string)
    requires prefix != [] ==> prefix[0] != ""
    ensures JoinDots(prefix + [key]) == if prefix == [] then key else JoinDots(prefix) + "." + key
    ensures prefix != [] ==> JoinDots(prefix) != ""
  {
    if prefix == [] {
      assert prefix + [key] == [key];
    } else {
      JoinBelow(prefix, key);
      JoinNotEmpty(prefix);
    }
  }

  lemma DottedAppend(prefix: seq<string>, a: seq<Leaf>, b: seq<Leaf>)
    requires forall i | 0 <= i < |a| :: a[i].0 != []
    requires forall i | 0 <= i < |b| :: b[i].0 != []
    ensures forall i | 0 <= i < |a + b| :: (a + b)[i].0 != []
    ensures Dotted(prefix, a + b) == Dotted(prefix, a) + Dotted(prefix, b)
  {
  }

  lemma DottedUnder(prefix: seq<string>, key: string, leaves: seq<Leaf>)
    requires forall i | 0 <= i < |leaves| :: leaves[i].0 != []
    ensures Dotted(prefix, Under(key, leaves)) == Dotted(prefix + [key], leaves)
  {
    forall i | 0 <= i < |leaves| ensures prefix + Under(key, leaves)[i].0 == prefix + [key] + leaves[i].0 {}
  }

  /** Rebuilding an object from dotted leaf paths. */
  function Rebuild(pvs: seq<PathValue>): Fields {
    AssignAll(End, seq(|pvs|, i requires 0 <= i < |pvs| => (Split(pvs[i].path), pvs[i].value)))
  }

  /** The leaves of a clean object, assigned back by path, restore the object. */
  lemma LeavesRoundTrip(fields: Fields)
    requires Clean(fields)
    ensures Rebuild(Leaves(fields, "", Anything())) == fields
  {
    var keyed := KeyedLeaves(fields);
    KeyedNonEmpty(fields);
    LeavesAreKeyed(fields, []);
    LeavesRebuild(End, fields);
    var pvs := Leaves(fields, "", Anything());
    forall i | 0 <= i < |pvs| ensures Split(pvs[i].path) == keyed[i].0 {
      assert [] + keyed[i].0 == keyed[i].0;
      SplitJoin(keyed[i].0);
    }
    assert seq(|pvs|, i requires 0 <= i < |pvs| => (Split(pvs[i].path), pvs[i].value)) == keyed;
  }

  lemma {:induction false} FirstKeys(fields: Fields)
    requires Clean(fields)
    ensures forall i | 0 <= i < |KeyedLeaves(fields)| ::
      KeyedLeaves(fields)[i].0 != [] && HasKey(fields, KeyedLeaves(fields)[i].0[0])
  {
    if fields.Field? {
      FirstKeys(fields.rest);
      if fields.val.JObject? { FirstKeys(fields.val.fields); }
    }
  }

  lemma {:induction false} KeyPathsDistinct(fields: Fields)
    requires Clean(fields)
    ensures forall i, j | 0 <= i < j < |KeyedLeaves(fields)| :: KeyedLeaves(fields)[i].0 != KeyedLeaves(fields)[j].0
  {
    if fields.Field? {
      var here, below := HereLeaves(fields.key, fields.val), KeyedLeaves(fields.rest);
      KeyPathsDistinct(fields.rest);
      FirstKeys(fields.rest);
      if fields.val.JObject? {
        var inner := KeyedLeaves(fields.val.fields);
        KeyPathsDistinct(fields.val.fields);
        forall i, j | 0 <= i < j < |here| ensures here[i].0 != here[j].0 {
          assert here[i].0[1..] == inner[i].0 && here[j].0[1..] == inner[j].0;
        }
      }
      forall i | 0 <= i < |here| ensures here[i].0[0] == fields.key {}
    }
  }

  /** The leaves of a clean object have distinct paths. */
  lemma LeafPathsDistinct(fields: Fields)
    requires Clean(fields)
    ensures var pvs := Leaves(fields, "", Anything());
      forall i, j | 0 <= i < j < |pvs| :: pvs[i].path != pvs[j].path
  {
    var pvs, keyed := Leaves(fields, "", Anything()), KeyedLeaves(fields);
    KeyedNonEmpty(fields);
    LeavesAreKeyed(fields, []);
    KeyPathsDistinct(fields);
    forall i | 0 <= i < |pvs| ensures Split(pvs[i].path) == keyed[i].0 {
      assert [] + keyed[i].0 == keyed[i].0;
      SplitJoin(keyed[i].0);
    }
  }

  /** A live leaf keeps the envelope of its root delta, is no metadata, and no object. */
  lemma LiveLeavesAre(nd: NormalizedDelta, accept: Path -> bool)
    requires nd.value.JObject?
    ensures forall leaf | leaf in LiveFlatten(nd, accept) ::
      && (leaf.context, leaf.source, leaf.timestamp) == (nd.context, nd.source, nd.timestamp) && !leaf.isMeta
      && accept(leaf.path) && !leaf.value.JObject?
  {
    var leaves, live := Leaves(nd.value.fields, "", accept), LiveFlatten(nd, accept);
    LeavesAccepted(nd.value.fields, "", accept);
    forall leaf | leaf in live ensures accept(leaf.path) && !leaf.value.JObject? {
      var i :| 0 <= i < |live| && live[i] == leaf;
      assert leaves[i] in leaves;
    }
  }

  lemma {:induction false} LeavesAccepted(fields: Fields, prefix: Path, accept: Path -> bool)
    ensures forall pv | pv in Leaves(fields, prefix, accept) :: accept(pv.path) && !pv.value.JObject?
  {
    if fields.Field? {
      var path := if prefix == "" then fields.key else prefix + "." + fields.key;
      LeavesAccepted(fields.rest, prefix, accept);
      if fields.val.JObject? { LeavesAccepted(fields.val.fields, path, accept); }
    }
  }

  function Accepted(accept: Path -> bool): PathValue -> bool {
    (pv: PathValue) => accept(pv.path)
  }

  /** The filter on paths takes leaves out and changes nothing else. */
  lemma {:induction false} LeavesAreFiltered(fields: Fields, prefix: Path, accept: Path -> bool)
    ensures Leaves(fields, prefix, accept) == Filter(Accepted(accept), Leaves(fields, prefix, _ => true))
  {
    if fields.Field? {
      var path := if prefix == "" then fields.key else prefix + "." + fields.key;
      LeavesAreFiltered(fields.rest, prefix, accept);
      var below := Leaves(fields.rest, prefix, _ => true);
      if fields.val.JObject? {
        LeavesAreFiltered(fields.val.fields, path, accept);
        FilterAppend(Accepted(accept), Leaves(fields.val.fields, path, _ => true), below);
      } else {
        var pv := PathValue(path, fields.val);
        FilterAppend(Accepted(accept), [pv], below);
        FilterLast(Accepted(accept), [], pv);
        assert [] + [pv] == [pv];
      }
    }
  }

  // ---------------------------------------------------------------- order

  /** Cached deltas are flattened one by one, in order. */
  lemma {:induction false} CachedFlattenAppend(a: seq<Delta>, b: seq<Delta>, accept: Path -> bool)
    ensures CachedFlatten(a + b, accept) == CachedFlatten(a, accept) + CachedFlatten(b, accept)
  {
    hide FlatUpdates;
    if b == [] {
      assert a + b == a;
    } else {
      CachedFlattenAppend(a, b[..|b| - 1], accept);
      assert (a + b)[..|a + b| - 1] == a + b[..|b| - 1];
    }
  }

  /** So are the updates of a delta. */
  lemma {:induction false} FlatUpdatesAppend(a: seq<Update>, b: seq<Update>, accept: Path -> bool)
    ensures FlatUpdates(a + b, accept) == FlatUpdates(a, accept) + FlatUpdates(b, accept)
  {
    hide RootLeaves;
    if b == [] {
      assert a + b == a;
    } else {
      FlatUpdatesAppend(a, b[..|b| - 1], accept);
      assert (a + b)[..|a + b| - 1] == a + b[..|b| - 1];
    }
  }

  /** And the values of an update. */
  lemma {:induction false} RootLeavesAppend(a: seq<PathValue>, b: seq<PathValue>, accept: Path -> bool)
    ensures RootLeaves(a + b, accept) == RootLeaves(a, accept) + RootLeaves(b, accept)
  {
    hide Leaves;
    if b == [] {
      assert a + b == a;
    } else {
      RootLeavesAppend(a, b[..|b| - 1], accept);
      assert (a + b)[..|a + b| - 1] == a + b[..|b| - 1];
    }
  }
}
