/**
 The nested delta cache (src/deltacache.ts): a tree of path segments with one message per source at the end of each
 path, and the proof that it is a last-write map.
 */
module DeltaCacheTrie {
  import opened Common

  datatype Message = Message(context: Context, path: Path, source: SourceRef, timestamp: string, value: Json)

  /** An object of the cache: a cached delta, or a branch whose keys keep their insertion order. */
  datatype Tree = Leaf(msg: Message) | Branch(kids: Kids)
  datatype Kids = Nil | Kid(key: string, sub: Tree, rest: Kids)

  /** Prototype keys, which the cache refuses to walk. */
  predicate Forbidden(part: string) {
    part == "__proto__" || part == "constructor" || part == "prototype"
  }

  /**
   The names every object inherits, with the number of indexes a walk over the inherited value reads: the arity of a
   function, none for the prototype itself.
   */
  function InheritedLength(name: string): Option<nat> {
    if name == "toString" || name == "toLocaleString" || name == "valueOf" || name == "__proto__" then Some(0)
    else if name == "constructor" || name == "hasOwnProperty" || name == "isPrototypeOf"
      || name == "propertyIsEnumerable" || name == "__lookupGetter__" || name == "__lookupSetter__" then Some(1)
    else if name == "__defineGetter__" || name == "__defineSetter__" then Some(2)
    else None
  }

  predicate Inherited(name: string) {
    InheritedLength(name).Some?
  }

  /** A segment that no branch of the cache is ever made for. */
  predicate Blocked(part: string) {
    Forbidden(part) || Inherited(part)
  }

  // ---------------------------------------------------------------- splitting paths

  function Split(s: string): (parts: seq<string>)
    ensures |parts| >= 1
  {
    if s == "" then [""]
    else
      var rest := Split(s[1..]);
      if s[0] == '.' then [""] + rest else [[s[0]] + rest[0]] + rest[1..]
  }

  function JoinDots(parts: seq<string>): string
    requires parts != []
  {
    if |parts| == 1 then parts[0] else parts[0] + "." + JoinDots(parts[1..])
  }

  lemma {:induction false} JoinSplit(s: string)
    ensures JoinDots(Split(s)) == s
  {
    if s != "" {
      JoinSplit(s[1..]);
      var rest := Split(s[1..]);
      if s[0] == '.' {
        assert ([""] + rest)[1..] == rest;
        assert s == "" + "." + s[1..];
      } else {
        var head := [s[0]] + rest[0];
        assert ([head] + rest[1..])[1..] == rest[1..];
        if |rest| > 1 { assert head + "." + JoinDots(rest[1..]) == [s[0]] + (rest[0] + "." + JoinDots(rest[1..])); }
        assert s == [s[0]] + s[1..];
      }
    }
  }

  lemma {:induction false} SplitPiece(key: string)
    requires '.' !in key
    ensures Split(key) == [key]
  {
    if key != "" {
      assert key == [key[0]] + key[1..];
      SplitPiece(key[1..]);
    }
  }

  lemma {:induction false} SplitAtDot(key: string, rest: string)
    requires '.' !in key
    ensures Split(key + "." + rest) == [key] + Split(rest)
  {
    if key == "" {
      assert (key + "." + rest)[1..] == rest;
    } else {
      SplitAtDot(key[1..], rest);
      assert (key + "." + rest)[1..] == key[1..] + "." + rest;
      assert key == [key[0]] + key[1..];
    }
  }

  function ContextAndPathParts(context: Context, path: Path): seq<string> {
    if path == "" then Split(context) else Split(context) + Split(path)
  }

  /** A context is two-part when it has exactly one dot, as `vessels.<id>`. */
  predicate TwoPart(context: Context) {
    |Split(context)| == 2
  }

  lemma PartsDetermine(c: Context, p: Path, s: SourceRef, c': Context, p': Path, s': SourceRef)
    requires TwoPart(c) && TwoPart(c') && p != "" && p' != ""
    requires ContextAndPathParts(c, p) + [s] == ContextAndPathParts(c', p') + [s']
    ensures c == c' && p == p' && s == s'
  {
    var a, b := ContextAndPathParts(c, p), ContextAndPathParts(c', p');
    assert a == (a + [s])[..|a|] && b == (b + [s'])[..|b|];
    assert Split(c) == a[..2] && Split(c') == b[..2] && Split(p) == a[2..] && Split(p') == b[2..];
    JoinSplit(c); JoinSplit(c'); JoinSplit(p); JoinSplit(p');
  }

  // ---------------------------------------------------------------- the tree

  function Get(kids: Kids, key: string): Option<Tree> {
    match kids
    case Nil => None
    case Kid(k, sub, rest) => if k == key then Some(sub) else Get(rest, key)
  }

  /** Assigning a property: in place when it exists, last otherwise. */
  function Put(kids: Kids, key: string, t: Tree): Kids {
    match kids
    case Nil => Kid(key, t, Nil)
    case Kid(k, sub, rest) => if k == key then Kid(k, t, rest) else Kid(k, sub, Put(rest, key, t))
  }

  function Delete(kids: Kids, key: string): Kids {
    match kids
    case Nil => Nil
    case Kid(k, sub, rest) => if k == key then rest else Kid(k, sub, Delete(rest, key))
  }

  /**
   `getLeafObject` with `createIfMissing`, then `leaf[source] = msg`. Branches made before a forbidden segment stay. A
   segment that every object inherits is never missing: the walk steps onto the inherited value and leaves the cache. A
   walk onto a cached delta, which the hypotheses below exclude, leaves it as it is.
   */
  function Store(t: Tree, parts: seq<string>, source: SourceRef, msg: Message): Tree
    decreases |parts|
  {
    if t.Leaf? then t
    else if parts == [] then Branch(Put(t.kids, source, Leaf(msg)))
    else if Forbidden(parts[0]) || (Get(t.kids, parts[0]).None? && Inherited(parts[0])) then t
    else
      var sub := match Get(t.kids, parts[0]) case Some(s) => s case None => Branch(Nil);
      Branch(Put(t.kids, parts[0], Store(sub, parts[1..], source, msg)))
  }

  /** `removeFromNode`: drops the source's leaves everywhere except below a `meta` key. */
  function Evict(t: Tree, source: SourceRef): Tree {
    match t
    case Leaf(_) => t
    case Branch(kids) => Branch(EvictKids(kids, source))
  }

  function EvictKids(kids: Kids, source: SourceRef): Kids {
    match kids
    case Nil => Nil
    case Kid(k, sub, rest) =>
      if k == "meta" then Kid(k, sub, EvictKids(rest, source))
      else if sub.Leaf? then (if k == source then EvictKids(rest, source) else Kid(k, sub, EvictKids(rest, source)))
      else Kid(k, Evict(sub, source), EvictKids(rest, source))
  }

  /** `delete cache[type][id]`, which throws when the cache has no branch for the type and no object inherits one. */
  function DropContext(t: Tree, context: Context): Option<Tree> {
    var parts := Split(context);
    if |parts| != 2 then Some(t)
    else if t.Leaf? then None
    else match Get(t.kids, parts[0])
      case Some(Branch(kids)) => Some(Branch(Put(t.kids, parts[0], Branch(Delete(kids, parts[1])))))
      case _ => if Inherited(parts[0]) then Some(t) else None
  }

  /** Dropping throws exactly when a two-part context's type has neither a branch here nor an inherited value. */
  lemma DropThrowsExactlyWhen(kids: Kids, context: Context)
    ensures DropContext(Branch(kids), context).None? <==>
      |Split(context)| == 2 && !Inherited(Split(context)[0])
      && (Get(kids, Split(context)[0]).None? || Get(kids, Split(context)[0]).value.Leaf?)
  {
    hide Inherited, Split;
  }

  /** `findDeltas` over one context branch. */
  function Scan(t: Tree): seq<Message> {
    match t
    case Leaf(m) => [m]
    case Branch(kids) => ScanKids(kids)
  }

  function ScanKids(kids: Kids): seq<Message> {
    match kids
    case Nil => []
    case Kid(_, sub, rest) => Scan(sub) + ScanKids(rest)
  }

  function ContextBranch(t: Tree, context: Context): Option<Tree> {
    var parts := Split(context);
    if t.Leaf? || |parts| != 2 then None
    else match Get(t.kids, parts[0])
      case Some(Branch(kids)) => Get(kids, parts[1])
      case _ => None
  }

  function ScanContext(t: Tree, context: Context): seq<Message> {
    match ContextBranch(t, context)
    case Some(branch) => Scan(branch)
    case None => []
  }

  function NodeAt(t: Tree, parts: seq<string>): Option<Tree>
    decreases |parts|
  {
    if parts == [] then Some(t)
    else if t.Leaf? then None
    else match Get(t.kids, parts[0])
      case Some(sub) => NodeAt(sub, parts[1..])
      case None => None
  }

  method NodeOf(t: Tree, parts: seq<string>) returns (node: Option<Tree>)
    ensures node == NodeAt(t, parts)
  {
    var at := t;
    for i := 0 to |parts|
      invariant NodeAt(t, parts) == NodeAt(at, parts[i..])
    {
      assert parts[i..][1..] == parts[i + 1..];
      if at.Leaf? { return None; }
      var child := Get(at.kids, parts[i]);
      if child.None? { return None; }
      at := child.value;
    }
    return Some(at);
  }

  // ---------------------------------------------------------------- the memo of splits

  type Memo = map<Context, map<Path, seq<string>>>

  /** Every remembered split is the split, of a context and path that the cache does not refuse. */
  ghost predicate RightMemo(memo: Memo) {
    forall c | c in memo :: !Forbidden(c) && forall p | p in memo[c] :: memo[c][p] == ContextAndPathParts(c, p)
  }

  /**
   The walk reads the parts by index, from zero up to their length. A function that every object inherits has a length
   and no such index, so the walk reads as many undefined keys.
   */
  function Undefineds(name: string): seq<string>
    requires Inherited(name)
  {
    seq(InheritedLength(name).value, _ => "undefined")
  }

  /** The inner table of the memo is a plain object: asked for a path it lacks, it answers with what objects inherit. */
  function Lookup(memo: Memo, context: Context, path: Path): seq<string> {
    if Forbidden(context) || context !in memo then ContextAndPathParts(context, path)
    else if path in memo[context] then memo[context][path]
    else if Inherited(path) then Undefineds(path)
    else ContextAndPathParts(context, path)
  }

  predicate AnyForbidden(parts: seq<string>) {
    exists i | 0 <= i < |parts| :: Forbidden(parts[i])
  }

  function Remember(memo: Memo, context: Context, path: Path): Memo {
    var parts := ContextAndPathParts(context, path);
    if !Forbidden(context) && context in memo && (path in memo[context] || Inherited(path)) then memo
    else if AnyForbidden(parts) then memo
    else memo[context := (if context in memo then memo[context] else map[])[path := parts]]
  }

  /** The memo answers with the split exactly when it does not answer with something inherited instead. */
  lemma LookupIsSplitExactlyWhen(memo: Memo, context: Context, path: Path)
    requires RightMemo(memo)
    ensures Lookup(memo, context, path) == ContextAndPathParts(context, path)
      <==> !Inherited(path) || context !in memo || path in memo[context]
  {
    hide InheritedLength;
    if Inherited(path) {
      InheritedIsPiece(path);
      var parts := ContextAndPathParts(context, path);
      assert parts[|parts| - 1] == path && |parts| >= 2;
      var odd := Undefineds(path);
      assert |odd| > 0 ==> odd[|odd| - 1] == "undefined";
    }
  }

  /** No inherited name has a dot, and none is `undefined`. */
  lemma InheritedHasNoDot(name: string)
    requires Inherited(name)
    ensures '.' !in name && name != "" && name != "undefined"
  {
    if name == "toString" {
    } else if name == "toLocaleString" {
    } else if name == "valueOf" {
    } else if name == "__proto__" {
    } else if name == "constructor" {
    } else if name == "hasOwnProperty" {
    } else if name == "isPrototypeOf" {
    } else if name == "propertyIsEnumerable" {
    } else if name == "__lookupGetter__" {
    } else if name == "__lookupSetter__" {
    } else if name == "__defineGetter__" {
    } else {
      assert name == "__defineSetter__";
    }
  }

  lemma InheritedIsPiece(path: Path)
    requires Inherited(path)
    ensures path != "" && Split(path) == [path] && path != "undefined"
  {
    InheritedHasNoDot(path);
    hide Inherited;
    SplitPiece(path);
  }

  /** After a lookup the split is remembered, unless a segment is forbidden or something inherited was answered. */
  lemma RememberedExactlyWhen(memo: Memo, context: Context, path: Path)
    requires RightMemo(memo)
    ensures var after := Remember(memo, context, path);
      && (context in after && path in after[context] <==>
            (context in memo && path in memo[context])
            || (!AnyForbidden(ContextAndPathParts(context, path)) && !(context in memo && Inherited(path))))
      && (forall c, p | c in memo && p in memo[c] :: c in after && p in after[c])
  {
    hide Inherited;
    if Forbidden(context) { ForbiddenContext(context, path); }
  }

  lemma ForbiddenContext(context: Context, path: Path)
    requires Forbidden(context)
    ensures AnyForbidden(ContextAndPathParts(context, path))
  {
    SplitPiece(context);
    assert ContextAndPathParts(context, path)[0] == context;
  }

  lemma RememberKeepsRight(memo: Memo, context: Context, path: Path)
    requires RightMemo(memo)
    ensures RightMemo(Remember(memo, context, path))
  {
    if Forbidden(context) { ForbiddenContext(context, path); }
  }

  // ---------------------------------------------------------------- the cache object

  datatype CacheState = CacheState(tree: Tree, memo: Memo)

  class DeltaCache {
    var cache: Tree
    var cachedContextPaths: Memo

    ghost function Abs(): CacheState
      reads this
    {
      CacheState(cache, cachedContextPaths)
    }

    constructor ()
      ensures Abs() == EMPTY_CACHE
    {
      cache, cachedContextPaths := Branch(Nil), map[];
    }

    method GetContextAndPathParts(context: Context, path: Path) returns (parts: seq<string>)
      modifies this`cachedContextPaths
      ensures parts == Lookup(old(cachedContextPaths), context, path)
      ensures cachedContextPaths == Remember(old(cachedContextPaths), context, path)
    {
      if !Forbidden(context) && context in cachedContextPaths {
        if path in cachedContextPaths[context] { return cachedContextPaths[context][path]; }
        if Inherited(path) { return Undefineds(path); }
      }
      parts := Split(context);
      if path != "" { parts := parts + Split(path); }
      if AnyForbidden(parts) { return; }
      var paths := if context in cachedContextPaths then cachedContextPaths[context] else map[];
      cachedContextPaths := cachedContextPaths[context := paths[path := parts]];
    }

    /** The periodic wholesale reset of the memo. */
    method ForgetSplits()
      modifies this`cachedContextPaths
      ensures Abs() == Apply(old(Abs()), OpForgetSplits)
    {
      cachedContextPaths := map[];
    }

    /** One value of an ingested delta; root values are skipped. */
    method Ingest(msg: Message)
      modifies this
      ensures Abs() == Apply(old(Abs()), OpIngest(msg))
    {
      if msg.path == "" { return; }
      var parts := GetContextAndPathParts(msg.context, msg.path);
      cache := Store(cache, parts, msg.source, msg);
    }

    method RemoveSource(source: SourceRef)
      modifies this
      ensures Abs() == Apply(old(Abs()), OpRemoveSource(source))
    {
      cache := Evict(cache, source);
    }

    method DeleteContextEntries(context: Context) returns (threw: bool)
      modifies this
      ensures Abs() == Apply(old(Abs()), OpDeleteContext(context))
      ensures threw <==> DropContext(old(cache), context).None?
    {
      match DropContext(cache, context) {
        case None => threw := true;
        case Some(t) =>
          threw := false;
          cache := t;
          cachedContextPaths := cachedContextPaths - {context};
      }
    }
  }

  // ---------------------------------------------------------------- runs, and the flat reference

  datatype Op =
    | OpIngest(msg: Message)
    | OpRemoveSource(source: SourceRef)
    | OpDeleteContext(context: Context)
    | OpForgetSplits

  const EMPTY_CACHE := CacheState(Branch(Nil), map[])

  function Apply(st: CacheState, op: Op): CacheState {
    match op
    case OpIngest(m) =>
      if m.path == "" then st
      else CacheState(Store(st.tree, Lookup(st.memo, m.context, m.path), m.source, m),
                      Remember(st.memo, m.context, m.path))
    case OpRemoveSource(source) => st.(tree := Evict(st.tree, source))
    case OpDeleteContext(context) =>
      (match DropContext(st.tree, context)
       case Some(t) => CacheState(t, st.memo - {context})
       case None => st)
    case OpForgetSplits => st.(memo := map[])
  }

  function Run(ops: seq<Op>): CacheState {
    if ops == [] then EMPTY_CACHE else Apply(Run(ops[..|ops| - 1]), ops[|ops| - 1])
  }

  /** What an operation does to the tree when the split is looked up right. */
  function ApplyTree(t: Tree, op: Op): Tree {
    match op
    case OpIngest(m) => if m.path == "" then t else Store(t, ContextAndPathParts(m.context, m.path), m.source, m)
    case OpRemoveSource(source) => Evict(t, source)
    case OpDeleteContext(context) => (match DropContext(t, context) case Some(t') => t' case None => t)
    case OpForgetSplits => t
  }

  /** The memo answers the operation with something inherited. */
  predicate Misfiles(memo: Memo, op: Op) {
    op.OpIngest? && Inherited(op.msg.path) && op.msg.context in memo && op.msg.path !in memo[op.msg.context]
  }

  /** As long as the memo answers right it is no part of what the cache holds. */
  lemma ApplyIsTree(st: CacheState, op: Op)
    requires RightMemo(st.memo) && !Misfiles(st.memo, op)
    ensures Apply(st, op).tree == ApplyTree(st.tree, op)
  {
    if op.OpIngest? { LookupIsSplitExactlyWhen(st.memo, op.msg.context, op.msg.path); }
  }

  lemma {:induction false} MemoStaysRight(ops: seq<Op>)
    ensures RightMemo(Run(ops).memo)
  {
    if ops != [] {
      MemoStaysRight(ops[..|ops| - 1]);
      var st, op := Run(ops[..|ops| - 1]), ops[|ops| - 1];
      if op.OpIngest? { RememberKeepsRight(st.memo, op.msg.context, op.msg.path); }
    }
  }

  type Flat = map<(Context, Path, SourceRef), Message>

  predicate AnyBlocked(parts: seq<string>) {
    exists i | 0 <= i < |parts| :: Blocked(parts[i])
  }

  /** The reference: the last message of each (context, path, source) without a blocked segment. */
  function FlatApply(flat: Flat, op: Op): Flat {
    match op
    case OpIngest(m) =>
      if m.path == "" || AnyBlocked(ContextAndPathParts(m.context, m.path)) then flat
      else flat[(m.context, m.path, m.source) := m]
    case OpRemoveSource(source) => map k | k in flat && k.2 != source :: flat[k]
    case OpDeleteContext(context) => map k | k in flat && k.0 != context :: flat[k]
    case OpForgetSplits => flat
  }

  function FlatRun(ops: seq<Op>): Flat {
    if ops == [] then map[] else FlatApply(FlatRun(ops[..|ops| - 1]), ops[|ops| - 1])
  }

  // ---------------------------------------------------------------- looking up key paths

  function Find(t: Tree, keys: seq<string>): Option<Message>
    decreases |keys|
  {
    if t.Leaf? then (if keys == [] then Some(t.msg) else None)
    else if keys == [] then None
    else match Get(t.kids, keys[0])
      case Some(sub) => Find(sub, keys[1..])
      case None => None
  }

  /**
   Source keys hold cached deltas, all other keys hold branches and are not blocked, no key repeats and none is `meta`.
   */
  ghost predicate Typed(t: Tree, sources: set<SourceRef>) {
    t.Branch? ==> TypedKids(t.kids, sources)
  }

  ghost predicate TypedKids(kids: Kids, sources: set<SourceRef>) {
    match kids
    case Nil => true
    case Kid(k, sub, rest) =>
      k != "meta" && Get(rest, k).None? && (sub.Leaf? <==> k in sources) && (k in sources || !Blocked(k))
        && Typed(sub, sources) && TypedKids(rest, sources)
  }

  lemma GetPut(kids: Kids, key: string, t: Tree, other: string)
    ensures Get(Put(kids, key, t), other) == if other == key then Some(t) else Get(kids, other)
  {
  }

  lemma {:induction false} GetDelete(kids: Kids, sources: set<SourceRef>, key: string, other: string)
    requires TypedKids(kids, sources)
    ensures TypedKids(Delete(kids, key), sources)
    ensures Get(Delete(kids, key), other) == if other == key then None else Get(kids, other)
  {
    match kids
    case Nil =>
    case Kid(k, sub, rest) =>
      GetDelete(rest, sources, key, other);
      GetDelete(rest, sources, key, k);
  }

  lemma {:induction false} PutTyped(kids: Kids, sources: set<SourceRef>, key: string, t: Tree)
    requires TypedKids(kids, sources) && key != "meta" && (t.Leaf? <==> key in sources) && Typed(t, sources)
    requires key in sources || !Blocked(key)
    ensures TypedKids(Put(kids, key, t), sources)
  {
    match kids
    case Nil =>
    case Kid(k, sub, rest) =>
      if k != key {
        PutTyped(rest, sources, key, t);
        GetPut(rest, key, t, k);
      }
  }

  lemma {:induction false} GetTyped(kids: Kids, sources: set<SourceRef>, key: string)
    requires TypedKids(kids, sources) && Get(kids, key).Some?
    ensures Typed(Get(kids, key).value, sources) && (Get(kids, key).value.Leaf? <==> key in sources) && key != "meta"
    ensures key in sources || !Blocked(key)
  {
    match kids
    case Nil =>
    case Kid(k, sub, rest) => if k != key { GetTyped(rest, sources, key); }
  }

  lemma AnyBlockedFirst(parts: seq<string>)
    requires parts != []
    ensures AnyBlocked(parts) <==> Blocked(parts[0]) || AnyBlocked(parts[1..])
  {
    if i :| 0 <= i < |parts| && Blocked(parts[i]) {
      if i > 0 { assert parts[1..][i - 1] == parts[i]; }
    }
    if i :| 0 <= i < |parts[1..]| && Blocked(parts[1..][i]) { assert parts[i + 1] == parts[1..][i]; }
  }

  lemma NothingBlocked()
    ensures !AnyBlocked([])
  {
  }

  /** Storing writes one key path and no other; a blocked segment, forbidden or inherited, writes none. */
  lemma {:induction false} FindStore(t: Tree, sources: set<SourceRef>, parts: seq<string>, source: SourceRef,
                                     msg: Message, keys: seq<string>)
    requires t.Branch? && Typed(t, sources) && source in sources && source != "meta"
    requires forall i | 0 <= i < |parts| :: parts[i] !in sources && parts[i] != "meta"
    ensures Store(t, parts, source, msg).Branch? && Typed(Store(t, parts, source, msg), sources)
    ensures Find(Store(t, parts, source, msg), keys) ==
      if keys == parts + [source] && !AnyBlocked(parts) then Some(msg) else Find(t, keys)
    decreases |parts|
  {
    hide Inherited, InheritedLength, Forbidden, AnyBlocked;
    if parts == [] {
      NothingBlocked();
      PutTyped(t.kids, sources, source, Leaf(msg));
      if keys != [] {
        GetPut(t.kids, source, Leaf(msg), keys[0]);
        if keys[0] == source {
          assert keys == [source] + keys[1..];
          if Get(t.kids, source).Some? { GetTyped(t.kids, sources, source); }
        }
      }
    } else if !Blocked(parts[0]) {
      var sub := match Get(t.kids, parts[0]) case Some(s) => s case None => Branch(Nil);
      if Get(t.kids, parts[0]).Some? { GetTyped(t.kids, sources, parts[0]); }
      var stored := Store(sub, parts[1..], source, msg);
      var rest := if keys == [] then [] else keys[1..];
      FindStore(sub, sources, parts[1..], source, msg, rest);
      PutTyped(t.kids, sources, parts[0], stored);
      AnyBlockedFirst(parts);
      if keys != [] {
        GetPut(t.kids, parts[0], stored, keys[0]);
        assert keys == [keys[0]] + rest;
        assert parts + [source] == [parts[0]] + (parts[1..] + [source]);
        assert keys[0] == parts[0] ==> (keys == parts + [source] <==> rest == parts[1..] + [source]);
      }
    } else {
      AnyBlockedFirst(parts);
      if Get(t.kids, parts[0]).Some? { GetTyped(t.kids, sources, parts[0]); }
    }
  }

  lemma {:induction false} GetEvict(kids: Kids, sources: set<SourceRef>, source: SourceRef, key: string)
    requires TypedKids(kids, sources)
    ensures TypedKids(EvictKids(kids, source), sources)
    ensures Get(EvictKids(kids, source), key) ==
      match Get(kids, key)
      case None => None
      case Some(sub) => if sub.Leaf? then (if key == source then None else Some(sub)) else Some(Evict(sub, source))
  {
    match kids
    case Nil =>
    case Kid(k, sub, rest) =>
      GetEvict(rest, sources, source, key);
      GetEvict(rest, sources, source, k);
      if sub.Branch? { EvictTyped(sub, sources, source); }
  }

  lemma {:induction false} EvictTyped(t: Tree, sources: set<SourceRef>, source: SourceRef)
    requires t.Branch? && Typed(t, sources)
    ensures Typed(Evict(t, source), sources)
  {
    GetEvict(t.kids, sources, source, "");
  }

  /** Evicting a source clears the key paths that end in it and no other. */
  lemma {:induction false} FindEvict(t: Tree, sources: set<SourceRef>, source: SourceRef, keys: seq<string>)
    requires t.Branch? && Typed(t, sources)
    ensures Typed(Evict(t, source), sources)
    ensures Find(Evict(t, source), keys) == if keys != [] && keys[|keys| - 1] == source then None else Find(t, keys)
    decreases |keys|
  {
    EvictTyped(t, sources, source);
    if keys != [] {
      GetEvict(t.kids, sources, source, keys[0]);
      if Get(t.kids, keys[0]).Some? {
        GetTyped(t.kids, sources, keys[0]);
        if Get(t.kids, keys[0]).value.Branch? { FindEvict(Get(t.kids, keys[0]).value, sources, source, keys[1..]); }
      }
    }
  }

  /** Dropping a two-part context clears the key paths below it and no other. */
  lemma FindDropContext(t: Tree, sources: set<SourceRef>, context: Context, keys: seq<string>)
    requires t.Branch? && Typed(t, sources) && TwoPart(context) && DropContext(t, context).Some?
    requires Split(context)[0] !in sources && Split(context)[1] !in sources
    ensures var t' := DropContext(t, context).value;
      && t'.Branch? && Typed(t', sources)
      && Find(t', keys) == if |keys| >= 2 && keys[..2] == Split(context) then None else Find(t, keys)
  {
    var parts := Split(context);
    if Get(t.kids, parts[0]).None? { return; }
    GetTyped(t.kids, sources, parts[0]);
    var typeKids := Get(t.kids, parts[0]).value.kids;
    var emptied := Delete(typeKids, parts[1]);
    GetDelete(typeKids, sources, parts[1], if |keys| >= 2 then keys[1] else "");
    PutTyped(t.kids, sources, parts[0], Branch(emptied));
    if keys != [] { GetPut(t.kids, parts[0], Branch(emptied), keys[0]); }
  }

  // ---------------------------------------------------------------- agreement with the flat map

  /** What a run's messages share: two-part contexts, and source references that no path segment uses. */
  ghost predicate Sane(op: Op, sources: set<SourceRef>) {
    match op
    case OpIngest(m) =>
      && TwoPart(m.context) && m.source in sources && m.source != "meta" && m.source != "__proto__"
      && forall i | 0 <= i < |ContextAndPathParts(m.context, m.path)| ::
        (ContextAndPathParts(m.context, m.path)[i] !in sources && ContextAndPathParts(m.context, m.path)[i] != "meta")
    case OpRemoveSource(_) => true
    case OpForgetSplits => true
    case OpDeleteContext(c) => TwoPart(c) && Split(c)[0] !in sources && Split(c)[1] !in sources
  }

  function KeysOf(k: (Context, Path, SourceRef)): seq<string> {
    ContextAndPathParts(k.0, k.1) + [k.2]
  }

  ghost predicate Agrees(t: Tree, flat: Flat, sources: set<SourceRef>) {
    && t.Branch? && Typed(t, sources)
    && (forall k | k in flat :: TwoPart(k.0) && k.1 != "" && (flat[k].context, flat[k].path, flat[k].source) == k)
    && (forall k | k in flat :: Find(t, KeysOf(k)) == Some(flat[k]))
    && (forall keys {:trigger Find(t, keys)} | Find(t, keys).Some? :: exists k :: k in flat && KeysOf(k) == keys)
  }

  lemma StoreAgrees(t: Tree, flat: Flat, sources: set<SourceRef>, m: Message)
    requires Agrees(t, flat, sources) && Sane(OpIngest(m), sources)
    ensures Agrees(ApplyTree(t, OpIngest(m)), FlatApply(flat, OpIngest(m)), sources)
  {
    if m.path != "" {
      var parts := ContextAndPathParts(m.context, m.path);
      var t', flat' := ApplyTree(t, OpIngest(m)), FlatApply(flat, OpIngest(m));
      var key := (m.context, m.path, m.source);
      FindStore(t, sources, parts, m.source, m, []);
      forall k | k in flat' ensures Find(t', KeysOf(k)) == Some(flat'[k]) {
        FindStore(t, sources, parts, m.source, m, KeysOf(k));
        if KeysOf(k) == KeysOf(key) { PartsDetermine(k.0, k.1, k.2, m.context, m.path, m.source); }
      }
      forall keys | Find(t', keys).Some? ensures exists k :: k in flat' && KeysOf(k) == keys {
        FindStore(t, sources, parts, m.source, m, keys);
        if keys == KeysOf(key) && !AnyBlocked(parts) {
          assert key in flat';
        } else {
          var k :| k in flat && KeysOf(k) == keys;
          assert k in flat';
        }
      }
    }
  }

  lemma EvictAgrees(t: Tree, flat: Flat, sources: set<SourceRef>, source: SourceRef)
    requires Agrees(t, flat, sources)
    ensures Agrees(ApplyTree(t, OpRemoveSource(source)), FlatApply(flat, OpRemoveSource(source)), sources)
  {
    var t', flat' := ApplyTree(t, OpRemoveSource(source)), FlatApply(flat, OpRemoveSource(source));
    FindEvict(t, sources, source, []);
    forall k | k in flat' ensures Find(t', KeysOf(k)) == Some(flat'[k]) {
      FindEvict(t, sources, source, KeysOf(k));
    }
    forall keys | Find(t', keys).Some? ensures exists k :: k in flat' && KeysOf(k) == keys {
      FindEvict(t, sources, source, keys);
      var k :| k in flat && KeysOf(k) == keys;
      assert keys[|keys| - 1] == k.2;
      assert k in flat';
    }
  }

  lemma KeysStartWithContext(k: (Context, Path, SourceRef), context: Context)
    requires TwoPart(k.0)
    ensures |KeysOf(k)| >= 2 && (k.0 == context <==> KeysOf(k)[..2] == Split(context))
  {
    assert KeysOf(k)[..2] == Split(k.0);
    JoinSplit(k.0);
    JoinSplit(context);
  }

  lemma DropAgrees(t: Tree, flat: Flat, sources: set<SourceRef>, context: Context)
    requires Agrees(t, flat, sources) && Sane(OpDeleteContext(context), sources)
    ensures Agrees(ApplyTree(t, OpDeleteContext(context)), FlatApply(flat, OpDeleteContext(context)), sources)
  {
    var t', flat' := ApplyTree(t, OpDeleteContext(context)), FlatApply(flat, OpDeleteContext(context));
    var parts := Split(context);
    forall k | k in flat ensures |KeysOf(k)| >= 2 && (k.0 == context <==> KeysOf(k)[..2] == parts) {
      KeysStartWithContext(k, context);
    }
    if DropContext(t, context).None? {
      forall k | k in flat ensures k.0 != context { NoneToDrop(t, flat, sources, context, k); }
      assert flat' == flat;
    } else {
      hide Find, Split, KeysOf, DropContext, Typed;
      FindDropContext(t, sources, context, []);
      forall k | k in flat' ensures Find(t', KeysOf(k)) == Some(flat'[k]) {
        FindDropContext(t, sources, context, KeysOf(k));
      }
      forall keys | Find(t', keys).Some? ensures exists k :: k in flat' && KeysOf(k) == keys {
        FindDropContext(t, sources, context, keys);
        var k :| k in flat && KeysOf(k) == keys;
        assert k in flat';
      }
    }
  }

  /** When the cache has no branch for the context's type, the flat map has no entry for the context. */
  lemma NoneToDrop(t: Tree, flat: Flat, sources: set<SourceRef>, context: Context, k: (Context, Path, SourceRef))
    requires Agrees(t, flat, sources) && Sane(OpDeleteContext(context), sources)
    requires DropContext(t, context).None? && k in flat
    ensures k.0 != context
  {
    assert Find(t, KeysOf(k)).Some?;
    assert KeysOf(k)[0] == Split(k.0)[0];
    if Get(t.kids, Split(context)[0]).Some? { GetTyped(t.kids, sources, Split(context)[0]); }
  }

  /** The memo answers right all along. */
  ghost predicate NothingMisfiled(ops: seq<Op>) {
    forall n | 0 <= n < |ops| :: !Misfiles(Run(ops[..n]).memo, ops[n])
  }

  lemma NothingMisfiledLast(init: seq<Op>, op: Op)
    ensures NothingMisfiled(init + [op]) <==> NothingMisfiled(init) && !Misfiles(Run(init).memo, op)
  {
    hide Misfiles, Run;
    var ops := init + [op];
    assert ops[..|init|] == init;
    assert forall n | 0 <= n < |init| :: ops[..n] == init[..n] && ops[n] == init[n];
    if NothingMisfiled(ops) { assert !Misfiles(Run(ops[..|init|]).memo, ops[|init|]); }
  }

  /** After any run in which the memo answers right the tree holds exactly the last writes. */
  lemma {:induction false} TrieAgreesWithFlatMap(ops: seq<Op>, sources: set<SourceRef>)
    requires NothingMisfiled(ops) && forall op | op in ops :: Sane(op, sources)
    ensures Agrees(Run(ops).tree, FlatRun(ops), sources)
  {
    hide Agrees, Sane, Apply, FlatApply, NothingMisfiled, Misfiles;
    if ops == [] {
      EmptyAgrees(sources);
    } else {
      var init, op := ops[..|ops| - 1], ops[|ops| - 1];
      assert ops == init + [op] && op in ops;
      NothingMisfiledLast(init, op);
      TrieAgreesWithFlatMap(init, sources);
      MemoStaysRight(init);
      ApplyIsTree(Run(init), op);
      StepAgrees(Run(init).tree, FlatRun(init), sources, op);
    }
  }

  lemma StepAgrees(t: Tree, flat: Flat, sources: set<SourceRef>, op: Op)
    requires Agrees(t, flat, sources) && Sane(op, sources)
    ensures Agrees(ApplyTree(t, op), FlatApply(flat, op), sources)
  {
    hide Agrees, Sane;
    match op
    case OpIngest(m) => StoreAgrees(t, flat, sources, m);
    case OpRemoveSource(source) => EvictAgrees(t, flat, sources, source);
    case OpDeleteContext(context) => DropAgrees(t, flat, sources, context);
    case OpForgetSplits =>
  }

  /** The undefined keys, and the source, at which a misfiled message is stored. */
  function MisfiledAt(m: Message): seq<string>
    requires Inherited(m.path)
  {
    Undefineds(m.path) + [m.source]
  }

  /**
   A value whose path is the name of an inherited property should be refused. It is, and the tree keeps agreeing with
   the last writes, exactly when its context is not in the memo, or the path was asked before the context was. Otherwise
   the value lands near the root of the cache, outside its context.
   */
  lemma MisfiledExactlyWhen(ops: seq<Op>, m: Message, sources: set<SourceRef>)
    requires NothingMisfiled(ops) && (forall op | op in ops :: Sane(op, sources))
    requires Sane(OpIngest(m), sources) && Inherited(m.path) && "undefined" !in sources
    ensures var st, after := Run(ops), Run(ops + [OpIngest(m)]).tree;
      && FlatRun(ops + [OpIngest(m)]) == FlatRun(ops)
      && (Agrees(after, FlatRun(ops), sources)
          <==> !Misfiles(st.memo, OpIngest(m)))
      && (!Agrees(after, FlatRun(ops), sources) ==> Find(after, MisfiledAt(m)) == Some(m))
  {
    hide InheritedLength, Forbidden, Store, Find;
    var st, flat, op := Run(ops), FlatRun(ops), OpIngest(m);
    assert (ops + [op])[..|ops|] == ops;
    TrieAgreesWithFlatMap(ops, sources);
    MemoStaysRight(ops);
    RefusedByReference(flat, m);
    LookupIsSplitExactlyWhen(st.memo, m.context, m.path);
    InheritedIsPiece(m.path);
    if !Misfiles(st.memo, op) {
      StepAgrees(st.tree, flat, sources, op);
    } else {
      hide Agrees, Sane;
      assert Run(ops + [op]).tree == Store(st.tree, Undefineds(m.path), m.source, m);
      StoredAtUndefineds(st.tree, flat, m, sources);
    }
  }

  lemma RefusedByReference(flat: Flat, m: Message)
    requires Inherited(m.path)
    ensures FlatApply(flat, OpIngest(m)) == flat
  {
    hide InheritedLength;
    InheritedIsPiece(m.path);
    var parts := ContextAndPathParts(m.context, m.path);
    assert Blocked(parts[|parts| - 1]);
  }

  lemma StoredAtUndefineds(t: Tree, flat: Flat, m: Message, sources: set<SourceRef>)
    requires Agrees(t, flat, sources) && m.source in sources && m.source != "meta" && "undefined" !in sources
    requires Inherited(m.path)
    ensures var after := Store(t, Undefineds(m.path), m.source, m);
      Find(after, MisfiledAt(m)) == Some(m) && !Agrees(after, flat, sources)
  {
    var odd := Undefineds(m.path);
    assert !Blocked("undefined");
    assert |odd| <= 2;
    hide InheritedLength, Forbidden, Store, Find, KeysOf;
    FindStore(t, sources, odd, m.source, m, odd + [m.source]);
    TooShort(flat, odd + [m.source]);
  }

  /** Such an input by name: a value on `constructor` ends up under `undefined`. */
  lemma ConstructorIsMisfiled(first: Message, m: Message, sources: set<SourceRef>)
    requires Sane(OpIngest(first), sources) && Sane(OpIngest(m), sources) && "undefined" !in sources
    requires first.context == m.context && first.path == "a" && m.path == "constructor"
    requires !AnyForbidden(Split(m.context))
    ensures Find(Run([OpIngest(first), OpIngest(m)]).tree, ["undefined", m.source]) == Some(m)
  {
    NameFacts();
    hide Inherited, InheritedLength, Forbidden, Sane, Agrees, Find, Run;
    PlainAfterContext(first.context, first.path);
    InheritedPathIsMisfiled(first, m, sources);
    assert MisfiledAt(m) == ["undefined", m.source];
  }

  /** And another: a value on `toString` is nowhere in the cache. */
  lemma ToStringIsLost(m: Message, sources: set<SourceRef>)
    requires Sane(OpIngest(m), sources) && m.path == "toString"
    ensures Find(Run([OpIngest(m)]).tree, KeysOf((m.context, m.path, m.source))).None?
  {
    NameFacts();
    hide InheritedLength, Sane, Find, Run;
    InheritedIsPiece(m.path);
    var parts := ContextAndPathParts(m.context, m.path);
    assert parts[|parts| - 1] == m.path && Blocked(m.path);
    KeptNot(m, sources);
  }

  lemma NameFacts()
    ensures Inherited("constructor") && Inherited("toString") && !Inherited("a") && !Forbidden("a")
    ensures Undefineds("constructor") == ["undefined"] && Split("a") == ["a"]
  {
    SplitPiece("a");
  }

  lemma PlainAfterContext(context: Context, path: Path)
    requires !AnyForbidden(Split(context)) && Split(path) == [path] && !Forbidden(path) && path != ""
    ensures !AnyForbidden(ContextAndPathParts(context, path))
  {
  }

  lemma KeptNot(m: Message, sources: set<SourceRef>)
    requires Sane(OpIngest(m), sources) && AnyBlocked(ContextAndPathParts(m.context, m.path))
    ensures Find(Run([OpIngest(m)]).tree, KeysOf((m.context, m.path, m.source))).None?
  {
    hide Inherited, InheritedLength, Forbidden, Sane, Agrees, Find, Store;
    var ops := [OpIngest(m)];
    assert ops[..0] == [] && Run(ops) == Apply(EMPTY_CACHE, ops[0]);
    NothingMisfiledLast([], OpIngest(m));
    assert [] + ops == ops;
    TrieAgreesWithFlatMap(ops, sources);
    BlockedNotFound(Run(ops).tree, FlatRun(ops), sources, m);
  }

  lemma TooShort(flat: Flat, keys: seq<string>)
    requires |keys| <= 3 && forall k | k in flat :: TwoPart(k.0) && k.1 != ""
    ensures !exists k :: k in flat && KeysOf(k) == keys
  {
    forall k | k in flat ensures |KeysOf(k)| >= 4 {}
  }

  /**
   The input: one value on a path of a context, then one on a path like `constructor`. The second is stored under the
   key `undefined`, or at the root of the cache, and the context lacks it as it should.
   */
  lemma InheritedPathIsMisfiled(first: Message, m: Message, sources: set<SourceRef>)
    requires Sane(OpIngest(first), sources) && Sane(OpIngest(m), sources) && "undefined" !in sources
    requires first.context == m.context && first.path != "" && !Inherited(first.path) && Inherited(m.path)
    requires !AnyForbidden(ContextAndPathParts(first.context, first.path))
    ensures Find(Run([OpIngest(first), OpIngest(m)]).tree, MisfiledAt(m)) == Some(m)
    ensures !Agrees(Run([OpIngest(first), OpIngest(m)]).tree, FlatRun([OpIngest(first), OpIngest(m)]), sources)
  {
    hide Agrees, Sane, Find, Store, FlatApply;
    var ops := [OpIngest(first)];
    NothingMisfiledLast([], OpIngest(first));
    assert [] + ops == ops;
    assert ops[..0] == [] && Run(ops) == Apply(EMPTY_CACHE, OpIngest(first));
    assert Run(ops).memo == map[first.context := map[first.path := ContextAndPathParts(first.context, first.path)]];
    assert ops + [OpIngest(m)] == [OpIngest(first), OpIngest(m)];
    MisfiledExactlyWhen(ops, m, sources);
  }

  const PROTOTYPE_KEYS: set<string> := {"__proto__", "constructor", "prototype"}

  /** A value is found at its own key path exactly when no segment is a prototype key or an inherited name. */
  lemma KeptExactlyWhen(ops: seq<Op>, m: Message, sources: set<SourceRef>)
    requires NothingMisfiled(ops) && (forall op | op in ops :: Sane(op, sources))
    requires Sane(OpIngest(m), sources) && !Misfiles(Run(ops).memo, OpIngest(m)) && m.path != ""
    ensures Find(Run(ops + [OpIngest(m)]).tree, KeysOf((m.context, m.path, m.source))) == Some(m)
      <==> forall part | part in ContextAndPathParts(m.context, m.path) :: part !in PROTOTYPE_KEYS && !Inherited(part)
  {
    hide Inherited, InheritedLength, Forbidden, Blocked, AnyBlocked, Store, Find, Typed, NothingMisfiled, Misfiles;
    var st, op, parts := Run(ops), OpIngest(m), ContextAndPathParts(m.context, m.path);
    assert (ops + [op])[..|ops|] == ops;
    TrieAgreesWithFlatMap(ops, sources);
    MemoStaysRight(ops);
    ApplyIsTree(st, op);
    FindStore(st.tree, sources, parts, m.source, m, KeysOf((m.context, m.path, m.source)));
    hide Run, Agrees, Sane;
    AnyBlockedIs(parts);
    if AnyBlocked(parts) { BlockedNotFound(st.tree, FlatRun(ops), sources, m); }
  }

  lemma AnyBlockedIs(parts: seq<string>)
    ensures !AnyBlocked(parts) <==> forall part | part in parts :: part !in PROTOTYPE_KEYS && !Inherited(part)
  {
    hide Inherited;
    if i :| 0 <= i < |parts| && Blocked(parts[i]) { assert parts[i] in parts; }
  }

  /** What has a blocked segment is nowhere in the cache. */
  lemma BlockedNotFound(t: Tree, flat: Flat, sources: set<SourceRef>, m: Message)
    requires Agrees(t, flat, sources) && AnyBlocked(ContextAndPathParts(m.context, m.path))
    ensures Find(t, KeysOf((m.context, m.path, m.source))).None?
  {
    var keys := KeysOf((m.context, m.path, m.source));
    var parts := ContextAndPathParts(m.context, m.path);
    hide Find, Blocked;
    assert forall i | 0 <= i < |parts| :: keys[i] == parts[i];
    if Find(t, keys).Some? { NotBlockedOnTheWay(t, sources, keys); }
  }

  lemma {:induction false} NotBlockedOnTheWay(t: Tree, sources: set<SourceRef>, keys: seq<string>)
    requires Typed(t, sources) && Find(t, keys).Some?
    ensures forall i | 0 <= i < |keys| - 1 :: !Blocked(keys[i])
    decreases |keys|
  {
    hide Blocked;
    if |keys| > 1 {
      GetTyped(t.kids, sources, keys[0]);
      NotBlockedOnTheWay(Get(t.kids, keys[0]).value, sources, keys[1..]);
      assert forall i | 0 < i < |keys| - 1 :: keys[i] == keys[1..][i - 1];
    }
  }

  lemma EmptyAgrees(sources: set<SourceRef>)
    ensures Agrees(Branch(Nil), map[], sources)
  {
  }

  // ---------------------------------------------------------------- scans

  /** The key path at which the scan meets each message. */
  function ScanKeys(t: Tree): seq<seq<string>> {
    match t
    case Leaf(_) => [[]]
    case Branch(kids) => ScanKidsKeys(kids)
  }

  function ScanKidsKeys(kids: Kids): seq<seq<string>> {
    match kids
    case Nil => []
    case Kid(k, sub, rest) => Prefixed(k, ScanKeys(sub)) + ScanKidsKeys(rest)
  }

  function Prefixed(key: string, paths: seq<seq<string>>): seq<seq<string>> {
    seq(|paths|, i requires 0 <= i < |paths| => [key] + paths[i])
  }

  /** A scan meets exactly the messages the tree holds, each at its own key path. */
  ghost predicate ScanIs(t: Tree, messages: seq<Message>, paths: seq<seq<string>>) {
    && |messages| == |paths| && Distinct(paths)
    && (forall i | 0 <= i < |paths| :: Find(t, paths[i]) == Some(messages[i]))
    && (forall keys {:trigger Find(t, keys)} | Find(t, keys).Some? :: keys in paths)
  }

  lemma {:induction false} ScanIsComplete(t: Tree, sources: set<SourceRef>)
    requires Typed(t, sources)
    ensures ScanIs(t, Scan(t), ScanKeys(t))
  {
    if t.Branch? { ScanKidsComplete(t.kids, sources); }
  }

  lemma {:induction false} ScanKidsComplete(kids: Kids, sources: set<SourceRef>)
    requires TypedKids(kids, sources)
    ensures ScanIs(Branch(kids), ScanKids(kids), ScanKidsKeys(kids))
  {
    match kids
    case Nil =>
    case Kid(k, sub, rest) =>
      ScanIsComplete(sub, sources);
      ScanKidsComplete(rest, sources);
      ScanOneMore(k, sub, rest);
  }

  lemma FindInFirst(k: string, sub: Tree, rest: Kids, keys: seq<string>)
    ensures Find(Branch(Kid(k, sub, rest)), keys) ==
      if keys != [] && keys[0] == k then Find(sub, keys[1..]) else Find(Branch(rest), keys)
  {
  }

  lemma FindInAbsent(kids: Kids, k: string, keys: seq<string>)
    requires Get(kids, k).None? && Find(Branch(kids), keys).Some?
    ensures keys != [] && keys[0] != k
  {
  }

  lemma ScanOneMore(k: string, sub: Tree, rest: Kids)
    requires ScanIs(sub, Scan(sub), ScanKeys(sub)) && ScanIs(Branch(rest), ScanKids(rest), ScanKidsKeys(rest))
    requires Get(rest, k).None?
    ensures ScanIs(Branch(Kid(k, sub, rest)), Scan(sub) + ScanKids(rest),
      Prefixed(k, ScanKeys(sub)) + ScanKidsKeys(rest))
  {
    hide Scan, ScanKids, ScanKeys, ScanKidsKeys;
    hide Find;
    var t, here, below := Branch(Kid(k, sub, rest)), Prefixed(k, ScanKeys(sub)), ScanKidsKeys(rest);
    forall i | 0 <= i < |here| ensures Find(t, here[i]) == Some(Scan(sub)[i]) {
      FindInFirst(k, sub, rest, here[i]);
      assert here[i][1..] == ScanKeys(sub)[i];
    }
    forall i | 0 <= i < |below|
      ensures below[i] != [] && below[i][0] != k && Find(t, below[i]) == Some(ScanKids(rest)[i])
    {
      FindInFirst(k, sub, rest, below[i]);
      FindInAbsent(rest, k, below[i]);
    }
    forall i, j | 0 <= i < j < |here| ensures here[i] != here[j] {
      assert here[i][1..] == ScanKeys(sub)[i] && here[j][1..] == ScanKeys(sub)[j];
    }
    forall keys | Find(t, keys).Some? ensures keys in here + below {
      FindInFirst(k, sub, rest, keys);
      if keys != [] && keys[0] == k {
        assert Find(sub, keys[1..]).Some?;
        var i :| 0 <= i < |ScanKeys(sub)| && ScanKeys(sub)[i] == keys[1..];
        assert keys == [k] + keys[1..] && here[i] == keys;
      } else {
        assert Find(Branch(rest), keys).Some?;
      }
    }
  }

  lemma FindBelowContext(t: Tree, context: Context, branch: Tree, keys: seq<string>)
    requires ContextBranch(t, context) == Some(branch)
    ensures Find(t, Split(context) + keys) == Find(branch, keys)
  {
    var parts := Split(context);
    assert (parts + keys)[1..][1..] == keys;
  }

  /**
   After any run, scanning a context yields one message per (path, source), namely the last one ingested since that
   source and that context were last removed, and nothing else.
   */
  lemma ContextScanIsLastWrites(ops: seq<Op>, sources: set<SourceRef>, context: Context)
    requires NothingMisfiled(ops) && forall op | op in ops :: Sane(op, sources)
    requires TwoPart(context) && Split(context)[0] !in sources && Split(context)[1] !in sources
    ensures var flat, scanned := FlatRun(ops), ScanContext(Run(ops).tree, context);
      && (forall i | 0 <= i < |scanned| :: (context, scanned[i].path, scanned[i].source) in flat
            && flat[(context, scanned[i].path, scanned[i].source)] == scanned[i])
      && (forall i, j | 0 <= i < j < |scanned| ::
            scanned[i].path != scanned[j].path || scanned[i].source != scanned[j].source)
      && (forall p, s | (context, p, s) in flat :: flat[(context, p, s)] in scanned)
  {
    TrieAgreesWithFlatMap(ops, sources);
    ScanOfAgreeing(Run(ops).tree, FlatRun(ops), sources, context);
  }

  /** The message met at a key path below a context is the flat map's entry for it. */
  lemma ScannedIsFlat(t: Tree, flat: Flat, sources: set<SourceRef>, context: Context, branch: Tree, keys: seq<string>,
                      m: Message)
    requires Agrees(t, flat, sources) && TwoPart(context)
    requires ContextBranch(t, context) == Some(branch) && Find(branch, keys) == Some(m)
    ensures (context, m.path, m.source) in flat && flat[(context, m.path, m.source)] == m
    ensures KeysOf((context, m.path, m.source)) == Split(context) + keys
  {
    hide ContextBranch;
    var parts := Split(context);
    FindBelowContext(t, context, branch, keys);
    assert Find(t, parts + keys).Some?;
    var k :| k in flat && KeysOf(k) == parts + keys;
    assert Split(k.0) == KeysOf(k)[..2] == parts;
    JoinSplit(k.0);
    JoinSplit(context);
  }

  lemma FlatNeedsBranch(t: Tree, flat: Flat, sources: set<SourceRef>, k: (Context, Path, SourceRef))
    requires Agrees(t, flat, sources) && k in flat && Split(k.0)[0] !in sources && Split(k.0)[1] !in sources
    ensures ContextBranch(t, k.0).Some? && |KeysOf(k)| >= 2
    ensures Find(ContextBranch(t, k.0).value, KeysOf(k)[2..]) == Some(flat[k])
  {
    var keys, parts := KeysOf(k), Split(k.0);
    assert keys == parts + keys[2..] && keys[1..][0] == parts[1];
    assert Find(t, keys) == Some(flat[k]);
    GetTyped(t.kids, sources, parts[0]);
    FindBelowContext(t, k.0, ContextBranch(t, k.0).value, keys[2..]);
  }

  lemma ScanOfAgreeing(t: Tree, flat: Flat, sources: set<SourceRef>, context: Context)
    requires Agrees(t, flat, sources)
    requires TwoPart(context) && Split(context)[0] !in sources && Split(context)[1] !in sources
    ensures var scanned := ScanContext(t, context);
      && (forall i | 0 <= i < |scanned| :: (context, scanned[i].path, scanned[i].source) in flat
            && flat[(context, scanned[i].path, scanned[i].source)] == scanned[i])
      && (forall i, j | 0 <= i < j < |scanned| ::
            scanned[i].path != scanned[j].path || scanned[i].source != scanned[j].source)
      && (forall p, s | (context, p, s) in flat :: flat[(context, p, s)] in scanned)
  {
    hide ContextBranch, Split, KeysOf;
    forall p, s | (context, p, s) in flat ensures flat[(context, p, s)] in ScanContext(t, context) {
      FlatNeedsBranch(t, flat, sources, (context, p, s));
      var branch, keys := ContextBranch(t, context).value, KeysOf((context, p, s))[2..];
      BranchTyped(t, sources, context, branch);
      ScanIsComplete(branch, sources);
      var i :| 0 <= i < |ScanKeys(branch)| && ScanKeys(branch)[i] == keys;
      assert Scan(branch)[i] == flat[(context, p, s)];
    }
    if ContextBranch(t, context).Some? {
      var branch := ContextBranch(t, context).value;
      BranchTyped(t, sources, context, branch);
      ScanIsComplete(branch, sources);
      var scanned, paths := Scan(branch), ScanKeys(branch);
      forall i | 0 <= i < |scanned|
        ensures (context, scanned[i].path, scanned[i].source) in flat
        ensures flat[(context, scanned[i].path, scanned[i].source)] == scanned[i]
        ensures KeysOf((context, scanned[i].path, scanned[i].source)) == Split(context) + paths[i]
      {
        ScannedIsFlat(t, flat, sources, context, branch, paths[i], scanned[i]);
      }
      forall i, j | 0 <= i < j < |scanned|
        ensures scanned[i].path != scanned[j].path || scanned[i].source != scanned[j].source
      {
        assert paths[i] == (Split(context) + paths[i])[2..] && paths[j] == (Split(context) + paths[j])[2..];
      }
    }
  }

  lemma BranchTyped(t: Tree, sources: set<SourceRef>, context: Context, branch: Tree)
    requires t.Branch? && Typed(t, sources) && ContextBranch(t, context) == Some(branch)
    ensures Typed(branch, sources)
  {
    var parts := Split(context);
    GetTyped(t.kids, sources, parts[0]);
    GetTyped(Get(t.kids, parts[0]).value.kids, sources, parts[1]);
  }
}
