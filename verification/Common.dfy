/** Vocabulary shared by every component: JSON values, deltas and small sequence helpers. */
module Common {
  type SourceRef = string
  type Path = string
  type Context = string

  datatype Option<+T> = None | Some(value: T)

  /** A JSON value. Objects keep their keys in insertion order. */
  datatype Json =
    | JNull
    | JBool(b: bool)
    | JNumber(n: int)
    | JString(s: string)
    | JArray(items: seq<Json>)
    | JObject(fields: Fields)

  datatype Fields = End | Field(key: string, val: Json, rest: Fields)

  datatype PathValue = PathValue(path: Path, value: Json)

  /** One update of a delta; `values` is absent for a meta update. */
  datatype Update = Update(source: SourceRef, timestamp: string, values: Option<seq<PathValue>>)

  datatype Delta = Delta(context: Context, updates: Option<seq<Update>>)

  ghost predicate Distinct<T>(s: seq<T>) {
    forall i, j | 0 <= i < j < |s| :: s[i] != s[j]
  }

  /** The elements of `s` that satisfy `keep`, in order. */
  function Filter<T(!new)>(keep: T -> bool, s: seq<T>): (r: seq<T>)
    ensures forall x :: x in r <==> x in s && keep(x)
  {
    if s == [] then []
    else
      var n := |s| - 1;
      assert s == s[..n] + [s[n]];
      if keep(s[n]) then Filter(keep, s[..n]) + [s[n]] else Filter(keep, s[..n])
  }

  lemma {:induction false} FilterDistinct<T(!new)>(keep: T -> bool, s: seq<T>)
    requires Distinct(s)
    ensures Distinct(Filter(keep, s))
  {
    if s != [] {
      FilterDistinct(keep, s[..|s| - 1]);
    }
  }

  lemma {:induction false} FilterAppend<T(!new)>(keep: T -> bool, a: seq<T>, b: seq<T>)
    ensures Filter(keep, a + b) == Filter(keep, a) + Filter(keep, b)
  {
    if b == [] {
      assert a + b == a;
    } else {
      var n := |b| - 1;
      FilterAppend(keep, a, b[..n]);
      assert (a + b)[..|a + b| - 1] == a + b[..n];
    }
  }

  lemma FilterLast<T(!new)>(keep: T -> bool, s: seq<T>, x: T)
    ensures Filter(keep, s + [x]) == if keep(x) then Filter(keep, s) + [x] else Filter(keep, s)
  {
    assert (s + [x])[..|s|] == s;
  }

  lemma {:induction false} FilterAll<T(!new)>(keep: T -> bool, s: seq<T>)
    requires forall x | x in s :: keep(x)
    ensures Filter(keep, s) == s
  {
    if s != [] {
      var n := |s| - 1;
      FilterAll(keep, s[..n]);
      assert s[n] in s;
      assert s == s[..n] + [s[n]];
    }
  }

  lemma {:induction false} FilterNone<T(!new)>(keep: T -> bool, s: seq<T>)
    requires forall x | x in s :: !keep(x)
    ensures Filter(keep, s) == []
  {
    if s != [] {
      var n := |s| - 1;
      FilterNone(keep, s[..n]);
      assert s[n] in s;
    }
  }

  lemma TwiceInSequence<T>(a: seq<T>, i: nat, j: nat)
    requires i < j < |a| && a[i] == a[j]
    ensures multiset(a)[a[i]] >= 2
  {
    assert a == a[..j] + [a[j]] + a[j + 1..];
    assert a[..j][i] == a[j] && a[j] in multiset(a[..j]);
  }

  /** Two places of a sequence correspond to two places of any reordering of it. */
  lemma PermutedPlaces<T>(a: seq<T>, b: seq<T>, i: nat, j: nat) returns (k: nat, l: nat)
    requires multiset(a) == multiset(b) && i < j < |a|
    ensures k < |b| && l < |b| && k != l && b[k] == a[i] && b[l] == a[j]
  {
    assert a[i] in multiset(b) && a[j] in multiset(b);
    k :| 0 <= k < |b| && b[k] == a[i];
    if a[j] != a[i] {
      l :| 0 <= l < |b| && b[l] == a[j];
    } else {
      TwiceInSequence(a, i, j);
      var rest := b[..k] + b[k + 1..];
      assert b == b[..k] + [b[k]] + b[k + 1..];
      assert multiset(b) == multiset(rest) + multiset{b[k]};
      assert a[j] in multiset(rest);
      var m :| 0 <= m < |rest| && rest[m] == a[j];
      l := if m < k then m else m + 1;
    }
  }
}
