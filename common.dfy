/** Shared vocabulary of the three in-memory repositories: optional values,
    the JavaScript array operations they are built from (`filter`, `slice`,
    `find`/`findIndex`, index assignment, `splice`, `push`) and the id
    discipline (unique ids, a fresh id for every new record). */
module Common {

  datatype Option<T> = None | Some(value: T) {
    /** The value, or `default` when absent (JavaScript `??` / default parameters). */
    function GetOr(default: T): T {
      if Some? then value else default
    }

    /** This value when present, else `other`: how a spread `{...old, ...patch}`
        resolves one field. */
    function OrElse(other: Option<T>): Option<T> {
      if Some? then this else other
    }
  }

  /** How a JavaScript call ends: it returns a value, or it throws an error
      carrying `error.message`. */
  datatype Completion<T> = Returned(value: T) | Threw(message: string)

  /** JavaScript truthiness of an optional string: present and not "". */
  predicate Truthy(s: Option<string>) {
    s.Some? && s.value != ""
  }

  // ---------------------------------------------------------------------
  // Array.prototype.filter

  /** The elements of `s` that satisfy `p`, in their original order. */
  function Filter<T>(s: seq<T>, p: T -> bool): (r: seq<T>)
    ensures |r| <= |s|
    ensures forall i :: 0 <= i < |r| ==> r[i] in s && p(r[i])
    ensures forall i :: 0 <= i < |s| && p(s[i]) ==> s[i] in r
    decreases |s|
  {
    if s == [] then []
    else (if p(s[0]) then [s[0]] else []) + Filter(s[1..], p)
  }

  /** Filtering distributes over concatenation: it keeps the relative order
      of the kept elements and never reorders across a split point. */
  lemma {:induction false} FilterConcat<T>(s: seq<T>, t: seq<T>, p: T -> bool)
    ensures Filter(s + t, p) == Filter(s, p) + Filter(t, p)
    decreases |s|
  {
    if s == [] {
      assert s + t == t;
    } else {
      assert (s + t)[0] == s[0];
      assert (s + t)[1..] == s[1..] + t;
      FilterConcat(s[1..], t, p);
    }
  }

  // ---------------------------------------------------------------------
  // Array.prototype.slice

  /** How `slice` resolves one relative index against a length `n`:
      a negative index counts from the end, and the result is clamped to [0, n]. */
  function JsIndex(k: int, n: nat): (r: nat)
    ensures r <= n
    ensures 0 <= k <= n ==> r == k
    ensures k > n ==> r == n
    ensures k < 0 ==> r == if n + k < 0 then 0 else n + k
  {
    if k < 0 then (if n + k < 0 then 0 else n + k)
    else if k > n then n
    else k
  }

  /** `s.slice(start, end)`: never fails, empty when the resolved end is not
      after the resolved start. */
  function JsSlice<T>(s: seq<T>, start: int, end: int): (r: seq<T>)
    ensures |r| <= |s|
    ensures forall k :: 0 <= k < |r| ==> r[k] in s
  {
    var from := JsIndex(start, |s|);
    var to := JsIndex(end, |s|);
    if from < to then s[from..to] else []
  }

  /** For non-negative bounds, `slice` is the ordinary sub-sequence between
      the two bounds capped at the length. */
  lemma JsSliceNonNegative<T>(s: seq<T>, start: int, end: int)
    requires 0 <= start <= end
    ensures var n := |s|;
            var from := if start < n then start else n;
            var to := if end < n then end else n;
            JsSlice(s, start, end) == s[from..to]
  {
  }

  /** A slice of `limit` items from a non-negative start is the window of at
      most `limit` items beginning there, empty past the end. */
  lemma JsSliceWindow<T>(s: seq<T>, start: int, limit: int)
    requires 0 <= start && 0 <= limit
    ensures var rows := JsSlice(s, start, start + limit);
            && |rows| <= limit
            && (start >= |s| ==> rows == [])
            && (forall k :: 0 <= k < |rows| ==> start + k < |s| && rows[k] == s[start + k])
  {
    JsSliceNonNegative(s, start, start + limit);
  }

  // ---------------------------------------------------------------------
  // Records identified by a string key (`id`)

  /** `findIndex(r => key(r) === id)`: the first position holding `id`, or None. */
  function FirstIndex<T, K(==)>(s: seq<T>, key: T -> K, id: K): (r: Option<nat>)
    ensures r.Some? ==> r.value < |s| && key(s[r.value]) == id
    ensures r.Some? ==> forall j :: 0 <= j < r.value ==> key(s[j]) != id
    ensures r.None? <==> forall j :: 0 <= j < |s| ==> key(s[j]) != id
    decreases |s|
  {
    if s == [] then None
    else if key(s[0]) == id then Some(0)
    else match FirstIndex(s[1..], key, id)
      case None => None
      case Some(i) => Some(i + 1)
  }

  /** `find(r => key(r) === id)`. */
  function Lookup<T, K(==)>(s: seq<T>, key: T -> K, id: K): Option<T> {
    match FirstIndex(s, key, id)
    case None => None
    case Some(i) => Some(s[i])
  }

  /** `find` yields exactly the record at the first matching position. */
  lemma LookupFirst<T, K>(s: seq<T>, key: T -> K, id: K, i: nat)
    requires i < |s| && key(s[i]) == id
    requires forall j :: 0 <= j < i ==> key(s[j]) != id
    ensures FirstIndex(s, key, id) == Some(i)
    ensures Lookup(s, key, id) == Some(s[i])
  {
  }

  /** `find` yields None exactly when no record carries `id`, and otherwise a
      record of `s` that carries it. */
  lemma LookupMeaning<T, K>(s: seq<T>, key: T -> K, id: K)
    ensures Lookup(s, key, id).None? <==> forall j :: 0 <= j < |s| ==> key(s[j]) != id
    ensures Lookup(s, key, id).Some? ==>
              Lookup(s, key, id).value in s && key(Lookup(s, key, id).value) == id
  {
  }

  /** The update step every repository shares: find the first position with
      `id` and assign `{...old, ...patch}` there; the merged record is returned. */
  function UpdateFirst<T, K(==), P>(s: seq<T>, key: T -> K, merge: (T, P) -> T, id: K, patch: P)
    : (Option<T>, seq<T>)
  {
    match FirstIndex(s, key, id)
    case None => (None, s)
    case Some(i) => (Some(merge(s[i], patch)), s[i := merge(s[i], patch)])
  }

  /** Update replaces the first match only: the length and every other
      position are unchanged, and the returned record is the one stored. */
  lemma UpdateFirstSpec<T, K, P>(s: seq<T>, key: T -> K, merge: (T, P) -> T, id: K, patch: P, i: nat)
    requires i < |s| && key(s[i]) == id
    requires forall j :: 0 <= j < i ==> key(s[j]) != id
    ensures var (r, s') := UpdateFirst(s, key, merge, id, patch);
            && r == Some(merge(s[i], patch))
            && |s'| == |s|
            && s'[i] == merge(s[i], patch)
            && (forall j :: 0 <= j < |s| && j != i ==> s'[j] == s[j])
  {
    LookupFirst(s, key, id, i);
  }

  /** Update of an absent id returns None and leaves the store as it was. */
  lemma UpdateFirstAbsent<T, K, P>(s: seq<T>, key: T -> K, merge: (T, P) -> T, id: K, patch: P)
    requires forall j :: 0 <= j < |s| ==> key(s[j]) != id
    ensures UpdateFirst(s, key, merge, id, patch) == (None, s)
  {
  }

  /** `splice(i, 1)`. */
  function RemoveAt<T>(s: seq<T>, i: nat): (r: seq<T>)
    requires i < |s|
    ensures |r| == |s| - 1
    ensures forall j :: 0 <= j < i ==> r[j] == s[j]
    ensures forall j :: i <= j < |r| ==> r[j] == s[j + 1]
  {
    s[..i] + s[i + 1..]
  }

  /** The delete step every repository shares: find the first position with
      `id` and splice it out; report whether something was removed. */
  function DeleteFirst<T, K(==)>(s: seq<T>, key: T -> K, id: K): (bool, seq<T>) {
    match FirstIndex(s, key, id)
    case None => (false, s)
    case Some(i) => (true, RemoveAt(s, i))
  }

  /** Delete reports true iff some record has `id`; then exactly the first
      match is gone and the others keep their relative order; otherwise the
      store is unchanged. */
  lemma DeleteFirstSpec<T, K>(s: seq<T>, key: T -> K, id: K)
    ensures var (ok, s') := DeleteFirst(s, key, id);
            && (ok <==> exists j :: 0 <= j < |s| && key(s[j]) == id)
            && (!ok ==> s' == s)
            && (ok ==> exists i :: 0 <= i < |s| && key(s[i]) == id
                          && (forall j :: 0 <= j < i ==> key(s[j]) != id)
                          && s' == s[..i] + s[i + 1..])
  {
    match FirstIndex(s, key, id)
    case None =>
    case Some(i) =>
  }

  /** No two records share a key. */
  ghost predicate UniqueKeys<T, K>(s: seq<T>, key: T -> K) {
    forall i, j :: 0 <= i < j < |s| ==> key(s[i]) != key(s[j])
  }

  /** Deleting keeps the keys unique. */
  lemma DeleteKeepsUnique<T, K>(s: seq<T>, key: T -> K, id: K)
    requires UniqueKeys(s, key)
    ensures UniqueKeys(DeleteFirst(s, key, id).1, key)
  {
    match FirstIndex(s, key, id)
    case None =>
    case Some(i) =>
      var r := RemoveAt(s, i);
      forall a, b | 0 <= a < b < |r| ensures key(r[a]) != key(r[b]) {
        var a' := if a < i then a else a + 1;
        var b' := if b < i then b else b + 1;
        assert r[a] == s[a'] && r[b] == s[b'] && a' < b';
      }
  }

  /** In a store with unique keys, looking up a stored record's key finds that
      record. */
  lemma LookupUnique<T, K>(s: seq<T>, key: T -> K, x: T)
    requires UniqueKeys(s, key) && x in s
    ensures Lookup(s, key, key(x)) == Some(x)
  {
    var i :| 0 <= i < |s| && s[i] == x;
    LookupFirst(s, key, key(x), i);
  }

  /** Once the only record with a key is deleted, that key is no longer found. */
  lemma DeleteUniqueGone<T, K>(s: seq<T>, key: T -> K, x: T)
    requires UniqueKeys(s, key) && x in s
    ensures forall j :: 0 <= j < |DeleteFirst(s, key, key(x)).1| ==> key(DeleteFirst(s, key, key(x)).1[j]) != key(x)
  {
    var i :| 0 <= i < |s| && s[i] == x;
    LookupFirst(s, key, key(x), i);
    var r := DeleteFirst(s, key, key(x)).1;
    assert r == RemoveAt(s, i);
    forall j | 0 <= j < |r| ensures key(r[j]) != key(x) {
      if j < i { assert r[j] == s[j]; } else { assert r[j] == s[j + 1]; }
    }
  }

  /** Appending a record whose key is not yet used keeps the keys unique. */
  lemma AppendFreshKeepsUnique<T, K>(s: seq<T>, key: T -> K, x: T)
    requires UniqueKeys(s, key)
    requires forall j :: 0 <= j < |s| ==> key(s[j]) != key(x)
    ensures UniqueKeys(s + [x], key)
  {
    var r := s + [x];
    forall a, b | 0 <= a < b < |r| ensures key(r[a]) != key(r[b]) {
      assert r[a] == s[a];
      if b < |s| { assert r[b] == s[b]; } else { assert r[b] == x; }
    }
  }

  /** The length of the longest key in `s`. */
  function MaxKeyLength<T>(s: seq<T>, key: T -> string): (m: nat)
    ensures forall j :: 0 <= j < |s| ==> |key(s[j])| <= m
    decreases |s|
  {
    if s == [] then 0
    else
      var rest := MaxKeyLength(s[1..], key);
      if |key(s[0])| > rest then |key(s[0])| else rest
  }

  /** The stand-in for `uuidv4()`: a key used by no record of `s` (it is longer
      than all of them). Only this freshness is relied on. */
  function FreshKey<T>(s: seq<T>, key: T -> string): (r: string)
    ensures forall j :: 0 <= j < |s| ==> key(s[j]) != r
  {
    seq(MaxKeyLength(s, key) + 1, _ => 'x')
  }
}
