/** Sequence and table operations the model is built from: the scan order of
    a table, filtering, SQLite's OFFSET and LIMIT, `first()`, JavaScript's
    `findIndex`, and a `setattr` loop over the items of a dump. */
module Lists {
  import opened Common

  // ---------------------------------------------------------------------------
  // Row order of a table
  // ---------------------------------------------------------------------------

  /** The ids of a table that are below `n`, ascending: the order in which
      SQLite scans a rowid table when a query has no ORDER BY. */
  function ScanIds<T>(m: map<int, T>, n: int): (ids: seq<int>)
    ensures forall i :: 0 <= i < |ids| ==> ids[i] in m && 0 <= ids[i] < n
    ensures forall i, j :: 0 <= i < j < |ids| ==> ids[i] < ids[j]
    ensures forall k :: k in m && 0 <= k < n ==> k in ids
    decreases n
  {
    if n <= 0 then [] else ScanIds(m, n - 1) + (if n - 1 in m then [n - 1] else [])
  }

  /** The rows of a table in scan order. */
  function Scan<T>(m: map<int, T>, n: int): (r: seq<T>)
    ensures |r| == |ScanIds(m, n)|
    ensures forall i :: 0 <= i < |r| ==> r[i] == m[ScanIds(m, n)[i]]
  {
    var ids := ScanIds(m, n);
    seq(|ids|, i requires 0 <= i < |ids| => m[ids[i]])
  }

  /** Every row with an id below `n` is scanned. */
  lemma ScanHas<T>(m: map<int, T>, n: int, k: int)
    requires k in m && 0 <= k < n
    ensures m[k] in Scan(m, n)
  {
    var ids := ScanIds(m, n);
    var i :| 0 <= i < |ids| && ids[i] == k;
    assert Scan(m, n)[i] == m[k];
  }

  /** Every row is stored under its own id, and the ids are below `n`. */
  ghost predicate Keyed<T>(m: map<int, T>, key: T -> int, n: int) {
    forall k :: k in m ==> key(m[k]) == k && 0 <= k < n
  }

  /** An insert under the next id keeps a table keyed and moves the
      counter on. */
  lemma KeyedInsert<T>(m: map<int, T>, key: T -> int, n: int, x: T)
    requires Keyed(m, key, n) && key(x) == n && 0 <= n
    ensures n !in m && Keyed(m[n := x], key, n + 1)
  {
  }

  /** Replacing a row by one with the same key keeps a table keyed. */
  lemma KeyedReplace<T>(m: map<int, T>, key: T -> int, n: int, k: int, x: T)
    requires Keyed(m, key, n) && k in m && key(x) == k
    ensures Keyed(m[k := x], key, n)
  {
  }

  /** A delete keeps a table keyed. */
  lemma KeyedRemove<T>(m: map<int, T>, key: T -> int, n: int, k: int)
    requires Keyed(m, key, n)
    ensures Keyed(m - {k}, key, n)
  {
  }

  /** Some scanned row passes `p` exactly when some stored row below `n`
      does. */
  lemma ScanExists<T>(m: map<int, T>, n: int, p: T -> bool)
    ensures (exists i :: 0 <= i < |Scan(m, n)| && p(Scan(m, n)[i]))
        <==> (exists k :: k in m && 0 <= k < n && p(m[k]))
  {
    var s := Scan(m, n);
    var ids := ScanIds(m, n);
    if exists i :: 0 <= i < |s| && p(s[i]) {
      var i :| 0 <= i < |s| && p(s[i]);
      assert s[i] == m[ids[i]] && ids[i] in m && 0 <= ids[i] < n;
    }
    if exists k :: k in m && 0 <= k < n && p(m[k]) {
      var k :| k in m && 0 <= k < n && p(m[k]);
      ScanHas(m, n, k);
      var i :| 0 <= i < |s| && s[i] == m[k];
      assert p(s[i]);
    }
  }

  /** The keys of `s` strictly increase along it. */
  ghost predicate Ascending<T>(s: seq<T>, key: T -> int) {
    forall i, j :: 0 <= i < j < |s| ==> key(s[i]) < key(s[j])
  }

  /** A keyed table is scanned in ascending key order, so no row is
      scanned twice. */
  lemma ScanAscending<T>(m: map<int, T>, n: int, key: T -> int)
    requires Keyed(m, key, n)
    ensures Ascending(Scan(m, n), key)
  {
    var s, ids := Scan(m, n), ScanIds(m, n);
    assert forall i :: 0 <= i < |s| ==> key(s[i]) == ids[i];
  }

  /** In a keyed table the scan holds exactly the stored rows, each under
      its own key. */
  lemma ScanIsTable<T>(m: map<int, T>, n: int, key: T -> int)
    requires Keyed(m, key, n)
    ensures forall i :: 0 <= i < |Scan(m, n)| ==>
      key(Scan(m, n)[i]) in m && m[key(Scan(m, n)[i])] == Scan(m, n)[i]
    ensures forall k :: k in m ==> m[k] in Scan(m, n)
  {
    forall k | k in m
      ensures m[k] in Scan(m, n)
    {
      ScanHas(m, n, k);
    }
  }

  /** In a keyed table, `first()` over the rows with a given key finds the
      row stored under that key, and nothing when there is none. */
  lemma ScanFirstWithKey<T(!new)>(m: map<int, T>, n: int, key: T -> int, k: int)
    requires Keyed(m, key, n)
    ensures FirstWhere(Scan(m, n), KeyIs(key, k)) == if k in m then Some(m[k]) else None
  {
    var s := Scan(m, n);
    var ids := ScanIds(m, n);
    var r := FirstWhere(s, KeyIs(key, k));
    assert forall i :: 0 <= i < |s| ==> s[i] == m[ids[i]] && key(s[i]) == ids[i];
    if k in m {
      ScanHas(m, n, k);
      var i :| 0 <= i < |s| && s[i] == m[k];
      assert KeyIs(key, k)(s[i]);
      var j :| 0 <= j < |s| && s[j] == r.value;
      assert ids[j] == k;
    }
  }

  // ---------------------------------------------------------------------------
  // Filtering, OFFSET, LIMIT, first()
  // ---------------------------------------------------------------------------

  /** The elements of `s` that satisfy `p`, in their original order. */
  function Filter<T>(s: seq<T>, p: T -> bool): (r: seq<T>)
    ensures |r| <= |s|
    ensures forall i :: 0 <= i < |r| ==> r[i] in s && p(r[i])
    ensures forall i :: 0 <= i < |s| && p(s[i]) ==> s[i] in r
  {
    if s == [] then []
    else (if p(s[0]) then [s[0]] else []) + Filter(s[1..], p)
  }

  /** Filtering distributes over concatenation, so it keeps relative order. */
  lemma {:induction false} FilterConcat<T>(a: seq<T>, b: seq<T>, p: T -> bool)
    ensures Filter(a + b, p) == Filter(a, p) + Filter(b, p)
  {
    if a == [] {
      assert a + b == b;
    } else {
      assert (a + b)[1..] == a[1..] + b;
      FilterConcat(a[1..], b, p);
    }
  }

  /** Filtering keeps the relative order of what it keeps: ascending keys
      stay ascending. */
  lemma {:induction false} FilterKeepsAscending<T>(s: seq<T>, key: T -> int, p: T -> bool)
    ensures Ascending(s, key) ==> Ascending(Filter(s, p), key)
  {
    if s != [] && Ascending(s, key) {
      var tail := s[1..];
      AscendingTail(s, key);
      FilterKeepsAscending(tail, key, p);
      var rest := Filter(tail, p);
      forall k | 0 <= k < |rest|
        ensures key(s[0]) < key(rest[k])
      {
        var t :| 0 <= t < |tail| && tail[t] == rest[k];
        assert tail[t] == s[t + 1];
      }
      if p(s[0]) {
        AscendingCons(s[0], rest, key);
        assert Filter(s, p) == [s[0]] + rest;
      } else {
        assert Filter(s, p) == rest;
      }
    }
  }

  lemma AscendingTail<T>(s: seq<T>, key: T -> int)
    requires s != [] && Ascending(s, key)
    ensures Ascending(s[1..], key)
  {
    var tail := s[1..];
    forall i, j | 0 <= i < j < |tail|
      ensures key(tail[i]) < key(tail[j])
    {
      assert tail[i] == s[i + 1] && tail[j] == s[j + 1];
    }
  }

  lemma AscendingCons<T>(x: T, s: seq<T>, key: T -> int)
    requires Ascending(s, key) && forall k :: 0 <= k < |s| ==> key(x) < key(s[k])
    ensures Ascending([x] + s, key)
  {
    var r := [x] + s;
    forall i, j | 0 <= i < j < |r|
      ensures key(r[i]) < key(r[j])
    {
      assert r[j] == s[j - 1];
      if 0 < i {
        assert r[i] == s[i - 1];
      }
    }
  }

  /** A filter that every element passes changes nothing. */
  lemma {:induction false} FilterKeepsAll<T>(s: seq<T>, p: T -> bool)
    requires forall i :: 0 <= i < |s| ==> p(s[i])
    ensures Filter(s, p) == s
  {
    if s != [] {
      FilterKeepsAll(s[1..], p);
    }
  }

  /** A filter no element passes yields the empty list. */
  lemma {:induction false} FilterRejectsAll<T>(s: seq<T>, p: T -> bool)
    requires forall i :: 0 <= i < |s| ==> !p(s[i])
    ensures Filter(s, p) == []
  {
    if s != [] {
      FilterRejectsAll(s[1..], p);
    }
  }

  /** The predicate `x => key(x) != id`, named so that every use of it is
      the same function value. */
  function KeyIsNot<T>(key: T -> int, id: int): T -> bool {
    x => key(x) != id
  }

  /** The predicate `x => key(x) == id`. */
  function KeyIs<T(!new)>(key: T -> int, id: int): (p: T -> bool)
    ensures forall x :: p(x) <==> key(x) == id
  {
    x => key(x) == id
  }

  /** `query.offset(n)`: the first `n` rows dropped; SQLite reads a negative
      OFFSET as zero. */
  function Drop<T>(s: seq<T>, n: int): (r: seq<T>)
    ensures n <= 0 ==> r == s
    ensures |r| == if n <= 0 then |s| else if n >= |s| then 0 else |s| - n
    ensures forall i :: 0 <= i < |r| ==> r[i] == s[i + (if n <= 0 then 0 else n)]
  {
    if n <= 0 then s else if n >= |s| then [] else s[n..]
  }

  /** `query.limit(n)`: at most `n` rows; SQLite reads a negative LIMIT as
      no bound at all. */
  function Take<T>(s: seq<T>, n: int): (r: seq<T>)
    ensures |r| <= |s| && r == s[..|r|]
    ensures n < 0 ==> r == s
    ensures n >= 0 ==> |r| == if n < |s| then n else |s|
  {
    if n < 0 || n >= |s| then s else s[..n]
  }

  /** `query.first()`: the first row that passes the filter, if any. */
  function FirstWhere<T>(s: seq<T>, p: T -> bool): (r: Option<T>)
    ensures r.Some? <==> exists i :: 0 <= i < |s| && p(s[i])
    ensures r.Some? ==> r.value in s && p(r.value)
    ensures r.Some? ==> exists i :: 0 <= i < |s| && s[i] == r.value && forall j :: 0 <= j < i ==> !p(s[j])
  {
    if s == [] then None
    else if p(s[0]) then Some(s[0])
    else
      var r := FirstWhere(s[1..], p);
      assert forall i :: 1 <= i < |s| ==> s[i] == s[1..][i - 1];
      r
  }

  // ---------------------------------------------------------------------------
  // findIndex and replace-first-by-id
  // ---------------------------------------------------------------------------

  /** The position of the first element whose key is `id`, or -1. */
  function FirstIndex<T>(s: seq<T>, key: T -> int, id: int): (i: int)
    ensures -1 <= i < |s|
    ensures i == -1 <==> forall j :: 0 <= j < |s| ==> key(s[j]) != id
    ensures 0 <= i ==> key(s[i]) == id && forall j :: 0 <= j < i ==> key(s[j]) != id
  {
    if s == [] then -1
    else if key(s[0]) == id then 0
    else
      var k := FirstIndex(s[1..], key, id);
      assert forall j :: 1 <= j < |s| ==> s[j] == s[1..][j - 1];
      if k == -1 then -1 else k + 1
  }

  /** `Array.prototype.findIndex(x => key(x) === id)` as a loop. */
  method FindIndex<T>(s: seq<T>, key: T -> int, id: int) returns (i: int)
    ensures i == FirstIndex(s, key, id)
    ensures i == -1 <==> forall j :: 0 <= j < |s| ==> key(s[j]) != id
    ensures 0 <= i < |s| ==> key(s[i]) == id
  {
    var k := 0;
    while k < |s|
      invariant 0 <= k <= |s|
      invariant forall j :: 0 <= j < k ==> key(s[j]) != id
    {
      if key(s[k]) == id {
        return k;
      }
      k := k + 1;
    }
    return -1;
  }

  /** `if ((i = findIndex(...)) !== -1) s[i] = x`: the first element with
      key `id` replaced by `x`; the sequence is unchanged if there is none. */
  function ReplaceFirst<T>(s: seq<T>, key: T -> int, id: int, x: T): (r: seq<T>)
    ensures |r| == |s|
    ensures (forall j :: 0 <= j < |s| ==> key(s[j]) != id) ==> r == s
    ensures forall j :: 0 <= j < |s| && j != FirstIndex(s, key, id) ==> r[j] == s[j]
    ensures 0 <= FirstIndex(s, key, id) ==> r[FirstIndex(s, key, id)] == x
  {
    var i := FirstIndex(s, key, id);
    if i == -1 then s else s[i := x]
  }

  /** Replacing the first match leaves every element before it in place
      and, past it, every element after it too: only one slot changes. */
  lemma {:induction false} ReplaceFirstChangesOneSlot<T>(s: seq<T>, key: T -> int, id: int, x: T)
    requires exists j :: 0 <= j < |s| && key(s[j]) == id
    ensures var r := ReplaceFirst(s, key, id, x);
      exists i :: 0 <= i < |s| && r == s[..i] + [x] + s[i + 1..]
              && key(s[i]) == id
              && forall j :: 0 <= j < i ==> key(s[j]) != id
  {
    var i := FirstIndex(s, key, id);
    var r := ReplaceFirst(s, key, id, x);
    assert r == s[..i] + [x] + s[i + 1..];
  }

  // ---------------------------------------------------------------------------
  // setattr loop
  // ---------------------------------------------------------------------------

  /** The record after assigning each item of `d` in turn. */
  function Fold<R, F>(r: R, d: seq<F>, assign: (R, F) -> R): R
    decreases |d|
  {
    if d == [] then r else assign(Fold(r, d[..|d| - 1], assign), d[|d| - 1])
  }

  /** Assigning `a` then `b` is assigning `a + b`. */
  lemma {:induction false} FoldConcat<R, F>(r: R, a: seq<F>, b: seq<F>, assign: (R, F) -> R)
    ensures Fold(r, a + b, assign) == Fold(Fold(r, a, assign), b, assign)
    decreases |b|
  {
    if b == [] {
      assert a + b == a;
    } else {
      assert (a + b)[..|a + b| - 1] == a + b[..|b| - 1];
      FoldConcat(r, a, b[..|b| - 1], assign);
    }
  }

  /** Assigning a one-item dump is one assignment. */
  lemma {:induction false} FoldSingle<R, F>(r: R, x: F, assign: (R, F) -> R)
    ensures Fold(r, [x], assign) == assign(r, x)
  {
    assert [x][..0] == [];
  }

  /** Extending a dump by at most one item adds at most one assignment. */
  lemma {:induction false} FoldAppendAtMostOne<R, F>(r: R, a: seq<F>, b: seq<F>, assign: (R, F) -> R)
    requires |b| <= 1
    ensures Fold(r, a + b, assign) == if b == [] then Fold(r, a, assign) else assign(Fold(r, a, assign), b[0])
  {
    FoldConcat(r, a, b, assign);
    if b != [] {
      assert b == [b[0]];
      FoldSingle(Fold(r, a, assign), b[0], assign);
    }
  }

  /** `for field, value in update_data.items(): setattr(obj, field, value)`. */
  method SetAttrs<R, F>(obj: R, d: seq<F>, assign: (R, F) -> R) returns (r: R)
    ensures r == Fold(obj, d, assign)
  {
    r := obj;
    var k := 0;
    while k < |d|
      invariant 0 <= k <= |d|
      invariant r == Fold(obj, d[..k], assign)
    {
      assert d[..k + 1][..k] == d[..k];
      r := assign(r, d[k]);
      k := k + 1;
    }
    assert d[..k] == d;
  }
}
