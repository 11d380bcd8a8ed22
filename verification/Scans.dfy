/** Range scans over an ordered tree: skip the keys below the start key, then
    walk until the callback says stop. */
module Scans {

  lemma Regroup<T>(a: seq<T>, b: seq<T>, c: seq<T>)
    ensures a + b + c == a + (b + c)
  {
  }

  function Filter<T>(s: seq<T>, p: T -> bool): seq<T> {
    if s == [] then [] else (if p(s[0]) then [s[0]] else []) + Filter(s[1..], p)
  }

  function DropWhile<T>(s: seq<T>, p: T -> bool): seq<T> {
    if s == [] || !p(s[0]) then s else DropWhile(s[1..], p)
  }

  function TakeWhile<T>(s: seq<T>, p: T -> bool): seq<T> {
    if s == [] || !p(s[0]) then [] else [s[0]] + TakeWhile(s[1..], p)
  }

  /** AscendGreaterOrEqual with an early stop at the first mismatch. */
  function Scan<T>(s: seq<T>, below: T -> bool, wanted: T -> bool): seq<T> {
    TakeWhile(DropWhile(s, below), wanted)
  }

  lemma {:induction false} FilterConcat<T>(a: seq<T>, b: seq<T>, p: T -> bool)
    ensures Filter(a + b, p) == Filter(a, p) + Filter(b, p)
  {
    if a == [] {
      assert a + b == b;
    } else {
      var rest := a[1..];
      var head := if p(a[0]) then [a[0]] else [];
      assert (a + b)[1..] == rest + b;
      FilterConcat(rest, b, p);
      assert head + (Filter(rest, p) + Filter(b, p)) == head + Filter(rest, p) + Filter(b, p);
    }
  }

  lemma {:induction false} FilterNone<T>(s: seq<T>, p: T -> bool)
    requires forall x :: x in s ==> !p(x)
    ensures Filter(s, p) == []
  {
    if s != [] { FilterNone(s[1..], p); }
  }

  lemma {:induction false} FilterAll<T>(s: seq<T>, p: T -> bool)
    requires forall x :: x in s ==> p(x)
    ensures Filter(s, p) == s
  {
    if s != [] { FilterAll(s[1..], p); }
  }

  lemma {:induction false} FilterMembers<T>(s: seq<T>, p: T -> bool)
    ensures forall x :: x in Filter(s, p) <==> x in s && p(x)
  {
    if s != [] { FilterMembers(s[1..], p); }
  }

  /** An early-stopping scan visits what a full filter keeps, in the same order,
      as soon as no wanted key lies below the start and the wanted keys are
      contiguous from there. */
  lemma {:induction false} ScanIsFilter<T>(s: seq<T>, below: T -> bool, wanted: T -> bool)
    requires forall i :: 0 <= i < |s| && wanted(s[i]) ==> !below(s[i])
    requires forall i, j :: 0 <= i < j < |s| && below(s[j]) ==> below(s[i])
    requires forall i, j :: 0 <= i < j < |s| && !below(s[i]) && wanted(s[j]) ==> wanted(s[i])
    ensures Scan(s, below, wanted) == Filter(s, wanted)
  {
    if s != [] {
      if !below(s[0]) && !wanted(s[0]) {
        FilterNone(s, wanted);
      } else {
        ScanIsFilter(s[1..], below, wanted);
        assert !below(s[0]) && |s| > 1 ==> !below(s[1..][0]);
      }
    }
  }

  ghost predicate StrictTotal<K(!new)>(less: (K, K) -> bool) {
    && (forall a :: !less(a, a))
    && (forall a, b, c :: less(a, b) && less(b, c) ==> less(a, c))
    && (forall a, b :: less(a, b) || a == b || less(b, a))
  }

  ghost predicate Ascending<K>(s: seq<K>, less: (K, K) -> bool) {
    forall i, j :: 0 <= i < j < |s| ==> less(s[i], s[j])
  }

  ghost predicate IsLeast<K>(k: K, s: set<K>, less: (K, K) -> bool) {
    k in s && forall o :: o in s ==> o == k || less(k, o)
  }

  lemma {:induction false} LeastExists<K(!new)>(s: set<K>, less: (K, K) -> bool)
    requires StrictTotal(less) && s != {}
    ensures exists k :: IsLeast(k, s, less)
  {
    var x :| x in s;
    var rest := s - {x};
    if rest == {} {
      assert s == {x};
      assert IsLeast(x, s, less);
    } else {
      LeastExists(rest, less);
      var m :| IsLeast(m, rest, less);
      assert s == rest + {x};
      if less(x, m) {
        assert IsLeast(x, s, less);
      } else {
        assert IsLeast(m, s, less);
      }
    }
  }

  /** The in-order content of a tree holding the given keys. */
  function Sorted<K(!new,==)>(s: set<K>, less: (K, K) -> bool): (r: seq<K>)
    requires StrictTotal(less)
    ensures forall k :: k in r <==> k in s
    ensures Ascending(r, less)
    ensures |r| == |s|
  {
    if s == {} then []
    else
      LeastExists(s, less);
      assert forall m, n :: IsLeast(m, s, less) && IsLeast(n, s, less) ==> m == n;
      var m :| m in s && forall o :: o in s ==> o == m || less(m, o);
      [m] + Sorted(s - {m}, less)
  }

  lemma HasMember<K>(s: seq<K>)
    requires s != []
    ensures exists k :: k in s
  {
    assert s[0] in s;
  }

  lemma {:induction false} FilterAscends<K(!new)>(s: seq<K>, p: K -> bool, less: (K, K) -> bool)
    requires Ascending(s, less)
    ensures Ascending(Filter(s, p), less)
  {
    if s != [] {
      FilterAscends(s[1..], p, less);
      FilterMembers(s[1..], p);
      var rest := Filter(s[1..], p);
      forall x | x in rest ensures less(s[0], x) {
        assert x in s[1..];
      }
    }
  }

  /** Two ascending sequences with the same members are the same sequence. */
  lemma {:induction false} AscendingUnique<K(!new)>(a: seq<K>, b: seq<K>, less: (K, K) -> bool)
    requires StrictTotal(less) && Ascending(a, less) && Ascending(b, less)
    requires forall k :: k in a <==> k in b
    ensures a == b
  {
    if a == [] {
      if b != [] { HasMember(b); }
    } else {
      assert a[0] in b;
      assert b[0] in a;
      assert a[0] == b[0];
      forall k ensures k in a[1..] <==> k in b[1..] {
        assert k in a[1..] ==> k in a && less(a[0], k);
        assert k in b[1..] ==> k in b && less(b[0], k);
        assert k in a && k != a[0] ==> k in a[1..];
        assert k in b && k != b[0] ==> k in b[1..];
      }
      AscendingUnique(a[1..], b[1..], less);
      assert a == [a[0]] + a[1..] && b == [b[0]] + b[1..];
    }
  }

  /** The same as ScanIsFilter, for a whole tree. */
  lemma TreeScanIsFilter<K(!new)>(keys: set<K>, less: (K, K) -> bool, from: K, below: K -> bool, wanted: K -> bool)
    requires StrictTotal(less) && forall k :: below(k) <==> less(k, from)
    requires forall k :: wanted(k) ==> !less(k, from)
    requires forall a, b :: !less(a, from) && less(a, b) && wanted(b) ==> wanted(a)
    ensures Scan(Sorted(keys, less), below, wanted) == Filter(Sorted(keys, less), wanted)
  {
    ScanIsFilter(Sorted(keys, less), below, wanted);
  }

  /** No key from the start key up to k makes the callback stop. */
  ghost predicate Unstopped<K>(k: K, keys: set<K>, less: (K, K) -> bool, from: K, wanted: K -> bool) {
    && k in keys && !less(k, from)
    && (forall a :: a in keys && !less(a, from) && (a == k || less(a, k)) ==> wanted(a))
  }

  lemma {:induction false} ScanReaches<T>(s: seq<T>, below: T -> bool, wanted: T -> bool, i: int)
    requires 0 <= i < |s| && !below(s[i])
    requires forall j, k :: 0 <= j < k < |s| && below(s[k]) ==> below(s[j])
    requires forall j :: 0 <= j <= i && !below(s[j]) ==> wanted(s[j])
    ensures s[i] in Scan(s, below, wanted)
  {
    if below(s[0]) {
      ScanReaches(s[1..], below, wanted, i - 1);
    } else {
      TakeReaches(s, wanted, i);
    }
  }

  lemma {:induction false} TakeReaches<T>(s: seq<T>, p: T -> bool, i: int)
    requires 0 <= i < |s| && forall j :: 0 <= j <= i ==> p(s[j])
    ensures s[i] in TakeWhile(s, p)
  {
    if i > 0 { TakeReaches(s[1..], p, i - 1); }
  }

  lemma {:induction false} TakeMembers<T>(s: seq<T>, p: T -> bool)
    ensures forall x :: x in TakeWhile(s, p) ==> x in s && p(x)
  {
    if s != [] && p(s[0]) { TakeMembers(s[1..], p); }
  }

  lemma {:induction false} DropMembers<T>(s: seq<T>, p: T -> bool)
    ensures forall x :: x in DropWhile(s, p) ==> x in s
  {
    if s != [] && p(s[0]) { DropMembers(s[1..], p); }
  }

  lemma ScanMembers<T>(s: seq<T>, below: T -> bool, wanted: T -> bool)
    ensures forall x :: x in Scan(s, below, wanted) ==> x in s && wanted(x)
  {
    DropMembers(s, below);
    TakeMembers(DropWhile(s, below), wanted);
  }

  /** A scan only visits wanted members, and reaches every key up to which nothing stops it. */
  lemma TreeScanReaches<K(!new)>(keys: set<K>, less: (K, K) -> bool, from: K, below: K -> bool, wanted: K -> bool)
    requires StrictTotal(less) && forall k :: below(k) <==> less(k, from)
    ensures forall k :: k in Scan(Sorted(keys, less), below, wanted) ==> k in keys && wanted(k)
    ensures forall k :: Unstopped(k, keys, less, from, wanted) ==> k in Scan(Sorted(keys, less), below, wanted)
  {
    var s := Sorted(keys, less);
    ScanMembers(s, below, wanted);
    forall k | Unstopped(k, keys, less, from, wanted) ensures k in Scan(s, below, wanted) {
      UnstoppedReached(s, keys, less, from, below, wanted, k);
    }
  }

  lemma UnstoppedReached<K(!new)>(s: seq<K>, keys: set<K>, less: (K, K) -> bool, from: K, below: K -> bool, wanted: K -> bool, k: K)
    requires StrictTotal(less) && (forall x :: below(x) <==> less(x, from))
    requires Ascending(s, less) && (forall x :: x in s <==> x in keys) && Unstopped(k, keys, less, from, wanted)
    ensures k in Scan(s, below, wanted)
  {
    var i :| 0 <= i < |s| && s[i] == k;
    forall j, m | 0 <= j < m < |s| && below(s[m]) ensures below(s[j]) {
      assert less(s[j], s[m]) && less(s[m], from);
    }
    forall j | 0 <= j <= i && !below(s[j]) ensures wanted(s[j]) {
      assert s[j] in keys && !less(s[j], from) && (s[j] == k || less(s[j], k));
    }
    ScanReaches(s, below, wanted, i);
  }

  // The loops behind a scan

  method SkipBelow<T>(s: seq<T>, below: T -> bool) returns (start: nat)
    ensures start <= |s| && s[start..] == DropWhile(s, below)
  {
    start := 0;
    while start < |s| && below(s[start])
      invariant start <= |s| && DropWhile(s[start..], below) == DropWhile(s, below)
    {
      assert s[start..][1..] == s[start + 1..];
      start := start + 1;
    }
  }

  method Collect<T>(s: seq<T>, wanted: T -> bool) returns (visited: seq<T>)
    ensures visited == TakeWhile(s, wanted)
  {
    visited := [];
    var i := 0;
    while i < |s| && wanted(s[i])
      invariant i <= |s| && visited + TakeWhile(s[i..], wanted) == TakeWhile(s, wanted)
    {
      assert s[i..][1..] == s[i + 1..];
      assert visited + ([s[i]] + TakeWhile(s[i + 1..], wanted)) == visited + [s[i]] + TakeWhile(s[i + 1..], wanted);
      visited := visited + [s[i]];
      i := i + 1;
    }
  }

  /** What a walk through everything appends to its result. */
  method Select<T>(s: seq<T>, wanted: T -> bool) returns (found: seq<T>)
    ensures found == Filter(s, wanted)
  {
    found := [];
    var i := 0;
    while i < |s|
      invariant i <= |s| && found + Filter(s[i..], wanted) == Filter(s, wanted)
    {
      assert s[i..][1..] == s[i + 1..];
      if wanted(s[i]) {
        assert found + ([s[i]] + Filter(s[i + 1..], wanted)) == found + [s[i]] + Filter(s[i + 1..], wanted);
        found := found + [s[i]];
      }
      i := i + 1;
    }
  }

  /** Hand out the elements in order until the callback says stop. */
  method VisitUntil<T>(s: seq<T>, callback: T -> bool) returns (visited: seq<T>)
    ensures visited <= s
    ensures forall i :: 0 <= i < |visited| - 1 ==> callback(visited[i])
    ensures visited == s || (visited != [] && !callback(visited[|visited| - 1]))
  {
    visited := [];
    for i := 0 to |s|
      invariant visited == s[..i]
      invariant forall j :: 0 <= j < i ==> callback(s[j])
    {
      visited := visited + [s[i]];
      if !callback(s[i]) { return; }
    }
  }
}
