/** Trees with string keys: the order of a walk, and scans that stop at the end of a prefix. */
module StringTrees {
  import opened Scans
  import opened ByteStrings

  type Key = string

  /** The order of a walk through the tree. */
  function Walk(keys: set<Key>): (r: seq<Key>)
    ensures forall k :: k in r <==> k in keys
    ensures |r| == |keys|
  {
    LessIsStrictTotal();
    Sorted(keys, Less)
  }

  lemma WalkAscends(keys: set<Key>)
    ensures Ascending(Walk(keys), Less)
  {
    LessIsStrictTotal();
  }

  ghost predicate Distinct(keys: seq<Key>) {
    forall i :: 0 <= i < |keys| ==> keys[i] !in keys[..i]
  }

  lemma WalkIsDistinct(keys: set<Key>)
    ensures Distinct(Walk(keys))
  {
    WalkAscends(keys);
    var r := Walk(keys);
    forall i, j | 0 <= j < i < |r| ensures r[j] != r[i] { Irreflexive(r[i]); }
  }

  /** Filtering a walk is walking the keys that pass. */
  lemma WalkFilter(keys: set<Key>, p: Key -> bool, passing: set<Key>)
    requires forall k :: k in passing <==> k in keys && p(k)
    ensures Filter(Walk(keys), p) == Walk(passing)
  {
    WalkAscends(keys);
    WalkAscends(passing);
    FilterAscends(Walk(keys), p, Less);
    FilterMembers(Walk(keys), p);
    LessIsStrictTotal();
    AscendingUnique(Filter(Walk(keys), p), Walk(passing), Less);
  }

  method RemoveEach<V>(tree: map<Key, V>, toDel: seq<Key>) returns (left: map<Key, V>)
    ensures left == map k | k in tree && k !in toDel :: tree[k]
  {
    left := tree;
    for i := 0 to |toDel|
      invariant left == map k | k in tree && k !in toDel[..i] :: tree[k]
    {
      left := left - {toDel[i]};
      assert toDel[..i + 1] == toDel[..i] + [toDel[i]];
    }
    assert toDel[..|toDel|] == toDel;
  }

  // Prefixes

  function WithPrefix(p: string): Key -> bool {
    (k: Key) => HasPrefix(k, p)
  }

  function Below(p: string): Key -> bool {
    (k: Key) => Less(k, p)
  }

  /** AscendGreaterOrEqual from the prefix, stopping at the first key without it. */
  function PrefixScan(keys: set<Key>, p: string): seq<Key> {
    Scan(Walk(keys), Below(p), WithPrefix(p))
  }

  /** The scan visits exactly the keys with the prefix, in order. */
  lemma PrefixScanIsFilter(keys: set<Key>, p: string)
    ensures PrefixScan(keys, p) == Filter(Walk(keys), WithPrefix(p))
    ensures PrefixScan(keys, p) == Walk(set k | k in keys && HasPrefix(k, p))
  {
    LessIsStrictTotal();
    forall k | WithPrefix(p)(k) ensures !Less(k, p) { PrefixNotAbove(k, p); }
    forall a, b | !Less(a, p) && Less(a, b) && WithPrefix(p)(b) ensures WithPrefix(p)(a) { PrefixContiguous(p, a, b); }
    TreeScanIsFilter(keys, Less, p, Below(p), WithPrefix(p));
    WalkFilter(keys, WithPrefix(p), set k | k in keys && HasPrefix(k, p));
  }

  method ScanPrefix(keys: set<Key>, p: string) returns (visited: seq<Key>)
    ensures visited == PrefixScan(keys, p)
  {
    var all := Walk(keys);
    var start := SkipBelow(all, Below(p));
    visited := Collect(all[start..], WithPrefix(p));
  }
}
