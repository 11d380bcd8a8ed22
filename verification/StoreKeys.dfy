/** Keys of the proxy store tree: order, paths and hexadecimal endpoint keys. */
module StoreKeys {
  import ByteStrings
  import opened Scans

  const SERVICES: nat := 10
  const ENDPOINTS: nat := 11
  const NODES: nat := 12

  datatype Key = Key(kind: nat, ns: string, name: string, source: string, key: string)

  predicate Less(a: Key, b: Key) {
    if a.kind != b.kind then a.kind < b.kind
    else if a.ns != b.ns then ByteStrings.Less(a.ns, b.ns)
    else if a.name != b.name then ByteStrings.Less(a.name, b.name)
    else if a.source != b.source then ByteStrings.Less(a.source, b.source)
    else ByteStrings.Less(a.key, b.key)
  }

  lemma LessIsStrictTotal()
    ensures StrictTotal(Less)
  {
    forall a: Key ensures !Less(a, a) { ByteStrings.Irreflexive(a.key); }
    forall a: Key, b: Key ensures Less(a, b) || a == b || Less(b, a) {
      ByteStrings.Total(a.ns, b.ns);
      ByteStrings.Total(a.name, b.name);
      ByteStrings.Total(a.source, b.source);
      ByteStrings.Total(a.key, b.key);
    }
    forall a: Key, b: Key, c: Key | Less(a, b) && Less(b, c) ensures Less(a, c) {
      LessTransitive(a, b, c);
    }
  }

  lemma StringCases(a: string, b: string, c: string)
    ensures ByteStrings.Less(a, b) && ByteStrings.Less(b, c) ==> ByteStrings.Less(a, c)
    ensures !(ByteStrings.Less(a, b) && ByteStrings.Less(b, a))
  {
    if ByteStrings.Less(a, b) && ByteStrings.Less(b, c) { ByteStrings.Transitive(a, b, c); }
    if ByteStrings.Less(a, b) && ByteStrings.Less(b, a) {
      ByteStrings.Transitive(a, b, a);
      ByteStrings.Irreflexive(a);
    }
  }

  lemma LessTransitive(a: Key, b: Key, c: Key)
    requires Less(a, b) && Less(b, c)
    ensures Less(a, c)
  {
    StringCases(a.ns, b.ns, c.ns);
    StringCases(a.name, b.name, c.name);
    StringCases(a.source, b.source, c.source);
    StringCases(a.key, b.key, c.key);
  }

  // Scans

  /** The keys of a tree in ascending order. */
  function Ordered(keys: set<Key>): (r: seq<Key>)
    ensures forall k :: k in r <==> k in keys
  {
    LessIsStrictTotal();
    Sorted(keys, Less)
  }

  function Below(from: Key): Key -> bool {
    (k: Key) => Less(k, from)
  }

  /** AscendGreaterOrEqual from a key, stopping at the first key the callback refuses. */
  function KeyScan(keys: set<Key>, from: Key, wanted: Key -> bool): seq<Key> {
    Scan(Ordered(keys), Below(from), wanted)
  }

  function InSet(kind: nat): Key -> bool {
    (k: Key) => k.kind == kind
  }

  function OfService(ns: string, name: string): Key -> bool {
    (k: Key) => k.kind == ENDPOINTS && k.ns == ns && k.name == name
  }

  /** A walk through the tree goes in strictly ascending key order. */
  lemma OrderedAscends(keys: set<Key>)
    ensures Ascending(Ordered(keys), Less)
  {
    LessIsStrictTotal();
  }

  /** Each: the entries of one set, in key order. */
  lemma SetScanIsFilter(keys: set<Key>, kind: nat)
    ensures KeyScan(keys, Key(kind, "", "", "", ""), InSet(kind)) == Filter(Ordered(keys), InSet(kind))
  {
    LessIsStrictTotal();
    var from := Key(kind, "", "", "", "");
    TreeScanIsFilter(keys, Less, from, Below(from), InSet(kind));
  }

  /** EachEndpointOfService: the entries of one service, in key order. */
  lemma ServiceScanIsFilter(keys: set<Key>, ns: string, name: string)
    ensures KeyScan(keys, Key(ENDPOINTS, ns, name, "", ""), OfService(ns, name))
         == Filter(Ordered(keys), OfService(ns, name))
  {
    LessIsStrictTotal();
    var from := Key(ENDPOINTS, ns, name, "", "");
    var wanted := OfService(ns, name);
    forall a: Key, b: Key | !Less(a, from) && Less(a, b) && wanted(b)
      ensures wanted(a)
    {
      StringCases(a.ns, ns, a.ns);
      StringCases(a.name, name, a.name);
      ByteStrings.Total(a.ns, ns);
      ByteStrings.Total(a.name, name);
    }
    TreeScanIsFilter(keys, Less, from, Below(from), wanted);
  }

  // Paths

  function Split(s: string): (parts: seq<string>)
    ensures |parts| > 0
    ensures forall p :: p in parts ==> '|' !in p
  {
    if s == "" then [""]
    else
      var rest := Split(s[1..]);
      if s[0] == '|' then [""] + rest else [[s[0]] + rest[0]] + rest[1..]
  }

  function Path(k: Key): string {
    k.ns + "|" + k.name + "|" + k.source + "|" + k.key
  }

  datatype ParsedPath = BadPath | Parsed(key: Key)

  /** SetPath indexes four parts and ignores the others; fewer make it panic. */
  function SetPath(kind: nat, path: string): ParsedPath {
    var p := Split(path);
    if |p| < 4 then BadPath else Parsed(Key(kind, p[0], p[1], p[2], p[3]))
  }

  lemma {:induction false} SplitAtBar(a: string, rest: string)
    requires '|' !in a
    ensures Split(a + "|" + rest) == [a] + Split(rest)
  {
    var s := a + "|" + rest;
    if a == "" {
      assert s[1..] == rest;
    } else {
      assert s[1..] == a[1..] + "|" + rest;
      SplitAtBar(a[1..], rest);
      assert a == [a[0]] + a[1..];
    }
  }

  lemma {:induction false} SplitWithoutBar(a: string)
    requires '|' !in a
    ensures Split(a) == [a]
  {
    if a != "" {
      SplitWithoutBar(a[1..]);
      assert a == [a[0]] + a[1..];
    }
  }

  /** Path and SetPath undo each other exactly for keys without a separator in a field. */
  lemma PathRoundTrip(k: Key)
    ensures SetPath(k.kind, Path(k)) == Parsed(k)
       <==> '|' !in k.ns && '|' !in k.name && '|' !in k.source && '|' !in k.key
  {
    if '|' !in k.ns && '|' !in k.name && '|' !in k.source && '|' !in k.key {
      var tail2 := k.source + "|" + k.key;
      var tail1 := k.name + "|" + tail2;
      assert Path(k) == k.ns + "|" + tail1;
      SplitAtBar(k.ns, tail1);
      SplitAtBar(k.name, tail2);
      SplitAtBar(k.source, k.key);
      SplitWithoutBar(k.key);
    }
  }

  // Endpoint keys: the hash in hexadecimal

  function Digit(n: nat): char
    requires n < 16
  {
    if n < 10 then '0' + n as char else 'a' + (n - 10) as char
  }

  function Hex(n: nat): (s: string)
    ensures |s| > 0
  {
    if n < 16 then [Digit(n)] else Hex(n / 16) + [Digit(n % 16)]
  }

  function DigitValue(c: char): nat {
    if '0' <= c <= '9' then (c - '0') as nat else if 'a' <= c <= 'f' then (c - 'a') as nat + 10 else 0
  }

  function Unhex(s: string): nat {
    if s == "" then 0 else Unhex(s[..|s| - 1]) * 16 + DigitValue(s[|s| - 1])
  }

  lemma {:induction false} HexRoundTrip(n: nat)
    ensures Unhex(Hex(n)) == n
  {
    if n < 16 {
      assert Hex(n)[..0] == "";
    } else {
      HexRoundTrip(n / 16);
      assert Hex(n)[..|Hex(n)| - 1] == Hex(n / 16);
    }
  }

  lemma HexInjective(m: nat, n: nat)
    ensures Hex(m) == Hex(n) <==> m == n
  {
    HexRoundTrip(m);
    HexRoundTrip(n);
  }
}
