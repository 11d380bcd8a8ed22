/** Transactions of the proxy store: one ordered tree holds every set, and each
    endpoint is indexed twice, by service and by source. */
module ProxyStore {
  import opened StoreKeys
  import opened Scans

  /** What an endpoint hash covers: the marshalled endpoint, conditions and topology. */
  type Content = string

  datatype EndpointInfo = EndpointInfo(ns: string, service: string, source: string, content: Content, hash: nat)

  datatype Value =
    | ServiceValue(hash: nat)
    | NodeValue(hash: nat)
    | EndpointValue(info: EndpointInfo)

  function HashOf(v: Value): nat {
    match v
    case ServiceValue(hash) => hash
    case NodeValue(hash) => hash
    case EndpointValue(info) => info.hash
  }

  type Tree = map<Key, Value>

  /** A store inside a transaction: data, sync flags and the transaction's change counter. */
  datatype Db = Db(tree: Tree, sync: map<nat, bool>, changes: nat)

  function SvcKey(e: EndpointInfo): Key {
    Key(ENDPOINTS, e.ns, e.service, e.source, Hex(e.hash))
  }

  function SrcKey(e: EndpointInfo): Key {
    Key(ENDPOINTS, e.ns, "", e.source, Hex(e.hash))
  }

  // Elementary operations

  function SetKv(db: Db, k: Key, v: Value): Db {
    if k in db.tree && HashOf(db.tree[k]) == HashOf(v) then db
    else db.(tree := db.tree[k := v], changes := db.changes + 1)
  }

  function DelKv(db: Db, k: Key): Db {
    if k in db.tree then db.(tree := db.tree - {k}, changes := db.changes + 1) else db
  }

  function DelAll(db: Db, ks: seq<Key>): Db
    decreases ks
  {
    if ks == [] then db else DelAll(DelKv(db, ks[0]), ks[1..])
  }

  function ResetAll(db: Db): Db {
    var synced := set s | s in db.sync && db.sync[s];
    Db(map[], map s | s in db.sync :: false, db.changes + (if db.tree != map[] then 1 else 0) + |synced|)
  }

  function SetSync(db: Db, kind: nat): Db {
    if kind in db.sync && db.sync[kind] then db
    else db.(sync := db.sync[kind := true], changes := db.changes + 1)
  }

  // Endpoint operations

  predicate OfSource(k: Key, ns: string, source: string) {
    k.kind == ENDPOINTS && k.ns == ns && k.source == source
  }

  /** The scan callbacks: DelEndpointsOfSource also compares the name,
      SetEndpointsOfSource does not. */
  function Callback(ns: string, source: string, byName: bool): Key -> bool {
    (k: Key) => OfSource(k, ns, source) && (byName ==> k.name == "")
  }

  function Visited(tree: Tree, ns: string, source: string, byName: bool): seq<Key> {
    KeyScan(tree.Keys, Key(ENDPOINTS, ns, "", source, ""), Callback(ns, source, byName))
  }

  /** The reference in the service: DelEndpointsOfSource takes it from the key it
      visits, SetEndpointsOfSource from the endpoint. */
  function Ref(k: Key, e: EndpointInfo, byName: bool): Key {
    if byName then k.(name := e.service) else Key(ENDPOINTS, e.ns, e.service, e.source, k.key)
  }

  predicate Unseen(tree: Tree, k: Key, seen: set<nat>) {
    k in tree && tree[k].EndpointValue? && tree[k].info.hash !in seen
  }

  /** The keys collected for deletion: each unseen entry and its reference in the service. */
  function Doomed(tree: Tree, visited: seq<Key>, seen: set<nat>, byName: bool): seq<Key> {
    if visited == [] then []
    else
      var k := visited[0];
      (if Unseen(tree, k, seen) then [k, Ref(k, tree[k].info, byName)] else [])
      + Doomed(tree, visited[1..], seen, byName)
  }

  function AddOne(db: Db, e: EndpointInfo): Db {
    if SvcKey(e) in db.tree then db
    else SetKv(SetKv(db, SvcKey(e), EndpointValue(e)), SrcKey(e), EndpointValue(e))
  }

  function AddAll(db: Db, es: seq<EndpointInfo>): Db
    decreases es
  {
    if es == [] then db else AddAll(AddOne(db, es[0]), es[1..])
  }

  function Rehash(h: Content -> nat, eis: seq<EndpointInfo>): (es: seq<EndpointInfo>)
    ensures |es| == |eis|
    ensures forall i :: 0 <= i < |es| ==> es[i] == eis[i].(hash := h(eis[i].content))
  {
    if eis == [] then [] else [eis[0].(hash := h(eis[0].content))] + Rehash(h, eis[1..])
  }

  function Hashes(h: Content -> nat, eis: seq<EndpointInfo>): set<nat> {
    set e | e in eis :: h(e.content)
  }

  /** The deletion phase of both operations. */
  function Purged(db: Db, ns: string, source: string, seen: set<nat>, byName: bool): Db {
    DelAll(db, Doomed(db.tree, Visited(db.tree, ns, source, byName), seen, byName))
  }

  function SetEndpointsOfSource(db: Db, h: Content -> nat, ns: string, source: string, eis: seq<EndpointInfo>): Db {
    AddAll(Purged(db, ns, source, Hashes(h, eis), false), Rehash(h, eis))
  }

  function DelEndpointsOfSource(db: Db, ns: string, source: string): Db {
    Purged(db, ns, source, {}, true)
  }

  function SetEndpoint(db: Db, h: Content -> nat, e: EndpointInfo): Db {
    var e' := e.(hash := h(e.content));
    if e.hash == e'.hash then db
    else
      var db1 := DelKv(DelKv(db, SvcKey(e)), SrcKey(e));
      SetKv(SetKv(db1, SvcKey(e'), EndpointValue(e')), SrcKey(e'), EndpointValue(e'))
  }

  // The two-index invariant

  /** Every endpoint entry sits at the by-service or the by-source key of its
      endpoint, and both keys hold that same endpoint. */
  ghost predicate Indexed(tree: Tree) {
    forall k :: k in tree && k.kind == ENDPOINTS ==> IndexedAt(tree, k)
  }

  ghost predicate IndexedAt(tree: Tree, k: Key)
    requires k in tree
  {
    && tree[k].EndpointValue?
    && var e := tree[k].info;
    && e.service != "" && (k == SvcKey(e) || k == SrcKey(e))
    && SvcKey(e) in tree && tree[SvcKey(e)] == tree[k]
    && SrcKey(e) in tree && tree[SrcKey(e)] == tree[k]
  }

  /** What adding endpoints keeps even when the invariant breaks. */
  ghost predicate Keyed(tree: Tree) {
    forall k :: k in tree && k.kind == ENDPOINTS ==>
      && tree[k].EndpointValue? && k.key == Hex(tree[k].info.hash)
      && k.(name := "") in tree
  }

  ghost predicate NameAgrees(tree: Tree, e: EndpointInfo) {
    SrcKey(e) in tree && tree[SrcKey(e)].EndpointValue? ==> tree[SrcKey(e)].info.service == e.service
  }

  /** No endpoint of the source is filed under two service names. */
  ghost predicate NamesAgree(tree: Tree, es: seq<EndpointInfo>) {
    && (forall e :: e in es ==> NameAgrees(tree, e))
    && (forall e, f :: e in es && f in es && SrcKey(e) == SrcKey(f) ==> e.service == f.service)
  }

  ghost predicate Extends(small: Tree, big: Tree) {
    forall k :: k in small ==> k in big && big[k] == small[k]
  }

  // Deletion

  lemma {:induction false} DelAllRemoves(db: Db, ks: seq<Key>)
    ensures DelAll(db, ks).tree == db.tree - (set k | k in ks)
    ensures DelAll(db, ks).sync == db.sync
    ensures DelAll(db, ks).changes >= db.changes
    ensures DelAll(db, ks).changes == db.changes ==> DelAll(db, ks) == db
    decreases ks
  {
    if ks != [] {
      var db1 := DelKv(db, ks[0]);
      DelAllRemoves(db1, ks[1..]);
      assert (set k | k in ks) == {ks[0]} + (set k | k in ks[1..]);
      assert db1.tree == db.tree - {ks[0]};
    }
  }

  lemma {:induction false} DoomedMembers(tree: Tree, visited: seq<Key>, seen: set<nat>, byName: bool)
    ensures forall x :: x in Doomed(tree, visited, seen, byName) <==>
              exists k :: k in visited && Unseen(tree, k, seen) && (x == k || x == Ref(k, tree[k].info, byName))
  {
    if visited != [] {
      DoomedMembers(tree, visited[1..], seen, byName);
      assert forall k :: k in visited <==> k == visited[0] || k in visited[1..];
    }
  }

  lemma BySourceIsContiguous(a: Key, k: Key, ns: string, source: string)
    requires !Less(a, Key(ENDPOINTS, ns, "", source, "")) && (a == k || Less(a, k))
    requires OfSource(k, ns, source) && k.name == ""
    ensures OfSource(a, ns, source) && a.name == ""
  {
    StringCases(a.ns, ns, a.ns);
    StringCases(a.source, source, a.source);
  }

  /** The scan reaches every by-source entry of the source, whatever else it runs into. */
  lemma VisitsSource(tree: Tree, ns: string, source: string, byName: bool)
    ensures forall k :: k in Visited(tree, ns, source, byName) ==> k in tree && OfSource(k, ns, source)
    ensures forall k :: k in tree && OfSource(k, ns, source) && k.name == "" ==> k in Visited(tree, ns, source, byName)
  {
    LessIsStrictTotal();
    var from := Key(ENDPOINTS, ns, "", source, "");
    var wanted := Callback(ns, source, byName);
    TreeScanReaches(tree.Keys, Less, from, Below(from), wanted);
    forall k | k in tree && OfSource(k, ns, source) && k.name == ""
      ensures Unstopped(k, tree.Keys, Less, from, wanted)
    {
      forall a | a in tree.Keys && !Less(a, from) && (a == k || Less(a, k)) ensures wanted(a) {
        BySourceIsContiguous(a, k, ns, source);
      }
    }
  }

  /** The entries that survive when a source keeps only the given hashes. */
  ghost function Kept(tree: Tree, ns: string, source: string, seen: set<nat>): Tree {
    map k | k in tree && !(OfSource(k, ns, source) && Unseen(tree, k, seen)) :: tree[k]
  }

  lemma RefIsSvcKey(tree: Tree, k: Key, ns: string, source: string, seen: set<nat>, byName: bool)
    requires Indexed(tree) && OfSource(k, ns, source) && Unseen(tree, k, seen)
    ensures var x := Ref(k, tree[k].info, byName);
            x == SvcKey(tree[k].info) && OfSource(x, ns, source) && Unseen(tree, x, seen)
  {
    assert IndexedAt(tree, k);
  }

  lemma DoomedAreUnseen(tree: Tree, ns: string, source: string, seen: set<nat>, byName: bool, x: Key)
    requires Indexed(tree)
    requires x in Doomed(tree, Visited(tree, ns, source, byName), seen, byName)
    ensures OfSource(x, ns, source) && Unseen(tree, x, seen)
  {
    var visited := Visited(tree, ns, source, byName);
    VisitsSource(tree, ns, source, byName);
    DoomedMembers(tree, visited, seen, byName);
    var k :| k in visited && Unseen(tree, k, seen) && (x == k || x == Ref(k, tree[k].info, byName));
    RefIsSvcKey(tree, k, ns, source, seen, byName);
  }

  lemma UnseenAreDoomed(tree: Tree, ns: string, source: string, seen: set<nat>, byName: bool, x: Key)
    requires Indexed(tree) && OfSource(x, ns, source) && Unseen(tree, x, seen)
    ensures x in Doomed(tree, Visited(tree, ns, source, byName), seen, byName)
  {
    var visited := Visited(tree, ns, source, byName);
    VisitsSource(tree, ns, source, byName);
    assert IndexedAt(tree, x);
    var k := SrcKey(tree[x].info);
    assert k in visited && Unseen(tree, k, seen);
    assert Ref(k, tree[k].info, byName) == SvcKey(tree[x].info);
    DoomedMembers(tree, visited, seen, byName);
  }

  /** Both deletion passes remove the unseen endpoints of the source from both
      indexes and nothing else, even when the scan runs on into by-service entries. */
  lemma DoomedExactly(tree: Tree, ns: string, source: string, seen: set<nat>, byName: bool)
    requires Indexed(tree)
    ensures var doomed := Doomed(tree, Visited(tree, ns, source, byName), seen, byName);
            tree - (set k | k in doomed) == Kept(tree, ns, source, seen)
  {
    var doomed := Doomed(tree, Visited(tree, ns, source, byName), seen, byName);
    forall x | x in tree
      ensures x in doomed <==> OfSource(x, ns, source) && Unseen(tree, x, seen)
    {
      if x in doomed { DoomedAreUnseen(tree, ns, source, seen, byName, x); }
      else if OfSource(x, ns, source) && Unseen(tree, x, seen) { UnseenAreDoomed(tree, ns, source, seen, byName, x); }
    }
  }

  ghost predicate IsKept(t: Tree, tree: Tree, ns: string, source: string, seen: set<nat>) {
    t == Kept(tree, ns, source, seen) && Indexed(t)
  }

  lemma PurgedExactly(db: Db, ns: string, source: string, seen: set<nat>, byName: bool)
    requires Indexed(db.tree)
    ensures IsKept(Purged(db, ns, source, seen, byName).tree, db.tree, ns, source, seen)
  {
    DelAllRemoves(db, Doomed(db.tree, Visited(db.tree, ns, source, byName), seen, byName));
    DoomedExactly(db.tree, ns, source, seen, byName);
    KeptIsIndexed(db.tree, ns, source, seen);
  }

  lemma KeptIsIndexed(tree: Tree, ns: string, source: string, seen: set<nat>)
    requires Indexed(tree)
    ensures Indexed(Kept(tree, ns, source, seen))
  {
    var kept := Kept(tree, ns, source, seen);
    forall k | k in kept && k.kind == ENDPOINTS ensures IndexedAt(kept, k) {
      assert IndexedAt(tree, k);
    }
  }

  // Addition

  lemma AddOneExtends(db: Db, e: EndpointInfo)
    requires Keyed(db.tree)
    ensures var t := AddOne(db, e).tree;
            && Keyed(t) && Extends(db.tree, t)
            && SvcKey(e) in t && SrcKey(e) in t
            && (forall k :: k in t ==> k in db.tree || k == SvcKey(e) || k == SrcKey(e))
            && (SvcKey(e) !in db.tree ==> t[SvcKey(e)] == EndpointValue(e))
            && (SrcKey(e) !in db.tree ==> t[SrcKey(e)] == EndpointValue(e))
  {
    var t := AddOne(db, e).tree;
    if SvcKey(e) in db.tree {
      assert SrcKey(e) == SvcKey(e).(name := "");
    } else {
      var t1 := SetKv(db, SvcKey(e), EndpointValue(e)).tree;
      if SrcKey(e) in t1 { HexInjective(t1[SrcKey(e)].info.hash, e.hash); }
      assert forall k :: k in t ==> k in db.tree || k == SvcKey(e) || k == SrcKey(e);
    }
  }

  lemma IndexedIsKeyed(tree: Tree)
    requires Indexed(tree)
    ensures Keyed(tree)
  {
    forall k | k in tree && k.kind == ENDPOINTS
      ensures tree[k].EndpointValue? && k.key == Hex(tree[k].info.hash) && k.(name := "") in tree
    {
      assert IndexedAt(tree, k);
    }
  }

  /** Adding one named endpoint keeps the indexes in correspondence exactly when
      the source does not already file that endpoint under another name. */
  lemma AddOneIndexed(db: Db, e: EndpointInfo)
    requires Indexed(db.tree) && e.service != ""
    ensures Indexed(AddOne(db, e).tree) <==> NameAgrees(db.tree, e)
  {
    IndexedIsKeyed(db.tree);
    AddOneExtends(db, e);
    var t := AddOne(db, e).tree;
    if NameAgrees(db.tree, e) {
      if SrcKey(e) in db.tree {
        assert IndexedAt(db.tree, SrcKey(e));
        HexInjective(db.tree[SrcKey(e)].info.hash, e.hash);
        assert SvcKey(e) in db.tree;
      } else {
        forall k | k in t && k.kind == ENDPOINTS ensures IndexedAt(t, k) {
          if k in db.tree { assert IndexedAt(db.tree, k); }
        }
      }
    } else {
      ClashOf(db, e);
      ClashPersists(t, t, SvcKey(e));
    }
  }

  /** An entry whose by-source key holds something else. */
  ghost predicate Clash(tree: Tree, k: Key) {
    && k in tree && k.kind == ENDPOINTS && tree[k].EndpointValue?
    && SrcKey(tree[k].info) in tree && tree[SrcKey(tree[k].info)] != tree[k]
  }

  lemma ClashOf(db: Db, e: EndpointInfo)
    requires Indexed(db.tree) && e.service != "" && !NameAgrees(db.tree, e)
    ensures Clash(AddOne(db, e).tree, SvcKey(e))
  {
    IndexedIsKeyed(db.tree);
    AddOneExtends(db, e);
    var filed := db.tree[SrcKey(e)].info;
    assert IndexedAt(db.tree, SrcKey(e));
    HexInjective(filed.hash, e.hash);
  }

  lemma ClashPersists(small: Tree, big: Tree, k: Key)
    requires Clash(small, k) && Extends(small, big)
    ensures !Indexed(big)
  {
    assert k in big && !IndexedAt(big, k);
  }

  lemma {:induction false} AddAllExtends(db: Db, es: seq<EndpointInfo>)
    requires Keyed(db.tree)
    ensures var t := AddAll(db, es).tree;
            && Keyed(t) && Extends(db.tree, t)
            && (forall e :: e in es ==> SvcKey(e) in t && SrcKey(e) in t)
            && (forall k :: k in t ==> k in db.tree || exists e :: e in es && (k == SvcKey(e) || k == SrcKey(e)))
    decreases es
  {
    if es != [] {
      AddOneExtends(db, es[0]);
      var db1 := AddOne(db, es[0]);
      AddAllExtends(db1, es[1..]);
      var t := AddAll(db1, es[1..]).tree;
      forall k | k in t && k !in db.tree ensures exists e :: e in es && (k == SvcKey(e) || k == SrcKey(e)) {
        if k in db1.tree {
          assert es[0] in es;
        } else {
          var e :| e in es[1..] && (k == SvcKey(e) || k == SrcKey(e));
          assert e in es;
        }
      }
    }
  }

  /** The same for a whole list, where later endpoints must agree with earlier ones. */
  lemma {:induction false} AddAllIndexed(db: Db, es: seq<EndpointInfo>)
    requires Indexed(db.tree)
    requires forall e :: e in es ==> e.service != ""
    ensures Indexed(AddAll(db, es).tree) <==> NamesAgree(db.tree, es)
    decreases es
  {
    if es != [] {
      var db1 := AddOne(db, es[0]);
      AddOneIndexed(db, es[0]);
      IndexedIsKeyed(db.tree);
      AddOneExtends(db, es[0]);
      AddAllExtends(db1, es[1..]);
      assert es[0] in es;
      if NameAgrees(db.tree, es[0]) {
        AddAllIndexed(db1, es[1..]);
        AgreementSplits(db, es);
      } else {
        ClashOf(db, es[0]);
        ClashPersists(db1.tree, AddAll(db, es).tree, SvcKey(es[0]));
      }
    }
  }

  lemma AgreementWithFirst(db: Db, first: EndpointInfo, e: EndpointInfo)
    requires Indexed(db.tree) && first.service != "" && NameAgrees(db.tree, first)
    ensures NameAgrees(AddOne(db, first).tree, e)
       <==> NameAgrees(db.tree, e) && (SrcKey(e) == SrcKey(first) ==> e.service == first.service)
  {
    var t := AddOne(db, first).tree;
    IndexedIsKeyed(db.tree);
    AddOneExtends(db, first);
    AddOneIndexed(db, first);
    assert IndexedAt(t, SrcKey(first));
    assert IndexedAt(t, SvcKey(first));
    assert t[SrcKey(first)].info.service == first.service;
  }

  lemma AgreementSplits(db: Db, es: seq<EndpointInfo>)
    requires Indexed(db.tree) && es != []
    requires forall e :: e in es ==> e.service != ""
    requires NameAgrees(db.tree, es[0])
    ensures NamesAgree(AddOne(db, es[0]).tree, es[1..]) <==> NamesAgree(db.tree, es)
  {
    assert forall e :: e in es <==> e == es[0] || e in es[1..];
    forall e | e in es[1..]
      ensures NameAgrees(AddOne(db, es[0]).tree, e)
         <==> NameAgrees(db.tree, e) && (SrcKey(e) == SrcKey(es[0]) ==> e.service == es[0].service)
    {
      AgreementWithFirst(db, es[0], e);
    }
  }

  // Endpoints without a service name

  /** What adding one endpoint asks of the tree: an unnamed endpoint must find its by-source key taken,
      a named one must not be filed under another name. */
  ghost predicate Fits(tree: Tree, e: EndpointInfo) {
    if e.service == "" then SrcKey(e) in tree else NameAgrees(tree, e)
  }

  /** What the list before an endpoint changes of that: a named endpoint before it takes the by-source key. */
  ghost predicate FitsBehind(tree: Tree, before: seq<EndpointInfo>, e: EndpointInfo) {
    if e.service == "" then SrcKey(e) in tree || exists f :: f in before && f.service != "" && SrcKey(f) == SrcKey(e)
    else NameAgrees(tree, e) && forall f :: f in before && f.service != "" && SrcKey(f) == SrcKey(e) ==> f.service == e.service
  }

  /** The same for a list, said of the tree and the list alone. */
  ghost predicate AllFit(tree: Tree, es: seq<EndpointInfo>) {
    forall i :: 0 <= i < |es| ==> FitsBehind(tree, es[..i], es[i])
  }

  /** An entry that no later addition can put right. */
  ghost predicate Broken(tree: Tree, k: Key) {
    Clash(tree, k) || (k in tree && k.kind == ENDPOINTS && tree[k].EndpointValue? && tree[k].info.service == "")
  }

  lemma BrokenPersists(small: Tree, big: Tree, k: Key)
    requires Broken(small, k) && Extends(small, big)
    ensures !Indexed(big)
  {
    assert k in big && !IndexedAt(big, k);
  }

  lemma AddOneFits(db: Db, e: EndpointInfo)
    requires Indexed(db.tree)
    ensures Indexed(AddOne(db, e).tree) <==> Fits(db.tree, e)
    ensures !Fits(db.tree, e) ==> Broken(AddOne(db, e).tree, SvcKey(e))
  {
    if e.service != "" {
      AddOneIndexed(db, e);
      if !NameAgrees(db.tree, e) { ClashOf(db, e); }
    } else if SrcKey(e) !in db.tree {
      assert Broken(AddOne(db, e).tree, SvcKey(e));
      BrokenPersists(AddOne(db, e).tree, AddOne(db, e).tree, SvcKey(e));
    }
  }

  /** Once the first endpoint is added, it may be left out of the list before. */
  lemma FitsBehindFirst(db: Db, first: EndpointInfo, before: seq<EndpointInfo>, e: EndpointInfo)
    requires Indexed(db.tree) && Fits(db.tree, first)
    ensures FitsBehind(AddOne(db, first).tree, before, e) <==> FitsBehind(db.tree, [first] + before, e)
  {
    var all := [first] + before;
    assert forall f :: f in all <==> f == first || f in before;
    if first.service == "" {
      assert AddOne(db, first) == db;
    } else {
      IndexedIsKeyed(db.tree);
      AddOneExtends(db, first);
      AgreementWithFirst(db, first, e);
    }
  }

  lemma AllFitSplits(db: Db, es: seq<EndpointInfo>)
    requires Indexed(db.tree) && es != [] && Fits(db.tree, es[0])
    ensures AllFit(AddOne(db, es[0]).tree, es[1..]) <==> AllFit(db.tree, es)
  {
    var t, rest := AddOne(db, es[0]).tree, es[1..];
    forall i | 0 <= i < |rest| ensures FitsBehind(t, rest[..i], rest[i]) <==> FitsBehind(db.tree, es[..i + 1], es[i + 1]) {
      assert es[..i + 1] == [es[0]] + rest[..i];
      FitsBehindFirst(db, es[0], rest[..i], rest[i]);
    }
    if AllFit(t, rest) {
      forall i | 0 <= i < |es| ensures FitsBehind(db.tree, es[..i], es[i]) {
        if i > 0 { assert FitsBehind(t, rest[..i - 1], rest[i - 1]); }
      }
    }
    if AllFit(db.tree, es) {
      forall i | 0 <= i < |rest| ensures FitsBehind(t, rest[..i], rest[i]) { assert FitsBehind(db.tree, es[..i + 1], es[i + 1]); }
    }
  }

  /** Adding any list, named or not, keeps the indexes in correspondence exactly when all of it fits. */
  lemma {:induction false} AddAllFit(db: Db, es: seq<EndpointInfo>)
    requires Indexed(db.tree)
    ensures Indexed(AddAll(db, es).tree) <==> AllFit(db.tree, es)
    decreases es
  {
    if es != [] {
      var db1 := AddOne(db, es[0]);
      AddOneFits(db, es[0]);
      if Fits(db.tree, es[0]) {
        AddAllFit(db1, es[1..]);
        AllFitSplits(db, es);
      } else {
        IndexedIsKeyed(db.tree);
        AddOneExtends(db, es[0]);
        AddAllExtends(db1, es[1..]);
        BrokenPersists(db1.tree, AddAll(db, es).tree, SvcKey(es[0]));
        assert !FitsBehind(db.tree, es[..0], es[0]);
      }
    }
  }

  /** The deletion phase does not matter to endpoints whose hashes it keeps. */
  lemma KeptFits(tree: Tree, ns: string, source: string, seen: set<nat>, es: seq<EndpointInfo>)
    requires Indexed(tree) && forall e :: e in es ==> e.hash in seen
    ensures AllFit(Kept(tree, ns, source, seen), es) <==> AllFit(tree, es)
  {
    var kept := Kept(tree, ns, source, seen);
    forall i | 0 <= i < |es| ensures FitsBehind(kept, es[..i], es[i]) <==> FitsBehind(tree, es[..i], es[i]) {
      var k := SrcKey(es[i]);
      assert es[i] in es;
      if k in tree {
        assert IndexedAt(tree, k);
        HexInjective(tree[k].info.hash, es[i].hash);
      }
      assert k in kept <==> k in tree;
    }
  }

  // Raw writes

  /** A raw write to an endpoint key breaks the correspondence, unless it changes nothing. */
  lemma RawSetIndexed(db: Db, k: Key, v: Value)
    requires Indexed(db.tree)
    ensures Indexed(SetKv(db, k, v).tree) <==> k.kind != ENDPOINTS || (k in db.tree && HashOf(db.tree[k]) == HashOf(v))
  {
    var t := SetKv(db, k, v).tree;
    if k.kind != ENDPOINTS {
      forall x | x in t && x.kind == ENDPOINTS ensures IndexedAt(t, x) { assert IndexedAt(db.tree, x); }
    } else if t != db.tree && Indexed(t) {
      assert IndexedAt(t, k);
      RawSetStandsAlone(db, k, v);
    }
  }

  lemma RawSetStandsAlone(db: Db, k: Key, v: Value)
    requires Indexed(db.tree) && k.kind == ENDPOINTS && !(k in db.tree && HashOf(db.tree[k]) == HashOf(v))
    ensures !IndexedAt(db.tree[k := v], k)
  {
    if k in db.tree {
      assert IndexedAt(db.tree, k);
      if v.EndpointValue? { HexInjective(db.tree[k].info.hash, v.info.hash); }
    } else if v.EndpointValue? {
      var partner := if k == SvcKey(v.info) then SrcKey(v.info) else SvcKey(v.info);
      assert partner in db.tree && partner.kind == ENDPOINTS ==> IndexedAt(db.tree, partner);
    }
  }

  lemma RawDelIndexed(db: Db, k: Key)
    requires Indexed(db.tree)
    ensures Indexed(DelKv(db, k).tree) <==> k.kind != ENDPOINTS || k !in db.tree
  {
    var t := DelKv(db, k).tree;
    if k.kind != ENDPOINTS {
      forall x | x in t && x.kind == ENDPOINTS ensures IndexedAt(t, x) { assert IndexedAt(db.tree, x); }
    } else if k in db.tree {
      assert IndexedAt(db.tree, k);
      var e := db.tree[k].info;
      var partner := if k == SvcKey(e) then SrcKey(e) else SvcKey(e);
      assert partner in t && t[partner] == EndpointValue(e) && !IndexedAt(t, partner);
    }
  }
}
