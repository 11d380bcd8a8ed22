/** What whole transactions of the proxy store keep. */
module ProxyTransactions {
  import opened StoreKeys
  import opened Scans
  import opened ProxyStore

  // One operation

  /** Everything outside the given source is as before. */
  ghost predicate SameElsewhere(t: Tree, tree: Tree, ns: string, source: string) {
    forall k :: !OfSource(k, ns, source) ==> (k in t <==> k in tree) && (k in t ==> t[k] == tree[k])
  }

  /** The by-source index lists exactly the given hashes for the source. */
  ghost predicate HoldsHashes(t: Tree, ns: string, source: string, hashes: set<nat>) {
    forall n: nat :: Key(ENDPOINTS, ns, "", source, Hex(n)) in t <==> n in hashes
  }

  ghost predicate AllFrom(es: seq<EndpointInfo>, ns: string, source: string, seen: set<nat>) {
    forall e :: e in es ==> e.ns == ns && e.source == source && e.service != "" && e.hash in seen
  }

  ghost predicate AddedTo(t: Tree, tree: Tree, ns: string, source: string, seen: set<nat>, es: seq<EndpointInfo>) {
    && (forall e :: e in es ==> SrcKey(e) in t)
    && (forall k :: k in t ==> k in Kept(tree, ns, source, seen) || exists e :: e in es && (k == SvcKey(e) || k == SrcKey(e)))
  }

  /** What SetEndpointsOfSource does to the endpoints of its source: the indexes stay in
      correspondence exactly when no endpoint changes its service name, the source
      holds exactly the given hashes, and nothing else changes. */
  ghost predicate SourceReplaced(t: Tree, tree: Tree, h: Content -> nat, ns: string, source: string, eis: seq<EndpointInfo>) {
    && (Indexed(t) <==> NamesAgree(tree, Rehash(h, eis)))
    && SameElsewhere(t, tree, ns, source)
    && HoldsHashes(t, ns, source, Hashes(h, eis))
  }

  /** SetEndpointsOfSource keeps the two indexes in correspondence exactly when no
      endpoint changes its service name. The source then holds exactly the given
      hashes, and entries of other sources, services and nodes never change. */
  lemma SetEndpointsOfSourceExact(db: Db, h: Content -> nat, ns: string, source: string, eis: seq<EndpointInfo>)
    requires Indexed(db.tree)
    requires forall e :: e in eis ==> e.ns == ns && e.source == source && e.service != ""
    ensures SourceReplaced(SetEndpointsOfSource(db, h, ns, source, eis).tree, db.tree, h, ns, source, eis)
  {
    PurgedExactly(db, ns, source, Hashes(h, eis), false);
    SetFromPurged(db.tree, Purged(db, ns, source, Hashes(h, eis), false), h, ns, source, eis);
  }

  lemma SetFromPurged(tree: Tree, db1: Db, h: Content -> nat, ns: string, source: string, eis: seq<EndpointInfo>)
    requires Indexed(tree) && IsKept(db1.tree, tree, ns, source, Hashes(h, eis))
    requires forall e :: e in eis ==> e.ns == ns && e.source == source && e.service != ""
    ensures SourceReplaced(AddAll(db1, Rehash(h, eis)).tree, tree, h, ns, source, eis)
  {
    var es := Rehash(h, eis);
    RehashedFields(h, ns, source, eis);
    SetFromKept(db1, tree, ns, source, Hashes(h, eis), es);
    SourceHashes(tree, h, ns, source, eis, AddAll(db1, es).tree);
  }

  lemma RehashedFields(h: Content -> nat, ns: string, source: string, eis: seq<EndpointInfo>)
    requires forall e :: e in eis ==> e.ns == ns && e.source == source && e.service != ""
    ensures AllFrom(Rehash(h, eis), ns, source, Hashes(h, eis))
  {
    var es := Rehash(h, eis);
    forall e | e in es ensures e.ns == ns && e.source == source && e.service != "" && e.hash in Hashes(h, eis) {
      var i :| 0 <= i < |es| && es[i] == e;
      assert eis[i] in eis;
    }
  }

  lemma SetFromKept(db1: Db, tree: Tree, ns: string, source: string, seen: set<nat>, es: seq<EndpointInfo>)
    requires Indexed(tree) && IsKept(db1.tree, tree, ns, source, seen)
    requires AllFrom(es, ns, source, seen)
    ensures var t := AddAll(db1, es).tree;
            && (Indexed(t) <==> NamesAgree(tree, es))
            && AddedTo(t, tree, ns, source, seen, es) && SameElsewhere(t, tree, ns, source)
  {
    IndexedIsKeyed(db1.tree);
    AddAllExtends(db1, es);
    AddAllIndexed(db1, es);
    KeptAgrees(tree, ns, source, seen, es);
    var t := AddAll(db1, es).tree;
    forall k | !OfSource(k, ns, source)
      ensures (k in t <==> k in tree) && (k in t ==> t[k] == tree[k])
    {
      assert k in tree ==> k in db1.tree;
    }
  }

  lemma KeptAgrees(tree: Tree, ns: string, source: string, seen: set<nat>, es: seq<EndpointInfo>)
    requires Indexed(tree)
    requires AllFrom(es, ns, source, seen)
    ensures NamesAgree(Kept(tree, ns, source, seen), es) <==> NamesAgree(tree, es)
  {
    var kept := Kept(tree, ns, source, seen);
    forall e | e in es ensures NameAgrees(kept, e) <==> NameAgrees(tree, e) {
      if SrcKey(e) in tree {
        assert IndexedAt(tree, SrcKey(e));
        HexInjective(tree[SrcKey(e)].info.hash, e.hash);
      }
    }
  }

  lemma SourceHashes(tree: Tree, h: Content -> nat, ns: string, source: string, eis: seq<EndpointInfo>, t: Tree)
    requires Indexed(tree)
    requires AllFrom(Rehash(h, eis), ns, source, Hashes(h, eis))
    requires AddedTo(t, tree, ns, source, Hashes(h, eis), Rehash(h, eis))
    ensures HoldsHashes(t, ns, source, Hashes(h, eis))
  {
    forall n: nat ensures Key(ENDPOINTS, ns, "", source, Hex(n)) in t <==> n in Hashes(h, eis) {
      var k, es := Key(ENDPOINTS, ns, "", source, Hex(n)), Rehash(h, eis);
      if n in Hashes(h, eis) {
        var e :| e in eis && h(e.content) == n;
        var i :| 0 <= i < |eis| && eis[i] == e;
        assert es[i] in es && SrcKey(es[i]) == k;
      } else if k in t {
        if e :| e in es && (k == SvcKey(e) || k == SrcKey(e)) {
          HexInjective(n, e.hash);
        } else {
          assert IndexedAt(tree, k);
          HexInjective(n, tree[k].info.hash);
        }
      }
    }
  }

  // Contents

  ghost predicate Injective(h: Content -> nat) {
    forall a, b :: h(a) == h(b) ==> a == b
  }

  /** Every endpoint in the tree carries the hash of its content. */
  ghost predicate HashedBy(tree: Tree, h: Content -> nat) {
    forall k :: k in tree && k.kind == ENDPOINTS && tree[k].EndpointValue? ==> tree[k].info.hash == h(tree[k].info.content)
  }

  /** The entries of the source are both keys of each of the given endpoints, holding just that endpoint. */
  ghost predicate HoldsExactly(t: Tree, ns: string, source: string, es: seq<EndpointInfo>) {
    && (forall e :: e in es ==>
          && SvcKey(e) in t && t[SvcKey(e)] == EndpointValue(e)
          && SrcKey(e) in t && t[SrcKey(e)] == EndpointValue(e))
    && (forall k :: k in t && OfSource(k, ns, source) ==> exists e :: e in es && (k == SvcKey(e) || k == SrcKey(e)))
  }

  /** With hashes that do not collide the source holds exactly the given endpoints, contents and all. */
  lemma SetEndpointsOfSourceContents(db: Db, h: Content -> nat, ns: string, source: string, eis: seq<EndpointInfo>)
    requires Indexed(db.tree) && Injective(h) && HashedBy(db.tree, h)
    requires forall e :: e in eis ==> e.ns == ns && e.source == source && e.service != ""
    requires NamesAgree(db.tree, Rehash(h, eis))
    ensures HoldsExactly(SetEndpointsOfSource(db, h, ns, source, eis).tree, ns, source, Rehash(h, eis))
    ensures HashedBy(SetEndpointsOfSource(db, h, ns, source, eis).tree, h)
  {
    var es, db1 := Rehash(h, eis), Purged(db, ns, source, Hashes(h, eis), false);
    PurgedExactly(db, ns, source, Hashes(h, eis), false);
    SetEndpointsOfSourceExact(db, h, ns, source, eis);
    RehashedFields(h, ns, source, eis);
    RehashedHashes(h, eis);
    IndexedIsKeyed(db1.tree);
    AddAllExtends(db1, es);
    AddAllHashed(db1, h, es);
    ContentsOf(AddAll(db1, es).tree, h, ns, source, Hashes(h, eis), es);
  }

  lemma RehashedHashes(h: Content -> nat, eis: seq<EndpointInfo>)
    ensures forall e :: e in Rehash(h, eis) ==> e.hash == h(e.content)
    ensures forall n :: n in Hashes(h, eis) ==> exists e :: e in Rehash(h, eis) && e.hash == n
  {
    var es := Rehash(h, eis);
    forall n | n in Hashes(h, eis) ensures exists e :: e in es && e.hash == n {
      var e :| e in eis && h(e.content) == n;
      var i :| 0 <= i < |eis| && eis[i] == e;
      assert es[i] in es && es[i].hash == n;
    }
  }

  lemma {:induction false} AddAllHashed(db: Db, h: Content -> nat, es: seq<EndpointInfo>)
    requires HashedBy(db.tree, h) && forall e :: e in es ==> e.hash == h(e.content)
    ensures HashedBy(AddAll(db, es).tree, h)
    decreases es
  {
    if es != [] {
      assert es[0] in es;
      AddAllHashed(AddOne(db, es[0]), h, es[1..]);
    }
  }

  lemma EntryIs(t: Tree, h: Content -> nat, e: EndpointInfo)
    requires Indexed(t) && HashedBy(t, h) && Injective(h) && e.service != "" && e.hash == h(e.content) && SvcKey(e) in t
    ensures t[SvcKey(e)] == EndpointValue(e) && SrcKey(e) in t && t[SrcKey(e)] == EndpointValue(e)
  {
    assert IndexedAt(t, SvcKey(e));
    HexInjective(t[SvcKey(e)].info.hash, e.hash);
  }

  lemma ContentsOf(t: Tree, h: Content -> nat, ns: string, source: string, seen: set<nat>, es: seq<EndpointInfo>)
    requires Indexed(t) && HashedBy(t, h) && Injective(h) && HoldsHashes(t, ns, source, seen) && AllFrom(es, ns, source, seen)
    requires forall e :: e in es ==> e.hash == h(e.content) && SvcKey(e) in t
    requires forall n :: n in seen ==> exists e :: e in es && e.hash == n
    ensures HoldsExactly(t, ns, source, es)
  {
    forall e | e in es
      ensures SvcKey(e) in t && t[SvcKey(e)] == EndpointValue(e) && SrcKey(e) in t && t[SrcKey(e)] == EndpointValue(e)
    {
      EntryIs(t, h, e);
    }
    forall k | k in t && OfSource(k, ns, source) ensures exists e :: e in es && (k == SvcKey(e) || k == SrcKey(e)) {
      assert IndexedAt(t, k);
      var f := t[k].info;
      assert SrcKey(f) == Key(ENDPOINTS, ns, "", source, Hex(f.hash)) && f.hash in seen;
      var e :| e in es && e.hash == f.hash;
      EntryIs(t, h, e);
    }
  }

  /** The source is gone from both indexes and nothing else has changed. */
  ghost predicate SourceGone(t: Tree, tree: Tree, ns: string, source: string) {
    Indexed(t) && t == (map k | k in tree && !OfSource(k, ns, source) :: tree[k])
  }

  /** DelEndpointsOfSource removes exactly the source. */
  lemma DelEndpointsOfSourceExact(db: Db, ns: string, source: string)
    requires Indexed(db.tree)
    ensures SourceGone(DelEndpointsOfSource(db, ns, source).tree, db.tree, ns, source)
  {
    PurgedExactly(db, ns, source, {}, true);
    KeepingNothing(Purged(db, ns, source, {}, true).tree, db.tree, ns, source);
  }

  lemma KeepingNothing(t: Tree, tree: Tree, ns: string, source: string)
    requires Indexed(tree) && IsKept(t, tree, ns, source, {})
    ensures SourceGone(t, tree, ns, source)
  {
    forall k | k in tree && OfSource(k, ns, source) ensures Unseen(tree, k, {}) {
      assert IndexedAt(tree, k);
    }
  }

  /** SetEndpoint moves one endpoint from its old hash to its new one; the indexes
      stay in correspondence exactly when neither hash is filed under another name. */
  lemma SetEndpointExact(db: Db, h: Content -> nat, e: EndpointInfo)
    requires Indexed(db.tree) && e.service != "" && e.hash != h(e.content)
    ensures var e' := e.(hash := h(e.content)); var t := SetEndpoint(db, h, e).tree;
            && (Indexed(t) <==> NameAgrees(db.tree, e) && NameAgrees(db.tree, e'))
            && SvcKey(e') in t && SrcKey(e') in t && SvcKey(e) !in t && SrcKey(e) !in t
            && (forall k :: k !in {SvcKey(e), SrcKey(e), SvcKey(e'), SrcKey(e')} ==>
                  (k in t <==> k in db.tree) && (k in t ==> t[k] == db.tree[k]))
  {
    var e' := e.(hash := h(e.content));
    HexInjective(e.hash, e'.hash);
    MoveFrame(db, h, e);
    if NameAgrees(db.tree, e) {
      MoveIndexed(db, e, e');
    } else {
      StaleServiceEntry(db.tree, SetEndpoint(db, h, e).tree, e, e');
    }
  }

  lemma MoveFrame(db: Db, h: Content -> nat, e: EndpointInfo)
    requires e.hash != h(e.content) && Hex(e.hash) != Hex(h(e.content))
    ensures var e' := e.(hash := h(e.content)); var t := SetEndpoint(db, h, e).tree;
            && SvcKey(e') in t && SrcKey(e') in t && SvcKey(e) !in t && SrcKey(e) !in t
            && (forall k :: k !in {SvcKey(e), SrcKey(e), SvcKey(e'), SrcKey(e')} ==>
                  (k in t <==> k in db.tree) && (k in t ==> t[k] == db.tree[k]))
  {
    SetBothFrame(DelKv(DelKv(db, SvcKey(e)), SrcKey(e)), e.(hash := h(e.content)));
  }

  lemma MoveIndexed(db: Db, e: EndpointInfo, e': EndpointInfo)
    requires Indexed(db.tree) && NameAgrees(db.tree, e) && e'.service != ""
    requires e' == e.(hash := e'.hash) && Hex(e.hash) != Hex(e'.hash)
    ensures var db1 := DelKv(DelKv(db, SvcKey(e)), SrcKey(e));
            Indexed(SetKv(SetKv(db1, SvcKey(e'), EndpointValue(e')), SrcKey(e'), EndpointValue(e')).tree)
            <==> NameAgrees(db.tree, e')
  {
    var db1 := DelKv(DelKv(db, SvcKey(e)), SrcKey(e));
    assert db1.tree == db.tree - {SvcKey(e), SrcKey(e)};
    MovedOutIsIndexed(db.tree, e);
    SetBothIsAddOne(db1, e');
    AddOneIndexed(db1, e');
  }

  lemma SetBothFrame(db: Db, e: EndpointInfo)
    ensures var t := SetKv(SetKv(db, SvcKey(e), EndpointValue(e)), SrcKey(e), EndpointValue(e)).tree;
            && SvcKey(e) in t && SrcKey(e) in t
            && (forall k :: k !in {SvcKey(e), SrcKey(e)} ==> (k in t <==> k in db.tree) && (k in t ==> t[k] == db.tree[k]))
  {
  }

  lemma MovedOutIsIndexed(tree: Tree, e: EndpointInfo)
    requires Indexed(tree) && NameAgrees(tree, e)
    ensures Indexed(tree - {SvcKey(e), SrcKey(e)})
  {
    var t := tree - {SvcKey(e), SrcKey(e)};
    forall k | k in t && k.kind == ENDPOINTS ensures IndexedAt(t, k) {
      assert IndexedAt(tree, k);
      HexInjective(tree[k].info.hash, e.hash);
    }
  }

  lemma SetBothIsAddOne(db: Db, e: EndpointInfo)
    requires Indexed(db.tree)
    ensures SetKv(SetKv(db, SvcKey(e), EndpointValue(e)), SrcKey(e), EndpointValue(e)) == AddOne(db, e)
  {
    if SvcKey(e) in db.tree {
      assert IndexedAt(db.tree, SvcKey(e));
      HexInjective(db.tree[SvcKey(e)].info.hash, e.hash);
    }
  }

  lemma StaleServiceEntry(tree: Tree, t: Tree, e: EndpointInfo, e': EndpointInfo)
    requires Indexed(tree) && !NameAgrees(tree, e) && e.hash != e'.hash
    requires e.service != "" && e'.service == e.service
    requires SrcKey(e) !in t
    requires forall k :: k !in {SvcKey(e), SrcKey(e), SvcKey(e'), SrcKey(e')} ==>
               (k in t <==> k in tree) && (k in t ==> t[k] == tree[k])
    ensures !Indexed(t)
  {
    var other := tree[SrcKey(e)].info;
    assert IndexedAt(tree, SrcKey(e));
    HexInjective(other.hash, e.hash);
    HexInjective(other.hash, e'.hash);
    assert SvcKey(other) in t && !IndexedAt(t, SvcKey(other));
  }

  /** A service renamed under a source leaves its old by-service entry behind. */
  lemma RenamedServiceGoesStale(h: Content -> nat)
    ensures var e := EndpointInfo("ns", "a", "slice", "x", h("x")); var f := e.(service := "b");
            var t := SetEndpointsOfSource(SetEndpointsOfSource(Db(map[], map[], 0), h, "ns", "slice", [e]), h, "ns", "slice", [f]).tree;
            !Indexed(t)
  {
    var empty := Db(map[], map[], 0);
    var e := EndpointInfo("ns", "a", "slice", "x", h("x"));
    var f := e.(service := "b");
    var db1 := SetEndpointsOfSource(empty, h, "ns", "slice", [e]);
    assert Rehash(h, [e]) == [e] && Rehash(h, [f]) == [f];
    SetEndpointsOfSourceExact(empty, h, "ns", "slice", [e]);
    assert NamesAgree(empty.tree, [e]);
    assert h(e.content) in Hashes(h, [e]);
    assert SrcKey(e) in db1.tree;
    FirstValue(h, e);
    assert f in [f];
    assert !NameAgrees(db1.tree, f);
    SetEndpointsOfSourceExact(db1, h, "ns", "slice", [f]);
  }

  lemma FirstValue(h: Content -> nat, e: EndpointInfo)
    requires e.hash == h(e.content)
    ensures SetEndpointsOfSource(Db(map[], map[], 0), h, e.ns, e.source, [e]).tree
         == map[SvcKey(e) := EndpointValue(e), SrcKey(e) := EndpointValue(e)]
  {
    var empty := Db(map[], map[], 0);
    assert Rehash(h, [e]) == [e];
    VisitsSource(empty.tree, e.ns, e.source, false);
    var visited := Visited(empty.tree, e.ns, e.source, false);
    assert visited == [] by { if visited != [] { HasMember(visited); } }
    assert AddAll(empty, [e]) == AddOne(empty, e);
  }

  // Whole transactions

  datatype Op =
    | Reset
    | SyncSet(kind: nat)
    | SetService(ns: string, name: string, hash: nat)
    | DelService(ns: string, name: string)
    | SetNode(name: string, hash: nat)
    | DelNode(name: string)
    | SetEndpoints(ns: string, source: string, eis: seq<EndpointInfo>)
    | DelEndpoints(ns: string, source: string)
    | MoveEndpoint(e: EndpointInfo)
    | SetRaw(key: Key, value: Value)
    | DelRaw(key: Key)

  function Apply(db: Db, h: Content -> nat, op: Op): Db {
    match op
    case Reset => ResetAll(db)
    case SyncSet(kind) => SetSync(db, kind)
    case SetService(ns, name, hash) => SetKv(db, Key(SERVICES, ns, name, "", ""), ServiceValue(hash))
    case DelService(ns, name) => DelKv(db, Key(SERVICES, ns, name, "", ""))
    case SetNode(name, hash) => SetKv(db, Key(NODES, "", name, "", ""), NodeValue(hash))
    case DelNode(name) => DelKv(db, Key(NODES, "", name, "", ""))
    case SetEndpoints(ns, source, eis) => SetEndpointsOfSource(db, h, ns, source, eis)
    case DelEndpoints(ns, source) => DelEndpointsOfSource(db, ns, source)
    case MoveEndpoint(e) => SetEndpoint(db, h, e)
    case SetRaw(key, value) => SetKv(db, key, value)
    case DelRaw(key) => DelKv(db, key)
  }

  function Run(db: Db, h: Content -> nat, ops: seq<Op>): Db
    decreases ops
  {
    if ops == [] then db else Run(Apply(db, h, ops[0]), h, ops[1..])
  }

  // When an operation keeps the indexes

  /** What each operation asks of its arguments and the tree so that the indexes stay in correspondence. */
  ghost predicate Keeps(db: Db, h: Content -> nat, op: Op) {
    match op
    case SetEndpoints(_, _, eis) => AllFit(db.tree, Rehash(h, eis))
    case MoveEndpoint(e) => e.hash == h(e.content) || MoveFits(db.tree, e, e.(hash := h(e.content)))
    case SetRaw(key, value) => key.kind != ENDPOINTS || (key in db.tree && HashOf(db.tree[key]) == HashOf(value))
    case DelRaw(key) => key.kind != ENDPOINTS || key !in db.tree
    case _ => true
  }

  /** A named endpoint must not be filed under another name, before or after; an unnamed one must not be filed at all
      before, and find its by-source key taken after. */
  ghost predicate MoveFits(tree: Tree, e: EndpointInfo, e': EndpointInfo) {
    if e.service == "" then SrcKey(e) !in tree && SrcKey(e') in tree else NameAgrees(tree, e) && NameAgrees(tree, e')
  }

  lemma MoveIndexedExactly(db: Db, h: Content -> nat, e: EndpointInfo)
    requires Indexed(db.tree) && e.hash != h(e.content)
    ensures Indexed(SetEndpoint(db, h, e).tree) <==> MoveFits(db.tree, e, e.(hash := h(e.content)))
  {
    var e' := e.(hash := h(e.content));
    if e.service != "" {
      SetEndpointExact(db, h, e);
    } else {
      HexInjective(e.hash, e'.hash);
      MoveUnnamed(db, h, e, e');
    }
  }

  lemma MoveUnnamed(db: Db, h: Content -> nat, e: EndpointInfo, e': EndpointInfo)
    requires Indexed(db.tree) && e.service == "" && e' == e.(hash := h(e.content)) && Hex(e.hash) != Hex(e'.hash)
    ensures Indexed(SetEndpoint(db, h, e).tree) <==> MoveFits(db.tree, e, e')
  {
    var db1 := DelKv(DelKv(db, SvcKey(e)), SrcKey(e));
    var t := SetEndpoint(db, h, e).tree;
    RawDelIndexed(db, SrcKey(e));
    if SrcKey(e) in db.tree {
      assert IndexedAt(db.tree, SrcKey(e));
      var f := db.tree[SrcKey(e)].info;
      HexInjective(f.hash, e.hash);
      assert SvcKey(f) in t && t[SvcKey(f)] == EndpointValue(f) && !IndexedAt(t, SvcKey(f));
    } else {
      assert db1 == db;
      RawSetIndexed(db, SrcKey(e'), EndpointValue(e'));
      if SrcKey(e') in db.tree {
        assert IndexedAt(db.tree, SrcKey(e'));
        HexInjective(db.tree[SrcKey(e')].info.hash, e'.hash);
      }
    }
  }

  lemma RehashedSeen(h: Content -> nat, eis: seq<EndpointInfo>)
    ensures forall e :: e in Rehash(h, eis) ==> e.hash in Hashes(h, eis)
  {
    var es := Rehash(h, eis);
    forall e | e in es ensures e.hash in Hashes(h, eis) {
      var i :| 0 <= i < |es| && es[i] == e;
      assert eis[i] in eis;
    }
  }

  /** Every operation, on every tree whose indexes correspond: they still do if and only if the operation meets its condition. */
  lemma ApplyIndexedExactly(db: Db, h: Content -> nat, op: Op)
    requires Indexed(db.tree)
    ensures Indexed(Apply(db, h, op).tree) <==> Keeps(db, h, op)
  {
    match op
    case SetEndpoints(ns, source, eis) =>
      PurgedExactly(db, ns, source, Hashes(h, eis), false);
      AddAllFit(Purged(db, ns, source, Hashes(h, eis), false), Rehash(h, eis));
      RehashedSeen(h, eis);
      KeptFits(db.tree, ns, source, Hashes(h, eis), Rehash(h, eis));
    case MoveEndpoint(e) => if e.hash != h(e.content) { MoveIndexedExactly(db, h, e); }
    case DelEndpoints(ns, source) => DelEndpointsOfSourceExact(db, ns, source);
    case SetRaw(key, value) => RawSetIndexed(db, key, value);
    case DelRaw(key) => RawDelIndexed(db, key);
    case SetService(ns, name, hash) => RawSetIndexed(db, Key(SERVICES, ns, name, "", ""), ServiceValue(hash));
    case DelService(ns, name) => RawDelIndexed(db, Key(SERVICES, ns, name, "", ""));
    case SetNode(name, hash) => RawSetIndexed(db, Key(NODES, "", name, "", ""), NodeValue(hash));
    case DelNode(name) => RawDelIndexed(db, Key(NODES, "", name, "", ""));
    case Reset =>
    case SyncSet(_) =>
  }

  ghost predicate IndexedThroughout(db: Db, h: Content -> nat, ops: seq<Op>)
    decreases ops
  {
    Indexed(db.tree) && (ops != [] ==> IndexedThroughout(Apply(db, h, ops[0]), h, ops[1..]))
  }

  ghost predicate KeepsThroughout(db: Db, h: Content -> nat, ops: seq<Op>)
    decreases ops
  {
    ops != [] ==> Keeps(db, h, ops[0]) && KeepsThroughout(Apply(db, h, ops[0]), h, ops[1..])
  }

  /** Over every run of operations, raw ones included: the indexes correspond after every operation
      if and only if every operation meets its condition. */
  lemma {:induction false} RunIndexedExactly(db: Db, h: Content -> nat, ops: seq<Op>)
    requires Indexed(db.tree)
    ensures IndexedThroughout(db, h, ops) <==> KeepsThroughout(db, h, ops)
    ensures KeepsThroughout(db, h, ops) ==> Indexed(Run(db, h, ops).tree)
    decreases ops
  {
    if ops != [] {
      ApplyIndexedExactly(db, h, ops[0]);
      if Keeps(db, h, ops[0]) { RunIndexedExactly(Apply(db, h, ops[0]), h, ops[1..]); }
    }
  }

  /** One raw write of a new endpoint leaves it in one index only. */
  lemma RawWriteBreaksIndex(h: Content -> nat, e: EndpointInfo)
    ensures !Indexed(Apply(Db(map[], map[], 0), h, SetRaw(SvcKey(e), EndpointValue(e))).tree)
  {
    ApplyIndexedExactly(Db(map[], map[], 0), h, SetRaw(SvcKey(e), EndpointValue(e)));
  }

  /** Two raw writes, one to each key of a named endpoint and in either order, do what adding the endpoint does:
      they keep the indexes in correspondence if and only if the endpoint is not filed under another name. */
  lemma RawPairIndexed(db: Db, h: Content -> nat, e: EndpointInfo, sourceFirst: bool)
    requires Indexed(db.tree) && e.service != ""
    ensures (var bySvc, bySrc := SetRaw(SvcKey(e), EndpointValue(e)), SetRaw(SrcKey(e), EndpointValue(e));
             Indexed(Run(db, h, if sourceFirst then [bySrc, bySvc] else [bySvc, bySrc]).tree) <==> NameAgrees(db.tree, e))
  {
    var bySvc, bySrc := SetRaw(SvcKey(e), EndpointValue(e)), SetRaw(SrcKey(e), EndpointValue(e));
    RunTwo(db, h, bySvc, bySrc);
    RunTwo(db, h, bySrc, bySvc);
    SetBothIsAddOne(db, e);
    AddOneIndexed(db, e);
    EitherOrder(db, e);
  }

  lemma RunTwo(db: Db, h: Content -> nat, a: Op, b: Op)
    ensures Run(db, h, [a, b]) == Apply(Apply(db, h, a), h, b)
  {
    var db1 := Apply(db, h, a);
    assert [b][1..] == [] && Run(db1, h, [b]) == Run(Apply(db1, h, b), h, []);
    assert [a, b][1..] == [b];
  }

  lemma EitherOrder(db: Db, e: EndpointInfo)
    requires e.service != ""
    ensures SetKv(SetKv(db, SvcKey(e), EndpointValue(e)), SrcKey(e), EndpointValue(e)).tree
         == SetKv(SetKv(db, SrcKey(e), EndpointValue(e)), SvcKey(e), EndpointValue(e)).tree
  {
  }

  // When each source keeps one name

  /** Each (namespace, source) keeps one non-empty service name, and raw writes stay
      out of the endpoint set. */
  ghost predicate Named(op: Op, svcOf: (string, string) -> string) {
    match op
    case SetEndpoints(ns, source, eis) =>
      svcOf(ns, source) != "" && forall e :: e in eis ==> e.ns == ns && e.source == source && e.service == svcOf(ns, source)
    case MoveEndpoint(e) => e.service == svcOf(e.ns, e.source) && e.service != ""
    case SetRaw(key, _) => key.kind != ENDPOINTS
    case DelRaw(key) => key.kind != ENDPOINTS
    case _ => true
  }

  ghost predicate WellNamed(tree: Tree, svcOf: (string, string) -> string) {
    && Indexed(tree)
    && forall k :: k in tree && k.kind == ENDPOINTS && k.name != "" ==> k.name == svcOf(k.ns, k.source)
  }

  lemma WellNamedAgrees(tree: Tree, e: EndpointInfo, svcOf: (string, string) -> string)
    requires WellNamed(tree, svcOf) && e.service == svcOf(e.ns, e.source)
    ensures NameAgrees(tree, e)
  {
    if SrcKey(e) in tree {
      assert IndexedAt(tree, SrcKey(e));
      assert SvcKey(tree[SrcKey(e)].info) in tree;
    }
  }

  lemma OtherKindsKeepIndex(tree: Tree, t: Tree, svcOf: (string, string) -> string)
    requires WellNamed(tree, svcOf)
    requires forall k: Key :: k.kind == ENDPOINTS ==> (k in t <==> k in tree) && (k in t ==> t[k] == tree[k])
    ensures WellNamed(t, svcOf)
  {
    forall k | k in t && k.kind == ENDPOINTS ensures IndexedAt(t, k) {
      assert IndexedAt(tree, k);
    }
  }

  lemma SetEndpointsKeepsIndex(db: Db, h: Content -> nat, ns: string, source: string, eis: seq<EndpointInfo>,
                               svcOf: (string, string) -> string)
    requires WellNamed(db.tree, svcOf) && Named(SetEndpoints(ns, source, eis), svcOf)
    ensures WellNamed(SetEndpointsOfSource(db, h, ns, source, eis).tree, svcOf)
  {
    SetEndpointsOfSourceExact(db, h, ns, source, eis);
    PurgedExactly(db, ns, source, Hashes(h, eis), false);
    ReplacedIsWellNamed(db.tree, Purged(db, ns, source, Hashes(h, eis), false), h, ns, source, eis, svcOf);
  }

  ghost predicate ServedBy(es: seq<EndpointInfo>, svcOf: (string, string) -> string) {
    forall e :: e in es ==> e.service != "" && e.service == svcOf(e.ns, e.source)
  }

  lemma RehashServedBy(h: Content -> nat, ns: string, source: string, eis: seq<EndpointInfo>, svcOf: (string, string) -> string)
    requires Named(SetEndpoints(ns, source, eis), svcOf)
    ensures ServedBy(Rehash(h, eis), svcOf)
  {
    var es := Rehash(h, eis);
    forall e | e in es ensures e.service != "" && e.service == svcOf(e.ns, e.source) {
      var i :| 0 <= i < |es| && es[i] == e;
      assert eis[i] in eis;
    }
  }

  lemma ServedByAgrees(tree: Tree, es: seq<EndpointInfo>, svcOf: (string, string) -> string)
    requires WellNamed(tree, svcOf) && ServedBy(es, svcOf)
    ensures NamesAgree(tree, es)
  {
    forall e | e in es ensures NameAgrees(tree, e) { WellNamedAgrees(tree, e, svcOf); }
  }

  lemma AddAllNames(db: Db, es: seq<EndpointInfo>, svcOf: (string, string) -> string)
    requires WellNamed(db.tree, svcOf) && ServedBy(es, svcOf) && Indexed(AddAll(db, es).tree)
    ensures WellNamed(AddAll(db, es).tree, svcOf)
  {
    IndexedIsKeyed(db.tree);
    AddAllExtends(db, es);
  }

  lemma ReplacedIsWellNamed(tree: Tree, db1: Db, h: Content -> nat, ns: string, source: string, eis: seq<EndpointInfo>,
                            svcOf: (string, string) -> string)
    requires WellNamed(tree, svcOf) && Named(SetEndpoints(ns, source, eis), svcOf)
    requires IsKept(db1.tree, tree, ns, source, Hashes(h, eis))
    requires SourceReplaced(AddAll(db1, Rehash(h, eis)).tree, tree, h, ns, source, eis)
    ensures WellNamed(AddAll(db1, Rehash(h, eis)).tree, svcOf)
  {
    RehashServedBy(h, ns, source, eis, svcOf);
    ServedByAgrees(tree, Rehash(h, eis), svcOf);
    AddAllNames(db1, Rehash(h, eis), svcOf);
  }

  lemma MoveKeepsIndex(db: Db, h: Content -> nat, e: EndpointInfo, svcOf: (string, string) -> string)
    requires WellNamed(db.tree, svcOf) && Named(MoveEndpoint(e), svcOf)
    ensures WellNamed(SetEndpoint(db, h, e).tree, svcOf)
  {
    if e.hash != h(e.content) {
      SetEndpointExact(db, h, e);
      WellNamedAgrees(db.tree, e, svcOf);
      WellNamedAgrees(db.tree, e.(hash := h(e.content)), svcOf);
    }
  }

  lemma ApplyKeepsIndex(db: Db, h: Content -> nat, op: Op, svcOf: (string, string) -> string)
    requires WellNamed(db.tree, svcOf) && Named(op, svcOf)
    ensures WellNamed(Apply(db, h, op).tree, svcOf)
  {
    match op
    case SetEndpoints(ns, source, eis) => SetEndpointsKeepsIndex(db, h, ns, source, eis, svcOf);
    case MoveEndpoint(e) => MoveKeepsIndex(db, h, e, svcOf);
    case DelEndpoints(ns, source) =>
      DelEndpointsOfSourceExact(db, ns, source);
    case Reset =>
    case _ => OtherKindsKeepIndex(db.tree, Apply(db, h, op).tree, svcOf);
  }

  /** Operations that keep to the names of the sources meet their conditions. */
  lemma {:induction false} NamedKeep(db: Db, h: Content -> nat, ops: seq<Op>, svcOf: (string, string) -> string)
    requires WellNamed(db.tree, svcOf)
    requires forall op :: op in ops ==> Named(op, svcOf)
    ensures KeepsThroughout(db, h, ops)
    decreases ops
  {
    if ops != [] {
      ApplyKeepsIndex(db, h, ops[0], svcOf);
      ApplyIndexedExactly(db, h, ops[0]);
      NamedKeep(Apply(db, h, ops[0]), h, ops[1..], svcOf);
    }
  }

  /** Over every run of transactions the by-service and by-source indexes stay in
      exact correspondence, each endpoint under the one name of its source. */
  lemma {:induction false} RunKeepsIndex(db: Db, h: Content -> nat, ops: seq<Op>, svcOf: (string, string) -> string)
    requires WellNamed(db.tree, svcOf)
    requires forall op :: op in ops ==> Named(op, svcOf)
    ensures WellNamed(Run(db, h, ops).tree, svcOf)
    decreases ops
  {
    if ops != [] {
      ApplyKeepsIndex(db, h, ops[0], svcOf);
      RunKeepsIndex(Apply(db, h, ops[0]), h, ops[1..], svcOf);
    }
  }

  // Change counting

  /** The counter never falls, and when it stands still nothing has changed. */
  ghost predicate Counted(db: Db, db': Db) {
    db'.changes >= db.changes && (db'.changes == db.changes ==> db' == db)
  }

  lemma {:induction false} AddAllCounts(db: Db, es: seq<EndpointInfo>)
    ensures Counted(db, AddAll(db, es))
    decreases es
  {
    if es != [] { AddAllCounts(AddOne(db, es[0]), es[1..]); }
  }

  lemma ResetCounts(db: Db)
    ensures Counted(db, ResetAll(db))
  {
    var synced := set s | s in db.sync && db.sync[s];
    if ResetAll(db).changes == db.changes {
      forall s | s in db.sync ensures !db.sync[s] {
        assert db.sync[s] ==> s in synced;
      }
      assert db.sync == (map s | s in db.sync :: false);
    }
  }

  lemma PurgeCounts(db: Db, ns: string, source: string, seen: set<nat>, byName: bool)
    ensures Counted(db, Purged(db, ns, source, seen, byName))
  {
    DelAllRemoves(db, Doomed(db.tree, Visited(db.tree, ns, source, byName), seen, byName));
  }

  lemma SetCounts(db: Db, k: Key, v: Value)
    ensures Counted(db, SetKv(db, k, v))
  {
  }

  lemma DelCounts(db: Db, k: Key)
    ensures Counted(db, DelKv(db, k))
  {
  }

  lemma SyncCounts(db: Db, kind: nat)
    ensures Counted(db, SetSync(db, kind))
  {
  }

  lemma MoveCounts(db: Db, h: Content -> nat, e: EndpointInfo)
    ensures Counted(db, SetEndpoint(db, h, e))
  {
    var e' := e.(hash := h(e.content));
    var db1 := DelKv(db, SvcKey(e));
    var db2 := DelKv(db1, SrcKey(e));
    var db3 := SetKv(db2, SvcKey(e'), EndpointValue(e'));
    DelCounts(db, SvcKey(e));
    DelCounts(db1, SrcKey(e));
    SetCounts(db2, SvcKey(e'), EndpointValue(e'));
    SetCounts(db3, SrcKey(e'), EndpointValue(e'));
  }

  lemma ApplyCounts(db: Db, h: Content -> nat, op: Op)
    ensures Counted(db, Apply(db, h, op))
  {
    match op
    case Reset => ResetCounts(db);
    case SyncSet(kind) => SyncCounts(db, kind);
    case SetService(ns, name, hash) => SetCounts(db, Key(SERVICES, ns, name, "", ""), ServiceValue(hash));
    case DelService(ns, name) => DelCounts(db, Key(SERVICES, ns, name, "", ""));
    case SetNode(name, hash) => SetCounts(db, Key(NODES, "", name, "", ""), NodeValue(hash));
    case DelNode(name) => DelCounts(db, Key(NODES, "", name, "", ""));
    case MoveEndpoint(e) => MoveCounts(db, h, e);
    case SetRaw(key, value) => SetCounts(db, key, value);
    case DelRaw(key) => DelCounts(db, key);
    case SetEndpoints(ns, source, eis) =>
      PurgeCounts(db, ns, source, Hashes(h, eis), false);
      AddAllCounts(Purged(db, ns, source, Hashes(h, eis), false), Rehash(h, eis));
    case DelEndpoints(ns, source) => PurgeCounts(db, ns, source, {}, true);
  }

  /** A transaction that counts no change has left the tree and the sync flags alone. */
  lemma {:induction false} RunCounts(db: Db, h: Content -> nat, ops: seq<Op>)
    ensures Counted(db, Run(db, h, ops))
    decreases ops
  {
    if ops != [] {
      ApplyCounts(db, h, ops[0]);
      RunCounts(Apply(db, h, ops[0]), h, ops[1..]);
    }
  }
}
