/** The transaction object: every operation as the store runs it, step by step,
    against the functions that specify it. */
module ProxyTx {
  import opened StoreKeys
  import opened Scans
  import opened ProxyStore

  /** Clear every set flag, counting one change for each. */
  method ClearFlags(sync: map<nat, bool>) returns (cleared: map<nat, bool>, count: nat)
    ensures cleared == map s | s in sync :: false
    ensures count == |set s | s in sync && sync[s]|
  {
    cleared, count := sync, 0;
    var todo := sync.Keys;
    ghost var flagged: set<nat> := {};
    while todo != {}
      invariant todo <= sync.Keys && cleared.Keys == sync.Keys
      invariant forall s :: s in sync ==> cleared[s] == (s in todo && sync[s])
      invariant forall s :: s in flagged <==> s in sync && s !in todo && sync[s]
      invariant count == |flagged|
      decreases todo
    {
      var s :| s in todo;
      todo := todo - {s};
      if cleared[s] {
        cleared, count := cleared[s := false], count + 1;
        flagged := flagged + {s};
      }
    }
    assert flagged == set s | s in sync && sync[s];
  }

  method CollectDoomed(tree: Tree, visited: seq<Key>, seen: set<nat>, byName: bool) returns (toDel: seq<Key>)
    ensures toDel == Doomed(tree, visited, seen, byName)
  {
    toDel := [];
    var i := 0;
    while i < |visited|
      invariant 0 <= i <= |visited|
      invariant toDel + Doomed(tree, visited[i..], seen, byName) == Doomed(tree, visited, seen, byName)
    {
      var k := visited[i];
      ghost var before, rest := toDel, Doomed(tree, visited[i + 1..], seen, byName);
      var doomed: seq<Key> := [];
      if k in tree && tree[k].EndpointValue? && tree[k].info.hash !in seen {
        doomed := [k, Ref(k, tree[k].info, byName)];
      }
      assert visited[i..][1..] == visited[i + 1..];
      assert Doomed(tree, visited[i..], seen, byName) == doomed + rest;
      toDel := toDel + doomed;
      assert before + (doomed + rest) == toDel + rest;
      i := i + 1;
    }
  }

  method HashAll(h: Content -> nat, eis: seq<EndpointInfo>) returns (hashed: seq<EndpointInfo>, seen: set<nat>)
    ensures hashed == Rehash(h, eis) && seen == Hashes(h, eis)
  {
    hashed, seen := [], {};
    for i := 0 to |eis|
      invariant |hashed| == i && forall j :: 0 <= j < i ==> hashed[j] == eis[j].(hash := h(eis[j].content))
      invariant forall n :: n in seen <==> exists j :: 0 <= j < i && h(eis[j].content) == n
    {
      var e := eis[i].(hash := h(eis[i].content));
      hashed, seen := hashed + [e], seen + {e.hash};
    }
    assert forall n :: n in Hashes(h, eis) <==> exists j :: 0 <= j < |eis| && h(eis[j].content) == n;
  }

  method ValuesOf(tree: Tree, keys: seq<Key>) returns (values: seq<Value>)
    requires forall k :: k in keys ==> k in tree
    ensures |values| == |keys| && forall i :: 0 <= i < |keys| ==> keys[i] in tree && values[i] == tree[keys[i]]
  {
    values := [];
    for i := 0 to |keys|
      invariant |values| == i && forall j :: 0 <= j < i ==> keys[j] in tree && values[j] == tree[keys[j]]
    {
      assert keys[i] in keys;
      values := values + [tree[keys[i]]];
    }
  }

  class Tx {
    var tree: Tree
    var sync: map<nat, bool>
    var changes: nat

    constructor (tree: Tree, sync: map<nat, bool>)
      ensures State() == Db(tree, sync, 0)
    {
      this.tree, this.sync, this.changes := tree, sync, 0;
    }

    ghost function State(): Db
      reads this
    {
      Db(tree, sync, changes)
    }

    /** AscendGreaterOrEqual with a callback that only checks the key. */
    method Ascend(from: Key, wanted: Key -> bool) returns (visited: seq<Key>)
      ensures visited == KeyScan(tree.Keys, from, wanted)
    {
      var order := Ordered(tree.Keys);
      var start := SkipBelow(order, Below(from));
      visited := Collect(order[start..], wanted);
    }

    /** Each visits exactly the entries of the set, in key order, until the callback says stop. */
    method Each(kind: nat, callback: Key -> bool) returns (visited: seq<Key>)
      ensures var all := Filter(Ordered(tree.Keys), InSet(kind));
              && visited <= all
              && (forall i :: 0 <= i < |visited| - 1 ==> callback(visited[i]))
              && (visited == all || (visited != [] && !callback(visited[|visited| - 1])))
    {
      var all := Ascend(Key(kind, "", "", "", ""), InSet(kind));
      SetScanIsFilter(tree.Keys, kind);
      visited := VisitUntil(all, callback);
    }

    /** EachEndpointOfService hands out exactly the entries of the service, in key order. */
    method EachEndpointOfService(ns: string, name: string) returns (values: seq<Value>)
      ensures var keys := Filter(Ordered(tree.Keys), OfService(ns, name));
              |values| == |keys| && forall i :: 0 <= i < |keys| ==> keys[i] in tree && values[i] == tree[keys[i]]
    {
      var keys := Ascend(Key(ENDPOINTS, ns, name, "", ""), OfService(ns, name));
      ServiceScanIsFilter(tree.Keys, ns, name);
      FilterMembers(Ordered(tree.Keys), OfService(ns, name));
      values := ValuesOf(tree, keys);
    }

    method Reset()
      modifies this
      ensures State() == ResetAll(old(State()))
    {
      if |tree| != 0 {
        tree := map[];
        changes := changes + 1;
      }
      var cleared, count := ClearFlags(sync);
      sync, changes := cleared, changes + count;
    }

    method Set(k: Key, v: Value)
      modifies this
      ensures State() == SetKv(old(State()), k, v)
    {
      if k in tree && HashOf(tree[k]) == HashOf(v) { return; }
      tree := tree[k := v];
      changes := changes + 1;
    }

    method Del(k: Key)
      modifies this
      ensures State() == DelKv(old(State()), k)
    {
      if k in tree {
        tree := tree - {k};
        changes := changes + 1;
      }
    }

    method SetSynced(kind: nat)
      modifies this
      ensures State() == SetSync(old(State()), kind)
    {
      if !(kind in sync && sync[kind]) {
        sync := sync[kind := true];
        changes := changes + 1;
      }
    }

    method DelEach(ks: seq<Key>)
      modifies this
      ensures State() == DelAll(old(State()), ks)
    {
      var i := 0;
      while i < |ks|
        invariant 0 <= i <= |ks|
        invariant DelAll(State(), ks[i..]) == DelAll(old(State()), ks)
      {
        assert ks[i..][1..] == ks[i + 1..];
        Del(ks[i]);
        i := i + 1;
      }
    }

    method AddEach(es: seq<EndpointInfo>)
      modifies this
      ensures State() == AddAll(old(State()), es)
    {
      var i := 0;
      while i < |es|
        invariant 0 <= i <= |es|
        invariant AddAll(State(), es[i..]) == AddAll(old(State()), es)
      {
        assert es[i..][1..] == es[i + 1..];
        if SvcKey(es[i]) !in tree {
          Set(SvcKey(es[i]), EndpointValue(es[i]));
          Set(SrcKey(es[i]), EndpointValue(es[i]));
        }
        i := i + 1;
      }
    }

    method SetEndpoints(h: Content -> nat, ns: string, source: string, eis: seq<EndpointInfo>)
      requires forall e :: e in eis ==> e.ns == ns && e.source == source
      modifies this
      ensures State() == SetEndpointsOfSource(old(State()), h, ns, source, eis)
    {
      var hashed, seen := HashAll(h, eis);
      var visited := Ascend(Key(ENDPOINTS, ns, "", source, ""), Callback(ns, source, false));
      var toDel := CollectDoomed(tree, visited, seen, false);
      DelEach(toDel);
      AddEach(hashed);
    }

    method DelEndpoints(ns: string, source: string)
      modifies this
      ensures State() == DelEndpointsOfSource(old(State()), ns, source)
    {
      var visited := Ascend(Key(ENDPOINTS, ns, "", source, ""), Callback(ns, source, true));
      var toDel := CollectDoomed(tree, visited, {}, true);
      DelEach(toDel);
    }

    method MoveEndpoint(h: Content -> nat, e: EndpointInfo)
      modifies this
      ensures State() == SetEndpoint(old(State()), h, e)
    {
      var newHash := h(e.content);
      if e.hash == newHash { return; }
      Del(SvcKey(e));
      Del(SrcKey(e));
      var e' := e.(hash := newHash);
      Set(SvcKey(e'), EndpointValue(e'));
      Set(SrcKey(e'), EndpointValue(e'));
    }
  }
}
