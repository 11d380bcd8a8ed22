/** Batched endpoint updates of the iptables backend: updates are collected per service and hash,
    then merged into the endpoints map. */
module EndpointsMerge {
  import opened Options

  type Name = string
  type Hash = string
  type Endpoint = string

  /** The endpoints of one service. */
  type Group = map<Hash, Endpoint>

  type Endpoints = map<Name, Group>

  /** The pending updates of one service; None is a deletion. */
  type Updates = map<Hash, Option<Endpoint>>

  type Pending = map<Name, Updates>

  function Find(em: Endpoints, svc: Name): Option<Group> {
    if svc in em then Some(em[svc]) else None
  }

  function Entries(g: Option<Group>): Group {
    if g.Some? then g.value else map[]
  }

  /** A service without endpoints is not in the map. */
  function Grouped(entries: Group): Option<Group> {
    if entries == map[] then None else Some(entries)
  }

  ghost predicate NoEmptyGroups(em: Endpoints) {
    forall svc :: svc in em ==> em[svc] != map[]
  }

  // One service

  datatype Result<T> = Panic | Ok(value: T)

  /** One entry of a batch. Deleting from a service that is not in the map dereferences a missing group. */
  function MergeEntry(g: Option<Group>, hash: Hash, e: Option<Endpoint>): Result<Option<Group>> {
    match e
    case None => if g.None? then Panic else Ok(Grouped(g.value - {hash}))
    case Some(endpoint) => Ok(Some(Entries(g)[hash := endpoint]))
  }

  /** The entries in the order in which the batch is iterated. */
  function MergeGroup(g: Option<Group>, updates: Updates, order: seq<Hash>): Result<Option<Group>>
    requires forall h :: h in order ==> h in updates
  {
    if order == [] then Ok(g)
    else
      var n := |order| - 1;
      var before := MergeGroup(g, updates, order[..n]);
      if before.Panic? then Panic else MergeEntry(before.value, order[n], updates[order[n]])
  }

  function Deletions(updates: Updates): set<Hash> {
    set h | h in updates && updates[h].None?
  }

  function Applied(entries: Group, updates: Updates): Group {
    map h | h in entries.Keys + updates.Keys && !(h in updates && updates[h].None?)
      :: if h in updates then updates[h].value else entries[h]
  }

  /** The group with every update applied, without an order. */
  function Updated(g: Option<Group>, updates: Updates): Option<Group> {
    Grouped(Applied(Entries(g), updates))
  }

  lemma AppliedNone(entries: Group)
    ensures Applied(entries, map[]) == entries
  {
  }

  lemma AppliedPut(entries: Group, updates: Updates, h: Hash, e: Option<Endpoint>)
    ensures Applied(entries, updates[h := e])
         == if e.None? then Applied(entries, updates) - {h} else Applied(entries, updates)[h := e.value]
  {
  }

  /** The service exists, and the deletions do not take away all its endpoints and more. */
  predicate Safe(g: Option<Group>, updates: Updates) {
    Deletions(updates) != {} ==> g.Some? && !(g.value.Keys < Deletions(updates))
  }

  ghost predicate Distinct(order: seq<Hash>) {
    forall i, j :: 0 <= i < j < |order| ==> order[i] != order[j]
  }

  /** An order in which the batch may be iterated. */
  ghost predicate IsOrder(order: seq<Hash>, updates: Updates) {
    Distinct(order) && forall h :: h in order <==> h in updates
  }

  function Restrict(updates: Updates, order: seq<Hash>): Updates {
    map h | h in updates && h in order :: updates[h]
  }

  lemma NothingPending(g: Option<Group>)
    requires g.Some? ==> g.value != map[]
    ensures Updated(g, map[]) == g
  {
    AppliedNone(Entries(g));
  }

  /** An entry that does not fail is one more update applied. */
  lemma EntryUpdates(g: Option<Group>, updates: Updates, h: Hash, e: Option<Endpoint>)
    requires MergeEntry(Updated(g, updates), h, e).Ok?
    ensures MergeEntry(Updated(g, updates), h, e).value == Updated(g, updates[h := e])
  {
    AppliedPut(Entries(g), updates, h, e);
    assert Entries(Updated(g, updates)) == Applied(Entries(g), updates);
    assert e.Some? ==> h in Applied(Entries(g), updates)[h := e.value];
  }

  lemma EntryFails(g: Option<Group>, updates: Updates, done: Updates, h: Hash)
    requires (g.Some? ==> g.value != map[]) && h in updates && h !in done && forall k :: k in done ==> k in updates && done[k] == updates[k]
    requires MergeEntry(Updated(g, done), h, updates[h]).Panic?
    ensures !Safe(g, updates)
  {
    assert h in Deletions(updates);
    assert Applied(Entries(g), done) == map[];
    forall k | k in Entries(g) ensures k in done && done[k].None? {
      assert k !in Applied(Entries(g), done);
    }
    assert Entries(g).Keys <= Deletions(updates) && h !in Entries(g);
  }

  lemma {:induction false} GroupExact(g: Option<Group>, updates: Updates, order: seq<Hash>)
    requires (g.Some? ==> g.value != map[]) && Distinct(order) && forall h :: h in order ==> h in updates
    ensures (var r := MergeGroup(g, updates, order);
             (r.Ok? ==> r.value == Updated(g, Restrict(updates, order))) && (r.Panic? ==> !Safe(g, updates)))
  {
    if order == [] {
      assert Restrict(updates, order) == map[];
      NothingPending(g);
    } else {
      var n := |order| - 1;
      assert order == order[..n] + [order[n]];
      GroupExact(g, updates, order[..n]);
      var done := Restrict(updates, order[..n]);
      assert Restrict(updates, order) == done[order[n] := updates[order[n]]];
      if MergeGroup(g, updates, order[..n]).Ok? {
        if MergeEntry(Updated(g, done), order[n], updates[order[n]]).Panic? {
          EntryFails(g, updates, done, order[n]);
        } else {
          EntryUpdates(g, done, order[n], updates[order[n]]);
        }
      }
    }
  }

  /** Some order of a set. */
  ghost function Listed(s: set<Hash>): (r: seq<Hash>)
    ensures (forall h :: h in r <==> h in s) && Distinct(r)
  {
    if s == {} then []
    else
      var h :| h in s;
      [h] + Listed(s - {h})
  }

  lemma {:induction false} PanicStays(g: Option<Group>, updates: Updates, order: seq<Hash>, more: seq<Hash>)
    requires forall h :: h in order + more ==> h in updates
    requires (forall h :: h in order ==> h in updates) && MergeGroup(g, updates, order).Panic?
    ensures MergeGroup(g, updates, order + more).Panic?
  {
    if more == [] {
      assert order + more == order;
    } else {
      var n := |more| - 1;
      assert (order + more)[..|order + more| - 1] == order + more[..n];
      PanicStays(g, updates, order, more[..n]);
    }
  }

  /** A batch merges in every order, to the same group, if and only if it is safe. */
  lemma GroupSafeExactly(g: Option<Group>, updates: Updates)
    requires g.Some? ==> g.value != map[]
    ensures ((forall order :: IsOrder(order, updates) ==> MergeGroup(g, updates, order) == Ok(Updated(g, updates)))
             <==> Safe(g, updates))
  {
    if Safe(g, updates) {
      forall order | IsOrder(order, updates) ensures MergeGroup(g, updates, order) == Ok(Updated(g, updates)) {
        GroupExact(g, updates, order);
        assert Restrict(updates, order) == updates;
      }
    } else {
      var first := Entries(g).Keys;
      assert first < Deletions(updates);
      var d :| d in Deletions(updates) && d !in first;
      UnsafeOrderPanics(g, updates, Listed(first), d);
    }
  }

  lemma UnsafeOrderPanics(g: Option<Group>, updates: Updates, first: seq<Hash>, d: Hash)
    requires (g.Some? ==> g.value != map[]) && Distinct(first) && (forall h :: h in first <==> h in Entries(g))
    requires Entries(g).Keys <= Deletions(updates) && d in Deletions(updates) && d !in first
    ensures exists order :: IsOrder(order, updates) && MergeGroup(g, updates, order).Panic?
  {
    var start := first + [d];
    var rest := Listed(updates.Keys - (set h | h in start));
    FirstPanics(g, updates, first, d);
    PanicStays(g, updates, start, rest);
    DistinctConcat(first, [d]);
    DistinctConcat(start, rest);
    assert IsOrder(start + rest, updates);
  }

  lemma DistinctConcat(a: seq<Hash>, b: seq<Hash>)
    requires Distinct(a) && Distinct(b) && forall h :: h in a ==> h !in b
    ensures Distinct(a + b)
  {
    forall i, j | 0 <= i < j < |a + b| ensures (a + b)[i] != (a + b)[j] {
      if i < |a| <= j { assert a[i] in a && b[j - |a|] in b; }
    }
  }

  lemma FirstPanics(g: Option<Group>, updates: Updates, first: seq<Hash>, d: Hash)
    requires (g.Some? ==> g.value != map[]) && Distinct(first) && (forall h :: h in first <==> h in Entries(g))
    requires Entries(g).Keys <= Deletions(updates) && d in Deletions(updates) && d !in first
    ensures MergeGroup(g, updates, first + [d]).Panic?
  {
    GroupExact(g, updates, first);
    var done := Restrict(updates, first);
    assert forall h :: h in done <==> h in first;
    assert Applied(Entries(g), done) == map[];
    assert (first + [d])[..|first + [d]| - 1] == first;
  }

  /** The service is not in the map and the batch only deletes. */
  predicate Doomed(g: Option<Group>, updates: Updates) {
    g.None? && updates != map[] && Deletions(updates) == updates.Keys
  }

  /** Something is left of the group whenever the order comes to a deletion. */
  ghost predicate NeverEmpties(g: Option<Group>, updates: Updates, order: seq<Hash>) {
    forall n :: 0 <= n < |order| && order[n] in Deletions(updates) ==>
      Applied(Entries(g), Restrict(updates, order[..n])) != map[]
  }

  lemma {:induction false} NonEmptyMerges(g: Option<Group>, updates: Updates, order: seq<Hash>)
    requires (g.Some? ==> g.value != map[]) && Distinct(order) && (forall h :: h in order ==> h in updates)
    requires NeverEmpties(g, updates, order)
    ensures MergeGroup(g, updates, order).Ok?
  {
    if order != [] {
      var n := |order| - 1;
      forall m | 0 <= m < n && order[..n][m] in Deletions(updates)
        ensures Applied(Entries(g), Restrict(updates, order[..n][..m])) != map[]
      {
        assert order[..n][..m] == order[..m];
      }
      NonEmptyMerges(g, updates, order[..n]);
      GroupExact(g, updates, order[..n]);
    }
  }

  /** What the batch sets comes first, what it deletes in vain next. */
  ghost function MildOrder(g: Option<Group>, updates: Updates): seq<Hash> {
    var gone := Deletions(updates);
    Listed(updates.Keys - gone) + Listed(gone - Entries(g).Keys) + Listed(gone * Entries(g).Keys)
  }

  lemma MildIsOrder(g: Option<Group>, updates: Updates)
    ensures IsOrder(MildOrder(g, updates), updates)
  {
    var gone := Deletions(updates);
    var a, b, c := Listed(updates.Keys - gone), Listed(gone - Entries(g).Keys), Listed(gone * Entries(g).Keys);
    DistinctConcat(a, b);
    DistinctConcat(a + b, c);
  }

  lemma StillThere(entries: Group, updates: Updates, done: seq<Hash>, h: Hash)
    requires if h in done then h in updates && updates[h].Some? else h in entries
    ensures Applied(entries, Restrict(updates, done)) != map[]
  {
    assert h in Applied(entries, Restrict(updates, done));
  }

  lemma LaterOnly(a: seq<Hash>, b: seq<Hash>, n: nat)
    requires n < |a + b| && (a + b)[n] !in a
    ensures n >= |a| && (a + b)[n] in b && (a + b)[..n] == a + b[..n - |a|]
  {
    assert forall m :: 0 <= m < |a| ==> (a + b)[m] in a;
  }

  lemma EarlierOnly(a: seq<Hash>, b: seq<Hash>, n: nat)
    requires n < |a + b| && (a + b)[n] !in b
    ensures n < |a| && (a + b)[..n] == a[..n]
  {
    assert forall m :: |a| <= m < |a + b| ==> (a + b)[m] in b;
  }

  /** Before a deletion of the mild order, something is left: what is set, or the hash itself,
      or all of the group. */
  lemma MildLeaves(g: Option<Group>, updates: Updates, n: nat)
    requires (g.Some? ==> g.value != map[]) && !Doomed(g, updates)
    requires n < |MildOrder(g, updates)| && MildOrder(g, updates)[n] in Deletions(updates)
    ensures Applied(Entries(g), Restrict(updates, MildOrder(g, updates)[..n])) != map[]
  {
    var gone := Deletions(updates);
    var a, b, c := Listed(updates.Keys - gone), Listed(gone - Entries(g).Keys), Listed(gone * Entries(g).Keys);
    MildIsOrder(g, updates);
    MildLeft(g, updates, a, b, c, n);
  }

  lemma MildLeft(g: Option<Group>, updates: Updates, a: seq<Hash>, b: seq<Hash>, c: seq<Hash>, n: nat)
    requires (g.Some? ==> g.value != map[]) && !Doomed(g, updates) && Distinct(a + b + c)
    requires forall h :: h in a <==> h in updates && updates[h].Some?
    requires (forall h :: h in b ==> h !in Entries(g)) && (forall h :: h in c ==> h in Entries(g))
    requires n < |a + b + c| && (a + b + c)[n] in Deletions(updates)
    ensures Applied(Entries(g), Restrict(updates, (a + b + c)[..n])) != map[]
  {
    var order := a + b + c;
    var h := order[n];
    assert h !in order[..n];
    if h in Entries(g) {
      StillThere(Entries(g), updates, order[..n], h);
    } else {
      EarlierOnly(a + b, c, n);
      LaterOnly(a, b, n);
      assert order[..n] == a + b[..n - |a|];
      if a != [] {
        assert a[0] in a && a[0] in order[..n];
        StillThere(Entries(g), updates, order[..n], a[0]);
      } else {
        assert h in updates && Deletions(updates) == updates.Keys;
        var k :| k in Entries(g);
        StillThere(Entries(g), updates, order[..n], k);
      }
    }
  }

  /** A batch fails in every order if and only if it only deletes, and from a missing service. */
  lemma GroupDoomedExactly(g: Option<Group>, updates: Updates)
    requires g.Some? ==> g.value != map[]
    ensures (forall order :: IsOrder(order, updates) ==> MergeGroup(g, updates, order).Panic?) <==> Doomed(g, updates)
  {
    if Doomed(g, updates) {
      forall order | IsOrder(order, updates) ensures MergeGroup(g, updates, order).Panic? { DoomedPanics(g, updates, order); }
    } else {
      var order := MildOrder(g, updates);
      MildIsOrder(g, updates);
      forall n | 0 <= n < |order| && order[n] in Deletions(updates)
        ensures Applied(Entries(g), Restrict(updates, order[..n])) != map[]
      {
        MildLeaves(g, updates, n);
      }
      NonEmptyMerges(g, updates, order);
    }
  }

  lemma DoomedPanics(g: Option<Group>, updates: Updates, order: seq<Hash>)
    requires Doomed(g, updates) && IsOrder(order, updates)
    ensures MergeGroup(g, updates, order).Panic?
  {
    var h :| h in updates;
    assert h in order;
    var first, rest := [order[0]], order[1..];
    assert order == first + rest;
    assert order[0] in Deletions(updates);
    assert first[..0] == [];
    PanicStays(g, updates, first, rest);
  }

  // The whole map

  function Put(em: Endpoints, svc: Name, g: Option<Group>): Endpoints {
    if g.None? then em - {svc} else em[svc := g.value]
  }

  /** The services in any order, and the entries of each in any order. */
  function Merge(em: Endpoints, pending: Pending, services: seq<Name>, orders: map<Name, seq<Hash>>): Result<Endpoints>
    requires forall svc :: svc in services ==> svc in pending && svc in orders && forall h :: h in orders[svc] ==> h in pending[svc]
  {
    if services == [] then Ok(em)
    else
      var n := |services| - 1;
      var before := Merge(em, pending, services[..n], orders);
      if before.Panic? then Panic
      else
        var g := MergeGroup(Find(before.value, services[n]), pending[services[n]], orders[services[n]]);
        if g.Panic? then Panic else Ok(Put(before.value, services[n], g.value))
  }

  ghost predicate AreOrders(services: seq<Name>, orders: map<Name, seq<Hash>>, pending: Pending) {
    && Distinct(services) && (forall svc :: svc in services <==> svc in pending)
    && (forall svc :: svc in pending ==> svc in orders && IsOrder(orders[svc], pending[svc]))
  }

  ghost predicate AllSafe(em: Endpoints, pending: Pending) {
    forall svc :: svc in pending ==> Safe(Find(em, svc), pending[svc])
  }

  function UpdatesOf(pending: Pending, svc: Name): Updates {
    if svc in pending then pending[svc] else map[]
  }

  /** The map after the batch, without an order. */
  ghost predicate IsUpdated(em: Endpoints, pending: Pending, after: Endpoints) {
    forall svc :: Find(after, svc) == Updated(Find(em, svc), UpdatesOf(pending, svc))
  }

  lemma UpdatedIsUnique(em: Endpoints, pending: Pending, a: Endpoints, b: Endpoints)
    requires IsUpdated(em, pending, a) && IsUpdated(em, pending, b)
    ensures a == b
  {
    forall svc ensures Find(a, svc) == Find(b, svc) {
      assert Find(a, svc) == Updated(Find(em, svc), UpdatesOf(pending, svc));
      assert Find(b, svc) == Updated(Find(em, svc), UpdatesOf(pending, svc));
    }
    forall svc ensures (svc in a <==> svc in b) && (svc in a ==> a[svc] == b[svc]) {
      assert Find(a, svc) == Find(b, svc);
    }
  }

  lemma UpdatedLeavesNoEmptyGroups(em: Endpoints, pending: Pending, after: Endpoints)
    requires IsUpdated(em, pending, after)
    ensures NoEmptyGroups(after)
  {
    forall svc | svc in after ensures after[svc] != map[] {
      assert Find(after, svc) == Updated(Find(em, svc), UpdatesOf(pending, svc));
    }
  }

  /** The services merged so far are updated, the others are as before. */
  ghost predicate Halfway(em: Endpoints, pending: Pending, after: Endpoints, services: seq<Name>) {
    forall svc :: Find(after, svc) == if svc in services then Updated(Find(em, svc), UpdatesOf(pending, svc)) else Find(em, svc)
  }

  lemma HalfwayPut(em: Endpoints, pending: Pending, mid: Endpoints, services: seq<Name>, svc: Name)
    requires Halfway(em, pending, mid, services)
    ensures Halfway(em, pending, Put(mid, svc, Updated(Find(em, svc), UpdatesOf(pending, svc))), services + [svc])
  {
    forall s ensures Find(Put(mid, svc, Updated(Find(em, svc), UpdatesOf(pending, svc))), s)
        == if s in services + [svc] then Updated(Find(em, s), UpdatesOf(pending, s)) else Find(em, s) {
      assert Find(mid, s) == if s in services then Updated(Find(em, s), UpdatesOf(pending, s)) else Find(em, s);
    }
  }

  /** Whatever the order, a merge that does not fail has updated the services it came to. */
  lemma {:induction false} MergedHalfway(em: Endpoints, pending: Pending, services: seq<Name>, orders: map<Name, seq<Hash>>)
    requires NoEmptyGroups(em) && Distinct(services)
    requires forall svc :: svc in services ==> svc in pending && svc in orders && IsOrder(orders[svc], pending[svc])
    requires forall svc :: svc in services ==> forall h :: h in orders[svc] ==> h in pending[svc]
    requires Merge(em, pending, services, orders).Ok?
    ensures Halfway(em, pending, Merge(em, pending, services, orders).value, services)
  {
    if services != [] {
      var n := |services| - 1;
      var svc := services[n];
      assert services == services[..n] + [svc] && svc !in services[..n];
      MergedHalfway(em, pending, services[..n], orders);
      var mid := Merge(em, pending, services[..n], orders).value;
      assert Find(mid, svc) == Find(em, svc);
      GroupExact(Find(em, svc), pending[svc], orders[svc]);
      assert Restrict(pending[svc], orders[svc]) == pending[svc];
      HalfwayPut(em, pending, mid, services[..n], svc);
    }
  }

  lemma {:induction false} GroupsMerge(em: Endpoints, pending: Pending, services: seq<Name>, orders: map<Name, seq<Hash>>)
    requires NoEmptyGroups(em) && Distinct(services)
    requires forall s :: s in services ==> s in pending && s in orders && IsOrder(orders[s], pending[s])
    requires forall s :: s in services ==> forall h :: h in orders[s] ==> h in pending[s]
    requires forall s :: s in services ==> MergeGroup(Find(em, s), pending[s], orders[s]).Ok?
    ensures Merge(em, pending, services, orders).Ok?
  {
    if services != [] {
      var n := |services| - 1;
      assert services == services[..n] + [services[n]] && services[n] !in services[..n];
      GroupsMerge(em, pending, services[..n], orders);
      MergedHalfway(em, pending, services[..n], orders);
      assert Find(Merge(em, pending, services[..n], orders).value, services[n]) == Find(em, services[n]);
    }
  }

  lemma HalfwayIsUpdated(em: Endpoints, pending: Pending, after: Endpoints, services: seq<Name>)
    requires NoEmptyGroups(em) && Halfway(em, pending, after, services) && forall svc :: svc in services <==> svc in pending
    ensures IsUpdated(em, pending, after)
  {
    forall svc ensures Find(after, svc) == Updated(Find(em, svc), UpdatesOf(pending, svc)) {
      assert Find(after, svc) == if svc in services then Updated(Find(em, svc), UpdatesOf(pending, svc)) else Find(em, svc);
      NothingPending(Find(em, svc));
    }
  }

  /** A safe batch never dereferences a missing service, in any order, and every order gives the same map. */
  lemma MergeSafe(em: Endpoints, pending: Pending, services: seq<Name>, orders: map<Name, seq<Hash>>)
    requires NoEmptyGroups(em) && AllSafe(em, pending) && AreOrders(services, orders, pending)
    ensures (var r := Merge(em, pending, services, orders); r.Ok? && IsUpdated(em, pending, r.value) && NoEmptyGroups(r.value))
  {
    forall s | s in services ensures MergeGroup(Find(em, s), pending[s], orders[s]).Ok? {
      GroupSafeExactly(Find(em, s), pending[s]);
    }
    GroupsMerge(em, pending, services, orders);
    MergedHalfway(em, pending, services, orders);
    var after := Merge(em, pending, services, orders).value;
    HalfwayIsUpdated(em, pending, after, services);
    UpdatedLeavesNoEmptyGroups(em, pending, after);
  }

  lemma {:induction false} MergePanicStays(em: Endpoints, pending: Pending, services: seq<Name>, more: seq<Name>, orders: map<Name, seq<Hash>>)
    requires forall svc :: svc in services + more ==> svc in pending && svc in orders && forall h :: h in orders[svc] ==> h in pending[svc]
    requires forall svc :: svc in services ==> svc in services + more
    requires Merge(em, pending, services, orders).Panic?
    ensures Merge(em, pending, services + more, orders).Panic?
  {
    if more == [] {
      assert services + more == services;
    } else {
      var n := |more| - 1;
      assert (services + more)[..|services + more| - 1] == services + more[..n];
      MergePanicStays(em, pending, services, more[..n], orders);
    }
  }

  /** Orders of all the services, the given one for the given service. */
  ghost function OrdersWith(pending: Pending, svc: Name, bad: seq<Hash>): (orders: map<Name, seq<Hash>>)
    requires svc in pending && IsOrder(bad, pending[svc])
    ensures svc in orders && orders[svc] == bad
    ensures forall s :: s in pending ==> s in orders && IsOrder(orders[s], pending[s])
  {
    map s | s in pending :: if s == svc then bad else Listed(pending[s].Keys)
  }

  lemma MergeUnsafePanics(em: Endpoints, pending: Pending, svc: Name, bad: seq<Hash>)
    requires svc in pending && IsOrder(bad, pending[svc]) && MergeGroup(Find(em, svc), pending[svc], bad).Panic?
    ensures exists services, orders :: AreOrders(services, orders, pending) && Merge(em, pending, services, orders).Panic?
  {
    var rest := Listed(pending.Keys - {svc});
    var services, orders := [svc] + rest, OrdersWith(pending, svc, bad);
    FirstServicePanics(em, pending, svc, orders);
    DistinctConcat([svc], rest);
    OrdersOfServices(pending, services, orders);
    MergePanicStays(em, pending, [svc], rest, orders);
    assert AreOrders(services, orders, pending) && Merge(em, pending, services, orders).Panic?;
  }

  lemma FirstServicePanics(em: Endpoints, pending: Pending, svc: Name, orders: map<Name, seq<Hash>>)
    requires svc in pending && svc in orders && (forall h :: h in orders[svc] ==> h in pending[svc])
    requires MergeGroup(Find(em, svc), pending[svc], orders[svc]).Panic?
    ensures Merge(em, pending, [svc], orders).Panic?
  {
    assert [svc][..0] == [];
  }

  lemma OrdersOfServices(pending: Pending, services: seq<Name>, orders: map<Name, seq<Hash>>)
    requires Distinct(services) && (forall s :: s in services <==> s in pending)
    requires forall s :: s in pending ==> s in orders && IsOrder(orders[s], pending[s])
    ensures AreOrders(services, orders, pending)
    ensures forall s :: s in services ==> s in pending && s in orders && forall h :: h in orders[s] ==> h in pending[s]
  {
  }

  /** A batch merges without a missing service in every order if and only if it is safe. */
  lemma MergeSafeExactly(em: Endpoints, pending: Pending)
    requires NoEmptyGroups(em)
    ensures ((forall services, orders :: AreOrders(services, orders, pending) ==> Merge(em, pending, services, orders).Ok?)
             <==> AllSafe(em, pending))
  {
    if AllSafe(em, pending) {
      forall services, orders | AreOrders(services, orders, pending) ensures Merge(em, pending, services, orders).Ok? {
        MergeSafe(em, pending, services, orders);
      }
    } else {
      var svc :| svc in pending && !Safe(Find(em, svc), pending[svc]);
      GroupSafeExactly(Find(em, svc), pending[svc]);
      var order :| IsOrder(order, pending[svc]) && MergeGroup(Find(em, svc), pending[svc], order) != Ok(Updated(Find(em, svc), pending[svc]));
      GroupExact(Find(em, svc), pending[svc], order);
      assert Restrict(pending[svc], order) == pending[svc];
      MergeUnsafePanics(em, pending, svc, order);
    }
  }

  ghost predicate SomeDoomed(em: Endpoints, pending: Pending) {
    exists svc :: svc in pending && Doomed(Find(em, svc), pending[svc])
  }

  lemma {:induction false} DoomedServicePanics(em: Endpoints, pending: Pending, services: seq<Name>, orders: map<Name, seq<Hash>>, svc: Name)
    requires NoEmptyGroups(em) && Distinct(services) && svc in services && svc in pending && Doomed(Find(em, svc), pending[svc])
    requires forall s :: s in services ==> s in pending && s in orders && IsOrder(orders[s], pending[s])
    requires forall s :: s in services ==> forall h :: h in orders[s] ==> h in pending[s]
    ensures Merge(em, pending, services, orders).Panic?
  {
    var n := |services| - 1;
    var last := services[n];
    assert services == services[..n] + [last] && last !in services[..n];
    if last != svc {
      DoomedServicePanics(em, pending, services[..n], orders, svc);
    } else if Merge(em, pending, services[..n], orders).Ok? {
      MergedHalfway(em, pending, services[..n], orders);
      assert Find(Merge(em, pending, services[..n], orders).value, svc) == Find(em, svc);
      DoomedPanics(Find(em, svc), pending[svc], orders[svc]);
    }
  }

  /** Some order in which the group merges. */
  ghost function GoodOrder(g: Option<Group>, updates: Updates): (order: seq<Hash>)
    requires (g.Some? ==> g.value != map[]) && !Doomed(g, updates)
    ensures IsOrder(order, updates) && MergeGroup(g, updates, order).Ok?
  {
    GroupDoomedExactly(g, updates);
    var order :| IsOrder(order, updates) && MergeGroup(g, updates, order).Ok?;
    order
  }

  /** A batch meets a missing service in every order if and only if it only deletes from one. */
  lemma MergeDoomedExactly(em: Endpoints, pending: Pending)
    requires NoEmptyGroups(em)
    ensures ((forall services, orders :: AreOrders(services, orders, pending) ==> Merge(em, pending, services, orders).Panic?)
             <==> SomeDoomed(em, pending))
  {
    if SomeDoomed(em, pending) {
      var svc :| svc in pending && Doomed(Find(em, svc), pending[svc]);
      forall services, orders | AreOrders(services, orders, pending) ensures Merge(em, pending, services, orders).Panic? {
        DoomedServicePanics(em, pending, services, orders, svc);
      }
    } else {
      var services := Listed(pending.Keys);
      var orders := map s | s in pending :: GoodOrder(Find(em, s), pending[s]);
      OrdersOfServices(pending, services, orders);
      GroupsMerge(em, pending, services, orders);
    }
  }

  /** If every pending deletion names an endpoint that is in the map, the batch is safe. */
  lemma KnownDeletionsAreSafe(em: Endpoints, pending: Pending)
    requires forall svc, h :: svc in pending && h in Deletions(pending[svc]) ==> svc in em && h in em[svc]
    ensures AllSafe(em, pending)
  {
    forall svc | svc in pending ensures Safe(Find(em, svc), pending[svc]) {
      if Deletions(pending[svc]) != {} {
        var h :| h in Deletions(pending[svc]);
        assert svc in em && Deletions(pending[svc]) <= em[svc].Keys;
      }
    }
  }

  // One by one

  datatype Update = Update(svc: Name, hash: Hash, endpoint: Option<Endpoint>)

  function AddPending(pending: Pending, u: Update): Pending {
    pending[u.svc := UpdatesOf(pending, u.svc)[u.hash := u.endpoint]]
  }

  /** The batch that the updates leave pending. */
  function Collect(updates: seq<Update>): Pending {
    if updates == [] then map[] else AddPending(Collect(updates[..|updates| - 1]), updates[|updates| - 1])
  }

  /** The updates merged as they come. */
  function OneByOne(em: Endpoints, updates: seq<Update>): Result<Endpoints> {
    if updates == [] then Ok(em)
    else
      var n := |updates| - 1;
      var before := OneByOne(em, updates[..n]);
      if before.Panic? then Panic
      else
        var g := MergeEntry(Find(before.value, updates[n].svc), updates[n].hash, updates[n].endpoint);
        if g.Panic? then Panic else Ok(Put(before.value, updates[n].svc, g.value))
  }

  lemma {:induction false} OneByOneUpdates(em: Endpoints, updates: seq<Update>)
    requires NoEmptyGroups(em) && OneByOne(em, updates).Ok?
    ensures IsUpdated(em, Collect(updates), OneByOne(em, updates).value)
  {
    if updates == [] {
      forall svc ensures Find(em, svc) == Updated(Find(em, svc), UpdatesOf(map[], svc)) { NothingPending(Find(em, svc)); }
    } else {
      var n := |updates| - 1;
      var u, pending := updates[n], Collect(updates[..n]);
      var before, after := OneByOne(em, updates[..n]).value, OneByOne(em, updates).value;
      OneByOneUpdates(em, updates[..n]);
      EntryUpdates(Find(em, u.svc), UpdatesOf(pending, u.svc), u.hash, u.endpoint);
      forall svc ensures Find(after, svc) == Updated(Find(em, svc), UpdatesOf(AddPending(pending, u), svc)) {
        assert Find(before, svc) == Updated(Find(em, svc), UpdatesOf(pending, svc));
      }
    }
  }

  /** The service has the hash after the updates: the last one that names it sets it, or none
      names it and the map has it. */
  predicate Live(em: Endpoints, updates: seq<Update>, svc: Name, h: Hash) {
    if updates == [] then svc in em && h in em[svc]
    else
      var n := |updates| - 1;
      if updates[n].svc == svc && updates[n].hash == h then updates[n].endpoint.Some?
      else Live(em, updates[..n], svc, h)
  }

  ghost predicate HasEndpoint(em: Endpoints, updates: seq<Update>, svc: Name) {
    exists h :: Live(em, updates, svc, h)
  }

  /** If this update is a deletion, its service has an endpoint by then. */
  ghost predicate MeetsAt(em: Endpoints, updates: seq<Update>, i: nat)
    requires i < |updates|
  {
    updates[i].endpoint.None? ==> HasEndpoint(em, updates[..i], updates[i].svc)
  }

  ghost predicate DeletionsMeet(em: Endpoints, updates: seq<Update>) {
    forall i :: 0 <= i < |updates| ==> MeetsAt(em, updates, i)
  }

  lemma {:induction false} LiveIsApplied(em: Endpoints, updates: seq<Update>, svc: Name, h: Hash)
    ensures Live(em, updates, svc, h) <==> h in Applied(Entries(Find(em, svc)), UpdatesOf(Collect(updates), svc))
  {
    if updates == [] {
      AppliedNone(Entries(Find(em, svc)));
    } else {
      var n := |updates| - 1;
      var u, pending := updates[n], Collect(updates[..n]);
      LiveIsApplied(em, updates[..n], svc, h);
      AppliedPut(Entries(Find(em, u.svc)), UpdatesOf(pending, u.svc), u.hash, u.endpoint);
    }
  }

  /** A service has an endpoint after the updates exactly when merging them leaves it in the map. */
  lemma LiveIsFound(em: Endpoints, updates: seq<Update>, svc: Name)
    requires NoEmptyGroups(em) && OneByOne(em, updates).Ok?
    ensures Find(OneByOne(em, updates).value, svc).Some? <==> HasEndpoint(em, updates, svc)
  {
    OneByOneUpdates(em, updates);
    var left := Applied(Entries(Find(em, svc)), UpdatesOf(Collect(updates), svc));
    assert Find(OneByOne(em, updates).value, svc) == Updated(Find(em, svc), UpdatesOf(Collect(updates), svc));
    if left != map[] {
      var h :| h in left;
      LiveIsApplied(em, updates, svc, h);
    } else {
      forall h ensures !Live(em, updates, svc, h) { LiveIsApplied(em, updates, svc, h); }
    }
  }

  lemma MeetOneMore(em: Endpoints, before: seq<Update>, u: Update)
    ensures DeletionsMeet(em, before + [u])
       <==> DeletionsMeet(em, before) && (u.endpoint.None? ==> HasEndpoint(em, before, u.svc))
  {
    var updates, n := before + [u], |before|;
    forall i | 0 <= i < n ensures MeetsAt(em, updates, i) <==> MeetsAt(em, before, i) {
      assert updates[..i] == before[..i];
    }
    assert updates[..n] == before;
    assert MeetsAt(em, updates, n) <==> (u.endpoint.None? ==> HasEndpoint(em, before, u.svc));
  }

  /** Merging one by one fails exactly at a deletion whose service has no endpoint by then. */
  lemma {:induction false} OneByOneExactly(em: Endpoints, updates: seq<Update>)
    requires NoEmptyGroups(em)
    ensures OneByOne(em, updates).Ok? <==> DeletionsMeet(em, updates)
  {
    if updates != [] {
      var n := |updates| - 1;
      var before, u := updates[..n], updates[n];
      assert updates == before + [u];
      OneByOneExactly(em, before);
      MeetOneMore(em, before, u);
      if OneByOne(em, before).Ok? { LiveIsFound(em, before, u.svc); }
    }
  }

  /** Merging a safe batch gives what merging its updates one by one gives, in every order. */
  lemma BatchIsOneByOne(em: Endpoints, updates: seq<Update>, services: seq<Name>, orders: map<Name, seq<Hash>>)
    requires NoEmptyGroups(em) && AllSafe(em, Collect(updates)) && AreOrders(services, orders, Collect(updates))
    requires DeletionsMeet(em, updates)
    ensures Merge(em, Collect(updates), services, orders) == OneByOne(em, updates)
  {
    OneByOneExactly(em, updates);
    MergeSafe(em, Collect(updates), services, orders);
    OneByOneUpdates(em, updates);
    UpdatedIsUnique(em, Collect(updates), Merge(em, Collect(updates), services, orders).value, OneByOne(em, updates).value);
  }

  ghost predicate SameInEveryOrder(em: Endpoints, updates: seq<Update>) {
    forall services, orders :: AreOrders(services, orders, Collect(updates)) ==>
      Merge(em, Collect(updates), services, orders) == OneByOne(em, updates)
  }

  /** Collecting changes nothing, in any order, exactly when every deletion meets its service and
      the batch is safe, or when some deletion misses its service and the batch is doomed too. */
  lemma BatchIsOneByOneExactly(em: Endpoints, updates: seq<Update>)
    requires NoEmptyGroups(em)
    ensures SameInEveryOrder(em, updates)
       <==> if DeletionsMeet(em, updates) then AllSafe(em, Collect(updates)) else SomeDoomed(em, Collect(updates))
  {
    var pending := Collect(updates);
    OneByOneExactly(em, updates);
    MergeSafeExactly(em, pending);
    MergeDoomedExactly(em, pending);
    if DeletionsMeet(em, updates) && AllSafe(em, pending) {
      forall services, orders | AreOrders(services, orders, pending)
        ensures Merge(em, pending, services, orders) == OneByOne(em, updates)
      {
        BatchIsOneByOne(em, updates, services, orders);
      }
    }
  }

  /** An endpoint set and deleted again between two syncs, of a service that is not in the map:
      one by one nothing is left, as a batch the deletion fails in every order. */
  lemma SetThenDeleted(services: seq<Name>, orders: map<Name, seq<Hash>>)
    requires AreOrders(services, orders, Collect([Update("s", "a", Some("x")), Update("s", "a", None)]))
    ensures var updates := [Update("s", "a", Some("x")), Update("s", "a", None)];
            OneByOne(map[], updates) == Ok(map[]) && Merge(map[], Collect(updates), services, orders) == Panic
  {
    var updates := [Update("s", "a", Some("x")), Update("s", "a", None)];
    var first, pending := updates[..1], Collect(updates);
    assert first[..0] == [] && first[0] == updates[0];
    assert Collect(first) == map["s" := map["a" := Some("x")]];
    assert pending["s"] == map["a" := None];
    assert "a" in pending["s"] && Deletions(pending["s"]) == pending["s"].Keys;
    DoomedServicePanics(map[], pending, services, orders, "s");
    assert OneByOne(map[], first) == Ok(map["s" := map["a" := "x"]]) by { assert OneByOne(map[], first[..0]) == Ok(map[]); }
    var group: Group := map["a" := "x"];
    assert group - {"a"} == map[];
    assert map["s" := group] - {"s"} == map[];
  }

  // The map and its tracker

  function Without(updates: Updates, todo: set<Hash>): Updates {
    map h | h in updates && h !in todo :: updates[h]
  }

  /** The group with the updates applied that are no longer to do. */
  ghost predicate Mid(g: Option<Group>, updates: Updates, todo: set<Hash>, group: Option<Group>) {
    group == Updated(g, Without(updates, todo))
  }

  lemma MidStarts(g: Option<Group>, updates: Updates)
    requires g != Some(map[])
    ensures Mid(g, updates, updates.Keys, g)
  {
    NothingPending(g);
    assert Without(updates, updates.Keys) == map[];
  }

  lemma MidEnds(g: Option<Group>, updates: Updates, group: Option<Group>)
    requires Mid(g, updates, {}, group)
    ensures group == Updated(g, updates) != Some(map[])
  {
    assert Without(updates, {}) == updates;
  }

  /** In a safe batch the next entry never fails. */
  lemma NextIsOk(g: Option<Group>, updates: Updates, todo: set<Hash>, h: Hash, group: Option<Group>) returns (next: Option<Group>)
    requires g != Some(map[]) && Safe(g, updates) && h in todo && h in updates && Mid(g, updates, todo, group)
    ensures MergeEntry(group, h, updates[h]) == Ok(next) && Mid(g, updates, todo - {h}, next)
  {
    var done := Without(updates, todo);
    if MergeEntry(group, h, updates[h]).Panic? { EntryFails(g, updates, done, h); }
    EntryUpdates(g, done, h, updates[h]);
    assert done[h := updates[h]] == Without(updates, todo - {h});
    next := MergeEntry(group, h, updates[h]).value;
  }

  lemma PutTwice(em: Endpoints, svc: Name, a: Option<Group>, b: Option<Group>)
    ensures Put(Put(em, svc, a), svc, b) == Put(em, svc, b)
    ensures Find(Put(em, svc, a), svc) == a
    ensures Put(em, svc, Find(em, svc)) == em
  {
  }

  method MergeOne(em: Endpoints, svc: Name, h: Hash, e: Option<Endpoint>) returns (after: Endpoints)
    requires MergeEntry(Find(em, svc), h, e).Ok?
    ensures after == Put(em, svc, MergeEntry(Find(em, svc), h, e).value)
  {
    after := em;
    if e.None? {
      var left := after[svc] - {h};
      after := after[svc := left];
      if |left| == 0 { after := after - {svc}; }
    } else {
      if svc !in after { after := after[svc := map[]]; }
      after := after[svc := after[svc][h := e.value]];
    }
  }

  /** The entries of one service, in whatever order the map gives them. */
  method MergeService(em: Endpoints, svc: Name, updates: Updates) returns (after: Endpoints)
    requires NoEmptyGroups(em) && Safe(Find(em, svc), updates)
    ensures after == Put(em, svc, Updated(Find(em, svc), updates)) && NoEmptyGroups(after)
  {
    ghost var g, group := Find(em, svc), Find(em, svc);
    after := em;
    var todo := updates.Keys;
    MidStarts(g, updates);
    PutTwice(em, svc, g, g);
    while todo != {}
      invariant todo <= updates.Keys
      invariant Mid(g, updates, todo, group) && after == Put(em, svc, group)
      decreases |todo|
    {
      var h :| h in todo;
      ghost var was := group;
      group := NextIsOk(g, updates, todo, h, was);
      PutTwice(em, svc, was, group);
      after := MergeOne(after, svc, h, updates[h]);
      todo := todo - {h};
    }
    MidEnds(g, updates, group);
    PutKeepsGroups(em, svc, group);
  }

  lemma PutKeepsGroups(em: Endpoints, svc: Name, g: Option<Group>)
    requires NoEmptyGroups(em) && g != Some(map[])
    ensures NoEmptyGroups(Put(em, svc, g))
  {
  }

  class EndpointsMap {
    var em: Endpoints
    var pending: Pending

    constructor ()
      ensures em == map[] && pending == map[]
    {
      em, pending := map[], map[];
    }

    method UpdatePending(u: Update)
      modifies `pending
      ensures pending == AddPending(old(pending), u)
    {
      var group: Updates := map[];
      if u.svc in pending { group := pending[u.svc]; }
      pending := pending[u.svc := group[u.hash := u.endpoint]];
    }

    /** The services in whatever order the map gives them. */
    method MergeAll()
      requires NoEmptyGroups(em) && AllSafe(em, pending)
      modifies `em
      ensures IsUpdated(old(em), pending, em) && NoEmptyGroups(em)
    {
      var todo := pending.Keys;
      ghost var services: seq<Name> := [];
      while todo != {}
        invariant todo <= pending.Keys && NoEmptyGroups(em)
        invariant forall svc :: svc in services <==> svc in pending && svc !in todo
        invariant Halfway(old(em), pending, em, services)
        decreases |todo|
      {
        var svc :| svc in todo;
        assert Find(em, svc) == Find(old(em), svc);
        HalfwayPut(old(em), pending, em, services, svc);
        em := MergeService(em, svc, pending[svc]);
        todo, services := todo - {svc}, services + [svc];
      }
      HalfwayIsUpdated(old(em), pending, em, services);
    }

    /** The batch is merged, then forgotten. */
    method Update()
      requires NoEmptyGroups(em) && AllSafe(em, pending)
      modifies this
      ensures IsUpdated(old(em), old(pending), em) && NoEmptyGroups(em) && pending == map[]
    {
      MergeAll();
      pending := map[];
    }
  }
}
