/** A store that is filled anew in every cycle and reports what changed since the cycle before.

    Keys are strings, standing for any ordered type. A leaf is the value under a key: it is created,
    written while the store is filled, hashed at the end of the cycle and reset before the next. */
module DiffStore {
  import opened Scans
  import opened StringTrees

  datatype Leaf<!L> = Leaf(initial: L, reset: L -> L, hash: L -> nat)

  datatype Item<L> = Item(v: L, touched: bool, previous: nat, current: nat) {
    predicate Created() { touched && previous == 0 }
    predicate Updated() { touched && previous != current }
    predicate Changed() { Created() || Updated() }
    predicate Deleted() { !touched && previous != 0 }
  }

  type Data<L> = map<Key, Item<L>>

  datatype State<L> = State(data: Data<L>, done: bool, touched: nat)

  // The operations

  function Got<L>(leaf: Leaf<L>, data: Data<L>, key: Key): Item<L> {
    if key in data then data[key] else Item(leaf.initial, false, 0, 0)
  }

  function Get<L>(leaf: Leaf<L>, s: State<L>, key: Key): State<L> {
    var item := Got(leaf, s.data, key);
    s.(data := s.data[key := item.(touched := true)], touched := if item.touched then s.touched else s.touched + 1)
  }

  /** One write to the leaf under a key. */
  datatype Put<!L> = Put(key: Key, write: L -> L)

  function Write<L>(leaf: Leaf<L>, s: State<L>, put: Put<L>): State<L> {
    var got := Get(leaf, s, put.key);
    got.(data := got.data[put.key := got.data[put.key].(v := put.write(got.data[put.key].v))])
  }

  function Fill<L>(leaf: Leaf<L>, s: State<L>, puts: seq<Put<L>>): State<L>
    decreases |puts|
  {
    if |puts| == 0 then s else Fill(leaf, Write(leaf, s, puts[0]), puts[1..])
  }

  function Hashed<L>(leaf: Leaf<L>, item: Item<L>): Item<L> {
    if item.touched then item.(current := leaf.hash(item.v)) else item
  }

  function Finish<L>(leaf: Leaf<L>, s: State<L>): State<L> {
    s.(data := map k | k in s.data :: Hashed(leaf, s.data[k]), done := true)
  }

  predicate Dropped<L>(item: Item<L>) {
    item.previous == 0 && !item.touched
  }

  function Renewed<L>(leaf: Leaf<L>, item: Item<L>): Item<L> {
    Item(leaf.reset(item.v), false, item.current, 0)
  }

  function Clear<L>(leaf: Leaf<L>, s: State<L>): State<L> {
    State(map k | k in s.data && !Dropped(s.data[k]) :: Renewed(leaf, s.data[k]), false, 0)
  }

  // What a finished store shows

  function Touched<L>(data: Data<L>): set<Key> {
    set k | k in data && data[k].touched
  }

  function Contents<L>(s: State<L>): map<Key, L> {
    map k | k in s.data && s.data[k].touched :: s.data[k].v
  }

  function ChangedItems<L>(s: State<L>): map<Key, L> {
    map k | k in s.data && s.data[k].Changed() :: s.data[k].v
  }

  function DeletedKeys<L>(s: State<L>): set<Key> {
    set k | k in s.data && s.data[k].Deleted()
  }

  // Cycles

  function Keys<L>(puts: seq<Put<L>>): set<Key>
    decreases |puts|
  {
    if |puts| == 0 then {} else {puts[0].key} + Keys(puts[1..])
  }

  /** The leaf under a key after the writes to it. */
  function Written<L>(v: L, key: Key, puts: seq<Put<L>>): L
    decreases |puts|
  {
    if |puts| == 0 then v else Written(if puts[0].key == key then puts[0].write(v) else v, key, puts[1..])
  }

  function Cycle<L>(leaf: Leaf<L>, s: State<L>, puts: seq<Put<L>>): State<L> {
    Finish(leaf, Fill(leaf, s, puts))
  }

  /** The state between cycles. */
  ghost predicate Clean<L>(s: State<L>) {
    !s.done && s.touched == 0 && forall k :: k in s.data ==> !s.data[k].touched && s.data[k].current == 0
  }

  function Start<L>(): State<L> {
    State(map[], false, 0)
  }

  lemma {:induction false} FillAt<L>(leaf: Leaf<L>, s: State<L>, puts: seq<Put<L>>, k: Key)
    ensures k in Fill(leaf, s, puts).data <==> k in s.data || k in Keys(puts)
    ensures k in Keys(puts) ==>
              Fill(leaf, s, puts).data[k] == Got(leaf, s.data, k).(v := Written(Got(leaf, s.data, k).v, k, puts), touched := true)
    ensures k in s.data && k !in Keys(puts) ==> Fill(leaf, s, puts).data[k] == s.data[k]
    decreases |puts|
  {
    if |puts| > 0 {
      FillAt(leaf, Write(leaf, s, puts[0]), puts[1..], k);
      if k !in Keys(puts[1..]) { WrittenElsewhere(Got(leaf, Write(leaf, s, puts[0]).data, k).v, k, puts[1..]); }
    }
  }

  lemma {:induction false} WrittenElsewhere<L>(v: L, k: Key, puts: seq<Put<L>>)
    requires k !in Keys(puts)
    ensures Written(v, k, puts) == v
    decreases |puts|
  {
    if |puts| > 0 { WrittenElsewhere(v, k, puts[1..]); }
  }

  /** One key through one cycle from a clean state. */
  lemma CycleAt<L>(leaf: Leaf<L>, s: State<L>, puts: seq<Put<L>>, k: Key)
    requires Clean(s)
    ensures k in Cycle(leaf, s, puts).data <==> k in s.data || k in Keys(puts)
    ensures (k in Keys(puts) ==>
             (var got, v := Got(leaf, s.data, k), Written(Got(leaf, s.data, k).v, k, puts);
              Cycle(leaf, s, puts).data[k] == Item(v, true, got.previous, leaf.hash(v))))
    ensures k in s.data && k !in Keys(puts) ==> Cycle(leaf, s, puts).data[k] == s.data[k]
  {
    FillAt(leaf, s, puts, k);
  }

  /** The counter is the number of touched items, all through a cycle. */
  lemma {:induction false} CounterIsExact<L>(leaf: Leaf<L>, s: State<L>, puts: seq<Put<L>>)
    requires s.touched == |Touched(s.data)|
    ensures Fill(leaf, s, puts).touched == |Touched(Fill(leaf, s, puts).data)|
    ensures Cycle(leaf, s, puts).touched == |Contents(Cycle(leaf, s, puts))|
    decreases |puts|
  {
    if |puts| == 0 {
      assert Contents(Cycle(leaf, s, puts)).Keys == Touched(s.data);
    } else {
      var next := Write(leaf, s, puts[0]);
      var was := Touched(s.data);
      assert Touched(next.data) == was + {puts[0].key};
      assert |was + {puts[0].key}| == |was| + (if puts[0].key in was then 0 else 1) by {
        if puts[0].key in was { assert was + {puts[0].key} == was; }
      }
      CounterIsExact(leaf, next, puts[1..]);
    }
  }

  ghost predicate Nonzero<L(!new)>(leaf: Leaf<L>) {
    forall v :: leaf.hash(v) != 0
  }

  ghost predicate Injective<L(!new)>(leaf: Leaf<L>) {
    forall v, w :: leaf.hash(v) == leaf.hash(w) ==> v == w
  }

  /** After two cycles the tree holds the keys of either: an item leaves only after two absent cycles. */
  lemma LeavesAfterTwoCycles<L(!new)>(leaf: Leaf<L>, s: State<L>, first: seq<Put<L>>, second: seq<Put<L>>)
    requires Clean(s) && Nonzero(leaf)
    ensures (var mid := Clear(leaf, Cycle(leaf, s, first));
             Clear(leaf, Cycle(leaf, mid, second)).data.Keys == Keys(first) + Keys(second))
  {
    var mid := Clear(leaf, Cycle(leaf, s, first));
    forall k ensures k in Clear(leaf, Cycle(leaf, mid, second)).data <==> k in Keys(first) || k in Keys(second) {
      CycleAt(leaf, s, first, k);
      CycleAt(leaf, mid, second, k);
    }
  }

  // Replicas

  /** A reader removes what is deleted, then stores what changed. */
  function Replicate<L>(replica: map<Key, L>, s: State<L>): map<Key, L> {
    (replica - DeletedKeys(s)) + ChangedItems(s)
  }

  /** Between cycles the items remember the hashes of what the reader has. */
  ghost predicate InStep<L>(leaf: Leaf<L>, replica: map<Key, L>, s: State<L>) {
    && Clean(s)
    && (forall k :: k in replica <==> k in s.data && s.data[k].previous != 0)
    && (forall k :: k in replica ==> leaf.hash(replica[k]) == s.data[k].previous)
  }

  ghost predicate SameHashes<L>(leaf: Leaf<L>, a: map<Key, L>, b: map<Key, L>) {
    a.Keys == b.Keys && forall k :: k in a ==> leaf.hash(a[k]) == leaf.hash(b[k])
  }

  /** After a cycle the reader has the keys and hashes of the list, whatever was written. */
  lemma CycleSameHashes<L>(leaf: Leaf<L>, replica: map<Key, L>, s: State<L>, puts: seq<Put<L>>)
    requires InStep(leaf, replica, s)
    ensures SameHashes(leaf, Replicate(replica, Cycle(leaf, s, puts)), Contents(Cycle(leaf, s, puts)))
  {
    var end := Cycle(leaf, s, puts);
    forall k
      ensures k in Replicate(replica, end) <==> k in Contents(end)
      ensures k in Contents(end) ==> leaf.hash(Replicate(replica, end)[k]) == leaf.hash(Contents(end)[k])
    {
      CycleAt(leaf, s, puts, k);
    }
  }

  lemma CycleInStep<L(!new)>(leaf: Leaf<L>, replica: map<Key, L>, s: State<L>, puts: seq<Put<L>>)
    requires InStep(leaf, replica, s) && Nonzero(leaf)
    ensures InStep(leaf, Replicate(replica, Cycle(leaf, s, puts)), Clear(leaf, Cycle(leaf, s, puts)))
  {
    var end := Cycle(leaf, s, puts);
    forall k | k in end.data ensures end.data[k].current == if end.data[k].touched then leaf.hash(end.data[k].v) else 0 {
      CycleAt(leaf, s, puts, k);
    }
    CycleSameHashes(leaf, replica, s, puts);
    RememberedIsInStep(leaf, Replicate(replica, end), end);
  }

  lemma RememberedIsInStep<L(!new)>(leaf: Leaf<L>, replica: map<Key, L>, end: State<L>)
    requires Nonzero(leaf) && SameHashes(leaf, replica, Contents(end))
    requires forall k :: k in end.data ==> end.data[k].current == if end.data[k].touched then leaf.hash(end.data[k].v) else 0
    ensures InStep(leaf, replica, Clear(leaf, end))
  {
  }

  /** The reader has exactly the list after every cycle. */
  ghost predicate ExactThroughout<L>(leaf: Leaf<L>, replica: map<Key, L>, s: State<L>, cycles: seq<seq<Put<L>>>)
    decreases |cycles|
  {
    |cycles| > 0 ==>
      var end := Cycle(leaf, s, cycles[0]);
      && Replicate(replica, end) == Contents(end)
      && ExactThroughout(leaf, Replicate(replica, end), Clear(leaf, end), cycles[1..])
  }

  lemma {:induction false} RunExact<L(!new)>(leaf: Leaf<L>, replica: map<Key, L>, s: State<L>, cycles: seq<seq<Put<L>>>)
    requires Nonzero(leaf) && Injective(leaf) && InStep(leaf, replica, s)
    ensures ExactThroughout(leaf, replica, s, cycles)
    decreases |cycles|
  {
    if |cycles| > 0 {
      var end := Cycle(leaf, s, cycles[0]);
      CycleSameHashes(leaf, replica, s, cycles[0]);
      assert forall k :: k in Contents(end) ==> Replicate(replica, end)[k] == Contents(end)[k];
      assert Replicate(replica, end) == Contents(end);
      CycleInStep(leaf, replica, s, cycles[0]);
      RunExact(leaf, Replicate(replica, end), Clear(leaf, end), cycles[1..]);
    }
  }

  function Overwrite<L>(key: Key, v: L): Put<L> {
    Put(key, (_: L) => v)
  }

  lemma OnePut<L>(leaf: Leaf<L>, s: State<L>, key: Key, v: L)
    requires Clean(s)
    ensures Cycle(leaf, s, [Overwrite(key, v)]).data
         == s.data[key := Item(v, true, Got(leaf, s.data, key).previous, leaf.hash(v))]
  {
    var puts := [Overwrite(key, v)];
    assert Keys(puts) == {key} by { assert |puts[1..]| == 0; }
    forall w: L ensures Written(w, key, puts) == v { assert |puts[1..]| == 0; }
    forall k ensures k in Cycle(leaf, s, puts).data <==> k in s.data || k == key { CycleAt(leaf, s, puts, k); }
    forall k | k in s.data || k == key
      ensures Cycle(leaf, s, puts).data[k] == s.data[key := Item(v, true, Got(leaf, s.data, key).previous, leaf.hash(v))][k]
    {
      CycleAt(leaf, s, puts, k);
    }
  }

  /** A value whose hash is 0 is never reported as deleted. */
  lemma ZeroHashStays<L>(leaf: Leaf<L>, v: L)
    requires leaf.hash(v) == 0
    ensures !ExactThroughout(leaf, map[], Start(), [[Overwrite("k", v)], []])
  {
    var s: State<L> := Start();
    var cycles: seq<seq<Put<L>>> := [[Overwrite("k", v)], []];
    OnePut(leaf, s, "k", v);
    var end := Cycle(leaf, s, cycles[0]);
    var replica, mid := Replicate(map[], end), Clear(leaf, end);
    CycleAt(leaf, mid, [], "k");
    assert "k" in Replicate(replica, Cycle(leaf, mid, [])) && "k" !in Contents(Cycle(leaf, mid, []));
    assert cycles[1..][0] == [];
  }

  /** A value that replaces another with the same hash is not reported. */
  lemma CollisionHides<L>(leaf: Leaf<L>, v: L, w: L)
    requires leaf.hash(v) == leaf.hash(w) != 0 && v != w
    ensures !ExactThroughout(leaf, map[], Start(), [[Overwrite("k", v)], [Overwrite("k", w)]])
  {
    var s: State<L> := Start();
    var cycles: seq<seq<Put<L>>> := [[Overwrite("k", v)], [Overwrite("k", w)]];
    OnePut(leaf, s, "k", v);
    var end := Cycle(leaf, s, cycles[0]);
    var replica, mid := Replicate(map[], end), Clear(leaf, end);
    OnePut(leaf, mid, "k", w);
    var last := Cycle(leaf, mid, cycles[1]);
    assert replica["k"] == v && Replicate(replica, last)["k"] == v && Contents(last)["k"] == w;
    assert cycles[1..][0] == cycles[1];
  }

  /** The reader has exactly the list after every cycle of every run
      if and only if hashes are never zero and never collide. */
  lemma FaithfulExactly<L(!new)>(leaf: Leaf<L>)
    ensures (forall cycles :: ExactThroughout(leaf, map[], Start(), cycles)) <==> Nonzero(leaf) && Injective(leaf)
  {
    if Nonzero(leaf) && Injective(leaf) {
      forall cycles ensures ExactThroughout(leaf, map[], Start(), cycles) { RunExact(leaf, map[], Start(), cycles); }
    } else if v :| leaf.hash(v) == 0 {
      ZeroHashStays(leaf, v);
    } else {
      var v, w :| leaf.hash(v) == leaf.hash(w) && v != w;
      CollisionHides(leaf, v, w);
    }
  }

  // The store

  function IsTouched<L>(data: Data<L>): Key -> bool {
    (k: Key) => k in data && data[k].touched
  }

  function IsDeleted<L>(data: Data<L>): Key -> bool {
    (k: Key) => k in data && data[k].Deleted()
  }

  function IsChanged<L>(data: Data<L>): Key -> bool {
    (k: Key) => k in data && data[k].Changed()
  }

  method HashEach<L>(leaf: Leaf<L>, data: Data<L>, keys: seq<Key>) returns (hashed: Data<L>)
    requires forall k :: k in keys <==> k in data
    ensures hashed == map k | k in data :: Hashed(leaf, data[k])
  {
    hashed := data;
    for i := 0 to |keys|
      invariant hashed.Keys == data.Keys
      invariant forall k :: k in data ==> hashed[k] == if k in keys[..i] then Hashed(leaf, data[k]) else data[k]
    {
      var k := keys[i];
      if hashed[k].touched {
        hashed := hashed[k := hashed[k].(current := leaf.hash(hashed[k].v))];
      }
      assert keys[..i + 1] == keys[..i] + [k];
    }
    assert keys[..|keys|] == keys;
  }

  /** The first part of Reset: items seen in this cycle or the last start anew, the others are to be deleted. */
  method RenewEach<L>(leaf: Leaf<L>, data: Data<L>, keys: seq<Key>) returns (renewed: Data<L>, toDel: seq<Key>)
    requires (forall k :: k in keys <==> k in data) && Distinct(keys)
    ensures renewed.Keys == data.Keys
    ensures forall k :: k in data && !Dropped(data[k]) ==> renewed[k] == Renewed(leaf, data[k])
    ensures forall k :: k in toDel <==> k in data && Dropped(data[k])
  {
    renewed, toDel := data, [];
    for i := 0 to |keys|
      invariant renewed.Keys == data.Keys
      invariant forall k :: k in toDel <==> k in keys[..i] && Dropped(data[k])
      invariant forall k :: k in data && k !in keys[..i] ==> renewed[k] == data[k]
      invariant forall k :: k in keys[..i] && !Dropped(data[k]) ==> renewed[k] == Renewed(leaf, data[k])
    {
      var k := keys[i];
      var item := renewed[k];
      if item.previous == 0 && !item.touched {
        toDel := toDel + [k];
      } else {
        renewed := renewed[k := Item(leaf.reset(item.v), false, item.current, 0)];
      }
      assert keys[..i + 1] == keys[..i] + [k];
    }
    assert keys[..|keys|] == keys;
  }

  method Sweep<L>(leaf: Leaf<L>, data: Data<L>, keys: seq<Key>) returns (swept: Data<L>)
    requires (forall k :: k in keys <==> k in data) && Distinct(keys)
    ensures swept == map k | k in data && !Dropped(data[k]) :: Renewed(leaf, data[k])
  {
    var renewed, toDel := RenewEach(leaf, data, keys);
    swept := RemoveEach(renewed, toDel);
  }

  /** A walk that stops at the first key that passes. */
  method AnyPasses(keys: seq<Key>, wanted: Key -> bool) returns (found: bool)
    ensures found <==> exists k :: k in keys && wanted(k)
  {
    found := false;
    var i := 0;
    while i < |keys| && !found
      invariant i <= |keys| && (found ==> exists k :: k in keys && wanted(k))
      invariant !found ==> forall j :: 0 <= j < i ==> !wanted(keys[j])
    {
      found := wanted(keys[i]);
      i := i + 1;
    }
  }

  class Store<L> {
    const leaf: Leaf<L>
    var data: Data<L>
    var done: bool
    var touched: nat

    constructor (leaf: Leaf<L>)
      ensures this.leaf == leaf && Model() == Start()
    {
      this.leaf, data, done, touched := leaf, map[], false, 0;
    }

    ghost function Model(): State<L>
      reads this
    {
      State(data, done, touched)
    }

    method GetItem(key: Key) returns (item: Item<L>)
      modifies this
      ensures Model() == Get(leaf, old(Model()), key) && item == data[key]
    {
      if key !in data {
        data := data[key := Item(leaf.initial, false, 0, 0)];
      }
      item := data[key];
      if !item.touched {
        item := item.(touched := true);
        data := data[key := item];
        touched := touched + 1;
      }
      assert data == Get(leaf, old(Model()), key).data;
    }

    /** Get, then one write to the leaf. */
    method Update(put: Put<L>)
      modifies this
      ensures Model() == Write(leaf, old(Model()), put)
    {
      var item := GetItem(put.key);
      data := data[put.key := item.(v := put.write(item.v))];
    }

    method Done()
      modifies this
      ensures Model() == Finish(leaf, old(Model()))
    {
      data := HashEach(leaf, data, Walk(data.Keys));
      done := true;
    }

    /** The touched items in key order. */
    method List() returns (found: seq<Key>)
      ensures found == Walk(Contents(Model()).Keys)
    {
      found := Select(Walk(data.Keys), IsTouched(data));
      WalkFilter(data.Keys, IsTouched(data), Contents(Model()).Keys);
    }

    method Deleted() returns (found: seq<Key>)
      requires done
      ensures found == Walk(DeletedKeys(Model()))
    {
      found := Select(Walk(data.Keys), IsDeleted(data));
      WalkFilter(data.Keys, IsDeleted(data), DeletedKeys(Model()));
    }

    method Changed() returns (found: seq<Key>)
      requires done
      ensures found == Walk(ChangedItems(Model()).Keys)
    {
      found := Select(Walk(data.Keys), IsChanged(data));
      WalkFilter(data.Keys, IsChanged(data), ChangedItems(Model()).Keys);
    }

    method HasChanges() returns (changed: bool)
      requires done
      ensures changed <==> ChangedItems(Model()).Keys != {}
    {
      changed := AnyPasses(Walk(data.Keys), IsChanged(data));
      assert changed ==> exists k :: k in data.Keys && IsChanged(data)(k);
      assert forall k :: k in ChangedItems(Model()).Keys <==> k in data && data[k].Changed();
    }

    method Reset()
      modifies this
      ensures Model() == Clear(leaf, old(Model()))
    {
      WalkIsDistinct(data.Keys);
      data := Sweep(leaf, data, Walk(data.Keys));
      done, touched := false, 0;
    }
  }
}
