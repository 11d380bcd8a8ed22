/** A store of hashed entries that marks what changed since the last Reset.

    Used for mark and sweep: Reset(Deleted), then a Set for every entry that is still there;
    or incrementally: Reset(Unchanged), then Sets and Deletes. */
module LightDiffStore {
  import opened Options
  import opened Scans
  import opened StringTrees
  import ByteStrings

  datatype Mark = Unchanged | Changed | Deleted

  datatype Item<V> = Item(hash: nat, value: V, mark: Mark)

  type Tree<V> = map<Key, Item<V>>

  datatype Op<V> = Set(key: Key, hash: nat, value: V) | Delete(key: Key) | DeleteByPrefix(prefix: Key)

  // The operations

  function Cleared<V>(tree: Tree<V>, mark: Mark): Tree<V> {
    map k | k in tree && tree[k].mark != Deleted :: tree[k].(mark := mark)
  }

  function SetItem<V>(item: Item<V>, hash: nat, value: V): Item<V> {
    if item.hash != hash then Item(hash, value, Changed)
    else if item.mark == Deleted then Item(hash, value, Unchanged)
    else item
  }

  /** Delete on a missing key is an error of the caller. */
  predicate Allowed<V>(tree: Tree<V>, op: Op<V>) {
    op.Delete? ==> op.key in tree
  }

  function Apply<V>(tree: Tree<V>, op: Op<V>): Tree<V>
    requires Allowed(tree, op)
  {
    match op
    case Set(key, hash, value) =>
      tree[key := if key in tree then SetItem(tree[key], hash, value) else Item(hash, value, Changed)]
    case Delete(key) => tree[key := tree[key].(mark := Deleted)]
    case DeleteByPrefix(p) => map k | k in tree :: if ByteStrings.HasPrefix(k, p) then tree[k].(mark := Deleted) else tree[k]
  }

  predicate AllAllowed<V>(tree: Tree<V>, ops: seq<Op<V>>)
    decreases |ops|
  {
    |ops| > 0 ==> Allowed(tree, ops[0]) && AllAllowed(Apply(tree, ops[0]), ops[1..])
  }

  function ApplyAll<V>(tree: Tree<V>, ops: seq<Op<V>>): Tree<V>
    requires AllAllowed(tree, ops)
    decreases |ops|
  {
    if |ops| == 0 then tree else ApplyAll(Apply(tree, ops[0]), ops[1..])
  }

  // What the store shows

  function Live<V>(tree: Tree<V>): map<Key, nat> {
    map k | k in tree && tree[k].mark != Deleted :: tree[k].hash
  }

  function UpdatedHashes<V>(tree: Tree<V>): map<Key, nat> {
    map k | k in tree && tree[k].mark == Changed :: tree[k].hash
  }

  function DeletedKeys<V>(tree: Tree<V>): set<Key> {
    set k | k in tree && tree[k].mark == Deleted
  }

  /** A reader that removes what is deleted and stores what is updated. */
  function Replicate<V>(replica: map<Key, nat>, tree: Tree<V>): map<Key, nat> {
    (replica - DeletedKeys(tree)) + UpdatedHashes(tree)
  }

  // One key through one cycle

  datatype KeyOp = SetTo(hash: nat) | Del

  datatype Cell = Absent | Held(hash: nat, mark: Mark)

  function KeyStep(c: Cell, op: KeyOp): Cell {
    match op
    case SetTo(h) =>
      if c.Absent? || c.hash != h then Held(h, Changed) else if c.mark == Deleted then Held(h, Unchanged) else c
    case Del => if c.Absent? then c else c.(mark := Deleted)
  }

  function KeyRun(c: Cell, ops: seq<KeyOp>): Cell {
    if ops == [] then c else KeyStep(KeyRun(c, ops[..|ops| - 1]), ops[|ops| - 1])
  }

  /** The cell after a Reset, when the reader has the hash base. */
  function Initial(base: Option<nat>, mark: Mark): Cell {
    if base.None? then Absent else Held(base.value, mark)
  }

  function LiveHash(c: Cell): Option<nat> {
    if c.Absent? || c.mark == Deleted then None else Some(c.hash)
  }

  /** What the reader has under the key afterwards. */
  function Reported(base: Option<nat>, c: Cell): Option<nat> {
    if c.Absent? || c.mark == Unchanged then base else if c.mark == Deleted then None else Some(c.hash)
  }

  /** The hash last set under the key, deleted or not. */
  function LastHash(base: Option<nat>, ops: seq<KeyOp>): Option<nat> {
    if ops == [] then base
    else
      var n := |ops| - 1;
      if ops[n].SetTo? then Some(ops[n].hash) else LastHash(base, ops[..n])
  }

  /** Going back from the end there are only Sets to h, up to a deletion at which the key had h. */
  predicate Revives(base: Option<nat>, ops: seq<KeyOp>, h: nat) {
    ops != [] &&
    var n := |ops| - 1;
    if ops[n].Del? then LastHash(base, ops[..n]) == Some(h) else ops[n] == SetTo(h) && Revives(base, ops[..n], h)
  }

  /** The key is deleted and set again to the hash it had when deleted, which the reader never got. */
  predicate Lost(base: Option<nat>, ops: seq<KeyOp>) {
    ops != [] &&
    var last := ops[|ops| - 1];
    last.SetTo? && base != Some(last.hash) && Revives(base, ops[..|ops| - 1], last.hash)
  }

  lemma {:induction false} CellKeepsLastHash(base: Option<nat>, mark: Mark, ops: seq<KeyOp>)
    ensures (var c := KeyRun(Initial(base, mark), ops);
             LastHash(base, ops) == if c.Absent? then None else Some(c.hash))
  {
    if ops != [] { CellKeepsLastHash(base, mark, ops[..|ops| - 1]); }
  }

  lemma {:induction false} KeyExact(base: Option<nat>, mark: Mark, ops: seq<KeyOp>)
    ensures (var c := KeyRun(Initial(base, mark), ops);
             Reported(base, c) == LiveHash(c) <==> !Lost(base, ops))
    ensures (var c := KeyRun(Initial(base, mark), ops);
             c.Held? && ops != [] ==> (c.mark == Deleted <==> ops[|ops| - 1].Del?))
  {
    if ops != [] {
      var n := |ops| - 1;
      CellKeepsLastHash(base, mark, ops[..n]);
      KeyExact(base, mark, ops[..n]);
      if n > 0 { CellKeepsLastHash(base, mark, ops[..n][..n - 1]); }
    }
  }

  // All keys

  function KeyOpOf<V>(op: Op<V>, k: Key): seq<KeyOp> {
    match op
    case Set(key, hash, _) => if key == k then [SetTo(hash)] else []
    case Delete(key) => if key == k then [Del] else []
    case DeleteByPrefix(p) => if ByteStrings.HasPrefix(k, p) then [Del] else []
  }

  function OpsOn<V>(ops: seq<Op<V>>, k: Key): seq<KeyOp>
    decreases |ops|
  {
    if |ops| == 0 then [] else KeyOpOf(ops[0], k) + OpsOn(ops[1..], k)
  }

  function CellOf<V>(tree: Tree<V>, k: Key): Cell {
    if k in tree then Held(tree[k].hash, tree[k].mark) else Absent
  }

  function Base(replica: map<Key, nat>, k: Key): Option<nat> {
    if k in replica then Some(replica[k]) else None
  }

  lemma {:induction false} KeyRunConcat(c: Cell, a: seq<KeyOp>, b: seq<KeyOp>)
    ensures KeyRun(c, a + b) == KeyRun(KeyRun(c, a), b)
  {
    if b == [] {
      assert a + b == a;
    } else {
      assert (a + b)[..|a + b| - 1] == a + b[..|b| - 1];
      KeyRunConcat(c, a, b[..|b| - 1]);
    }
  }

  lemma ApplyAt<V>(tree: Tree<V>, op: Op<V>, k: Key)
    requires Allowed(tree, op)
    ensures CellOf(Apply(tree, op), k) == KeyRun(CellOf(tree, k), KeyOpOf(op, k))
  {
    if KeyOpOf(op, k) != [] { assert KeyOpOf(op, k)[..0] == []; }
  }

  lemma {:induction false} ApplyAllAt<V>(tree: Tree<V>, ops: seq<Op<V>>, k: Key)
    requires AllAllowed(tree, ops)
    ensures CellOf(ApplyAll(tree, ops), k) == KeyRun(CellOf(tree, k), OpsOn(ops, k))
    decreases |ops|
  {
    if |ops| > 0 {
      ApplyAt(tree, ops[0], k);
      ApplyAllAt(Apply(tree, ops[0]), ops[1..], k);
      KeyRunConcat(CellOf(tree, k), KeyOpOf(ops[0], k), OpsOn(ops[1..], k));
    }
  }

  lemma ReplicateAt<V>(replica: map<Key, nat>, tree: Tree<V>, k: Key)
    ensures Base(Replicate(replica, tree), k) == Reported(Base(replica, k), CellOf(tree, k))
    ensures Base(Live(tree), k) == LiveHash(CellOf(tree, k))
  {
  }

  lemma SameBases(a: map<Key, nat>, b: map<Key, nat>)
    ensures a == b <==> forall k :: Base(a, k) == Base(b, k)
  {
    if forall k :: Base(a, k) == Base(b, k) {
      forall k ensures (k in a <==> k in b) && (k in a ==> a[k] == b[k]) { assert Base(a, k) == Base(b, k); }
    }
  }

  /** One cycle: a Reset and the operations up to the next. */
  datatype Cycle<V> = Cycle(mark: Mark, ops: seq<Op<V>>)

  ghost predicate LosesNone<V>(replica: map<Key, nat>, ops: seq<Op<V>>) {
    forall k :: !Lost(Base(replica, k), OpsOn(ops, k))
  }

  /** From a reader that has what is live, one cycle leaves a reader that has what is live
      if and only if no key is lost by it. */
  lemma CycleExact<V>(tree: Tree<V>, c: Cycle<V>)
    requires AllAllowed(Cleared(tree, c.mark), c.ops)
    ensures (var end := ApplyAll(Cleared(tree, c.mark), c.ops);
             Replicate(Live(tree), end) == Live(end) <==> LosesNone(Live(tree), c.ops))
  {
    var start := Cleared(tree, c.mark);
    var end := ApplyAll(start, c.ops);
    forall k ensures Base(Replicate(Live(tree), end), k) == Base(Live(end), k) <==> !Lost(Base(Live(tree), k), OpsOn(c.ops, k)) {
      ReplicateAt(Live(tree), end, k);
      ApplyAllAt(start, c.ops, k);
      assert CellOf(start, k) == Initial(Base(Live(tree), k), c.mark);
      KeyExact(Base(Live(tree), k), c.mark, OpsOn(c.ops, k));
    }
    SameBases(Replicate(Live(tree), end), Live(end));
  }

  ghost predicate CyclesAllowed<V>(tree: Tree<V>, cycles: seq<Cycle<V>>)
    decreases |cycles|
  {
    |cycles| > 0 ==>
      && AllAllowed(Cleared(tree, cycles[0].mark), cycles[0].ops)
      && CyclesAllowed(ApplyAll(Cleared(tree, cycles[0].mark), cycles[0].ops), cycles[1..])
  }

  ghost predicate ExactThroughout<V>(replica: map<Key, nat>, tree: Tree<V>, cycles: seq<Cycle<V>>)
    requires CyclesAllowed(tree, cycles)
    decreases |cycles|
  {
    && replica == Live(tree)
    && (|cycles| > 0 ==>
          var end := ApplyAll(Cleared(tree, cycles[0].mark), cycles[0].ops);
          ExactThroughout(Replicate(replica, end), end, cycles[1..]))
  }

  ghost predicate NeverLoses<V>(tree: Tree<V>, cycles: seq<Cycle<V>>)
    requires CyclesAllowed(tree, cycles)
    decreases |cycles|
  {
    |cycles| > 0 ==>
      && LosesNone(Live(tree), cycles[0].ops)
      && NeverLoses(ApplyAll(Cleared(tree, cycles[0].mark), cycles[0].ops), cycles[1..])
  }

  /** The reader is exact after every cycle of a run if and only if no cycle loses a key. */
  lemma {:induction false} RunExact<V>(tree: Tree<V>, cycles: seq<Cycle<V>>)
    requires CyclesAllowed(tree, cycles)
    ensures ExactThroughout(Live(tree), tree, cycles) <==> NeverLoses(tree, cycles)
    decreases |cycles|
  {
    if |cycles| > 0 {
      var end := ApplyAll(Cleared(tree, cycles[0].mark), cycles[0].ops);
      CycleExact(tree, cycles[0]);
      RunExact(end, cycles[1..]);
    }
  }

  ghost predicate OnlySets<V>(ops: seq<Op<V>>) {
    forall i :: 0 <= i < |ops| ==> ops[i].Set?
  }

  lemma {:induction false} OnlySetsOn<V>(ops: seq<Op<V>>, k: Key)
    requires OnlySets(ops)
    ensures forall i :: 0 <= i < |OpsOn(ops, k)| ==> OpsOn(ops, k)[i].SetTo?
    decreases |ops|
  {
    if |ops| > 0 { OnlySetsOn(ops[1..], k); }
  }

  lemma {:induction false} NoDeletionNoRevival(base: Option<nat>, ops: seq<KeyOp>, h: nat)
    requires forall i :: 0 <= i < |ops| ==> ops[i].SetTo?
    ensures !Revives(base, ops, h)
  {
    if ops != [] { NoDeletionNoRevival(base, ops[..|ops| - 1], h); }
  }

  /** Cycles of Sets only lose nothing: mark and sweep is exact over every run. */
  lemma {:induction false} MarkAndSweepExact<V>(tree: Tree<V>, cycles: seq<Cycle<V>>)
    requires CyclesAllowed(tree, cycles) && forall i :: 0 <= i < |cycles| ==> OnlySets(cycles[i].ops)
    ensures ExactThroughout(Live(tree), tree, cycles)
    decreases |cycles|
  {
    if |cycles| > 0 {
      var ops := cycles[0].ops;
      forall k ensures !Lost(Base(Live(tree), k), OpsOn(ops, k)) {
        OnlySetsOn(ops, k);
        var on := OpsOn(ops, k);
        if on != [] && on[|on| - 1].SetTo? { NoDeletionNoRevival(Base(Live(tree), k), on[..|on| - 1], on[|on| - 1].hash); }
      }
      CycleExact(tree, cycles[0]);
      MarkAndSweepExact(ApplyAll(Cleared(tree, cycles[0].mark), ops), cycles[1..]);
    }
  }

  /** With at most one Set per key after Reset(Deleted), what is live are the keys and hashes set,
      and an entry is reported as updated exactly when its hash is new. */
  lemma MarkAndSweepMinimal<V>(tree: Tree<V>, ops: seq<Op<V>>, k: Key)
    requires OnlySets(ops) && |OpsOn(ops, k)| <= 1 && AllAllowed(Cleared(tree, Deleted), ops)
    ensures (var end := ApplyAll(Cleared(tree, Deleted), ops);
             && Base(Live(end), k) == LastHash(None, OpsOn(ops, k))
             && (k in UpdatedHashes(end) <==> k in Live(end) && Base(Live(tree), k) != Base(Live(end), k))
             && (k in DeletedKeys(end) <==> k in Live(tree) && k !in Live(end)))
  {
    var start := Cleared(tree, Deleted);
    var end := ApplyAll(start, ops);
    OnlySetsOn(ops, k);
    ApplyAllAt(start, ops, k);
    assert CellOf(start, k) == Initial(Base(Live(tree), k), Deleted);
    KeyMinimal(Base(Live(tree), k), OpsOn(ops, k));
    MarksAt(end, k);
    MarksAt(tree, k);
  }

  lemma KeyMinimal(base: Option<nat>, ops: seq<KeyOp>)
    requires |ops| <= 1 && forall i :: 0 <= i < |ops| ==> ops[i].SetTo?
    ensures (var c := KeyRun(Initial(base, Deleted), ops);
             && LiveHash(c) == LastHash(None, ops)
             && (c.Held? && c.mark == Changed <==> LiveHash(c).Some? && base != LiveHash(c))
             && (c.Held? && c.mark == Deleted <==> base.Some? && LiveHash(c).None?))
  {
    if |ops| == 1 { assert ops[..0] == []; }
  }

  lemma MarksAt<V>(tree: Tree<V>, k: Key)
    ensures (var c := CellOf(tree, k);
             && Base(Live(tree), k) == LiveHash(c)
             && (k in UpdatedHashes(tree) <==> c.Held? && c.mark == Changed)
             && (k in DeletedKeys(tree) <==> c.Held? && c.mark == Deleted)
             && (k in Live(tree) <==> LiveHash(c).Some?))
  {
  }

  /** Deleted and set again within one cycle, a new entry is not reported. */
  lemma RevivedEntryIsLost()
    ensures exists tree: Tree<int>, ops: seq<Op<int>> ::
              && AllAllowed(tree, ops)
              && "k" in Live(ApplyAll(tree, ops)) && "k" !in Replicate(map[], ApplyAll(tree, ops))
  {
    var tree: Tree<int> := map[];
    var ops := [Set("k", 1, 0), Delete("k"), Set("k", 1, 0)];
    var t1 := Apply(tree, ops[0]);
    var t2 := Apply(t1, ops[1]);
    assert ops[1..][1..] == [ops[2]] && ops[1..][0] == ops[1];
    assert [ops[2]][1..] == [];
    assert AllAllowed(t2, [ops[2]]);
    assert AllAllowed(t1, ops[1..]);
    assert AllAllowed(tree, ops);
    assert ApplyAll(t2, [ops[2]]) == Apply(t2, ops[2]);
    assert ApplyAll(t1, ops[1..]) == Apply(t2, ops[2]);
    assert ApplyAll(tree, ops) == Apply(t2, ops[2]);
  }

  // The store

  function IsMarked<V>(tree: Tree<V>, mark: Mark): Key -> bool {
    (k: Key) => k in tree && tree[k].mark == mark
  }

  function IsLive<V>(tree: Tree<V>): Key -> bool {
    (k: Key) => k in tree && tree[k].mark != Deleted
  }

  function Reversed<T>(s: seq<T>): seq<T> {
    if |s| == 0 then [] else Reversed(s[1..]) + [s[0]]
  }

  /** A walk downwards through everything. */
  method SelectDown(keys: seq<Key>, wanted: Key -> bool) returns (found: seq<Key>)
    ensures found == Reversed(Filter(keys, wanted))
  {
    found := [];
    var i := |keys|;
    while i > 0
      invariant 0 <= i <= |keys| && found == Reversed(Filter(keys[i..], wanted))
    {
      i := i - 1;
      ghost var rest := Filter(keys[i + 1..], wanted);
      assert keys[i..][1..] == keys[i + 1..];
      assert Filter(keys[i..], wanted) == (if wanted(keys[i]) then [keys[i]] else []) + rest;
      assert ([keys[i]] + rest)[1..] == rest && [] + rest == rest;
      if wanted(keys[i]) { found := found + [keys[i]]; }
    }
    assert keys[0..] == keys;
  }

  lemma MarkedIsCleared<V>(tree: Tree<V>, marked: Tree<V>, toDel: seq<Key>, mark: Mark)
    requires marked.Keys == tree.Keys
    requires forall k :: k in tree && tree[k].mark != Deleted ==> marked[k] == tree[k].(mark := mark)
    requires forall k :: k in toDel <==> k in tree && tree[k].mark == Deleted
    ensures marked - (set k | k in toDel) == Cleared(tree, mark)
  {
  }

  /** Mark every entry that is not deleted, and list the deleted ones. */
  method MarkEach<V>(tree: Tree<V>, keys: seq<Key>, mark: Mark) returns (marked: Tree<V>, toDel: seq<Key>)
    requires (forall k :: k in keys <==> k in tree) && Distinct(keys)
    ensures marked.Keys == tree.Keys
    ensures forall k :: k in tree && tree[k].mark != Deleted ==> marked[k] == tree[k].(mark := mark)
    ensures forall k :: k in toDel <==> k in tree && tree[k].mark == Deleted
  {
    marked, toDel := tree, [];
    for i := 0 to |keys|
      invariant marked.Keys == tree.Keys
      invariant forall k :: k in toDel <==> k in keys[..i] && tree[k].mark == Deleted
      invariant forall k :: k in tree && k !in keys[..i] ==> marked[k] == tree[k]
      invariant forall k :: k in keys[..i] && tree[k].mark != Deleted ==> marked[k] == tree[k].(mark := mark)
    {
      var k := keys[i];
      if marked[k].mark == Deleted {
        toDel := toDel + [k];
      } else {
        marked := marked[k := marked[k].(mark := mark)];
      }
      assert keys[..i + 1] == keys[..i] + [k];
    }
    assert keys[..|keys|] == keys;
  }

  method DeleteEach<V>(tree: Tree<V>, keys: seq<Key>, prefix: Key) returns (left: Tree<V>)
    requires forall k :: k in keys <==> k in tree && ByteStrings.HasPrefix(k, prefix)
    ensures left == Apply(tree, DeleteByPrefix(prefix))
  {
    left := tree;
    for i := 0 to |keys|
      invariant left == map k | k in tree :: if k in keys[..i] then tree[k].(mark := Deleted) else tree[k]
    {
      assert keys[i] in keys;
      left := left[keys[i] := left[keys[i]].(mark := Deleted)];
      assert keys[..i + 1] == keys[..i] + [keys[i]];
    }
    assert keys[..|keys|] == keys;
  }

  function LiveWithPrefix<V>(tree: Tree<V>, prefix: Key): set<Key> {
    set k | k in tree && tree[k].mark != Deleted && ByteStrings.HasPrefix(k, prefix)
  }

  /** A scan from the prefix that skips deleted entries finds the live entries with the prefix. */
  lemma LivePrefixScan<V>(tree: Tree<V>, prefix: Key)
    ensures Filter(PrefixScan(tree.Keys, prefix), IsLive(tree)) == Walk(LiveWithPrefix(tree, prefix))
  {
    var with_ := set k | k in tree.Keys && ByteStrings.HasPrefix(k, prefix);
    PrefixScanIsFilter(tree.Keys, prefix);
    WalkFilter(with_, IsLive(tree), LiveWithPrefix(tree, prefix));
  }

  ghost predicate Pairs<V>(tree: Tree<V>, items: seq<(Key, V)>, keys: seq<Key>) {
    && |items| == |keys|
    && forall i :: 0 <= i < |keys| ==> items[i].0 == keys[i] && keys[i] in tree && items[i].1 == tree[keys[i]].value
  }

  class DiffStore<V> {
    var tree: Tree<V>

    constructor ()
      ensures tree == map[]
    {
      tree := map[];
    }

    method Reset(mark: Mark)
      modifies this
      ensures tree == Cleared(old(tree), mark)
    {
      WalkIsDistinct(tree.Keys);
      var marked, toDel := MarkEach(tree, Walk(tree.Keys), mark);
      MarkedIsCleared(tree, marked, toDel, mark);
      tree := RemoveEach(marked, toDel);
    }

    method Set(key: Key, hash: nat, value: V)
      modifies this
      ensures tree == Apply(old(tree), Op.Set(key, hash, value))
    {
      if key !in tree {
        tree := tree[key := Item(hash, value, Changed)];
        return;
      }
      var v := tree[key];
      if v.hash == hash {
        if v.mark == Mark.Deleted { tree := tree[key := v.(value := value, mark := Unchanged)]; }
        return;
      }
      tree := tree[key := Item(hash, value, Changed)];
    }

    method Delete(key: Key)
      requires key in tree
      modifies this
      ensures tree == Apply(old(tree), Op.Delete(key))
    {
      tree := tree[key := tree[key].(mark := Mark.Deleted)];
    }

    method DeleteByPrefix(prefix: Key)
      modifies this
      ensures tree == Apply(old(tree), Op.DeleteByPrefix(prefix))
    {
      var hit := ScanPrefix(tree.Keys, prefix);
      PrefixScanIsFilter(tree.Keys, prefix);
      tree := DeleteEach(tree, hit, prefix);
    }

    /** The changed entries in key order. */
    method Updated() returns (updated: seq<Key>)
      ensures updated == Walk(UpdatedHashes(tree).Keys)
    {
      updated := Select(Walk(tree.Keys), IsMarked(tree, Changed));
      WalkFilter(tree.Keys, IsMarked(tree, Changed), UpdatedHashes(tree).Keys);
    }

    /** The deleted entries against key order. */
    method Deleted() returns (deleted: seq<Key>)
      ensures deleted == Reversed(Walk(DeletedKeys(tree)))
    {
      deleted := SelectDown(Walk(tree.Keys), IsMarked(tree, Mark.Deleted));
      WalkFilter(tree.Keys, IsMarked(tree, Mark.Deleted), DeletedKeys(tree));
    }

    /** Exactly the live entries with the prefix, in key order. */
    method GetByPrefix(prefix: Key) returns (items: seq<(Key, V)>)
      ensures Pairs(tree, items, Walk(LiveWithPrefix(tree, prefix)))
    {
      var hit := ScanPrefix(tree.Keys, prefix);
      var live := Select(hit, IsLive(tree));
      LivePrefixScan(tree, prefix);
      items := Pair(live);
    }

    method Pair(keys: seq<Key>) returns (items: seq<(Key, V)>)
      requires forall k :: k in keys ==> k in tree
      ensures Pairs(tree, items, keys)
    {
      items := [];
      for i := 0 to |keys|
        invariant |items| == i && forall j :: 0 <= j < i ==> items[j] == (keys[j], tree[keys[j]].value)
      {
        assert keys[i] in keys;
        items := items + [(keys[i], tree[keys[i]].value)];
      }
    }
  }
}
