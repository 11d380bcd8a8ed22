/** Leaves for values that cannot be hashed: a counter that moves when a value is not equal to the one before. */
module AnyLeaf {
  import opened DiffStore
  import opened StringTrees

  datatype Any<T> = Any(value: T, hash: nat)

  type Equal<!T> = (T, T) -> bool

  function Set<T>(equal: Equal<T>, leaf: Any<T>, v: T): Any<T> {
    Any(v, if leaf.hash == 1 || !equal(leaf.value, v) then leaf.hash + 1 else leaf.hash)
  }

  /** A new leaf holds the type's zero value and counts from 1; resetting does nothing. */
  function Leaves<T>(zero: T): Leaf<Any<T>> {
    Leaf(Any(zero, 1), (l: Any<T>) => l, (l: Any<T>) => l.hash)
  }

  /** The Sets of one cycle. */
  type Sets<T> = seq<(Key, T)>

  function PutOf<T>(equal: Equal<T>, key: Key, v: T): Put<Any<T>> {
    Put(key, (l: Any<T>) => Set(equal, l, v))
  }

  function Puts<T>(equal: Equal<T>, sets: Sets<T>): seq<Put<Any<T>>>
    decreases |sets|
  {
    if |sets| == 0 then [] else [PutOf(equal, sets[0].0, sets[0].1)] + Puts(equal, sets[1..])
  }

  function ValuesOf<T>(key: Key, sets: Sets<T>): seq<T>
    decreases |sets|
  {
    if |sets| == 0 then [] else (if sets[0].0 == key then [sets[0].1] else []) + ValuesOf(key, sets[1..])
  }

  function KeysOf<T>(sets: Sets<T>): set<Key> {
    set i | 0 <= i < |sets| :: sets[i].0
  }

  function SetAll<T>(equal: Equal<T>, leaf: Any<T>, vs: seq<T>): Any<T>
    decreases |vs|
  {
    if |vs| == 0 then leaf else SetAll(equal, Set(equal, leaf, vs[0]), vs[1..])
  }

  /** No value of the list differs from the one before it. */
  predicate Steady<T>(equal: Equal<T>, v: T, vs: seq<T>)
    decreases |vs|
  {
    |vs| > 0 ==> equal(v, vs[0]) && Steady(equal, vs[0], vs[1..])
  }

  lemma {:induction false} PutsAre<T>(equal: Equal<T>, leaf: Any<T>, key: Key, sets: Sets<T>)
    ensures Written(leaf, key, Puts(equal, sets)) == SetAll(equal, leaf, ValuesOf(key, sets))
    ensures key in Keys(Puts(equal, sets)) <==> |ValuesOf(key, sets)| > 0
    decreases |sets|
  {
    if |sets| > 0 {
      assert Puts(equal, sets)[1..] == Puts(equal, sets[1..]);
      assert sets[0].0 != key ==> ValuesOf(key, sets) == ValuesOf(key, sets[1..]);
      assert sets[0].0 == key ==> ValuesOf(key, sets)[1..] == ValuesOf(key, sets[1..]);
      PutsAre(equal, if sets[0].0 == key then Set(equal, leaf, sets[0].1) else leaf, key, sets[1..]);
    }
  }

  lemma {:induction false} KeysHaveValues<T>(key: Key, sets: Sets<T>)
    ensures key in KeysOf(sets) <==> |ValuesOf(key, sets)| > 0
    decreases |sets|
  {
    if |sets| > 0 {
      KeysHaveValues(key, sets[1..]);
      assert KeysOf(sets) == {sets[0].0} + KeysOf(sets[1..]) by {
        assert sets == [sets[0]] + sets[1..];
        forall k | k in KeysOf(sets[1..]) ensures k in KeysOf(sets) {
          var i :| 0 <= i < |sets[1..]| && sets[1..][i].0 == k;
          assert sets[i + 1].0 == k;
        }
        forall k | k in KeysOf(sets) && k != sets[0].0 ensures k in KeysOf(sets[1..]) {
          var i :| 0 <= i < |sets| && sets[i].0 == k;
          assert sets[1..][i - 1].0 == k;
        }
      }
    }
  }

  /** The counter stands still exactly when no value moved. */
  lemma {:induction false} CounterMoves<T>(equal: Equal<T>, leaf: Any<T>, vs: seq<T>)
    requires leaf.hash >= 1
    ensures SetAll(equal, leaf, vs).hash >= leaf.hash
    ensures |vs| > 0 ==> SetAll(equal, leaf, vs).value == vs[|vs| - 1] && SetAll(equal, leaf, vs).hash >= 2
    ensures |vs| > 0 ==> (SetAll(equal, leaf, vs).hash == leaf.hash <==> leaf.hash != 1 && Steady(equal, leaf.value, vs))
    decreases |vs|
  {
    if |vs| > 0 { CounterMoves(equal, Set(equal, leaf, vs[0]), vs[1..]); }
  }

  /** What the cycle sets; of several Sets the last one stays. */
  function Latest<T>(sets: Sets<T>): map<Key, T> {
    map k | k in KeysOf(sets) && |ValuesOf(k, sets)| > 0 :: ValuesOf(k, sets)[|ValuesOf(k, sets)| - 1]
  }

  /** Between cycles: the items of the last cycle remember its values, and no other item counts. */
  ghost predicate Recalls<T>(last: map<Key, T>, s: State<Any<T>>) {
    && Clean(s)
    && (forall k :: k in s.data ==> s.data[k].v.hash >= 2)
    && (forall k :: k in last <==> k in s.data && s.data[k].previous != 0)
    && (forall k :: k in last ==> s.data[k].previous == s.data[k].v.hash && s.data[k].v.value == last[k])
  }

  /** What a cycle reports: a change exactly where the key was not set in the last cycle or a value moved,
      a deletion exactly where it was set in the last cycle only. */
  ghost predicate ReportsAt<T>(equal: Equal<T>, last: map<Key, T>, end: State<Any<T>>, sets: Sets<T>, k: Key) {
    && (k in Contents(end) <==> k in Latest(sets))
    && (k in Contents(end) ==> Contents(end)[k].value == Latest(sets)[k])
    && (k in ChangedItems(end) <==> k in Latest(sets) && (k in last ==> !Steady(equal, last[k], ValuesOf(k, sets))))
    && (k in DeletedKeys(end) <==> k in last && k !in Latest(sets))
  }

  lemma CycleReportsAt<T>(equal: Equal<T>, zero: T, last: map<Key, T>, s: State<Any<T>>, sets: Sets<T>, k: Key)
    requires Recalls(last, s)
    ensures ReportsAt(equal, last, Cycle(Leaves(zero), s, Puts(equal, sets)), sets, k)
  {
    var leaf := Leaves(zero);
    var got := Got(leaf, s.data, k);
    var end := Cycle(leaf, s, Puts(equal, sets));
    CycleAt(leaf, s, Puts(equal, sets), k);
    PutsAre(equal, got.v, k, sets);
    KeysHaveValues(k, sets);
    CounterMoves(equal, got.v, ValuesOf(k, sets));
    ItemReports(equal, last, end, sets, k, got);
  }

  /** What the item of a key says at the end of the cycle, from the item it was. */
  lemma ItemReports<T>(equal: Equal<T>, last: map<Key, T>, end: State<Any<T>>, sets: Sets<T>, k: Key, got: Item<Any<T>>)
    requires k in Latest(sets) <==> |ValuesOf(k, sets)| > 0
    requires k in last <==> got.previous != 0
    requires k in last ==> got.previous == got.v.hash != 1 && got.v.value == last[k]
    requires (var vs := ValuesOf(k, sets);
              if |vs| > 0 then
                && k in end.data && end.data[k].touched && end.data[k].previous == got.previous
                && end.data[k].current == end.data[k].v.hash && end.data[k].v.value == vs[|vs| - 1]
                && (end.data[k].v.hash == got.v.hash <==> got.v.hash != 1 && Steady(equal, got.v.value, vs))
              else
                (k in end.data ==> !end.data[k].touched && end.data[k].previous == got.previous) && (k in last ==> k in end.data))
    ensures ReportsAt(equal, last, end, sets, k)
  {
  }

  lemma CycleRecalls<T>(equal: Equal<T>, zero: T, last: map<Key, T>, s: State<Any<T>>, sets: Sets<T>)
    requires Recalls(last, s)
    ensures Recalls(Latest(sets), Clear(Leaves(zero), Cycle(Leaves(zero), s, Puts(equal, sets))))
  {
    var leaf := Leaves(zero);
    var end := Cycle(leaf, s, Puts(equal, sets));
    forall k
      ensures k in end.data ==> end.data[k].v.hash >= 2
      ensures k in Latest(sets) <==> k in end.data && end.data[k].touched
      ensures k in end.data ==> end.data[k].current == if end.data[k].touched then end.data[k].v.hash else 0
      ensures k in Latest(sets) ==> end.data[k].v.value == Latest(sets)[k]
    {
      CycleReportsAt(equal, zero, last, s, sets, k);
      CycleAt(leaf, s, Puts(equal, sets), k);
      PutsAre(equal, Got(leaf, s.data, k).v, k, sets);
      KeysHaveValues(k, sets);
      CounterMoves(equal, Got(leaf, s.data, k).v, ValuesOf(k, sets));
    }
    var next := Clear(leaf, end);
    forall k | k in end.data && !Dropped(end.data[k])
      ensures k in next.data && next.data[k] == Item(end.data[k].v, false, end.data[k].current, 0)
    {
    }
  }

  ghost predicate ReportsThroughout<T>(equal: Equal<T>, zero: T, last: map<Key, T>, s: State<Any<T>>, cycles: seq<Sets<T>>)
    decreases |cycles|
  {
    |cycles| > 0 ==>
      var end := Cycle(Leaves(zero), s, Puts(equal, cycles[0]));
      && (forall k :: ReportsAt(equal, last, end, cycles[0], k))
      && ReportsThroughout(equal, zero, Latest(cycles[0]), Clear(Leaves(zero), end), cycles[1..])
  }

  /** Every cycle of every run reports exactly what moved since the cycle before. */
  lemma {:induction false} RunReports<T>(equal: Equal<T>, zero: T, last: map<Key, T>, s: State<Any<T>>, cycles: seq<Sets<T>>)
    requires Recalls(last, s)
    ensures ReportsThroughout(equal, zero, last, s, cycles)
    decreases |cycles|
  {
    if |cycles| > 0 {
      var end := Cycle(Leaves(zero), s, Puts(equal, cycles[0]));
      forall k ensures ReportsAt(equal, last, end, cycles[0], k) { CycleReportsAt(equal, zero, last, s, cycles[0], k); }
      CycleRecalls(equal, zero, last, s, cycles[0]);
      RunReports(equal, zero, Latest(cycles[0]), Clear(Leaves(zero), end), cycles[1..]);
    }
  }

  // Replicas of values

  function Values<T>(items: map<Key, Any<T>>): map<Key, T> {
    map k | k in items :: items[k].value
  }

  function ReplicateValues<T>(replica: map<Key, T>, end: State<Any<T>>): map<Key, T> {
    (replica - DeletedKeys(end)) + Values(ChangedItems(end))
  }

  ghost predicate ExactValues<T>(equal: Equal<T>, zero: T, replica: map<Key, T>, s: State<Any<T>>, cycles: seq<Sets<T>>)
    decreases |cycles|
  {
    |cycles| > 0 ==>
      var end := Cycle(Leaves(zero), s, Puts(equal, cycles[0]));
      && ReplicateValues(replica, end) == Latest(cycles[0])
      && ExactValues(equal, zero, ReplicateValues(replica, end), Clear(Leaves(zero), end), cycles[1..])
  }

  ghost predicate Strict<T(!new)>(equal: Equal<T>) {
    forall a, b :: equal(a, b) ==> a == b
  }

  lemma {:induction false} SteadyIsSame<T(!new)>(equal: Equal<T>, v: T, vs: seq<T>)
    requires Strict(equal) && Steady(equal, v, vs) && |vs| > 0
    ensures vs[|vs| - 1] == v
    decreases |vs|
  {
    if |vs| > 1 { SteadyIsSame(equal, vs[0], vs[1..]); }
  }

  lemma {:induction false} RunValues<T(!new)>(equal: Equal<T>, zero: T, last: map<Key, T>, s: State<Any<T>>, cycles: seq<Sets<T>>)
    requires Strict(equal) && Recalls(last, s)
    ensures ExactValues(equal, zero, last, s, cycles)
    decreases |cycles|
  {
    if |cycles| > 0 {
      var end := Cycle(Leaves(zero), s, Puts(equal, cycles[0]));
      var replica, latest := ReplicateValues(last, end), Latest(cycles[0]);
      forall k
        ensures k in replica <==> k in latest
        ensures k in latest ==> replica[k] == latest[k]
      {
        CycleReportsAt(equal, zero, last, s, cycles[0], k);
        if k in latest && k !in ChangedItems(end) { SteadyIsSame(equal, last[k], ValuesOf(k, cycles[0])); }
      }
      assert replica == latest;
      CycleRecalls(equal, zero, last, s, cycles[0]);
      RunValues(equal, zero, latest, Clear(Leaves(zero), end), cycles[1..]);
    }
  }

  lemma OneSet<T>(k: Key, v: T)
    ensures ValuesOf(k, [(k, v)]) == [v] && Latest([(k, v)]) == map[k := v]
  {
    var sets := [(k, v)];
    assert sets[1..] == [];
    KeysHaveValues(k, sets);
    assert KeysOf(sets) == {k};
  }

  /** A value that passes for another is not reported. */
  lemma LooseEqualHides<T>(equal: Equal<T>, zero: T, a: T, b: T)
    requires equal(a, b) && a != b
    ensures !ExactValues(equal, zero, map[], Start(), [[("k", a)], [("k", b)]])
  {
    var cycles := [[("k", a)], [("k", b)]];
    var s: State<Any<T>> := Start();
    var end := Cycle(Leaves(zero), s, Puts(equal, cycles[0]));
    var replica := ReplicateValues(map[], end);
    OneSet("k", a);
    OneSet("k", b);
    CycleRecalls(equal, zero, map[], s, cycles[0]);
    if replica == Latest(cycles[0]) {
      var mid := Clear(Leaves(zero), end);
      CycleReportsAt(equal, zero, replica, mid, cycles[1], "k");
      assert Steady(equal, a, [b]);
      var last := Cycle(Leaves(zero), mid, Puts(equal, cycles[1]));
      assert ReplicateValues(replica, last)["k"] == a;
      assert cycles[1..][0] == cycles[1];
    }
  }

  /** A reader has exactly the values last set, after every cycle of every run,
      if and only if values that pass for equal are the same. */
  lemma ValuesFaithfulExactly<T(!new)>(equal: Equal<T>, zero: T)
    ensures (forall cycles :: ExactValues(equal, zero, map[], Start(), cycles)) <==> Strict(equal)
  {
    if Strict(equal) {
      forall cycles ensures ExactValues(equal, zero, map[], Start(), cycles) { RunValues(equal, zero, map[], Start(), cycles); }
    } else {
      var a, b :| equal(a, b) && a != b;
      LooseEqualHides(equal, zero, a, b);
    }
  }
}
