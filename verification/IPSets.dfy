/** Canonical IP sets: two sorted, duplicate-free lists, one per family. */
module IPSets {
  import ByteStrings
  import opened Scans

  datatype Family = NotAnIP | FamilyV4 | FamilyV6

  datatype IPSet = IPSet(v4: seq<string>, v6: seq<string>)

  ghost predicate Canonical(a: seq<string>) {
    Ascending(a, ByteStrings.Less)
  }

  // Insertion

  function Insert(a: seq<string>, s: string): seq<string> {
    if a == [] then [s]
    else if ByteStrings.Less(a[0], s) then [a[0]] + Insert(a[1..], s)
    else if a[0] == s then a
    else [s] + a
  }

  function InsertAll(a: seq<string>, ss: seq<string>): seq<string>
    decreases ss
  {
    if ss == [] then a else InsertAll(Insert(a, ss[0]), ss[1..])
  }

  lemma {:induction false} InsertMembers(a: seq<string>, s: string)
    ensures forall x :: x in Insert(a, s) <==> x in a || x == s
  {
    if a != [] && ByteStrings.Less(a[0], s) { InsertMembers(a[1..], s); }
  }

  lemma {:induction false} InsertKeepsCanonical(a: seq<string>, s: string)
    requires Canonical(a)
    ensures Canonical(Insert(a, s))
  {
    if a != [] {
      if ByteStrings.Less(a[0], s) {
        InsertKeepsCanonical(a[1..], s);
        InsertMembers(a[1..], s);
        var r := Insert(a[1..], s);
        forall j | 0 <= j < |r| ensures ByteStrings.Less(a[0], r[j]) {
          assert r[j] in r;
          if r[j] != s { assert r[j] in a[1..]; }
        }
      } else if a[0] != s {
        ByteStrings.Total(a[0], s);
        forall j | 0 <= j < |a| ensures ByteStrings.Less(s, a[j]) {
          if j > 0 { ByteStrings.Transitive(s, a[0], a[j]); }
        }
      }
    }
  }

  lemma {:induction false} InsertAllExact(a: seq<string>, ss: seq<string>)
    requires Canonical(a)
    ensures Canonical(InsertAll(a, ss))
    ensures forall x :: x in InsertAll(a, ss) <==> x in a || x in ss
    decreases ss
  {
    if ss != [] {
      InsertKeepsCanonical(a, ss[0]);
      InsertMembers(a, ss[0]);
      InsertAllExact(Insert(a, ss[0]), ss[1..]);
    }
  }

  lemma BelowOrNot(a: seq<string>, s: string, m: nat)
    requires Canonical(a) && m < |a|
    ensures ByteStrings.Less(a[m], s) ==> forall k :: 0 <= k < m ==> ByteStrings.Less(a[k], s)
    ensures !ByteStrings.Less(a[m], s) ==> forall k :: m < k < |a| ==> !ByteStrings.Less(a[k], s)
  {
    if ByteStrings.Less(a[m], s) {
      forall k | 0 <= k < m ensures ByteStrings.Less(a[k], s) { ByteStrings.Transitive(a[k], a[m], s); }
    } else {
      forall k | m < k < |a| ensures !ByteStrings.Less(a[k], s) {
        if ByteStrings.Less(a[k], s) { ByteStrings.Transitive(a[m], a[k], s); }
      }
    }
  }

  /** sort.SearchStrings: the first index whose element is not below s. */
  method SearchStrings(a: seq<string>, s: string) returns (idx: nat)
    requires Canonical(a)
    ensures idx <= |a|
    ensures forall k :: 0 <= k < idx ==> ByteStrings.Less(a[k], s)
    ensures forall k :: idx <= k < |a| ==> !ByteStrings.Less(a[k], s)
  {
    var i, j := 0, |a|;
    while i < j
      invariant 0 <= i <= j <= |a|
      invariant forall k :: 0 <= k < i ==> ByteStrings.Less(a[k], s)
      invariant forall k :: j <= k < |a| ==> !ByteStrings.Less(a[k], s)
    {
      var m := (i + j) / 2;
      BelowOrNot(a, s, m);
      if ByteStrings.Less(a[m], s) {
        i := m + 1;
      } else {
        j := m;
      }
    }
    idx := i;
  }

  lemma {:induction false} InsertAt(a: seq<string>, s: string, idx: nat)
    requires idx <= |a|
    requires forall k :: 0 <= k < idx ==> ByteStrings.Less(a[k], s)
    requires forall k :: idx <= k < |a| ==> !ByteStrings.Less(a[k], s)
    ensures Insert(a, s) == if idx < |a| && a[idx] == s then a else a[..idx] + [s] + a[idx..]
  {
    if idx > 0 {
      InsertAt(a[1..], s, idx - 1);
      assert a[..idx] == [a[0]] + a[1..][..idx - 1];
    }
  }

  class Set {
    var v4: seq<string>
    var v6: seq<string>

    ghost predicate Valid()
      reads this
    {
      Canonical(v4) && Canonical(v6)
    }

    constructor ()
      ensures Valid() && v4 == [] && v6 == []
    {
      v4, v6 := [], [];
    }

    /** insertString: grow by one, shift the tail, write. */
    static method InsertString(a: seq<string>, s: string) returns (r: seq<string>)
      requires Canonical(a)
      ensures r == Insert(a, s)
    {
      var idx := SearchStrings(a, s);
      InsertAt(a, s, idx);
      if idx != |a| && a[idx] == s { return a; }
      r := a + [""];
      r := r[..idx + 1] + r[idx..|r| - 1];
      r := r[idx := s];
      assert r == a[..idx] + [s] + a[idx..];
    }

    method Add(s: string, classify: string -> Family)
      requires Valid()
      modifies this
      ensures Valid()
      ensures IPSet(v4, v6) == Apply(old(IPSet(v4, v6)), classify, AddIP(s))
    {
      match classify(s)
      case NotAnIP =>
      case FamilyV6 =>
        InsertKeepsCanonical(v6, s);
        v6 := InsertString(v6, s);
      case FamilyV4 =>
        InsertKeepsCanonical(v4, s);
        v4 := InsertString(v4, s);
    }

    method AddSet(other4: seq<string>, other6: seq<string>)
      requires Valid()
      modifies this
      ensures Valid()
      ensures v4 == InsertAll(old(v4), other4) && v6 == InsertAll(old(v6), other6)
    {
      var i := 0;
      while i < |other4|
        invariant 0 <= i <= |other4| && Valid() && v6 == old(v6)
        invariant InsertAll(v4, other4[i..]) == InsertAll(old(v4), other4)
      {
        assert other4[i..][1..] == other4[i + 1..];
        InsertKeepsCanonical(v4, other4[i]);
        v4 := InsertString(v4, other4[i]);
        i := i + 1;
      }
      i := 0;
      while i < |other6|
        invariant 0 <= i <= |other6| && Valid() && v4 == InsertAll(old(v4), other4)
        invariant InsertAll(v6, other6[i..]) == InsertAll(old(v6), other6)
      {
        assert other6[i..][1..] == other6[i + 1..];
        InsertKeepsCanonical(v6, other6[i]);
        v6 := InsertString(v6, other6[i]);
        i := i + 1;
      }
    }
  }

  // Whole runs

  datatype Op = AddIP(s: string) | AddAll(v4: seq<string>, v6: seq<string>)

  function Apply(set_: IPSet, classify: string -> Family, op: Op): IPSet {
    match op
    case AddIP(s) =>
      (match classify(s)
       case NotAnIP => set_
       case FamilyV4 => set_.(v4 := Insert(set_.v4, s))
       case FamilyV6 => set_.(v6 := Insert(set_.v6, s)))
    case AddAll(v4, v6) => IPSet(InsertAll(set_.v4, v4), InsertAll(set_.v6, v6))
  }

  function Run(set_: IPSet, classify: string -> Family, ops: seq<Op>): IPSet
    decreases ops
  {
    if ops == [] then set_ else Run(Apply(set_, classify, ops[0]), classify, ops[1..])
  }

  /** The op asks for the string in the given family. */
  predicate Asks(classify: string -> Family, op: Op, s: string, family: Family) {
    match op
    case AddIP(t) => s == t && classify(s) == family
    case AddAll(v4, v6) => (family == FamilyV4 && s in v4) || (family == FamilyV6 && s in v6)
  }

  /** Some op of the run asks for the string in the given family. */
  ghost predicate Accepted(classify: string -> Family, ops: seq<Op>, s: string, family: Family) {
    exists i :: 0 <= i < |ops| && Asks(classify, ops[i], s, family)
  }

  function Members(set_: IPSet, family: Family): seq<string> {
    match family
    case NotAnIP => []
    case FamilyV4 => set_.v4
    case FamilyV6 => set_.v6
  }

  lemma {:induction false} RunExact(set_: IPSet, classify: string -> Family, ops: seq<Op>, family: Family)
    requires Canonical(Members(set_, family)) && family != NotAnIP
    ensures Canonical(Members(Run(set_, classify, ops), family))
    ensures forall s :: s in Members(Run(set_, classify, ops), family) <==>
              s in Members(set_, family) || Accepted(classify, ops, s, family)
    decreases ops
  {
    if ops != [] {
      var next := Apply(set_, classify, ops[0]);
      match ops[0] {
        case AddIP(t) =>
          InsertMembers(Members(set_, family), t);
          InsertKeepsCanonical(Members(set_, family), t);
        case AddAll(v4, v6) =>
          InsertAllExact(Members(set_, family), if family == FamilyV4 then v4 else v6);
      }
      RunExact(next, classify, ops[1..], family);
      forall s
        ensures Accepted(classify, ops, s, family) <==>
                Asks(classify, ops[0], s, family) || Accepted(classify, ops[1..], s, family)
      {
        if i :| 0 <= i < |ops| && Asks(classify, ops[i], s, family) {
          if i > 0 { assert Asks(classify, ops[1..][i - 1], s, family); }
        }
        if i :| 0 <= i < |ops[1..]| && Asks(classify, ops[1..][i], s, family) {
          assert Asks(classify, ops[i + 1], s, family);
        }
      }
    }
  }

  /** The lists depend only on the strings accepted, not on order or repetition. */
  lemma RunIsCanonical(classify: string -> Family, ops: seq<Op>, ops': seq<Op>, family: Family)
    requires family != NotAnIP
    requires forall s :: Accepted(classify, ops, s, family) <==> Accepted(classify, ops', s, family)
    ensures Members(Run(IPSet([], []), classify, ops), family) == Members(Run(IPSet([], []), classify, ops'), family)
  {
    RunExact(IPSet([], []), classify, ops, family);
    RunExact(IPSet([], []), classify, ops', family);
    ByteStrings.LessIsStrictTotal();
    AscendingUnique(Members(Run(IPSet([], []), classify, ops), family), Members(Run(IPSet([], []), classify, ops'), family), ByteStrings.Less);
  }

  // Differences

  function NotIn(to: seq<string>): string -> bool {
    (s: string) => s !in to
  }

  /** compareSlices: what from has and to has not, in the order of from. */
  method CompareSlices(from: seq<string>, to: seq<string>) returns (diff: seq<string>)
    ensures diff == Filter(from, NotIn(to))
  {
    diff := [];
    var i := 0;
    while i < |from|
      invariant 0 <= i <= |from|
      invariant diff + Filter(from[i..], NotIn(to)) == Filter(from, NotIn(to))
    {
      var found := false;
      var j := 0;
      while j < |to|
        invariant 0 <= j <= |to| && found == (from[i] in to[..j])
      {
        if from[i] == to[j] {
          found := true;
          assert from[i] in to[..j + 1];
          break;
        }
        j := j + 1;
      }
      assert found ==> from[i] in to;
      assert !found ==> to[..j] == to;
      assert from[i..][1..] == from[i + 1..];
      if !found { diff := diff + [from[i]]; }
      i := i + 1;
    }
  }

  /** Removing what Diff reports as removed and adding what it reports as added
      turns one canonical list into the other, as lists. */
  lemma DiffRebuilds(from: seq<string>, to: seq<string>)
    requires Canonical(from) && Canonical(to)
    ensures var added := Filter(to, NotIn(from)); var removed := Filter(from, NotIn(to));
            InsertAll(Filter(from, NotIn(removed)), added) == to
  {
    var added, removed := Filter(to, NotIn(from)), Filter(from, NotIn(to));
    var kept := Filter(from, NotIn(removed));
    FilterMembers(to, NotIn(from));
    FilterMembers(from, NotIn(to));
    FilterMembers(from, NotIn(removed));
    FilterAscends(from, NotIn(removed), ByteStrings.Less);
    InsertAllExact(kept, added);
    ByteStrings.LessIsStrictTotal();
    AscendingUnique(InsertAll(kept, added), to, ByteStrings.Less);
  }
}
