/** Strings as Go compares them: byte by byte, a proper prefix first. */
module ByteStrings {
  import opened Scans

  predicate Less(a: string, b: string) {
    if |b| == 0 then false
    else if |a| == 0 then true
    else if a[0] != b[0] then a[0] < b[0]
    else Less(a[1..], b[1..])
  }

  predicate HasPrefix(s: string, p: string) {
    |p| <= |s| && s[..|p|] == p
  }

  lemma {:induction false} Irreflexive(a: string)
    ensures !Less(a, a)
  {
    if |a| > 0 { Irreflexive(a[1..]); }
  }

  lemma {:induction false} Transitive(a: string, b: string, c: string)
    requires Less(a, b) && Less(b, c)
    ensures Less(a, c)
  {
    if |a| > 0 && a[0] == b[0] && b[0] == c[0] { Transitive(a[1..], b[1..], c[1..]); }
  }

  lemma {:induction false} Total(a: string, b: string)
    ensures Less(a, b) || a == b || Less(b, a)
  {
    if |a| > 0 && |b| > 0 && a[0] == b[0] {
      Total(a[1..], b[1..]);
      assert a == [a[0]] + a[1..] && b == [b[0]] + b[1..];
    }
  }

  /** A string is never below its own prefix. */
  lemma {:induction false} PrefixNotAbove(s: string, p: string)
    requires HasPrefix(s, p)
    ensures !Less(s, p)
  {
    if |p| > 0 {
      assert s[1..][..|p| - 1] == p[1..];
      PrefixNotAbove(s[1..], p[1..]);
    }
  }

  /** The strings with a given prefix are contiguous from the prefix on. */
  lemma {:induction false} PrefixContiguous(p: string, a: string, b: string)
    requires !Less(a, p) && Less(a, b) && HasPrefix(b, p)
    ensures HasPrefix(a, p)
  {
    if |p| > 0 {
      assert b[1..][..|p| - 1] == p[1..];
      assert a[0] == p[0];
      PrefixContiguous(p[1..], a[1..], b[1..]);
      assert a[..|p|] == [a[0]] + a[1..][..|p| - 1];
    }
  }

  lemma LessIsStrictTotal()
    ensures StrictTotal(Less)
  {
    forall a ensures !Less(a, a) { Irreflexive(a); }
    forall a, b ensures Less(a, b) || a == b || Less(b, a) { Total(a, b); }
    forall a, b, c | Less(a, b) && Less(b, c) ensures Less(a, c) { Transitive(a, b, c); }
  }
}
