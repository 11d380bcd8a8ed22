/** Load balancing by a ladder of random rules: of n endpoints, rule i matches with probability 1/(n-i),
    and the last rule always matches. Probabilities are reals; they are printed with ten decimals. */
module Probability {
  import opened Options

  /** A rule sends a packet that matches to an endpoint; None always matches. */
  datatype Rule = Rule(endpoint: nat, probability: Option<real>)

  function Chance(r: Rule): real {
    if r.probability.Some? then r.probability.value else 1.0
  }

  /** The probability that a packet entering the chain goes to the endpoint. */
  function Share(rules: seq<Rule>, e: nat): real {
    if rules == [] then 0.0
    else (if rules[0].endpoint == e then Chance(rules[0]) else 0.0) + (1.0 - Chance(rules[0])) * Share(rules[1..], e)
  }

  /** The probability that some rule takes the packet. */
  function Taken(rules: seq<Rule>): real {
    if rules == [] then 0.0 else Chance(rules[0]) + (1.0 - Chance(rules[0])) * Taken(rules[1..])
  }

  function Direct(n: nat): real
    requires n > 0
  {
    1.0 / n as real
  }

  /** How 1/n is printed. */
  type Printer = nat -> real

  function Exactly(): Printer {
    (n: nat) => if n > 0 then Direct(n) else 0.0
  }

  /** The rule of endpoint i; an endpoint without an IP is skipped. */
  function RuleOf(ips: seq<string>, i: nat, print_: Printer): seq<Rule>
    requires i < |ips|
  {
    if ips[i] == "" then [] else [Rule(i, if i < |ips| - 1 then Some(print_(|ips| - i)) else None)]
  }

  function LadderFrom(ips: seq<string>, i: nat, print_: Printer): seq<Rule>
    requires i <= |ips|
    decreases |ips| - i
  {
    if i == |ips| then [] else RuleOf(ips, i, print_) + LadderFrom(ips, i + 1, print_)
  }

  function Ladder(ips: seq<string>, print_: Printer): seq<Rule> {
    LadderFrom(ips, 0, print_)
  }

  // Exact shares

  lemma LadderStep(ips: seq<string>, i: nat, print_: Printer, e: nat)
    requires i < |ips|
    ensures (var rest := Share(LadderFrom(ips, i + 1, print_), e);
             var p := if i < |ips| - 1 then print_(|ips| - i) else 1.0;
             Share(LadderFrom(ips, i, print_), e) ==
             if ips[i] == "" then rest else (if i == e then p else 0.0) + (1.0 - p) * rest)
  {
    var rest := LadderFrom(ips, i + 1, print_);
    if ips[i] == "" {
      assert [] + rest == rest;
    } else {
      assert (RuleOf(ips, i, print_) + rest)[1..] == rest;
    }
  }

  lemma {:induction false} NoRuleNoShare(ips: seq<string>, i: nat, print_: Printer, e: nat)
    requires e < i <= |ips|
    ensures Share(LadderFrom(ips, i, print_), e) == 0.0
    decreases |ips| - i
  {
    if i < |ips| {
      NoRuleNoShare(ips, i + 1, print_, e);
      LadderStep(ips, i, print_, e);
    }
  }

  lemma Telescopes(m: nat, f: real)
    requires m > 1
    ensures f == Direct(m - 1) ==> (1.0 - Direct(m)) * f == Direct(m)
    ensures f > Direct(m - 1) ==> (1.0 - Direct(m)) * f > Direct(m)
    ensures Direct(m - 1) > Direct(m)
  {
    var a := m as real;
    assert (m - 1) as real == a - 1.0;
    assert (1.0 - 1.0 / a) * (1.0 / (a - 1.0)) == 1.0 / a by {
      assert (1.0 - 1.0 / a) * a == a - 1.0;
      assert (1.0 - 1.0 / a) == (a - 1.0) / a;
    }
    Steeper(1.0 - 1.0 / a, 1.0 / (a - 1.0), f);
  }

  lemma Steeper(c: real, x: real, y: real)
    requires c > 0.0
    ensures y > x ==> c * y > c * x
  {
  }

  ghost predicate SkippedBetween(ips: seq<string>, i: nat, e: nat) {
    exists k :: i <= k < e && k < |ips| && ips[k] == ""
  }

  lemma SkippedSplit(ips: seq<string>, i: nat, e: nat)
    requires i < e < |ips|
    ensures SkippedBetween(ips, i, e) <==> ips[i] == "" || SkippedBetween(ips, i + 1, e)
  {
  }

  /** The share at one rung, from the share at the next. */
  lemma Rung(m: nat, here: bool, below: bool, rest: real, share: real)
    requires m > 1 && (if below then rest > Direct(m - 1) else rest == Direct(m - 1))
    requires IsRung(here, Direct(m), share, rest)
    ensures if here || below then share > Direct(m) else share == Direct(m)
  {
    Telescopes(m, rest);
  }

  ghost predicate ShareIs(ips: seq<string>, i: nat, e: nat, share: real)
    requires i <= e < |ips|
  {
    if SkippedBetween(ips, i, e) then share > Direct(|ips| - i) else share == Direct(|ips| - i)
  }

  function ShareAt(ips: seq<string>, i: nat, print_: Printer, e: nat): real
    requires i <= |ips|
  {
    Share(LadderFrom(ips, i, print_), e)
  }

  /** The share at one rule, given the share at the next, for an endpoint further on. */
  ghost predicate IsRung(skipped: bool, chance: real, share: real, next: real) {
    share == if skipped then next else (1.0 - chance) * next
  }

  lemma RungHolds(ips: seq<string>, i: nat, e: nat, print_: Printer)
    requires i < e < |ips|
    ensures IsRung(ips[i] == "", print_(|ips| - i), ShareAt(ips, i, print_, e), ShareAt(ips, i + 1, print_, e))
  {
    LadderStep(ips, i, print_, e);
  }

  /** An endpoint's share of the packets that reach each rule up to its own. */
  function Table(ips: seq<string>, e: nat, print_: Printer): seq<real>
    requires e < |ips|
  {
    seq(e + 1, (k: nat) requires k <= e => ShareAt(ips, k, print_, e))
  }

  lemma TableRungs(ips: seq<string>, e: nat, print_: Printer)
    requires e < |ips|
    ensures forall k :: 0 <= k < e ==> IsRung(ips[k] == "", print_(|ips| - k), Table(ips, e, print_)[k], Table(ips, e, print_)[k + 1])
  {
    forall k | 0 <= k < e ensures IsRung(ips[k] == "", print_(|ips| - k), Table(ips, e, print_)[k], Table(ips, e, print_)[k + 1]) {
      RungHolds(ips, k, e, print_);
    }
  }

  /** The endpoint's own rung. */
  lemma LastRung(ips: seq<string>, e: nat, print_: Printer)
    requires e < |ips|
    ensures Table(ips, e, print_)[e] == if ips[e] == "" then 0.0 else if e == |ips| - 1 then 1.0 else print_(|ips| - e)
  {
    LadderStep(ips, e, print_, e);
    NoRuleNoShare(ips, e + 1, print_, e);
  }

  lemma {:induction false} TableShares(ips: seq<string>, f: seq<real>, i: nat, e: nat)
    requires i <= e < |ips| && |f| == e + 1 && f[e] == Direct(|ips| - e)
    requires forall k :: 0 <= k < e ==> IsRung(ips[k] == "", Direct(|ips| - k), f[k], f[k + 1])
    ensures ShareIs(ips, i, e, f[i])
    decreases e - i
  {
    if i < e {
      TableShares(ips, f, i + 1, e);
      SkippedSplit(ips, i, e);
      Rung(|ips| - i, ips[i] == "", SkippedBetween(ips, i + 1, e), f[i + 1], f[i]);
    }
  }

  /** Of n endpoints, one that has an IP gets exactly 1/n of the packets if and only if
      no endpoint before it is skipped; otherwise it gets more. */
  lemma ShareExactly(ips: seq<string>, e: nat)
    requires e < |ips| && ips[e] != ""
    ensures Share(Ladder(ips, Exactly()), e) >= Direct(|ips|)
    ensures Share(Ladder(ips, Exactly()), e) == Direct(|ips|) <==> !SkippedBetween(ips, 0, e)
  {
    var f := Table(ips, e, Exactly());
    TableRungs(ips, e, Exactly());
    LastRung(ips, e, Exactly());
    TableShares(ips, f, 0, e);
    assert f[0] == Share(Ladder(ips, Exactly()), e);
  }

  /** When every endpoint has an IP, all get the same. */
  lemma AllEqualShares(ips: seq<string>, e: nat)
    requires e < |ips| && forall k :: 0 <= k < |ips| ==> ips[k] != ""
    ensures Share(Ladder(ips, Exactly()), e) == Direct(|ips|)
  {
    ShareExactly(ips, e);
  }

  /** A skipped endpoint leaves its share to those after it. */
  lemma SkippedShareMoves()
    ensures Share(Ladder(["10.0.0.1", "", "10.0.0.3"], Exactly()), 2) > Direct(3)
  {
    var ips := ["10.0.0.1", "", "10.0.0.3"];
    assert ips[1] == "" && SkippedBetween(ips, 0, 2);
    ShareExactly(ips, 2);
  }

  // Packets that fall through

  lemma DirectIsChance(n: nat)
    requires n > 0
    ensures 0.0 < Direct(n) <= 1.0
  {
    assert n as real >= 1.0;
  }

  function TakenAt(ips: seq<string>, i: nat): real
    requires i <= |ips|
  {
    Taken(LadderFrom(ips, i, Exactly()))
  }

  ghost predicate IsTaken(skipped: bool, chance: real, taken: real, next: real) {
    taken == if skipped then next else chance + (1.0 - chance) * next
  }

  lemma TakenHolds(ips: seq<string>, i: nat)
    requires i < |ips| - 1
    ensures IsTaken(ips[i] == "", Direct(|ips| - i), TakenAt(ips, i), TakenAt(ips, i + 1))
  {
    var rest := LadderFrom(ips, i + 1, Exactly());
    assert [] + rest == rest;
    if ips[i] != "" { assert (RuleOf(ips, i, Exactly()) + rest)[1..] == rest; }
  }

  lemma LastTaken(ips: seq<string>)
    requires ips != []
    ensures TakenAt(ips, |ips| - 1) == if ips[|ips| - 1] == "" then 0.0 else 1.0
  {
    var n := |ips| - 1;
    var rest := LadderFrom(ips, n + 1, Exactly());
    assert rest == [];
    assert LadderFrom(ips, n, Exactly()) == RuleOf(ips, n, Exactly());
    if ips[n] != "" { assert RuleOf(ips, n, Exactly())[1..] == []; }
  }

  lemma Mix(m: nat, skipped: bool, taken: real, next: real)
    requires m > 1 && IsTaken(skipped, Direct(m), taken, next)
    ensures next == 1.0 ==> taken == 1.0
    ensures next < 1.0 ==> taken < 1.0
  {
    DirectIsChance(m);
    Telescopes(m, 0.0);
    DirectIsChance(m - 1);
    Steeper(1.0 - Direct(m), next, 1.0);
  }

  lemma {:induction false} TableTaken(ips: seq<string>, f: seq<real>, i: nat)
    requires i < |ips| == |f| && f[|f| - 1] == if ips[|ips| - 1] == "" then 0.0 else 1.0
    requires forall k :: 0 <= k < |ips| - 1 ==> IsTaken(ips[k] == "", Direct(|ips| - k), f[k], f[k + 1])
    ensures if ips[|ips| - 1] != "" then f[i] == 1.0 else f[i] < 1.0
    decreases |ips| - i
  {
    if i < |ips| - 1 {
      TableTaken(ips, f, i + 1);
      Mix(|ips| - i, ips[i] == "", f[i], f[i + 1]);
    }
  }

  /** Every packet is taken if and only if the last endpoint has an IP. */
  lemma AllTakenExactly(ips: seq<string>)
    requires ips != []
    ensures Taken(Ladder(ips, Exactly())) == 1.0 <==> ips[|ips| - 1] != ""
  {
    var f := seq(|ips|, (k: nat) requires k < |ips| => TakenAt(ips, k));
    forall k | 0 <= k < |ips| - 1 ensures IsTaken(ips[k] == "", Direct(|ips| - k), f[k], f[k + 1]) { TakenHolds(ips, k); }
    LastTaken(ips);
    TableTaken(ips, f, 0);
    assert f[0] == Taken(Ladder(ips, Exactly()));
  }

  // Printed probabilities

  const HALF_UNIT := 0.000_000_000_05

  /** Rounded to ten decimals. */
  function Rounded(x: real): real {
    (x * 10_000_000_000.0 + 0.5).Floor as real / 10_000_000_000.0
  }

  lemma RoundedIsNear(x: real)
    ensures -HALF_UNIT <= Rounded(x) - x <= HALF_UNIT
    ensures 0.0 <= x <= 1.0 ==> 0.0 <= Rounded(x) <= 1.0
  {
  }

  function TenDecimals(): Printer {
    (n: nat) => if n > 0 then Rounded(Direct(n)) else 0.0
  }

  ghost predicate Near(x: real, y: real, bound: real) {
    -bound <= x - y <= bound
  }

  /** A printer of probabilities that is off by at most eps. */
  ghost predicate Prints(print_: Printer, eps: real) {
    forall n :: n > 0 ==> 0.0 <= print_(n) <= 1.0 && Near(print_(n), Direct(n), eps)
  }

  lemma Shrinks(a: real, x: real, d: real)
    requires 0.0 <= a <= 1.0 && -d <= x <= d
    ensures -d <= a * x <= d
  {
    assert a * (d - x) >= 0.0 && a * (d + x) >= 0.0;
    assert (1.0 - a) * d >= 0.0;
  }

  lemma Perturbs(p: real, q: real, f: real, g: real, eps: real, d: real)
    requires 0.0 <= q <= 1.0 && 0.0 <= f <= 1.0 && Near(q, p, eps) && Near(g, f, d)
    ensures Near((1.0 - q) * g, (1.0 - p) * f, eps + d)
  {
    Shrinks(1.0 - q, g - f, d);
    Shrinks(f, p - q, eps);
    assert (1.0 - q) * g - (1.0 - p) * f == (1.0 - q) * (g - f) + f * (p - q);
  }

  lemma Product(a: real, b: real)
    requires 0.0 <= a && 0.0 <= b
    ensures 0.0 <= a * b
  {
  }

  lemma ConvexIsChance(p: real, f: real)
    requires 0.0 <= p <= 1.0 && 0.0 <= f <= 1.0
    ensures 0.0 <= (1.0 - p) * f <= 1.0
  {
    Product(1.0 - p, f);
    Product(1.0 - p, 1.0 - f);
    assert (1.0 - p) * (1.0 - f) == (1.0 - p) - (1.0 - p) * f;
  }

  function Bound(eps: real, rungs: nat): real {
    rungs as real * eps
  }

  lemma RungsStayNear(skipped: bool, p: real, q: real, f: real, f': real, g: real, g': real, eps: real, d: real)
    requires IsRung(skipped, p, f, f') && IsRung(skipped, q, g, g')
    requires 0.0 <= q <= 1.0 && 0.0 <= f' <= 1.0 && Near(q, p, eps) && Near(g', f', d) && eps >= 0.0
    ensures Near(g, f, eps + d)
  {
    if !skipped { Perturbs(p, q, f', g', eps, d); }
  }

  lemma {:induction false} TablesStayNear(ips: seq<string>, f: seq<real>, g: seq<real>, i: nat, e: nat, print_: Printer, eps: real)
    requires i <= e < |ips| && |f| == |g| == e + 1 && Prints(print_, eps) && eps >= 0.0
    requires forall k :: 0 <= k <= e ==> 0.0 <= f[k] <= 1.0
    requires forall k :: 0 <= k < e ==> IsRung(ips[k] == "", Direct(|ips| - k), f[k], f[k + 1]) && IsRung(ips[k] == "", print_(|ips| - k), g[k], g[k + 1])
    requires Near(g[e], f[e], eps)
    ensures Near(g[i], f[i], Bound(eps, e - i + 1))
    decreases e - i
  {
    if i < e {
      TablesStayNear(ips, f, g, i + 1, e, print_, eps);
      var m := |ips| - i;
      assert Near(print_(m), Direct(m), eps);
      RungsStayNear(ips[i] == "", Direct(m), print_(m), f[i], f[i + 1], g[i], g[i + 1], eps, Bound(eps, e - i));
      BoundStep(eps, e - i);
    }
  }

  lemma {:induction false} TableIsChance(ips: seq<string>, f: seq<real>, i: nat, e: nat)
    requires i <= e < |ips| && |f| == e + 1 && 0.0 <= f[e] <= 1.0
    requires forall k :: 0 <= k < e ==> IsRung(ips[k] == "", Direct(|ips| - k), f[k], f[k + 1])
    ensures 0.0 <= f[i] <= 1.0
    decreases e - i
  {
    if i < e {
      TableIsChance(ips, f, i + 1, e);
      DirectIsChance(|ips| - i);
      ConvexIsChance(Direct(|ips| - i), f[i + 1]);
    }
  }

  ghost predicate IsTable(ips: seq<string>, f: seq<real>, e: nat, print_: Printer)
    requires e < |ips|
  {
    && |f| == e + 1
    && (forall k :: 0 <= k < e ==> IsRung(ips[k] == "", print_(|ips| - k), f[k], f[k + 1]))
    && f[e] == if ips[e] == "" then 0.0 else if e == |ips| - 1 then 1.0 else print_(|ips| - e)
  }

  lemma TableIs(ips: seq<string>, e: nat, print_: Printer)
    requires e < |ips|
    ensures IsTable(ips, Table(ips, e, print_), e, print_)
  {
    TableRungs(ips, e, print_);
    LastRung(ips, e, print_);
  }

  lemma PrintedTables(ips: seq<string>, f: seq<real>, g: seq<real>, e: nat, print_: Printer, eps: real)
    requires e < |ips| && Prints(print_, eps) && eps >= 0.0 && IsTable(ips, f, e, Exactly()) && IsTable(ips, g, e, print_)
    ensures Near(g[0], f[0], Bound(eps, e + 1))
  {
    var m := |ips| - e;
    DirectIsChance(m);
    assert Near(print_(m), Direct(m), eps);
    forall k | 0 <= k <= e ensures 0.0 <= f[k] <= 1.0 { TableIsChance(ips, f, k, e); }
    TablesStayNear(ips, f, g, 0, e, print_, eps);
  }

  /** For any printer that is off by at most eps, the share of endpoint e is off by at most e + 1 times eps. */
  lemma PrintedShares(ips: seq<string>, e: nat, print_: Printer, eps: real)
    requires e < |ips| && Prints(print_, eps) && eps >= 0.0
    ensures Near(Table(ips, e, print_)[0], Table(ips, e, Exactly())[0], Bound(eps, e + 1))
  {
    TableIs(ips, e, Exactly());
    TableIs(ips, e, print_);
    PrintedTables(ips, Table(ips, e, Exactly()), Table(ips, e, print_), e, print_, eps);
  }

  lemma BoundStep(eps: real, rungs: nat)
    ensures Bound(eps, rungs + 1) == eps + Bound(eps, rungs)
  {
    assert (rungs + 1) as real == rungs as real + 1.0;
  }

  lemma TenDecimalsPrints()
    ensures Prints(TenDecimals(), HALF_UNIT)
  {
    forall n: nat | n > 0 ensures 0.0 <= TenDecimals()(n) <= 1.0 && Near(TenDecimals()(n), Direct(n), HALF_UNIT) {
      DirectIsChance(n);
      RoundedIsNear(Direct(n));
    }
  }

  /** With ten printed decimals, the share of endpoint i differs from 1/n by at most (i + 1) times 5e-11. */
  lemma PrintedShare(ips: seq<string>, e: nat)
    requires e < |ips| && forall k :: 0 <= k < |ips| ==> ips[k] != ""
    ensures Near(Share(Ladder(ips, TenDecimals()), e), Direct(|ips|), Bound(HALF_UNIT, e + 1))
  {
    TenDecimalsPrints();
    PrintedShares(ips, e, TenDecimals(), HALF_UNIT);
    assert Table(ips, e, TenDecimals())[0] == Share(Ladder(ips, TenDecimals()), e);
    assert Table(ips, e, Exactly())[0] == Share(Ladder(ips, Exactly()), e);
    AllEqualShares(ips, e);
  }

  // The rule writer and its cache

  class Balancing {
    /** What 1/n prints as, by n; there is nothing to print for 0. */
    var precomputed: seq<Option<real>>
    var natRules: seq<Rule>

    constructor ()
      ensures Valid() && natRules == []
    {
      precomputed, natRules := [], [];
    }

    ghost predicate Valid()
      reads this
    {
      forall i :: 0 <= i < |precomputed| ==> precomputed[i] == if i == 0 then None else Some(TenDecimals()(i))
    }

    method Precompute(n: nat)
      requires Valid()
      modifies `precomputed
      ensures Valid() && n < |precomputed| && old(precomputed) <= precomputed
    {
      if |precomputed| == 0 { precomputed := precomputed + [None]; }
      var i := |precomputed|;
      while i <= n
        invariant Valid() && i == |precomputed| > 0 && old(precomputed) <= precomputed
      {
        precomputed := precomputed + [Some(Rounded(Direct(i)))];
        i := i + 1;
      }
    }

    /** The cache agrees with computing the probability. */
    method Probability(n: nat) returns (p: Option<real>)
      requires Valid()
      modifies `precomputed
      ensures Valid() && p == if n == 0 then None else Some(TenDecimals()(n))
    {
      if n >= |precomputed| { Precompute(n); }
      p := precomputed[n];
    }

    method WriteEndpointLBRules(ips: seq<string>)
      requires Valid()
      modifies this
      ensures Valid() && natRules == old(natRules) + Ladder(ips, TenDecimals())
    {
      var i := 0;
      while i < |ips|
        invariant i <= |ips| && Valid()
        invariant natRules + LadderFrom(ips, i, TenDecimals()) == old(natRules) + Ladder(ips, TenDecimals())
      {
        ghost var was, rest := natRules, LadderFrom(ips, i + 1, TenDecimals());
        if ips[i] != "" {
          var p := None;
          if i < |ips| - 1 { p := Probability(|ips| - i); }
          natRules := natRules + [Rule(i, p)];
        }
        assert natRules == was + RuleOf(ips, i, TenDecimals());
        assert was + (RuleOf(ips, i, TenDecimals()) + rest) == natRules + rest;
        i := i + 1;
      }
    }
  }
}
