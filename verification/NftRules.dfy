/** The nft rules the renderer emits, and how a packet runs through them. */
module NftRules {
  import opened Options

  datatype Protocol = UnknownProtocol | TCP | UDP | SCTP

  /** A service as the chain names see it. */
  datatype SvcName = SvcName(ns: string, name: string)

  datatype Chain =
    | DnatAll | FilterAll
    | DispatchDnat | DispatchFilter
    | NodePortsDnat | NodePortsFilter
    | SvcDnat(svc: SvcName) | SvcFilter(svc: SvcName)
    | SvcEps(svc: SvcName) | SvcEpsPort(svc: SvcName, port: string)
    | SvcEp(svc: SvcName, ip: string)

  datatype Action = Jump(chain: Chain) | Reject | Drop | Dnat(ip: string, port: Option<int>)

  datatype Rule =
    | OnPort(local: bool, protocol: Protocol, port: int, action: Action) // [fib daddr type local] tcp dport N ...
    | Always(action: Action)
    | IfLocal(action: Action)                                           // fib daddr type local ...
    | IfInvalid(action: Action)                                         // ct state invalid ...
    | IfRecent(recent: Chain, action: Action)                           // ip saddr @..._recent ...
    | Remember(recent: Chain)                                           // update @..._recent { ip saddr timeout ... }
    | Numgen(modulus: nat, targets: seq<(nat, Chain)>)                  // numgen random mod N vmap { ... }
    | ByDaddr(owners: seq<(string, Chain)>)                             // ip daddr vmap { ... }

  type Table = map<Chain, seq<Rule>>

  datatype Packet = Packet(daddr: string, local: bool, protocol: Protocol, dport: int, saddr: string, invalid: bool)

  /** The kernel: the number drawn, who is in which recent set, and whether vmap keys
      are looked up byte-swapped. */
  datatype Kernel = Kernel(draw: nat, recent: set<(Chain, string)>, hashBug: bool)

  datatype Verdict = Continue | DnatTo(ip: string, port: int) | Rejected | Dropped | Stuck

  /** nftKey: the key written for an index. */
  function NftKey(hashBug: bool, x: nat): nat {
    if hashBug then (x % 256) * 0x1000000 + (x / 256 % 256) * 0x10000 + (x / 65536 % 256) * 0x100 else x
  }

  /** Written keys tell indexes apart exactly up to 2^24 entries when the bug is present. */
  lemma NftKeyInjective(hashBug: bool, n: nat)
    ensures (forall x: nat, y: nat :: x < n && y < n && NftKey(hashBug, x) == NftKey(hashBug, y) ==> x == y)
       <==> !hashBug || n <= 0x1000000
  {
    if hashBug && n > 0x1000000 {
      assert NftKey(true, 0) == NftKey(true, 0x1000000);
    } else if hashBug {
      forall x: nat, y: nat | x < n && y < n && NftKey(true, x) == NftKey(true, y) ensures x == y {
        SameKeySameBytes(x, y);
      }
    }
  }

  lemma SameKeySameBytes(x: nat, y: nat)
    requires x < 0x1000000 && y < 0x1000000 && NftKey(true, x) == NftKey(true, y)
    ensures x == y
  {
    var a, b := x / 256, y / 256;
    assert a / 256 == x / 65536 && b / 256 == y / 65536;
    assert a % 256 * 0x10000 < 0x1000000 && b % 256 * 0x10000 < 0x1000000;
    assert x % 256 == y % 256;
    assert a % 256 == b % 256;
    assert a / 256 == b / 256;
  }

  function Lookup<K(==)>(targets: seq<(K, Chain)>, key: K): Option<Action> {
    if targets == [] then None
    else if targets[0].0 == key then Some(Jump(targets[0].1))
    else Lookup(targets[1..], key)
  }

  lemma {:induction false} LookupFinds<K>(targets: seq<(K, Chain)>, i: nat)
    requires i < |targets|
    requires forall j :: 0 <= j < |targets| && targets[j].0 == targets[i].0 ==> targets[j].1 == targets[i].1
    ensures Lookup(targets, targets[i].0) == Some(Jump(targets[i].1))
  {
    if targets[0].0 != targets[i].0 { LookupFinds(targets[1..], i - 1); }
  }

  lemma {:induction false} LookupMisses<K>(targets: seq<(K, Chain)>, key: K)
    requires forall j :: 0 <= j < |targets| ==> targets[j].0 != key
    ensures Lookup(targets, key) == None
  {
    if targets != [] { LookupMisses(targets[1..], key); }
  }

  /** What a rule does with a packet, if it matches. */
  function Fires(r: Rule, k: Kernel, p: Packet): Option<Action> {
    match r
    case OnPort(local, protocol, port, action) =>
      if (local ==> p.local) && p.protocol == protocol && p.dport == port then Some(action) else None
    case Always(action) => Some(action)
    case IfLocal(action) => if p.local then Some(action) else None
    case IfInvalid(action) => if p.invalid then Some(action) else None
    case IfRecent(recent, action) => if (recent, p.saddr) in k.recent then Some(action) else None
    case Remember(_) => None
    case Numgen(modulus, targets) => if modulus == 0 then None else Lookup(targets, NftKey(k.hashBug, k.draw % modulus))
    case ByDaddr(owners) => Lookup(owners, p.daddr)
  }

  /** Jumps only ever go down this order, so a packet always comes to an end. */
  function Rank(c: Chain): nat {
    match c
    case DnatAll => 5
    case FilterAll => 5
    case DispatchDnat => 4
    case DispatchFilter => 4
    case NodePortsDnat => 4
    case NodePortsFilter => 4
    case SvcDnat(_) => 3
    case SvcFilter(_) => 3
    case SvcEps(_) => 2
    case SvcEpsPort(_, _) => 2
    case SvcEp(_, _) => 1
  }

  /** Run a packet through the rules of a chain; a chain that ends returns to its caller. */
  function Eval(t: Table, k: Kernel, p: Packet, rank: nat, rules: seq<Rule>): Verdict
    decreases rank, |rules|
  {
    if rules == [] then Continue
    else
      match Fires(rules[0], k, p)
      case None => Eval(t, k, p, rank, rules[1..])
      case Some(Reject) => Rejected
      case Some(Drop) => Dropped
      case Some(Dnat(ip, port)) => DnatTo(ip, if port.Some? then port.value else p.dport)
      case Some(Jump(c)) =>
        if c !in t || Rank(c) >= rank then Stuck
        else
          var v := Eval(t, k, p, Rank(c), t[c]);
          if v == Continue then Eval(t, k, p, rank, rules[1..]) else v
  }

  function EvalChain(t: Table, k: Kernel, p: Packet, c: Chain): Verdict {
    if c in t then Eval(t, k, p, Rank(c), t[c]) else Stuck
  }

  /** The recent sets that a run through the rules updates with the packet's source, those of chains that
      were entered and returned included. No rule on the way looks at a set that it has updated. */
  function Recorded(t: Table, k: Kernel, p: Packet, rank: nat, rules: seq<Rule>): set<(Chain, string)>
    decreases rank, |rules|
  {
    if rules == [] then {}
    else
      match Fires(rules[0], k, p)
      case None =>
        (if rules[0].Remember? then {(rules[0].recent, p.saddr)} else {}) + Recorded(t, k, p, rank, rules[1..])
      case Some(Jump(c)) =>
        if c !in t || Rank(c) >= rank then {}
        else
          Recorded(t, k, p, Rank(c), t[c])
          + if Eval(t, k, p, Rank(c), t[c]) == Continue then Recorded(t, k, p, rank, rules[1..]) else {}
      case Some(_) => {}
  }

  lemma {:induction false} EvalConcat(t: Table, k: Kernel, p: Packet, rank: nat, a: seq<Rule>, b: seq<Rule>)
    ensures Eval(t, k, p, rank, a + b)
         == (var v := Eval(t, k, p, rank, a); if v == Continue then Eval(t, k, p, rank, b) else v)
  {
    if a == [] {
      assert a + b == b;
    } else {
      assert (a + b)[1..] == a[1..] + b;
      EvalConcat(t, k, p, rank, a[1..], b);
    }
  }

  lemma {:induction false} EvalSilent(t: Table, k: Kernel, p: Packet, rank: nat, rules: seq<Rule>)
    requires forall r :: r in rules ==> Fires(r, k, p) == None
    ensures Eval(t, k, p, rank, rules) == Continue
  {
    if rules != [] { EvalSilent(t, k, p, rank, rules[1..]); }
  }
}
