/** A port range with a bit per port: a filler reserves free ports and sends them into a channel,
    clients take them from the channel and release them. */
module PortAllocator {
  const PORTS_BUF_SIZE := 16

  datatype Range = Range(base: nat, size: nat)

  predicate InRange(r: Range, port: int) {
    r.base <= port < r.base + r.size
  }

  // Searching a free port

  /** The first free bit at or after j, going round. */
  ghost predicate FirstFree(used: set<nat>, size: nat, j: nat, i: nat) {
    && i < size && i !in used
    && (if j <= i then forall m :: j <= m < i ==> m in used
        else (forall m :: j <= m < size ==> m in used) && (forall m :: 0 <= m < i ==> m in used))
  }

  class RangeAllocator {
    const range: Range
    var used: set<nat>

    constructor (range: Range)
      requires range.base > 0 && range.size > 0
      ensures this.range == range && used == {}
    {
      this.range, used := range, {};
    }

    /** The search starts at a random bit j; -1 means that every bit is set. */
    method NextFreePort(j: nat) returns (port: int)
      requires j < range.size
      modifies this
      ensures port == -1 <==> forall m :: 0 <= m < range.size ==> m in old(used)
      ensures port == -1 ==> used == old(used)
      ensures port != -1 ==> InRange(range, port) && FirstFree(old(used), range.size, j, port - range.base)
      ensures port != -1 ==> used == old(used) + {port - range.base}
    {
      if j !in used {
        used := used + {j};
        return j + range.base;
      }
      for i := j + 1 to range.size
        invariant used == old(used) && forall m :: j <= m < i ==> m in used
      {
        if i !in used {
          used := used + {i};
          return i + range.base;
        }
      }
      for i := 0 to j
        invariant used == old(used) && forall m :: 0 <= m < i ==> m in used
      {
        if i !in used {
          used := used + {i};
          return i + range.base;
        }
      }
      return -1;
    }

    method Release(port: int)
      modifies this
      ensures used == if InRange(range, port) then old(used) - {port - range.base} else old(used)
    {
      var bit := port - range.base;
      if bit < 0 || bit >= range.size { return; }
      used := used - {bit};
    }
  }

  // The filler and its clients

  type Client = nat

  datatype Filler = Idle | Sending(port: int)

  datatype State = State(used: set<nat>, filler: Filler, buffer: seq<int>, held: map<Client, set<int>>)

  const START := State({}, Idle, [], map[])

  /** The filler reserves the free bit i it found; it completes its send; a client gets the next port;
      a client releases a port. */
  datatype Step = Reserve(i: nat) | Send | Allocate(c: Client) | Release(c: Client, port: int)

  function Holding(s: State, c: Client): set<int> {
    if c in s.held then s.held[c] else {}
  }

  predicate Enabled(r: Range, s: State, step: Step) {
    match step
    case Reserve(i) => s.filler == Idle && i < r.size && i !in s.used
    case Send => s.filler.Sending? && |s.buffer| < PORTS_BUF_SIZE
    case Allocate(c) => s.buffer != []
    case Release(c, port) => true
  }

  function Next(r: Range, s: State, step: Step): State {
    if !Enabled(r, s, step) then s
    else
      match step
      case Reserve(i) => s.(used := s.used + {i}, filler := Sending(i + r.base))
      case Send => s.(filler := Idle, buffer := s.buffer + [s.filler.port])
      case Allocate(c) => s.(buffer := s.buffer[1..], held := s.held[c := Holding(s, c) + {s.buffer[0]}])
      case Release(c, port) =>
        s.(used := if InRange(r, port) then s.used - {port - r.base} else s.used, held := s.held[c := Holding(s, c) - {port}])
  }

  /** Where a reserved port can be. */
  datatype Place = AtFiller | InBuffer(i: nat) | HeldBy(c: Client)

  predicate At(s: State, place: Place, port: int) {
    match place
    case AtFiller => s.filler == Sending(port)
    case InBuffer(i) => i < |s.buffer| && s.buffer[i] == port
    case HeldBy(c) => port in Holding(s, c)
  }

  predicate Marked(r: Range, s: State, port: int) {
    InRange(r, port) && port - r.base in s.used
  }

  /** The set bits are the disjoint union of the port being sent, the ports in the buffer and the ports held. */
  ghost predicate Inv(r: Range, s: State) {
    && |s.buffer| <= PORTS_BUF_SIZE
    && (forall bit :: bit in s.used ==> bit < r.size)
    && (forall p, q, port :: At(s, p, port) && At(s, q, port) ==> p == q)
    && (forall p, port :: At(s, p, port) ==> Marked(r, s, port))
    && (forall port :: Marked(r, s, port) ==> exists p :: At(s, p, port))
  }

  lemma ReserveKeeps(r: Range, s: State, i: nat)
    requires Inv(r, s) && Enabled(r, s, Reserve(i))
    ensures Inv(r, Next(r, s, Reserve(i)))
  {
    var next := Next(r, s, Reserve(i));
    assert !Marked(r, s, i + r.base);
    assert At(next, AtFiller, i + r.base);
    forall p, port | p != AtFiller ensures At(next, p, port) <==> At(s, p, port) {}
    forall port | Marked(r, next, port) && port != i + r.base ensures exists p :: At(next, p, port) {
      assert Marked(r, s, port);
      var p :| At(s, p, port);
      assert At(next, p, port);
    }
  }

  lemma SendKeeps(r: Range, s: State)
    requires Inv(r, s) && Enabled(r, s, Send)
    ensures Inv(r, Next(r, s, Send))
  {
    var next, last := Next(r, s, Send), InBuffer(|s.buffer|);
    forall p, port
      ensures p != last && p != AtFiller ==> (At(next, p, port) <==> At(s, p, port))
      ensures At(next, last, port) <==> At(s, AtFiller, port)
    {}
    forall port | Marked(r, next, port) ensures exists p :: At(next, p, port) {
      assert Marked(r, s, port);
      var p :| At(s, p, port);
      assert At(next, if p == AtFiller then last else p, port);
    }
  }

  /** Where a port comes from when a client takes the head of the buffer. */
  function Before(s: State, c: Client, place: Place, port: int): Place {
    match place
    case InBuffer(i) => InBuffer(i + 1)
    case HeldBy(d) => if c == d && port !in Holding(s, c) then InBuffer(0) else place
    case AtFiller => AtFiller
  }

  lemma AllocateKeeps(r: Range, s: State, c: Client)
    requires Inv(r, s) && Enabled(r, s, Allocate(c))
    ensures Inv(r, Next(r, s, Allocate(c)))
  {
    var next := Next(r, s, Allocate(c));
    assert At(s, InBuffer(0), s.buffer[0]);
    forall p, port | At(next, p, port) ensures At(s, Before(s, c, p, port), port) {}
    forall p, q, port | At(next, p, port) && At(next, q, port) ensures p == q {
      assert Before(s, c, p, port) == Before(s, c, q, port);
    }
    forall port | Marked(r, next, port) ensures exists p :: At(next, p, port) {
      assert Marked(r, s, port);
      var p :| At(s, p, port);
      assert At(next, if p == InBuffer(0) then HeldBy(c) else if p.InBuffer? then InBuffer(p.i - 1) else p, port);
    }
  }

  /** A release is proper if the client holds the port, or the port is not reserved at all. */
  predicate Proper(r: Range, s: State, c: Client, port: int) {
    Marked(r, s, port) ==> port in Holding(s, c)
  }

  lemma ReleaseKeepsExactly(r: Range, s: State, c: Client, port: int)
    requires Inv(r, s)
    ensures Inv(r, Next(r, s, Release(c, port))) <==> Proper(r, s, c, port)
  {
    var next := Next(r, s, Release(c, port));
    forall p, q ensures At(next, p, q) <==> At(s, p, q) && !(p == HeldBy(c) && q == port) {}
    forall q ensures Marked(r, next, q) <==> Marked(r, s, q) && q != port {}
    if Proper(r, s, c, port) {
      forall q | Marked(r, next, q) ensures exists p :: At(next, p, q) {
        var p :| At(s, p, q);
        assert At(next, p, q);
      }
      forall p | At(next, p, port) ensures false {
        assert At(s, p, port) && Marked(r, s, port);
        assert At(s, HeldBy(c), port);
      }
    } else {
      var p :| At(s, p, port);
      assert p != HeldBy(c) && At(next, p, port);
    }
  }

  ghost predicate InvThroughout(r: Range, s: State, steps: seq<Step>)
    decreases steps
  {
    Inv(r, s) && (steps != [] ==> InvThroughout(r, Next(r, s, steps[0]), steps[1..]))
  }

  ghost predicate ProperThroughout(r: Range, s: State, steps: seq<Step>)
    decreases steps
  {
    steps != [] ==>
      && (steps[0].Release? ==> Proper(r, s, steps[0].c, steps[0].port))
      && ProperThroughout(r, Next(r, s, steps[0]), steps[1..])
  }

  lemma {:induction false} RunFrom(r: Range, s: State, steps: seq<Step>)
    requires Inv(r, s)
    ensures InvThroughout(r, s, steps) <==> ProperThroughout(r, s, steps)
    decreases steps
  {
    if steps != [] {
      var step := steps[0];
      if Enabled(r, s, step) {
        match step
        case Reserve(i) => ReserveKeeps(r, s, i);
        case Send => SendKeeps(r, s);
        case Allocate(c) => AllocateKeeps(r, s, c);
        case Release(c, port) => ReleaseKeepsExactly(r, s, c, port);
      }
      if Inv(r, Next(r, s, step)) { RunFrom(r, Next(r, s, step), steps[1..]); }
    }
  }

  /** Every interleaving of the filler and the clients keeps the set bits the disjoint union of the ports
      being sent, buffered and held, if and only if clients release only what they hold. */
  lemma EveryRun(r: Range, steps: seq<Step>)
    ensures InvThroughout(r, START, steps) <==> ProperThroughout(r, START, steps)
  {
    RunFrom(r, START, steps);
  }

  /** No port has two holders, no held port is still to be handed out, and every held port is in the range. */
  lemma HoldersAreAlone(r: Range, s: State, c: Client, d: Client, port: int)
    requires Inv(r, s) && port in Holding(s, c)
    ensures InRange(r, port) && port !in s.buffer && s.filler != Sending(port)
    ensures port in Holding(s, d) ==> c == d
  {
    assert At(s, HeldBy(c), port);
    assert forall i: nat :: i < |s.buffer| && s.buffer[i] == port ==> At(s, InBuffer(i), port);
    assert s.filler == Sending(port) ==> At(s, AtFiller, port);
    assert port in Holding(s, d) ==> At(s, HeldBy(d), port);
  }

  function Run(r: Range, s: State, steps: seq<Step>): State
    decreases steps
  {
    if steps == [] then s else Run(r, Next(r, s, steps[0]), steps[1..])
  }

  /** A client that releases a port another one holds lets a third one get it too. */
  lemma ImproperReleaseSharesPort()
    ensures (var r := Range(8000, 1);
             exists steps :: 8000 in Holding(Run(r, START, steps), 1) && 8000 in Holding(Run(r, START, steps), 3))
  {
    var r := Range(8000, 1);
    var rest := [Reserve(0), Send, Allocate(3)];
    HandsOut(r, START, 0, 1, [Release(2, 8000)] + rest);
    var taken := START.(used := START.used + {0}, held := START.held[1 := Holding(START, 1) + {0 + r.base}]);
    var freed := Next(r, taken, Release(2, 8000));
    assert 0 !in freed.used && freed.filler == Idle && freed.buffer == [] && 8000 in Holding(freed, 1);
    assert ([Release(2, 8000)] + rest)[1..] == rest + [];
    HandsOut(r, freed, 0, 3, []);
  }

  /** The filler reserves a port and sends it, and a client gets it. */
  lemma HandsOut(r: Range, s: State, i: nat, c: Client, rest: seq<Step>)
    requires s.filler == Idle && s.buffer == [] && i < r.size && i !in s.used
    ensures Run(r, s, [Reserve(i), Send, Allocate(c)] + rest)
         == Run(r, s.(used := s.used + {i}, held := s.held[c := Holding(s, c) + {i + r.base}]), rest)
  {
    var s1 := Next(r, s, Reserve(i));
    var s2 := Next(r, s1, Send);
    var s3 := Next(r, s2, Allocate(c));
    assert s2.buffer == [i + r.base] && s3.buffer == [];
    assert s3 == s.(used := s.used + {i}, held := s.held[c := Holding(s, c) + {i + r.base}]);
    RunThree(r, s, Reserve(i), Send, Allocate(c), rest);
  }

  lemma RunThree(r: Range, s: State, a: Step, b: Step, c: Step, rest: seq<Step>)
    ensures Run(r, s, [a, b, c] + rest) == Run(r, Next(r, Next(r, Next(r, s, a), b), c), rest)
  {
    var s1 := Next(r, s, a);
    var s2 := Next(r, s1, b);
    assert ([c] + rest)[1..] == rest;
    assert Run(r, s2, [c] + rest) == Run(r, Next(r, s2, c), rest);
    assert ([b, c] + rest)[1..] == [c] + rest;
    assert Run(r, s1, [b, c] + rest) == Run(r, s2, [c] + rest);
    assert ([a, b, c] + rest)[1..] == [b, c] + rest;
  }
}
