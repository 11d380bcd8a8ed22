/** The round-robin balancer of the userspace proxy: per service port a list of endpoints, a position,
    and sticky sessions that expire. */
module RoundRobin {
  import opened Options

  /** Times are nanoseconds; elapsed time is compared in whole seconds. */
  const SECOND := 1_000_000_000

  const DEFAULT_TTL := 10800

  function Seconds(elapsed: int): int {
    elapsed / SECOND
  }

  datatype Session = Session(endpoint: string, lastUsed: int)

  datatype Balancer = Balancer(endpoints: seq<string>, index: nat, affinity: bool, sessions: map<string, Session>, ttl: int)

  type Balancers = map<string, Balancer>

  predicate Stale(session: Session, ttl: int, now: int) {
    Seconds(now - session.lastUsed) >= ttl
  }

  // Deleting an endpoint

  /** The loop of a deletion: it reads every position of the list as it was when the loop began, and at a match
      moves the last element of the shortened list there. None is an index out of range. */
  function SwapLoop(a: seq<string>, len: nat, i: nat, d: string): Option<seq<string>>
    requires len <= |a| && i <= |a|
    decreases |a| - i
  {
    if i == |a| then Some(a[..len])
    else if a[i] != d then SwapLoop(a, len, i + 1, d)
    else if i >= len then None
    else SwapLoop(a[i := a[len - 1]], len - 1, i + 1, d)
  }

  function SwapRemove(s: seq<string>, d: string): Option<seq<string>> {
    SwapLoop(s, |s|, 0, d)
  }

  function Count(s: seq<string>, d: string): nat {
    multiset(s)[d]
  }

  /** Some occurrence lies in the part of the list that the removals cut off. */
  ghost predicate Overruns(s: seq<string>, d: string) {
    exists i :: 0 <= i < |s| && s[i] == d && i > |s| - Count(s, d)
  }

  lemma CountSplit(s: seq<string>, i: nat, d: string)
    requires i < |s|
    ensures Count(s[..i + 1], d) == Count(s[..i], d) + (if s[i] == d then 1 else 0)
    ensures Count(s[..i], d) + Count(s[i..], d) == Count(s, d)
    ensures Count(s[i..], d) == Count(s[i + 1..], d) + (if s[i] == d then 1 else 0)
  {
    assert s[..i + 1] == s[..i] + [s[i]];
    assert s == s[..i] + s[i..];
    assert s[i..] == [s[i]] + s[i + 1..];
  }

  lemma Swapped(before: seq<string>, d: string, after: seq<string>, last: string)
    ensures multiset(before + [last] + after) == multiset(before + [d] + after + [last]) - multiset{d}
  {
  }

  lemma DropLast(a: seq<string>, len: nat, i: nat)
    requires i < len <= |a|
    ensures multiset(a[i := a[len - 1]][..len - 1]) == multiset(a[..len]) - multiset{a[i]}
  {
    var b, last := a[i := a[len - 1]], a[len - 1];
    if i < len - 1 {
      var before, after := a[..i], a[i + 1..len - 1];
      assert a[..len] == before + [a[i]] + after + [last];
      assert b[..len - 1] == before + [last] + after;
      Swapped(before, a[i], after, last);
    } else {
      assert b == a && a[..len] == a[..len - 1] + [last];
    }
  }

  ghost predicate LoopDone(s: seq<string>, d: string, r: Option<seq<string>>) {
    && (r.None? <==> Overruns(s, d))
    && (r.Some? ==> multiset(r.value) == multiset(s)[d := 0])
  }

  /** At position i the list has shrunk by the matches so far, the last of them at position last. */
  ghost predicate Shrunk(s: seq<string>, a: seq<string>, len: nat, i: nat, last: int, d: string) {
    && |a| == |s| && i <= |s| && len == |s| - Count(s[..i], d)
    && (forall j :: i <= j < |s| ==> a[j] == s[j])
    && -1 <= last < i && last <= len && (forall j :: last < j < i ==> s[j] != d) && (last >= 0 ==> s[last] == d)
  }

  lemma ShrinksOn(s: seq<string>, a: seq<string>, len: nat, i: nat, last: int, d: string)
    requires Shrunk(s, a, len, i, last, d) && i < |s| && len <= |a|
    ensures a[i] != d ==> Shrunk(s, a, len, i + 1, last, d)
    ensures a[i] == d && i < len ==> Shrunk(s, a[i := a[len - 1]], len - 1, i + 1, i, d)
    ensures a[i] == d && i >= len ==> Overruns(s, d)
  {
    CountSplit(s, i, d);
    if a[i] == d && i >= len { assert s[i] == d && i > |s| - Count(s, d); }
  }

  lemma ShrunkAtEnd(s: seq<string>, a: seq<string>, len: nat, last: int, d: string)
    requires Shrunk(s, a, len, |s|, last, d)
    ensures !Overruns(s, d)
  {
    assert s[..|s|] == s;
    assert forall j :: 0 <= j < |s| && s[j] == d ==> j <= last;
  }

  lemma {:induction false} LoopFailsExactly(s: seq<string>, a: seq<string>, len: nat, i: nat, last: int, d: string)
    requires len <= |a| && Shrunk(s, a, len, i, last, d)
    ensures SwapLoop(a, len, i, d).None? <==> Overruns(s, d)
    decreases |s| - i
  {
    if i == |a| {
      ShrunkAtEnd(s, a, len, last, d);
    } else {
      ShrinksOn(s, a, len, i, last, d);
      if a[i] != d {
        LoopFailsExactly(s, a, len, i + 1, last, d);
      } else if i < len {
        LoopFailsExactly(s, a[i := a[len - 1]], len - 1, i + 1, i, d);
      }
    }
  }

  /** At position i the list holds everything but the matches so far. */
  ghost predicate Remains(s: seq<string>, a: seq<string>, len: nat, i: nat, d: string) {
    && |a| == |s| && i <= |s| && len <= |a|
    && (forall j :: i <= j < |s| ==> a[j] == s[j])
    && multiset(a[..len]) == multiset(s)[d := Count(s[i..], d)]
  }

  lemma RemainsOn(s: seq<string>, a: seq<string>, len: nat, i: nat, d: string)
    requires Remains(s, a, len, i, d) && i < |s|
    ensures a[i] != d ==> Remains(s, a, len, i + 1, d)
    ensures a[i] == d && i < len ==> Remains(s, a[i := a[len - 1]], len - 1, i + 1, d)
  {
    CountSplit(s, i, d);
    if a[i] == d && i < len {
      DropLast(a, len, i);
      assert multiset(a[..len]) - multiset{d} == multiset(s)[d := Count(s[i + 1..], d)];
    }
  }

  lemma {:induction false} LoopRemoves(s: seq<string>, a: seq<string>, len: nat, i: nat, d: string)
    requires Remains(s, a, len, i, d) && SwapLoop(a, len, i, d).Some?
    ensures multiset(SwapLoop(a, len, i, d).value) == multiset(s)[d := 0]
    decreases |s| - i
  {
    if i == |a| {
      assert s[i..] == [];
    } else {
      RemainsOn(s, a, len, i, d);
      if a[i] != d {
        LoopRemoves(s, a, len, i + 1, d);
      } else {
        LoopRemoves(s, a[i := a[len - 1]], len - 1, i + 1, d);
      }
    }
  }

  /** A deletion fails exactly when an occurrence lies beyond what is left after removing them all;
      otherwise it removes every occurrence and nothing else. */
  lemma SwapRemoveExact(s: seq<string>, d: string)
    ensures LoopDone(s, d, SwapRemove(s, d))
  {
    assert s[..0] == [] && s[..|s|] == s && s[0..] == s;
    assert multiset(s) == multiset(s)[d := Count(s, d)];
    LoopFailsExactly(s, s, |s|, 0, -1, d);
    if SwapRemove(s, d).Some? { LoopRemoves(s, s, |s|, 0, d); }
  }

  /** An endpoint cannot be deleted from a list of two copies of it. */
  lemma DuplicatesFail(d: string)
    ensures SwapRemove([d, d], d).None?
  {
    assert SwapLoop([d, d], 1, 1, d).None?;
    assert [d, d][0 := d] == [d, d];
  }

  ghost predicate DuplicateFree(s: seq<string>) {
    forall x :: Count(s, x) <= 1
  }

  /** Without duplicates a deletion never fails, removes just the matching entry, and leaves no duplicates. */
  lemma DeleteUnique(s: seq<string>, d: string)
    requires DuplicateFree(s)
    ensures SwapRemove(s, d).Some? && DuplicateFree(SwapRemove(s, d).value)
    ensures multiset(SwapRemove(s, d).value) == multiset(s) - multiset{d}
  {
    SwapRemoveExact(s, d);
    assert Count(s, d) <= 1;
    assert multiset(s)[d := 0] == multiset(s) - multiset{d};
    var r := SwapRemove(s, d).value;
    forall x ensures Count(r, x) <= 1 { assert Count(s, x) <= 1; }
  }

  // The operations on one service port

  datatype Op =
    | NewService(affinity: bool, ttl: int)
    | DeleteService
    | NextEndpoint(client: Option<string>, reset: bool)
    | AddEndpoints(news: seq<string>, order: seq<string>, affinity: bool)
    | DeleteEndpoint(endpoint: Option<string>)
    | Cleanup

  datatype Outcome = Done | Endpoint(endpoint: string) | MissingService | MissingEndpoints | Malformed | OutOfRange

  /** The service is created if it does not exist; affinity is only ever switched on. */
  function Ensured(b: Option<Balancer>, affinity: bool, ttl: int): Balancer {
    if b.None? then Balancer([], 0, affinity, map[], if ttl == 0 then DEFAULT_TTL else ttl)
    else if affinity then b.value.(affinity := true)
    else b.value
  }

  predicate Sticks(b: Balancer, client: string, reset: bool, now: int) {
    b.affinity && !reset && client in b.sessions && !Stale(b.sessions[client], b.ttl, now)
  }

  /** Take the next endpoint and, with affinity, remember it for the client. */
  function Advance(b: Balancer, client: Option<string>, now: int): Balancer
    requires b.index < |b.endpoints|
  {
    b.(index := (b.index + 1) % |b.endpoints|,
       sessions := if b.affinity && client.Some? then b.sessions[client.value := Session(b.endpoints[b.index], now)] else b.sessions)
  }

  function Pick(b: Balancer, client: Option<string>, reset: bool, now: int): (Balancer, Outcome) {
    if b.endpoints == [] then (b, MissingEndpoints)
    else if b.affinity && client.None? then (b, Malformed)
    else if client.Some? && Sticks(b, client.value, reset, now) then
      var session := b.sessions[client.value];
      (b.(sessions := b.sessions[client.value := session.(lastUsed := now)]), Endpoint(session.endpoint))
    else if b.index >= |b.endpoints| then (b, OutOfRange)
    else (Advance(b, client, now), Endpoint(b.endpoints[b.index]))
  }

  /** A shuffle is any permutation. */
  function Shuffle(all: seq<string>, order: seq<string>): (r: seq<string>)
    ensures multiset(r) == multiset(all) && |r| == |all|
  {
    SameSize(all, order);
    if multiset(order) == multiset(all) then order else all
  }

  lemma SameSize(a: seq<string>, b: seq<string>)
    ensures multiset(a) == multiset(b) ==> |a| == |b|
  {
    assert |multiset(a)| == |a| && |multiset(b)| == |b|;
  }

  function Add(b: Option<Balancer>, op: Op): Option<Balancer>
    requires op.AddEndpoints?
  {
    var all := op.news + (if b.Some? then b.value.endpoints else []);
    if b.Some? && all == [] then b
    else Some(Ensured(b, op.affinity, 0).(endpoints := Shuffle(all, op.order), index := 0))
  }

  /** Adding endpoints loses none, starts over at the first, and keeps the sessions and the TTL. */
  lemma AddKeepsAll(b: Option<Balancer>, op: Op)
    requires op.AddEndpoints?
    ensures Add(b, op).Some? && (op.news != [] ==> Add(b, op).value.index == 0)
    ensures multiset(Add(b, op).value.endpoints) == multiset(op.news) + (if b.Some? then multiset(b.value.endpoints) else multiset{})
    ensures b.Some? ==> Add(b, op).value.sessions == b.value.sessions && Add(b, op).value.ttl == b.value.ttl
    ensures b.Some? ==> (b.value.affinity ==> Add(b, op).value.affinity)
  {
    if b.Some? { assert multiset(op.news + b.value.endpoints) == multiset(op.news) + multiset(b.value.endpoints); }
    else { assert op.news + [] == op.news; }
  }

  function Remove(b: Balancer, endpoint: Option<string>): (Balancer, Outcome) {
    var left := if endpoint.Some? then SwapRemove(b.endpoints, endpoint.value) else Some(b.endpoints);
    if left.None? then (b, OutOfRange)
    else
      (b.(endpoints := left.value,
          index := if endpoint.Some? && endpoint.value in b.endpoints then 0 else b.index,
          sessions := if left.value == [] then map[] else b.sessions), Done)
  }

  function Cleaned(b: Balancer, now: int): Balancer {
    b.(sessions := map c | c in b.sessions && !Stale(b.sessions[c], b.ttl, now) :: b.sessions[c])
  }

  function Step(b: Option<Balancer>, op: Op, now: int): (Option<Balancer>, Outcome) {
    match op
    case NewService(affinity, ttl) => (Some(Ensured(b, affinity, ttl)), Done)
    case DeleteService => (None, Done)
    case NextEndpoint(client, reset) =>
      if b.None? then (b, MissingService) else var r := Pick(b.value, client, reset, now); (Some(r.0), r.1)
    case AddEndpoints(_, _, _) => (Add(b, op), Done)
    case DeleteEndpoint(endpoint) => if b.None? then (b, Done) else var r := Remove(b.value, endpoint); (Some(r.0), r.1)
    case Cleanup => (if b.None? then b else Some(Cleaned(b.value, now)), Done)
  }

  // Runs over all service ports

  datatype Call = Call(port: string, op: Op, now: int)

  function Find(all: Balancers, port: string): Option<Balancer> {
    if port in all then Some(all[port]) else None
  }

  function Put(all: Balancers, port: string, b: Option<Balancer>): Balancers {
    if b.None? then all - {port} else all[port := b.value]
  }

  function Next(all: Balancers, call: Call): Balancers {
    Put(all, call.port, Step(Find(all, call.port), call.op, call.now).0)
  }

  function OutcomeOf(all: Balancers, call: Call): Outcome {
    Step(Find(all, call.port), call.op, call.now).1
  }

  function Run(all: Balancers, calls: seq<Call>): Balancers
    decreases calls
  {
    if calls == [] then all else Run(Next(all, calls[0]), calls[1..])
  }

  lemma NextAt(all: Balancers, call: Call, port: string)
    ensures Find(Next(all, call), port) == if port == call.port then Step(Find(all, port), call.op, call.now).0 else Find(all, port)
  {
  }

  // The index stays in range

  ghost predicate Ranged(b: Option<Balancer>) {
    b.Some? ==> b.value.endpoints == [] || b.value.index < |b.value.endpoints|
  }

  ghost predicate AllRanged(all: Balancers) {
    forall port :: Ranged(Find(all, port))
  }

  lemma StepRanged(b: Option<Balancer>, op: Op, now: int)
    requires Ranged(b)
    ensures Ranged(Step(b, op, now).0)
    ensures Step(b, op, now).1 == OutOfRange ==>
              op.DeleteEndpoint? && op.endpoint.Some? && b.Some? && Overruns(b.value.endpoints, op.endpoint.value)
  {
    if op.DeleteEndpoint? && b.Some? && op.endpoint.Some? {
      var s, d := b.value.endpoints, op.endpoint.value;
      SwapRemoveExact(s, d);
      if d !in s {
        assert multiset(s)[d := 0] == multiset(s);
        if SwapRemove(s, d).Some? { SameSize(SwapRemove(s, d).value, s); }
      }
    }
  }

  ghost predicate SafeThroughout(all: Balancers, calls: seq<Call>)
    decreases calls
  {
    calls != [] ==> OutcomeOf(all, calls[0]) != OutOfRange && SafeThroughout(Next(all, calls[0]), calls[1..])
  }

  ghost predicate NeverOverruns(all: Balancers, calls: seq<Call>)
    decreases calls
  {
    calls != [] ==>
      var b, op := Find(all, calls[0].port), calls[0].op;
      && !(op.DeleteEndpoint? && op.endpoint.Some? && b.Some? && Overruns(b.value.endpoints, op.endpoint.value))
      && NeverOverruns(Next(all, calls[0]), calls[1..])
  }

  /** No run indexes out of range, in NextEndpoint or in a deletion, if and only if
      no deletion meets a list whose duplicates overrun it. */
  lemma {:induction false} RunSafeExactly(all: Balancers, calls: seq<Call>)
    requires AllRanged(all)
    ensures AllRanged(Run(all, calls))
    ensures SafeThroughout(all, calls) <==> NeverOverruns(all, calls)
    decreases calls
  {
    if calls != [] {
      var call := calls[0];
      var b := Find(all, call.port);
      StepRanged(b, call.op, call.now);
      if b.Some? && call.op.DeleteEndpoint? && call.op.endpoint.Some? {
        SwapRemoveExact(b.value.endpoints, call.op.endpoint.value);
      }
      forall port ensures Ranged(Find(Next(all, call), port)) {
        assert Ranged(Find(all, port));
        NextAt(all, call, port);
      }
      RunSafeExactly(Next(all, call), calls[1..]);
    }
  }

  // Lists without duplicates

  function EndpointsOf(b: Option<Balancer>): seq<string> {
    if b.None? then [] else b.value.endpoints
  }

  ghost predicate Unique(all: Balancers) {
    forall port :: DuplicateFree(EndpointsOf(Find(all, port)))
  }

  /** What is added is distinct and not yet in the list. */
  ghost predicate AddsNew(b: Option<Balancer>, op: Op) {
    op.AddEndpoints? ==> DuplicateFree(op.news) && forall x :: x in op.news ==> x !in EndpointsOf(b)
  }

  /** A deletion takes away just the endpoint it names. */
  ghost predicate DeletesOne(b: Option<Balancer>, op: Op, now: int) {
    op.DeleteEndpoint? ==>
      && Step(b, op, now).1 == Done
      && multiset(EndpointsOf(Step(b, op, now).0))
         == multiset(EndpointsOf(b)) - (if op.endpoint.Some? then multiset{op.endpoint.value} else multiset{})
  }

  lemma DuplicateFreeConcat(a: seq<string>, b: seq<string>)
    requires DuplicateFree(b)
    ensures DuplicateFree(a + b) <==> DuplicateFree(a) && forall x :: x in a ==> x !in b
  {
    forall x ensures Count(a + b, x) == Count(a, x) + Count(b, x) { assert multiset(a + b) == multiset(a) + multiset(b); }
    forall x ensures x in a <==> Count(a, x) > 0 { assert x in a <==> x in multiset(a); }
    forall x ensures x in b <==> Count(b, x) > 0 { assert x in b <==> x in multiset(b); }
    if DuplicateFree(a + b) {
      forall x ensures Count(a, x) <= 1 && (x in a ==> x !in b) { assert Count(a + b, x) <= 1; }
    } else if DuplicateFree(a) {
      var x :| Count(a + b, x) > 1;
      assert Count(a, x) <= 1 && Count(b, x) <= 1;
    }
  }

  lemma SameCounts(a: seq<string>, b: seq<string>)
    requires multiset(a) == multiset(b)
    ensures DuplicateFree(a) <==> DuplicateFree(b)
  {
    assert forall x :: Count(a, x) == Count(b, x);
  }

  lemma AddUnique(b: Option<Balancer>, op: Op)
    requires DuplicateFree(EndpointsOf(b)) && op.AddEndpoints?
    ensures DuplicateFree(EndpointsOf(Add(b, op))) <==> AddsNew(b, op)
  {
    AddKeepsAll(b, op);
    assert multiset(op.news + EndpointsOf(b)) == multiset(op.news) + multiset(EndpointsOf(b));
    DuplicateFreeConcat(op.news, EndpointsOf(b));
    SameCounts(EndpointsOf(Add(b, op)), op.news + EndpointsOf(b));
  }

  lemma RemoveUnique(b: Balancer, endpoint: Option<string>, now: int)
    requires DuplicateFree(b.endpoints)
    ensures DuplicateFree(Remove(b, endpoint).0.endpoints) && DeletesOne(Some(b), DeleteEndpoint(endpoint), now)
  {
    if endpoint.Some? { DeleteUnique(b.endpoints, endpoint.value); }
  }

  lemma OthersKeepList(b: Option<Balancer>, op: Op, now: int)
    requires !op.AddEndpoints? && !op.DeleteEndpoint?
    ensures op.DeleteService? || EndpointsOf(Step(b, op, now).0) == EndpointsOf(b)
  {
  }

  /** A list without duplicates stays so exactly when nothing is added twice, and deletions are exact. */
  lemma StepUnique(b: Option<Balancer>, op: Op, now: int)
    requires DuplicateFree(EndpointsOf(b))
    ensures DuplicateFree(EndpointsOf(Step(b, op, now).0)) <==> AddsNew(b, op)
    ensures DeletesOne(b, op, now)
  {
    if op.AddEndpoints? {
      AddUnique(b, op);
    } else if op.DeleteEndpoint? {
      if b.Some? { RemoveUnique(b.value, op.endpoint, now); }
    } else {
      OthersKeepList(b, op, now);
    }
  }

  ghost predicate UniqueThroughout(all: Balancers, calls: seq<Call>)
    decreases calls
  {
    Unique(all) && (calls != [] ==> UniqueThroughout(Next(all, calls[0]), calls[1..]))
  }

  ghost predicate AddsOnlyNew(all: Balancers, calls: seq<Call>)
    decreases calls
  {
    calls != [] ==> AddsNew(Find(all, calls[0].port), calls[0].op) && AddsOnlyNew(Next(all, calls[0]), calls[1..])
  }

  ghost predicate DeletionsExact(all: Balancers, calls: seq<Call>)
    decreases calls
  {
    calls != [] ==>
      && DeletesOne(Find(all, calls[0].port), calls[0].op, calls[0].now)
      && DeletionsExact(Next(all, calls[0]), calls[1..])
  }

  lemma NextUnique(all: Balancers, call: Call)
    requires Unique(all)
    ensures Unique(Next(all, call)) <==> AddsNew(Find(all, call.port), call.op)
    ensures DeletesOne(Find(all, call.port), call.op, call.now)
  {
    var b := Find(all, call.port);
    assert DuplicateFree(EndpointsOf(b));
    StepUnique(b, call.op, call.now);
    forall port ensures Find(Next(all, call), port) == if port == call.port then Step(b, call.op, call.now).0 else Find(all, port) {
      NextAt(all, call, port);
    }
    if AddsNew(b, call.op) {
      forall port ensures DuplicateFree(EndpointsOf(Find(Next(all, call), port))) {
        assert DuplicateFree(EndpointsOf(Find(all, port)));
      }
    } else {
      assert !DuplicateFree(EndpointsOf(Find(Next(all, call), call.port)));
    }
  }

  /** Over any run, no list ever holds an endpoint twice if and only if no call adds one that the list
      has or one twice; every deletion then takes away just the endpoint it names, and none fails. */
  lemma {:induction false} RunUniqueExactly(all: Balancers, calls: seq<Call>)
    requires Unique(all)
    ensures UniqueThroughout(all, calls) <==> AddsOnlyNew(all, calls)
    ensures AddsOnlyNew(all, calls) ==> DeletionsExact(all, calls)
    decreases calls
  {
    if calls != [] {
      NextUnique(all, calls[0]);
      if AddsNew(Find(all, calls[0].port), calls[0].op) { RunUniqueExactly(Next(all, calls[0]), calls[1..]); }
    }
  }

  // Answers from the list

  ghost predicate AnswersListed(b: Option<Balancer>, op: Op, now: int) {
    op.NextEndpoint? && Step(b, op, now).1.Endpoint? ==> Step(b, op, now).1.endpoint in EndpointsOf(b)
  }

  /** The call comes from a client whose session still counts and is for an endpoint that is gone. */
  predicate Orphaned(b: Option<Balancer>, op: Op, now: int) {
    && op.NextEndpoint? && op.client.Some? && b.Some? && b.value.endpoints != []
    && Sticks(b.value, op.client.value, op.reset, now)
    && b.value.sessions[op.client.value].endpoint !in b.value.endpoints
  }

  /** NextEndpoint answers an endpoint of the list unless the client's session is orphaned. */
  lemma AnswerListedExactly(b: Option<Balancer>, op: Op, now: int)
    ensures AnswersListed(b, op, now) <==> !Orphaned(b, op, now)
  {
  }

  ghost predicate AllListed(all: Balancers, calls: seq<Call>)
    decreases calls
  {
    calls != [] ==>
      && AnswersListed(Find(all, calls[0].port), calls[0].op, calls[0].now)
      && AllListed(Next(all, calls[0]), calls[1..])
  }

  ghost predicate NoneOrphaned(all: Balancers, calls: seq<Call>)
    decreases calls
  {
    calls != [] ==>
      && !Orphaned(Find(all, calls[0].port), calls[0].op, calls[0].now)
      && NoneOrphaned(Next(all, calls[0]), calls[1..])
  }

  /** Over any run, every answer is an endpoint of the list at that moment if and only if no call
      comes from a client with an orphaned session. */
  lemma {:induction false} RunAnswersExactly(all: Balancers, calls: seq<Call>)
    ensures AllListed(all, calls) <==> NoneOrphaned(all, calls)
    decreases calls
  {
    if calls != [] {
      AnswerListedExactly(Find(all, calls[0].port), calls[0].op, calls[0].now);
      RunAnswersExactly(Next(all, calls[0]), calls[1..]);
    }
  }

  ghost predicate SessionsListed(b: Option<Balancer>) {
    b.Some? ==> forall c :: c in b.value.sessions ==> b.value.sessions[c].endpoint in b.value.endpoints
  }

  ghost predicate AllSessionsListed(all: Balancers) {
    forall port :: SessionsListed(Find(all, port))
  }

  /** The deletion names an endpoint that a session is for, and leaves other endpoints. */
  ghost predicate Orphans(b: Option<Balancer>, op: Op) {
    && op.DeleteEndpoint? && op.endpoint.Some? && b.Some? && !Overruns(b.value.endpoints, op.endpoint.value)
    && (exists e :: e in b.value.endpoints && e != op.endpoint.value)
    && exists c :: c in b.value.sessions && b.value.sessions[c].endpoint == op.endpoint.value
  }

  ghost predicate NeverOrphans(all: Balancers, calls: seq<Call>)
    decreases calls
  {
    calls != [] ==> !Orphans(Find(all, calls[0].port), calls[0].op) && NeverOrphans(Next(all, calls[0]), calls[1..])
  }

  ghost predicate ListedThroughout(all: Balancers, calls: seq<Call>)
    decreases calls
  {
    AllSessionsListed(all) && (calls != [] ==> ListedThroughout(Next(all, calls[0]), calls[1..]))
  }

  lemma RemovedMembers(s: seq<string>, d: string)
    ensures SwapRemove(s, d).None? <==> Overruns(s, d)
    ensures SwapRemove(s, d).Some? ==> forall e :: e in SwapRemove(s, d).value <==> e in s && e != d
  {
    SwapRemoveExact(s, d);
    if SwapRemove(s, d).Some? {
      var r := SwapRemove(s, d).value;
      forall e ensures e in r <==> e in s && e != d {
        assert e in r <==> e in multiset(r);
        assert e in s <==> e in multiset(s);
      }
    }
  }

  lemma RemoveSessions(b: Balancer, d: string)
    requires SessionsListed(Some(b))
    ensures SessionsListed(Some(Remove(b, Some(d)).0)) <==> !Orphans(Some(b), DeleteEndpoint(Some(d)))
  {
    var s := b.endpoints;
    RemovedMembers(s, d);
    if SwapRemove(s, d).Some? {
      var left := SwapRemove(s, d).value;
      if left != [] { assert left[0] in s && left[0] != d; }
    }
  }

  lemma AddedMembers(b: Option<Balancer>, op: Op)
    requires op.AddEndpoints? && b.Some?
    ensures forall e :: e in b.value.endpoints ==> e in EndpointsOf(Add(b, op))
  {
    AddKeepsAll(b, op);
    var r := EndpointsOf(Add(b, op));
    forall e | e in b.value.endpoints ensures e in r {
      assert e in multiset(b.value.endpoints) && e in multiset(r);
    }
  }

  lemma StepSessions(b: Option<Balancer>, op: Op, now: int)
    requires SessionsListed(b)
    ensures SessionsListed(Step(b, op, now).0) <==> !Orphans(b, op)
    ensures !Orphaned(b, op, now)
  {
    match op
    case AddEndpoints(_, _, _) => if b.Some? { AddedMembers(b, op); }
    case DeleteEndpoint(endpoint) => if b.Some? && endpoint.Some? { RemoveSessions(b.value, endpoint.value); }
    case _ =>
  }

  /** Over any run, every session stays for an endpoint of its list if and only if no deletion names an
      endpoint that a session is for while others are left; every answer is then from the list. */
  lemma {:induction false} RunListedExactly(all: Balancers, calls: seq<Call>)
    requires AllSessionsListed(all)
    ensures ListedThroughout(all, calls) <==> NeverOrphans(all, calls)
    ensures NeverOrphans(all, calls) ==> AllListed(all, calls)
    decreases calls
  {
    if calls != [] {
      NextListed(all, calls[0]);
      AnswerListedExactly(Find(all, calls[0].port), calls[0].op, calls[0].now);
      if !Orphans(Find(all, calls[0].port), calls[0].op) { RunListedExactly(Next(all, calls[0]), calls[1..]); }
    }
  }

  lemma NextListed(all: Balancers, call: Call)
    requires AllSessionsListed(all)
    ensures AllSessionsListed(Next(all, call)) <==> !Orphans(Find(all, call.port), call.op)
    ensures !Orphaned(Find(all, call.port), call.op, call.now)
  {
    var b := Find(all, call.port);
    assert SessionsListed(b);
    StepSessions(b, call.op, call.now);
    forall port ensures Find(Next(all, call), port) == if port == call.port then Step(b, call.op, call.now).0 else Find(all, port) {
      NextAt(all, call, port);
    }
    if Orphans(b, call.op) {
      assert !SessionsListed(Find(Next(all, call), call.port));
    } else {
      forall port ensures SessionsListed(Find(Next(all, call), port)) { assert SessionsListed(Find(all, port)); }
    }
  }

  /** A session outlives its endpoint: the client is still sent to the deleted one. */
  lemma DeletedEndpointAnswers()
    ensures var b := Some(Balancer(["a", "b"], 0, true, map["client" := Session("a", 0)], DEFAULT_TTL));
            var left := Step(b, DeleteEndpoint(Some("a")), 0).0;
            && SessionsListed(b) && left.Some? && left.value.endpoints == ["b"]
            && Step(left, NextEndpoint(Some("client"), false), SECOND).1 == Endpoint("a")
  {
    var s := ["a", "b"];
    assert s[0 := "b"] == ["b", "b"];
    assert SwapLoop(["b", "b"], 1, 1, "a") == SwapLoop(["b", "b"], 1, 2, "a");
    assert ["b", "b"][..1] == ["b"];
    assert Seconds(SECOND) == 1;
  }

  // Cleaning up is not observable

  ghost predicate Monotone(calls: seq<Call>, from: int) {
    calls != [] ==> from <= calls[0].now && Monotone(calls[1..], calls[0].now)
  }

  /** The two differ in sessions that are stale. */
  ghost predicate Alike(a: Option<Balancer>, b: Option<Balancer>, now: int) {
    && a.Some? == b.Some?
    && (a.Some? ==>
          && a.value.(sessions := map[]) == b.value.(sessions := map[])
          && (forall c :: c in a.value.sessions && c in b.value.sessions ==> a.value.sessions[c] == b.value.sessions[c])
          && (forall c :: c in a.value.sessions && c !in b.value.sessions ==> Stale(a.value.sessions[c], a.value.ttl, now))
          && (forall c :: c in b.value.sessions && c !in a.value.sessions ==> Stale(b.value.sessions[c], b.value.ttl, now)))
  }

  lemma PickAlike(a: Balancer, b: Balancer, client: Option<string>, reset: bool, now: int)
    requires Alike(Some(a), Some(b), now)
    ensures Alike(Some(Pick(a, client, reset, now).0), Some(Pick(b, client, reset, now).0), now)
    ensures Pick(a, client, reset, now).1 == Pick(b, client, reset, now).1
  {
    assert client.Some? ==> (Sticks(a, client.value, reset, now) <==> Sticks(b, client.value, reset, now));
  }

  lemma StepAlike(a: Option<Balancer>, b: Option<Balancer>, op: Op, now: int)
    requires Alike(a, b, now)
    ensures Alike(Step(a, op, now).0, Step(b, op, now).0, now) && Step(a, op, now).1 == Step(b, op, now).1
  {
    if a.Some? && op.NextEndpoint? { PickAlike(a.value, b.value, op.client, op.reset, now); }
  }

  lemma CleanedAlike(a: Option<Balancer>, b: Option<Balancer>, now: int)
    requires Alike(a, b, now)
    ensures Alike(Step(a, Cleanup, now).0, b, now)
  {
  }

  lemma AlikeLater(a: Option<Balancer>, b: Option<Balancer>, now: int, later: int)
    requires Alike(a, b, now) && now <= later
    ensures Alike(a, b, later)
  {
  }

  ghost predicate AllAlike(x: Balancers, y: Balancers, now: int) {
    forall port :: Alike(Find(x, port), Find(y, port), now)
  }

  function WithoutCleanup(calls: seq<Call>): seq<Call> {
    if calls == [] then [] else (if calls[0].op.Cleanup? then [] else [calls[0]]) + WithoutCleanup(calls[1..])
  }

  /** The outcomes of everything but the clean-ups. */
  function Answers(all: Balancers, calls: seq<Call>): seq<Outcome>
    decreases calls
  {
    if calls == [] then []
    else (if calls[0].op.Cleanup? then [] else [OutcomeOf(all, calls[0])]) + Answers(Next(all, calls[0]), calls[1..])
  }

  /** With a clock that does not go back, the answers are the same without the clean-ups. */
  lemma {:induction false} CleanupUnobservable(x: Balancers, y: Balancers, calls: seq<Call>, now: int)
    requires AllAlike(x, y, now) && Monotone(calls, now)
    ensures Answers(x, calls) == Answers(y, WithoutCleanup(calls))
    decreases calls
  {
    if calls != [] {
      var call := calls[0];
      var rest := WithoutCleanup(calls[1..]);
      forall port ensures Alike(Find(x, port), Find(y, port), call.now) {
        assert Alike(Find(x, port), Find(y, port), now);
        AlikeLater(Find(x, port), Find(y, port), now, call.now);
      }
      var y' := if call.op.Cleanup? then y else Next(y, call);
      forall port ensures Alike(Find(Next(x, call), port), Find(y', port), call.now) {
        NextAt(x, call, port);
        NextAt(y, call, port);
        if port == call.port {
          if call.op.Cleanup? { CleanedAlike(Find(x, port), Find(y, port), call.now); }
          else { StepAlike(Find(x, port), Find(y, port), call.op, call.now); }
        }
      }
      StepAlike(Find(x, call.port), Find(y, call.port), call.op, call.now);
      CleanupUnobservable(Next(x, call), y', calls[1..], call.now);
      assert [] + rest == rest && ([call] + rest)[1..] == rest;
    }
  }

  // Sticky sessions

  /** The calls never give up the client's session on the port: each of its calls comes within the TTL of the one before
      and does not reset, the service is not deleted and its list is never emptied. */
  ghost predicate KeepsSession(all: Balancers, calls: seq<Call>, port: string, client: string, last: int)
    decreases calls
  {
    calls != [] ==>
      var call, next := calls[0], Next(all, calls[0]);
      && port in all && port in next && next[port].endpoints != []
      && !(call.port == port && call.op.DeleteService?)
      && (IsBy(call, port, client) ==> !call.op.reset && Seconds(call.now - last) < all[port].ttl)
      && KeepsSession(next, calls[1..], port, client, if IsBy(call, port, client) then call.now else last)
  }

  predicate IsBy(call: Call, port: string, client: string) {
    call.port == port && call.op.NextEndpoint? && call.op.client == Some(client)
  }

  /** The client has a session for the endpoint, or it has expired. */
  ghost predicate Stuck(b: Option<Balancer>, client: string, endpoint: string, last: int, now: int) {
    && b.Some? && b.value.affinity && b.value.endpoints != []
    && (if client in b.value.sessions then b.value.sessions[client] == Session(endpoint, last)
        else Stale(Session(endpoint, last), b.value.ttl, now))
  }

  /** Every call of the client on the port is answered with the endpoint. */
  ghost predicate AlwaysAnswers(all: Balancers, calls: seq<Call>, port: string, client: string, endpoint: string)
    decreases calls
  {
    calls != [] ==>
      && (IsBy(calls[0], port, client) ==> OutcomeOf(all, calls[0]) == Endpoint(endpoint))
      && AlwaysAnswers(Next(all, calls[0]), calls[1..], port, client, endpoint)
  }

  lemma StepStuck(b: Option<Balancer>, op: Op, client: string, endpoint: string, last: int, now: int, later: int)
    requires Stuck(b, client, endpoint, last, now) && now <= later && op != DeleteService
    requires op.NextEndpoint? && op.client == Some(client) ==> !op.reset && Seconds(later - last) < b.value.ttl
    requires Step(b, op, later).0.Some? && Step(b, op, later).0.value.endpoints != []
    ensures (var mine := op.NextEndpoint? && op.client == Some(client);
             && Stuck(Step(b, op, later).0, client, endpoint, if mine then later else last, later)
             && (mine ==> Step(b, op, later).1 == Endpoint(endpoint)))
  {
  }

  lemma {:induction false} StuckClient(all: Balancers, calls: seq<Call>, port: string, client: string, endpoint: string, last: int, now: int)
    requires Stuck(Find(all, port), client, endpoint, last, now) && Monotone(calls, now)
    requires KeepsSession(all, calls, port, client, last)
    ensures AlwaysAnswers(all, calls, port, client, endpoint)
    decreases calls
  {
    if calls != [] {
      var call := calls[0];
      NextAt(all, call, port);
      if call.port == port {
        StepStuck(Find(all, port), call.op, client, endpoint, last, now, call.now);
      }
      StuckClient(Next(all, call), calls[1..], port, client, endpoint, if IsBy(call, port, client) then call.now else last, call.now);
    }
  }

  /** With affinity, every answered call of a client leaves it a session for the endpoint answered. */
  lemma AnswerSticks(b: Option<Balancer>, client: string, reset: bool, now: int, endpoint: string)
    requires b.Some? && b.value.affinity && Step(b, NextEndpoint(Some(client), reset), now).1 == Endpoint(endpoint)
    ensures Stuck(Step(b, NextEndpoint(Some(client), reset), now).0, client, endpoint, now, now)
  {
  }

  /** A client that was answered with an endpoint, on a port with affinity, gets the same endpoint in all its
      later calls, whatever else happens, as long as the calls keep its session. */
  lemma StickyClient(all: Balancers, call: Call, calls: seq<Call>, port: string, client: string, endpoint: string)
    requires IsBy(call, port, client) && port in all && all[port].affinity && OutcomeOf(all, call) == Endpoint(endpoint)
    requires Monotone(calls, call.now) && KeepsSession(Next(all, call), calls, port, client, call.now)
    ensures AlwaysAnswers(Next(all, call), calls, port, client, endpoint)
  {
    NextAt(all, call, port);
    AnswerSticks(Find(all, port), client, call.op.reset, call.now, endpoint);
    StuckClient(Next(all, call), calls, port, client, endpoint, call.now, call.now);
  }

  // Fairness

  /** The positions that the calls on a port take from its list. */
  function Positions(all: Balancers, calls: seq<Call>, port: string): seq<nat>
    decreases calls
  {
    if calls == [] then []
    else
      var b := Find(all, port);
      (if calls[0].port == port && calls[0].op.NextEndpoint? && b.Some? then [b.value.index] else [])
      + Positions(Next(all, calls[0]), calls[1..], port)
  }

  /** No call changes the list of the port, deletes it or switches affinity on. */
  predicate Quiet(calls: seq<Call>, port: string) {
    forall i :: 0 <= i < |calls| && calls[i].port == port ==>
      calls[i].op.NextEndpoint? || calls[i].op.Cleanup? || (calls[i].op.NewService? && !calls[i].op.affinity)
  }

  /** The positions of m calls, starting at i in a list of n, going round. */
  function Rounds(n: nat, i: nat, m: nat): seq<nat>
    requires i < n
    decreases m
  {
    if m == 0 then [] else [i] + Rounds(n, (i + 1) % n, m - 1)
  }

  lemma {:induction false} QuietRounds(all: Balancers, calls: seq<Call>, port: string)
    requires Quiet(calls, port) && port in all && !all[port].affinity && all[port].index < |all[port].endpoints|
    ensures Positions(all, calls, port) == Rounds(|all[port].endpoints|, all[port].index, |Positions(all, calls, port)|)
    decreases calls
  {
    if calls != [] {
      NextAt(all, calls[0], port);
      QuietRounds(Next(all, calls[0]), calls[1..], port);
    }
  }

  /** The answers of the calls on a port. */
  function PortAnswers(all: Balancers, calls: seq<Call>, port: string): seq<Outcome>
    decreases calls
  {
    if calls == [] then []
    else
      (if calls[0].port == port && calls[0].op.NextEndpoint? then [OutcomeOf(all, calls[0])] else [])
      + PortAnswers(Next(all, calls[0]), calls[1..], port)
  }

  function EndpointsAt(endpoints: seq<string>, positions: seq<nat>): seq<Outcome> {
    if positions == [] then []
    else
      [if positions[0] < |endpoints| then Endpoint(endpoints[positions[0]]) else OutOfRange] + EndpointsAt(endpoints, positions[1..])
  }

  lemma {:induction false} QuietAnswers(all: Balancers, calls: seq<Call>, port: string)
    requires Quiet(calls, port) && port in all && !all[port].affinity && all[port].index < |all[port].endpoints|
    ensures PortAnswers(all, calls, port) == EndpointsAt(all[port].endpoints, Positions(all, calls, port))
    decreases calls
  {
    if calls != [] {
      var rest := Positions(Next(all, calls[0]), calls[1..], port);
      NextAt(all, calls[0], port);
      QuietAnswers(Next(all, calls[0]), calls[1..], port);
      assert ([all[port].index] + rest)[1..] == rest && [] + rest == rest;
    }
  }

  function Times(s: seq<nat>, p: nat): nat {
    if s == [] then 0 else (if s[0] == p then 1 else 0) + Times(s[1..], p)
  }

  /** The steps from position i to position p, going round. */
  function Distance(n: nat, i: nat, p: nat): nat
    requires i < n && p < n
  {
    if i <= p then p - i else p + n - i
  }

  lemma StepOn(n: nat, i: nat, p: nat)
    requires i < n && p < n
    ensures (i + 1) % n == if i + 1 < n then i + 1 else 0
    ensures Distance(n, (i + 1) % n, p) == if i == p then n - 1 else Distance(n, i, p) - 1
  {
  }

  /** How often a position is taken, by the number of whole rounds. */
  lemma {:induction false} RoundsTimes(n: nat, i: nat, m: nat, p: nat)
    requires i < n && p < n
    ensures (var d, t := Distance(n, i, p), Times(Rounds(n, i, m), p);
             m <= n * t + d && (t > 0 ==> n * (t - 1) + d < m))
    decreases m
  {
    if m > 0 {
      var rest := Rounds(n, (i + 1) % n, m - 1);
      RoundsTimes(n, (i + 1) % n, m - 1, p);
      assert Rounds(n, i, m)[1..] == rest;
      StepOn(n, i, p);
      var t: int := Times(rest, p);
      Distribute(n, t);
      Distribute(n, t - 1);
    }
  }

  lemma Distribute(n: int, t: int)
    ensures n * (t + 1) == n * t + n
  {
  }

  lemma Scale(n: int, a: int, b: int)
    requires n >= 0 && a <= b
    ensures n * a <= n * b
  {
    assert n * (b - a) >= 0;
  }

  lemma Division(x: int, n: int, q: int)
    requires n > 0
    ensures n * q <= x ==> q <= x / n
    ensures x < n * (q + 1) ==> x / n <= q
  {
    var d, r := x / n, x % n;
    assert x == n * d + r && 0 <= r < n;
    if d < q { Scale(n, d + 1, q); }
    if q < d { Scale(n, q + 1, d); }
  }

  /** In any window of calls between changes of the list, without affinity, each position is taken
      the number of calls over the length of the list, rounded down or up. */
  lemma FairWindow(all: Balancers, calls: seq<Call>, port: string, p: nat)
    requires Quiet(calls, port) && port in all && !all[port].affinity && all[port].index < |all[port].endpoints|
    requires p < |all[port].endpoints|
    ensures (var n, m := |all[port].endpoints|, |Positions(all, calls, port)|;
             m / n <= Times(Positions(all, calls, port), p) <= (m + n - 1) / n)
    ensures PortAnswers(all, calls, port) == EndpointsAt(all[port].endpoints, Positions(all, calls, port))
  {
    var n, i := |all[port].endpoints|, all[port].index;
    var m := |Positions(all, calls, port)|;
    QuietRounds(all, calls, port);
    QuietAnswers(all, calls, port);
    RoundsTimes(n, i, m, p);
    FloorAndCeiling(n, m, Distance(n, i, p), Times(Rounds(n, i, m), p));
  }

  lemma FloorAndCeiling(n: nat, m: nat, d: nat, t: nat)
    requires d < n && m <= n * t + d && (t > 0 ==> n * (t - 1) + d < m)
    ensures m / n <= t <= (m + n - 1) / n
  {
    Distribute(n, t);
    Distribute(n, t - 1);
    Division(m, n, t);
    Division(m + n - 1, n, t);
  }

  // The balancer

  /** The deletion loop over the backing array, whose first len elements are the list. */
  method RemoveInPlace(a: array<string>, d: string) returns (ok: bool, len: nat)
    modifies a
    ensures ok <==> SwapRemove(old(a[..]), d).Some?
    ensures ok ==> len <= a.Length && a[..len] == SwapRemove(old(a[..]), d).value
  {
    len := a.Length;
    var i := 0;
    while i < a.Length
      invariant i <= a.Length && len <= a.Length
      invariant SwapLoop(a[..], len, i, d) == SwapRemove(old(a[..]), d)
    {
      if a[i] == d {
        if i >= len { return false, len; }
        ghost var was := a[..];
        a[i] := a[len - 1];
        assert a[..] == was[i := was[len - 1]];
        len := len - 1;
      }
      i := i + 1;
    }
    ok := true;
    assert a[..][..len] == a[..len];
  }

  method DropStale(sessions: map<string, Session>, ttl: int, now: int) returns (left: map<string, Session>)
    ensures left == map c | c in sessions && !Stale(sessions[c], ttl, now) :: sessions[c]
  {
    left := sessions;
    var todo := sessions.Keys;
    while todo != {}
      invariant todo <= sessions.Keys
      invariant left == map c | c in sessions && (c in todo || !Stale(sessions[c], ttl, now)) :: sessions[c]
      decreases |todo|
    {
      var c :| c in todo;
      todo := todo - {c};
      if Seconds(now - sessions[c].lastUsed) >= ttl { left := left - {c}; }
    }
  }

  class LoadBalancerRR {
    var services: Balancers

    constructor ()
      ensures services == map[]
    {
      services := map[];
    }

    method NewService(port: string, affinity: bool, ttl: int)
      modifies this
      ensures services == Next(old(services), Call(port, Op.NewService(affinity, ttl), 0))
    {
      if port !in services {
        services := services[port := Balancer([], 0, affinity, map[], if ttl == 0 then DEFAULT_TTL else ttl)];
      } else if affinity {
        services := services[port := services[port].(affinity := true)];
      }
    }

    method DeleteService(port: string)
      modifies this
      ensures services == Next(old(services), Call(port, Op.DeleteService, 0))
    {
      services := services - {port};
    }

    /** The client is the host part of the source address, None if it cannot be parsed. */
    method NextEndpoint(port: string, client: Option<string>, reset: bool, now: int) returns (outcome: Outcome)
      requires AllRanged(services)
      modifies this
      ensures services == Next(old(services), Call(port, Op.NextEndpoint(client, reset), now))
      ensures outcome == OutcomeOf(old(services), Call(port, Op.NextEndpoint(client, reset), now)) != OutOfRange
    {
      if port !in services { return MissingService; }
      var state := services[port];
      assert Ranged(Find(services, port));
      if state.endpoints == [] { return MissingEndpoints; }
      if state.affinity {
        if client.None? { return Malformed; }
        if !reset && client.value in state.sessions {
          var session := state.sessions[client.value];
          if Seconds(now - session.lastUsed) < state.ttl {
            state := state.(sessions := state.sessions[client.value := session.(lastUsed := now)]);
            services := services[port := state];
            return Endpoint(session.endpoint);
          }
        }
      }
      var endpoint := state.endpoints[state.index];
      state := state.(index := (state.index + 1) % |state.endpoints|);
      if state.affinity {
        state := state.(sessions := state.sessions[client.value := Session(endpoint, now)]);
      }
      services := services[port := state];
      outcome := Endpoint(endpoint);
    }

    method OnEndpointsAdd(port: string, news: seq<string>, order: seq<string>, affinity: bool)
      modifies this
      ensures services == Next(old(services), Call(port, AddEndpoints(news, order, affinity), 0))
    {
      var all := news;
      if port in services { all := all + services[port].endpoints; }
      if port !in services || all != [] {
        assert port !in old(services) ==> all == news + [];
        NewService(port, affinity, 0);
        services := services[port := services[port].(endpoints := Shuffle(all, order), index := 0)];
      }
    }

    method OnEndpointsDelete(port: string, endpoint: Option<string>) returns (ok: bool)
      modifies this
      ensures ok <==> OutcomeOf(old(services), Call(port, DeleteEndpoint(endpoint), 0)) != OutOfRange
      ensures ok ==> services == Next(old(services), Call(port, DeleteEndpoint(endpoint), 0))
    {
      if port !in services { return true; }
      var state := services[port];
      if endpoint.Some? {
        var list := state.endpoints;
        var a := new string[|list|](i requires 0 <= i < |list| => list[i]);
        assert a[..] == list;
        var len;
        ok, len := RemoveInPlace(a, endpoint.value);
        if !ok { return; }
        state := state.(endpoints := a[..len], index := if endpoint.value in list then 0 else state.index);
      }
      if state.endpoints == [] { state := state.(sessions := map[]); }
      services := services[port := state];
      ok := true;
    }

    method CleanupStaleStickySessions(port: string, now: int)
      modifies this
      ensures services == Next(old(services), Call(port, Cleanup, now))
    {
      if port !in services { return; }
      var left := DropStale(services[port].sessions, services[port].ttl, now);
      services := services[port := services[port].(sessions := left)];
    }
  }
}
