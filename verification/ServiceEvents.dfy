/** Detailed events from updates to the set of services.

    Each listener callback is one event: AddPort, AddIP, AddIPPort, EnableTrafficPolicy
    and EnableSessionAffinity add an item of a service, their counterparts delete it. */
module ServiceEvents {
  import opened Options
  import opened Scans
  import IPSets

  datatype Port = Port(name: string, protocol: int, port: int, nodePort: int, targetPort: int, targetPortName: string)

  datatype Kind = ClusterIP | ExternalIP | LoadBalancerIP

  datatype Policy = Internal | External

  datatype ServiceIPs = ServiceIPs(cluster: Option<IPSets.IPSet>, external: Option<IPSets.IPSet>, loadBalancer: Option<IPSets.IPSet>)

  datatype Service = Service(ns: string, name: string, ips: Option<ServiceIPs>, ports: seq<Port>,
                             internalToLocal: bool, externalToLocal: bool, clientIP: bool)

  datatype Item =
    | PortItem(port: Port)
    | IPItem(kind: Kind, ip: string)
    | PairItem(kind: Kind, ip: string, port: Port)
    | PolicyItem(policy: Policy)
    | AffinityItem

  type Key = string

  /** A disabled traffic policy is reported with the current service, which a deletion does not have. */
  datatype Event = Add(key: Key, item: Item) | Del(key: Key, item: Item) | DelUnnamed(item: Item)

  /** Which listeners are registered. */
  datatype Listeners = Listeners(ports: bool, ips: bool, pairs: bool, policies: bool, affinity: bool)

  function KeyOf(svc: Service): Key {
    svc.ns + "/" + svc.name
  }

  const KINDS: seq<Kind> := [ClusterIP, ExternalIP, LoadBalancerIP]

  // What a service has

  function AllIPs(set_: Option<IPSets.IPSet>): seq<string> {
    if set_.None? then [] else set_.value.v4 + set_.value.v6
  }

  function GetIPs(svc: Service, kind: Kind): seq<string> {
    if svc.ips.None? then []
    else
      match kind
      case ClusterIP => AllIPs(svc.ips.value.cluster)
      case ExternalIP => AllIPs(svc.ips.value.external)
      case LoadBalancerIP => AllIPs(svc.ips.value.loadBalancer)
  }

  ghost predicate Has(svc: Service, item: Item) {
    match item
    case PortItem(p) => p in svc.ports
    case IPItem(kind, ip) => ip in GetIPs(svc, kind)
    case PairItem(kind, ip, p) => ip in GetIPs(svc, kind) && p in svc.ports
    case PolicyItem(Internal) => svc.internalToLocal
    case PolicyItem(External) => svc.externalToLocal
    case AffinityItem => svc.clientIP
  }

  ghost predicate Had(svc: Option<Service>, item: Item) {
    svc.Some? && Has(svc.value, item)
  }

  predicate Heard(on: Listeners, item: Item) {
    match item
    case PortItem(_) => on.ports
    case IPItem(_, _) => on.ips
    case PairItem(_, _, _) => on.pairs
    case PolicyItem(_) => on.policies
    case AffinityItem => on.affinity
  }

  // The lists that are compared

  function PortItems(ports: seq<Port>): seq<Item> {
    if ports == [] then [] else [PortItem(ports[0])] + PortItems(ports[1..])
  }

  function IPItems(kind: Kind, ips: seq<string>): seq<Item> {
    if ips == [] then [] else [IPItem(kind, ips[0])] + IPItems(kind, ips[1..])
  }

  function PairsOfIP(kind: Kind, ip: string, ports: seq<Port>): seq<Item> {
    if ports == [] then [] else [PairItem(kind, ip, ports[0])] + PairsOfIP(kind, ip, ports[1..])
  }

  function PairItems(kind: Kind, ips: seq<string>, ports: seq<Port>): seq<Item> {
    if ips == [] then [] else PairsOfIP(kind, ips[0], ports) + PairItems(kind, ips[1..], ports)
  }

  datatype Group = PortGroup | IPGroup(kind: Kind) | PairGroup(kind: Kind)

  function Items(svc: Option<Service>, g: Group): seq<Item> {
    if svc.None? then []
    else
      match g
      case PortGroup => PortItems(svc.value.ports)
      case IPGroup(kind) => IPItems(kind, GetIPs(svc.value, kind))
      case PairGroup(kind) => PairItems(kind, GetIPs(svc.value, kind), svc.value.ports)
  }

  // Diff.SlicesLen

  function Outside(other: seq<Item>): Item -> bool {
    (x: Item) => x !in other
  }

  function Gone(prev: seq<Item>, curr: seq<Item>): seq<Item> {
    Filter(prev, Outside(curr))
  }

  function Dels(key: Key, items: seq<Item>): seq<Event> {
    if items == [] then [] else [Del(key, items[0])] + Dels(key, items[1..])
  }

  function Adds(key: Key, items: seq<Item>): seq<Event> {
    if items == [] then [] else [Add(key, items[0])] + Adds(key, items[1..])
  }

  function DelGroup(key: Key, prev: Option<Service>, curr: Option<Service>, g: Group): seq<Event> {
    Dels(key, Gone(Items(prev, g), Items(curr, g)))
  }

  function AddGroup(key: Key, prev: Option<Service>, curr: Option<Service>, g: Group): seq<Event> {
    Adds(key, Gone(Items(curr, g), Items(prev, g)))
  }

  // The phases of one update, in the order of the calls

  function PortPhase(on: Listeners, key: Key, prev: Option<Service>, curr: Option<Service>): seq<Event> {
    if on.ports then DelGroup(key, prev, curr, PortGroup) + AddGroup(key, prev, curr, PortGroup) else []
  }

  function AddIPs(key: Key, prev: Option<Service>, curr: Option<Service>, kinds: seq<Kind>): seq<Event> {
    if kinds == [] then [] else AddGroup(key, prev, curr, IPGroup(kinds[0])) + AddIPs(key, prev, curr, kinds[1..])
  }

  function DelIPs(key: Key, prev: Option<Service>, curr: Option<Service>, kinds: seq<Kind>): seq<Event> {
    if kinds == [] then [] else DelGroup(key, prev, curr, IPGroup(kinds[0])) + DelIPs(key, prev, curr, kinds[1..])
  }

  function Pairs(key: Key, prev: Option<Service>, curr: Option<Service>, kinds: seq<Kind>): seq<Event> {
    if kinds == [] then []
    else
      DelGroup(key, prev, curr, PairGroup(kinds[0])) + AddGroup(key, prev, curr, PairGroup(kinds[0]))
      + Pairs(key, prev, curr, kinds[1..])
  }

  function PolicyEvents(key: Key, prev: Option<Service>, curr: Option<Service>, policy: Policy): seq<Event> {
    var was := prev.Some? && (if policy == Internal then prev.value.internalToLocal else prev.value.externalToLocal);
    var is_ := curr.Some? && (if policy == Internal then curr.value.internalToLocal else curr.value.externalToLocal);
    if !was && is_ then [Add(key, PolicyItem(policy))]
    else if was && !is_ then (if curr.Some? then [Del(key, PolicyItem(policy))] else [DelUnnamed(PolicyItem(policy))])
    else []
  }

  function AffinityEvents(key: Key, prev: Option<Service>, curr: Option<Service>): seq<Event> {
    var was, is_ := prev.Some? && prev.value.clientIP, curr.Some? && curr.value.clientIP;
    if !was && is_ then [Add(key, AffinityItem)] else if was && !is_ then [Del(key, AffinityItem)] else []
  }

  function FlagPhase(on: Listeners, key: Key, prev: Option<Service>, curr: Option<Service>): seq<Event> {
    (if on.policies then PolicyEvents(key, prev, curr, Internal) + PolicyEvents(key, prev, curr, External) else [])
    + (if on.affinity then AffinityEvents(key, prev, curr) else [])
  }

  function Early(on: Listeners, key: Key, prev: Option<Service>, curr: Option<Service>): seq<Event> {
    PortPhase(on, key, prev, curr) + (if on.ips then AddIPs(key, prev, curr, KINDS) else [])
  }

  function Middle(on: Listeners, key: Key, prev: Option<Service>, curr: Option<Service>): seq<Event> {
    (if on.pairs then Pairs(key, prev, curr, KINDS) else []) + FlagPhase(on, key, prev, curr)
  }

  /** DeleteIP calls are collected and made after everything else. */
  function Late(on: Listeners, key: Key, prev: Option<Service>, curr: Option<Service>): seq<Event> {
    if on.ips then DelIPs(key, prev, curr, KINDS) else []
  }

  function DiffEvents(on: Listeners, key: Key, prev: Option<Service>, curr: Option<Service>): seq<Event> {
    Early(on, key, prev, curr) + Middle(on, key, prev, curr) + Late(on, key, prev, curr)
  }

  // Runs

  datatype Op = SetService(svc: Service) | DeleteService(ns: string, name: string)

  type Services = map<Key, Service>

  function OpKey(op: Op): Key {
    match op
    case SetService(svc) => KeyOf(svc)
    case DeleteService(ns, name) => ns + "/" + name
  }

  function Stored(services: Services, key: Key): Option<Service> {
    if key in services then Some(services[key]) else None
  }

  function Wanted(op: Op): Option<Service> {
    if op.SetService? then Some(op.svc) else None
  }

  function Next(services: Services, op: Op): Services {
    match op
    case SetService(svc) => services[KeyOf(svc) := svc]
    case DeleteService(ns, name) => services - {ns + "/" + name}
  }

  function Emitted(on: Listeners, services: Services, op: Op): seq<Event> {
    if op.DeleteService? && OpKey(op) !in services then []
    else DiffEvents(on, OpKey(op), Stored(services, OpKey(op)), Wanted(op))
  }

  function Run(services: Services, ops: seq<Op>): Services
    decreases ops
  {
    if ops == [] then services else Run(Next(services, ops[0]), ops[1..])
  }

  function Trace(on: Listeners, services: Services, ops: seq<Op>): seq<Event>
    decreases ops
  {
    if ops == [] then [] else Emitted(on, services, ops[0]) + Trace(on, Next(services, ops[0]), ops[1..])
  }

  // Replaying

  type Live = set<(Key, Item)>

  function Hear(live: Live, e: Event): Live {
    match e
    case Add(key, item) => live + {(key, item)}
    case Del(key, item) => live - {(key, item)}
    case DelUnnamed(_) => live
  }

  function Replay(live: Live, events: seq<Event>): Live {
    if events == [] then live else Hear(Replay(live, events[..|events| - 1]), events[|events| - 1])
  }

  ghost predicate Agrees(on: Listeners, live: Live, services: Services, key: Key, item: Item) {
    (key, item) in live <==> Had(Stored(services, key), item) && Heard(on, item)
  }

  /** The replayed items are exactly those of the stored services, as far as listeners are registered. */
  ghost predicate Exact(on: Listeners, live: Live, services: Services) {
    forall key, item :: Agrees(on, live, services, key, item)
  }

  lemma {:induction false} ReplayConcat(live: Live, a: seq<Event>, b: seq<Event>)
    ensures Replay(live, a + b) == Replay(Replay(live, a), b)
  {
    if b == [] {
      assert a + b == a;
    } else {
      var n := |b| - 1;
      assert (a + b)[..|a + b| - 1] == a + b[..n];
      ReplayConcat(live, a, b[..n]);
    }
  }

  // What the lists and events contain

  predicate InGroup(x: Item, g: Group) {
    match g
    case PortGroup => x.PortItem?
    case IPGroup(kind) => x.IPItem? && x.kind == kind
    case PairGroup(kind) => x.PairItem? && x.kind == kind
  }

  lemma {:induction false} PortItemsAre(ports: seq<Port>)
    ensures forall x :: x in PortItems(ports) <==> x.PortItem? && x.port in ports
  {
    if ports != [] { PortItemsAre(ports[1..]); }
  }

  lemma {:induction false} IPItemsAre(kind: Kind, ips: seq<string>)
    ensures forall x :: x in IPItems(kind, ips) <==> x.IPItem? && x.kind == kind && x.ip in ips
  {
    if ips != [] { IPItemsAre(kind, ips[1..]); }
  }

  lemma {:induction false} PairsOfIPAre(kind: Kind, ip: string, ports: seq<Port>)
    ensures forall x :: x in PairsOfIP(kind, ip, ports) <==> x.PairItem? && x.kind == kind && x.ip == ip && x.port in ports
  {
    if ports != [] { PairsOfIPAre(kind, ip, ports[1..]); }
  }

  lemma {:induction false} PairItemsAre(kind: Kind, ips: seq<string>, ports: seq<Port>)
    ensures forall x :: x in PairItems(kind, ips, ports) <==> x.PairItem? && x.kind == kind && x.ip in ips && x.port in ports
  {
    if ips != [] {
      PairsOfIPAre(kind, ips[0], ports);
      PairItemsAre(kind, ips[1..], ports);
    }
  }

  lemma ItemsAre(svc: Option<Service>, g: Group)
    ensures forall x :: x in Items(svc, g) <==> Had(svc, x) && InGroup(x, g)
  {
    if svc.Some? {
      match g
      case PortGroup => PortItemsAre(svc.value.ports);
      case IPGroup(kind) => IPItemsAre(kind, GetIPs(svc.value, kind));
      case PairGroup(kind) => PairItemsAre(kind, GetIPs(svc.value, kind), svc.value.ports);
    }
  }

  lemma {:induction false} DelsAre(key: Key, items: seq<Item>)
    ensures forall e :: e in Dels(key, items) <==> e.Del? && e.key == key && e.item in items
  {
    if items != [] { DelsAre(key, items[1..]); }
  }

  lemma {:induction false} AddsAre(key: Key, items: seq<Item>)
    ensures forall e :: e in Adds(key, items) <==> e.Add? && e.key == key && e.item in items
  {
    if items != [] { AddsAre(key, items[1..]); }
  }

  /** The event takes an item away: the service had it and has it no longer. */
  ghost predicate Drops(e: Event, key: Key, prev: Option<Service>, curr: Option<Service>) {
    e.Del? && e.key == key && Had(prev, e.item) && !Had(curr, e.item)
  }

  ghost predicate Brings(e: Event, key: Key, prev: Option<Service>, curr: Option<Service>) {
    e.Add? && e.key == key && !Had(prev, e.item) && Had(curr, e.item)
  }

  lemma GroupEvents(key: Key, prev: Option<Service>, curr: Option<Service>, g: Group)
    ensures forall e :: e in DelGroup(key, prev, curr, g) <==> Drops(e, key, prev, curr) && InGroup(e.item, g)
    ensures forall e :: e in AddGroup(key, prev, curr, g) <==> Brings(e, key, prev, curr) && InGroup(e.item, g)
  {
    ItemsAre(prev, g);
    ItemsAre(curr, g);
    FilterMembers(Items(prev, g), Outside(Items(curr, g)));
    FilterMembers(Items(curr, g), Outside(Items(prev, g)));
    DelsAre(key, Gone(Items(prev, g), Items(curr, g)));
    AddsAre(key, Gone(Items(curr, g), Items(prev, g)));
  }

  lemma {:induction false} IPsAre(key: Key, prev: Option<Service>, curr: Option<Service>, kinds: seq<Kind>)
    ensures forall e :: e in AddIPs(key, prev, curr, kinds) <==> Brings(e, key, prev, curr) && e.item.IPItem? && e.item.kind in kinds
    ensures forall e :: e in DelIPs(key, prev, curr, kinds) <==> Drops(e, key, prev, curr) && e.item.IPItem? && e.item.kind in kinds
  {
    if kinds != [] {
      GroupEvents(key, prev, curr, IPGroup(kinds[0]));
      IPsAre(key, prev, curr, kinds[1..]);
    }
  }

  lemma {:induction false} PairsAre(key: Key, prev: Option<Service>, curr: Option<Service>, kinds: seq<Kind>)
    ensures forall e :: e in Pairs(key, prev, curr, kinds) <==>
              (Drops(e, key, prev, curr) || Brings(e, key, prev, curr)) && e.item.PairItem? && e.item.kind in kinds
  {
    if kinds != [] {
      GroupEvents(key, prev, curr, PairGroup(kinds[0]));
      PairsAre(key, prev, curr, kinds[1..]);
    }
  }

  lemma PolicyEventsAre(key: Key, prev: Option<Service>, curr: Option<Service>, policy: Policy, e: Event)
    requires !e.DelUnnamed?
    ensures (e in PolicyEvents(key, prev, curr, policy) <==>
             (Brings(e, key, prev, curr) || (Drops(e, key, prev, curr) && curr.Some?)) && e.item == PolicyItem(policy))
  {
  }

  lemma FlagsAre(on: Listeners, key: Key, prev: Option<Service>, curr: Option<Service>, e: Event)
    requires !e.DelUnnamed?
    ensures (e in FlagPhase(on, key, prev, curr) <==>
             && (Brings(e, key, prev, curr) || (Drops(e, key, prev, curr) && (e.item.PolicyItem? ==> curr.Some?)))
             && ((on.policies && e.item.PolicyItem?) || (on.affinity && e.item == AffinityItem)))
  {
    PolicyEventsAre(key, prev, curr, Internal, e);
    PolicyEventsAre(key, prev, curr, External, e);
  }

  lemma KindsComplete(kind: Kind)
    ensures kind in KINDS
  {
    assert kind == match kind case ClusterIP => KINDS[0] case ExternalIP => KINDS[1] case LoadBalancerIP => KINDS[2];
  }

  /** Which events one update fires: what is new and heard, what is gone and heard;
      only a traffic policy of a deleted service is not reported by name. */
  ghost predicate Fires(on: Listeners, key: Key, prev: Option<Service>, curr: Option<Service>, e: Event) {
    && (Brings(e, key, prev, curr) || (Drops(e, key, prev, curr) && (e.item.PolicyItem? ==> curr.Some?)))
    && Heard(on, e.item)
  }

  lemma EarlyAre(on: Listeners, key: Key, prev: Option<Service>, curr: Option<Service>, e: Event)
    requires !e.DelUnnamed?
    ensures e in Early(on, key, prev, curr) <==> Fires(on, key, prev, curr, e) && (e.item.PortItem? || (e.item.IPItem? && e.Add?))
  {
    if e.item.IPItem? { KindsComplete(e.item.kind); }
    GroupEvents(key, prev, curr, PortGroup);
    IPsAre(key, prev, curr, KINDS);
  }

  lemma MiddleAre(on: Listeners, key: Key, prev: Option<Service>, curr: Option<Service>, e: Event)
    requires !e.DelUnnamed?
    ensures e in Middle(on, key, prev, curr) <==> Fires(on, key, prev, curr, e) && !e.item.PortItem? && !e.item.IPItem?
  {
    PairEvents(key, prev, curr, e);
    FlagsAre(on, key, prev, curr, e);
  }

  lemma PairEvents(key: Key, prev: Option<Service>, curr: Option<Service>, e: Event)
    requires !e.DelUnnamed?
    ensures (e in Pairs(key, prev, curr, KINDS) <==>
             (Drops(e, key, prev, curr) || Brings(e, key, prev, curr)) && e.item.PairItem?)
  {
    if e.item.PairItem? { KindsComplete(e.item.kind); }
    PairsAre(key, prev, curr, KINDS);
  }

  lemma LateAre(on: Listeners, key: Key, prev: Option<Service>, curr: Option<Service>, e: Event)
    requires !e.DelUnnamed?
    ensures e in Late(on, key, prev, curr) <==> Fires(on, key, prev, curr, e) && e.item.IPItem? && e.Del?
  {
    if e.item.IPItem? { KindsComplete(e.item.kind); }
    IPsAre(key, prev, curr, KINDS);
  }

  lemma EventsAre(on: Listeners, key: Key, prev: Option<Service>, curr: Option<Service>, e: Event)
    requires !e.DelUnnamed?
    ensures e in DiffEvents(on, key, prev, curr) <==> Fires(on, key, prev, curr, e)
  {
    EarlyAre(on, key, prev, curr, e);
    MiddleAre(on, key, prev, curr, e);
    LateAre(on, key, prev, curr, e);
  }

  // Replaying one update

  lemma {:induction false} ReplayAt(live: Live, events: seq<Event>, key: Key, item: Item)
    requires !(Add(key, item) in events && Del(key, item) in events)
    ensures (key, item) in Replay(live, events) <==> Add(key, item) in events || ((key, item) in live && Del(key, item) !in events)
  {
    if events != [] {
      var n := |events| - 1;
      assert events == events[..n] + [events[n]];
      ReplayAt(live, events[..n], key, item);
    }
  }

  /** Exact for every item but traffic policies. */
  ghost predicate ExactButPolicies(on: Listeners, live: Live, services: Services) {
    forall key, item: Item :: !item.PolicyItem? ==> Agrees(on, live, services, key, item)
  }

  /** The deletion of a service that has a traffic policy on: the policy's end is reported without a name. */
  ghost predicate Orphans(on: Listeners, services: Services, op: Op) {
    op.DeleteService? && OpKey(op) in services && on.policies && exists p :: Has(services[OpKey(op)], PolicyItem(p))
  }

  lemma StepAt(on: Listeners, live: Live, services: Services, op: Op, key: Key, item: Item)
    requires Agrees(on, live, services, key, item)
    ensures (Agrees(on, Replay(live, Emitted(on, services, op)), Next(services, op), key, item) <==>
             !(op.DeleteService? && key == OpKey(op) && key in services && item.PolicyItem? && on.policies && Has(services[key], item)))
  {
    var prev, curr, events := Stored(services, OpKey(op)), Wanted(op), Emitted(on, services, op);
    EmittedAre(on, services, op, Add(key, item));
    EmittedAre(on, services, op, Del(key, item));
    ReplayAt(live, events, key, item);
    StepHas(services, op, key, item);
  }

  lemma EmittedAre(on: Listeners, services: Services, op: Op, e: Event)
    requires !e.DelUnnamed?
    ensures e in Emitted(on, services, op) <==> Fires(on, OpKey(op), Stored(services, OpKey(op)), Wanted(op), e)
  {
    EventsAre(on, OpKey(op), Stored(services, OpKey(op)), Wanted(op), e);
  }

  lemma StepHas(services: Services, op: Op, key: Key, item: Item)
    ensures Had(Stored(Next(services, op), key), item)
        <==> (if key == OpKey(op) then Had(Wanted(op), item) else Had(Stored(services, key), item))
  {
  }

  /** From an exact replica, replaying the events of one call gives an exact replica again,
      if and only if the call does not delete a service with a traffic policy on. */
  lemma StepExact(on: Listeners, live: Live, services: Services, op: Op)
    requires Exact(on, live, services)
    ensures Exact(on, Replay(live, Emitted(on, services, op)), Next(services, op)) <==> !Orphans(on, services, op)
  {
    var after := Replay(live, Emitted(on, services, op));
    forall key, item ensures Agrees(on, after, Next(services, op), key, item) <==>
        !(op.DeleteService? && key == OpKey(op) && key in services && item.PolicyItem? && on.policies && Has(services[key], item)) {
      assert Agrees(on, live, services, key, item);
      StepAt(on, live, services, op, key, item);
    }
    if Orphans(on, services, op) {
      var p :| Has(services[OpKey(op)], PolicyItem(p));
      assert !Agrees(on, after, Next(services, op), OpKey(op), PolicyItem(p));
    }
  }

  /** What is not a traffic policy stays exact through every call. */
  lemma StepExactButPolicies(on: Listeners, live: Live, services: Services, op: Op)
    requires ExactButPolicies(on, live, services)
    ensures ExactButPolicies(on, Replay(live, Emitted(on, services, op)), Next(services, op))
  {
    forall key, item: Item | !item.PolicyItem?
      ensures Agrees(on, Replay(live, Emitted(on, services, op)), Next(services, op), key, item)
    {
      assert Agrees(on, live, services, key, item);
      StepAt(on, live, services, op, key, item);
    }
  }

  // Whole runs

  /** Replaying the event trace of any run rebuilds the ports, IPs, IP-port pairs and affinities of the stored services. */
  lemma {:induction false} RunExactButPolicies(on: Listeners, live: Live, services: Services, ops: seq<Op>)
    requires ExactButPolicies(on, live, services)
    ensures ExactButPolicies(on, Replay(live, Trace(on, services, ops)), Run(services, ops))
    decreases ops
  {
    if ops != [] {
      var events := Emitted(on, services, ops[0]);
      StepExactButPolicies(on, live, services, ops[0]);
      RunExactButPolicies(on, Replay(live, events), Next(services, ops[0]), ops[1..]);
      ReplayConcat(live, events, Trace(on, Next(services, ops[0]), ops[1..]));
    }
  }

  ghost predicate ExactThroughout(on: Listeners, live: Live, services: Services, ops: seq<Op>)
    decreases ops
  {
    && Exact(on, live, services)
    && (ops != [] ==> ExactThroughout(on, Replay(live, Emitted(on, services, ops[0])), Next(services, ops[0]), ops[1..]))
  }

  ghost predicate NeverOrphans(on: Listeners, services: Services, ops: seq<Op>)
    decreases ops
  {
    ops != [] ==> !Orphans(on, services, ops[0]) && NeverOrphans(on, Next(services, ops[0]), ops[1..])
  }

  /** With traffic policies included, the replica is exact after every call of a run
      if and only if no call deletes a service that has a traffic policy on. */
  lemma {:induction false} RunExactThroughout(on: Listeners, live: Live, services: Services, ops: seq<Op>)
    requires Exact(on, live, services)
    ensures ExactThroughout(on, live, services, ops) <==> NeverOrphans(on, services, ops)
    decreases ops
  {
    if ops != [] {
      StepExact(on, live, services, ops[0]);
      if !Orphans(on, services, ops[0]) {
        RunExactThroughout(on, Replay(live, Emitted(on, services, ops[0])), Next(services, ops[0]), ops[1..]);
      }
    }
  }

  /** A deleted service whose internal traffic policy stays on for the listener. */
  lemma DeletedPolicyStays()
    ensures exists on, ops ::
              Run(map[], ops) == map[] && ("ns/a", PolicyItem(Internal)) in Replay({}, Trace(on, map[], ops))
  {
    var on := Listeners(false, false, false, true, false);
    var svc := Service("ns", "a", None, [], true, false, false);
    var set_, delete := SetService(svc), DeleteService("ns", "a");
    var ops := [set_, delete];
    var mid := Next(map[], set_);
    var first, second := Emitted(on, map[], set_), Emitted(on, mid, delete);
    assert KeyOf(svc) == OpKey(delete) == "ns/a";
    assert ops[1..] == [delete] && [delete][1..] == [];
    assert Trace(on, mid, [delete]) == second + Trace(on, Next(mid, delete), []) == second;
    assert Trace(on, map[], ops) == first + second;
    assert Run(mid, [delete]) == Run(Next(mid, delete), []) == map[];
    EventsAre(on, "ns/a", None, Some(svc), Add("ns/a", PolicyItem(Internal)));
    EventsAre(on, "ns/a", None, Some(svc), Del("ns/a", PolicyItem(Internal)));
    EventsAre(on, "ns/a", Some(svc), None, Add("ns/a", PolicyItem(Internal)));
    EventsAre(on, "ns/a", Some(svc), None, Del("ns/a", PolicyItem(Internal)));
    ReplayAt({}, first, "ns/a", PolicyItem(Internal));
    ReplayAt(Replay({}, first), second, "ns/a", PolicyItem(Internal));
    ReplayConcat({}, first, second);
  }

  // No IP-port pair without its IP

  /** Each live (kind, ip, port) has its (kind, ip) live. */
  ghost predicate Covered(live: Live) {
    forall key, kind, ip, port :: (key, PairItem(kind, ip, port)) in live ==> (key, IPItem(kind, ip)) in live
  }

  /** Pairs are added on live IPs, and no IP goes. */
  ghost predicate Grows(live: Live, events: seq<Event>) {
    forall e :: e in events && !e.DelUnnamed? ==>
      && (e.Del? ==> !e.item.IPItem?)
      && (e.Add? && e.item.PairItem? ==> (e.key, IPItem(e.item.kind, e.item.ip)) in live)
  }

  lemma {:induction false} GrowthIsCovered(live: Live, events: seq<Event>)
    requires Covered(live) && Grows(live, events)
    ensures Covered(Replay(live, events))
    ensures forall key, kind, ip :: (key, IPItem(kind, ip)) in live ==> (key, IPItem(kind, ip)) in Replay(live, events)
  {
    if events != [] {
      var n := |events| - 1;
      assert events == events[..n] + [events[n]] && events[n] in events;
      GrowthIsCovered(live, events[..n]);
    }
  }

  /** IPs go that no live pair uses, and no pair comes. */
  ghost predicate Shrinks(live: Live, events: seq<Event>) {
    forall e :: e in events && !e.DelUnnamed? ==>
      && (e.Add? ==> !e.item.PairItem?)
      && (e.Del? && e.item.IPItem? ==> forall port :: (e.key, PairItem(e.item.kind, e.item.ip, port)) !in live)
  }

  lemma {:induction false} ShrinkingIsCovered(live: Live, events: seq<Event>)
    requires Covered(live) && Shrinks(live, events)
    ensures Covered(Replay(live, events))
    ensures forall key, kind, ip, port ::
              (key, PairItem(kind, ip, port)) in Replay(live, events) ==> (key, PairItem(kind, ip, port)) in live
  {
    if events != [] {
      var n := |events| - 1;
      assert events == events[..n] + [events[n]] && events[n] in events;
      ShrinkingIsCovered(live, events[..n]);
    }
  }

  lemma PrefixKeeps(live: Live, events: seq<Event>, n: nat)
    requires n <= |events|
    ensures Grows(live, events) ==> Grows(live, events[..n])
    ensures Shrinks(live, events) ==> Shrinks(live, events[..n])
  {
    assert forall e :: e in events[..n] ==> e in events;
  }

  lemma EarlyGrows(on: Listeners, live: Live, key: Key, prev: Option<Service>, curr: Option<Service>)
    ensures Grows(live, Early(on, key, prev, curr))
  {
    forall e | e in Early(on, key, prev, curr) && !e.DelUnnamed?
      ensures e.Del? ==> !e.item.IPItem?
      ensures e.Add? ==> !e.item.PairItem?
    {
      EarlyAre(on, key, prev, curr, e);
    }
  }

  /** After the early phase every IP of the current service is live. */
  lemma IPsComeEarly(on: Listeners, live: Live, services: Services, op: Op, kind: Kind, ip: string)
    requires on.ips && ExactButPolicies(on, live, services) && Had(Wanted(op), IPItem(kind, ip))
    ensures (OpKey(op), IPItem(kind, ip)) in Replay(live, Early(on, OpKey(op), Stored(services, OpKey(op)), Wanted(op)))
  {
    var key, prev, curr := OpKey(op), Stored(services, OpKey(op)), Wanted(op);
    var item := IPItem(kind, ip);
    EarlyAre(on, key, prev, curr, Add(key, item));
    EarlyAre(on, key, prev, curr, Del(key, item));
    ReplayAt(live, Early(on, key, prev, curr), key, item);
    assert Agrees(on, live, services, key, item);
  }

  lemma MiddleGrows(on: Listeners, live: Live, services: Services, op: Op)
    requires (on.pairs ==> on.ips) && ExactButPolicies(on, live, services)
    ensures (var key, prev, curr := OpKey(op), Stored(services, OpKey(op)), Wanted(op);
             Grows(Replay(live, Early(on, key, prev, curr)), Middle(on, key, prev, curr)))
  {
    var key, prev, curr := OpKey(op), Stored(services, OpKey(op)), Wanted(op);
    var after := Replay(live, Early(on, key, prev, curr));
    forall e | e in Middle(on, key, prev, curr) && !e.DelUnnamed?
      ensures e.Del? ==> !e.item.IPItem?
      ensures e.Add? && e.item.PairItem? ==> (e.key, IPItem(e.item.kind, e.item.ip)) in after
    {
      MiddleAre(on, key, prev, curr, e);
      if e.Add? && e.item.PairItem? {
        IPsComeEarly(on, live, services, op, e.item.kind, e.item.ip);
      }
    }
  }

  /** After the middle phase no pair is live whose IP the current service does not have. */
  lemma PairsGoBeforeIPs(on: Listeners, live: Live, services: Services, op: Op, kind: Kind, ip: string, port: Port)
    requires ExactButPolicies(on, live, services) && !Had(Wanted(op), IPItem(kind, ip))
    ensures (var key, prev, curr := OpKey(op), Stored(services, OpKey(op)), Wanted(op);
             (key, PairItem(kind, ip, port)) !in Replay(Replay(live, Early(on, key, prev, curr)), Middle(on, key, prev, curr)))
  {
    var key, prev, curr := OpKey(op), Stored(services, OpKey(op)), Wanted(op);
    var item := PairItem(kind, ip, port);
    EarlyAre(on, key, prev, curr, Add(key, item));
    EarlyAre(on, key, prev, curr, Del(key, item));
    ReplayAt(live, Early(on, key, prev, curr), key, item);
    MiddleAre(on, key, prev, curr, Add(key, item));
    MiddleAre(on, key, prev, curr, Del(key, item));
    ReplayAt(Replay(live, Early(on, key, prev, curr)), Middle(on, key, prev, curr), key, item);
    assert Agrees(on, live, services, key, item);
  }

  lemma LateShrinks(on: Listeners, live: Live, services: Services, op: Op)
    requires ExactButPolicies(on, live, services)
    ensures (var key, prev, curr := OpKey(op), Stored(services, OpKey(op)), Wanted(op);
             Shrinks(Replay(Replay(live, Early(on, key, prev, curr)), Middle(on, key, prev, curr)), Late(on, key, prev, curr)))
  {
    var key, prev, curr := OpKey(op), Stored(services, OpKey(op)), Wanted(op);
    var after := Replay(Replay(live, Early(on, key, prev, curr)), Middle(on, key, prev, curr));
    forall e | e in Late(on, key, prev, curr) && !e.DelUnnamed?
      ensures e.Add? ==> !e.item.PairItem?
      ensures e.Del? && e.item.IPItem? ==> forall port :: (e.key, PairItem(e.item.kind, e.item.ip, port)) !in after
    {
      LateAre(on, key, prev, curr, e);
      forall port ensures (key, PairItem(e.item.kind, e.item.ip, port)) !in after {
        PairsGoBeforeIPs(on, live, services, op, e.item.kind, e.item.ip, port);
      }
    }
  }

  lemma PrefixOfThree(live: Live, a: seq<Event>, b: seq<Event>, c: seq<Event>, n: nat)
    requires Covered(live) && n <= |a + b + c|
    requires Grows(live, a) && Grows(Replay(live, a), b) && Shrinks(Replay(Replay(live, a), b), c)
    ensures Covered(Replay(live, (a + b + c)[..n]))
  {
    var i, j, k := if n < |a| then n else |a|, if n < |a| then 0 else if n < |a + b| then n - |a| else |b|,
                   if n < |a + b| then 0 else n - |a + b|;
    assert (a + b + c)[..n] == a[..i] + b[..j] + c[..k];
    PrefixKeeps(live, a, i);
    GrowthIsCovered(live, a[..i]);
    if i == |a| {
      assert a[..i] == a;
      PrefixKeeps(Replay(live, a), b, j);
      GrowthIsCovered(Replay(live, a), b[..j]);
    }
    ReplayConcat(live, a[..i], b[..j]);
    if j == |b| && i == |a| {
      assert b[..j] == b;
      PrefixKeeps(Replay(Replay(live, a), b), c, k);
      ShrinkingIsCovered(Replay(Replay(live, a), b), c[..k]);
    }
    ReplayConcat(live, a[..i] + b[..j], c[..k]);
  }

  lemma ExactIsCovered(on: Listeners, live: Live, services: Services)
    requires (on.pairs ==> on.ips) && ExactButPolicies(on, live, services)
    ensures Covered(live)
  {
    forall key, kind, ip, port | (key, PairItem(kind, ip, port)) in live ensures (key, IPItem(kind, ip)) in live {
      assert Agrees(on, live, services, key, PairItem(kind, ip, port)) && Agrees(on, live, services, key, IPItem(kind, ip));
    }
  }

  lemma StepCovered(on: Listeners, live: Live, services: Services, op: Op, n: nat)
    requires (on.pairs ==> on.ips) && ExactButPolicies(on, live, services) && n <= |Emitted(on, services, op)|
    ensures Covered(Replay(live, Emitted(on, services, op)[..n]))
  {
    ExactIsCovered(on, live, services);
    var key, prev, curr := OpKey(op), Stored(services, OpKey(op)), Wanted(op);
    if op.SetService? || key in services {
      EarlyGrows(on, live, key, prev, curr);
      MiddleGrows(on, live, services, op);
      LateShrinks(on, live, services, op);
      PrefixOfThree(live, Early(on, key, prev, curr), Middle(on, key, prev, curr), Late(on, key, prev, curr), n);
    }
  }

  /** At every prefix of the event trace of every run, each live (kind, ip, port) has its (kind, ip) live. */
  lemma {:induction false} EveryPrefixCovered(on: Listeners, live: Live, services: Services, ops: seq<Op>, n: nat)
    requires (on.pairs ==> on.ips) && ExactButPolicies(on, live, services) && n <= |Trace(on, services, ops)|
    ensures Covered(Replay(live, Trace(on, services, ops)[..n]))
    decreases ops
  {
    if ops == [] {
      ExactIsCovered(on, live, services);
    } else {
      var events, next := Emitted(on, services, ops[0]), Next(services, ops[0]);
      var rest := Trace(on, next, ops[1..]);
      ReplayPrefix(live, events, rest, n);
      if n <= |events| {
        StepCovered(on, live, services, ops[0], n);
      } else {
        StepExactButPolicies(on, live, services, ops[0]);
        EveryPrefixCovered(on, Replay(live, events), next, ops[1..], n - |events|);
      }
    }
  }

  lemma ReplayPrefix(live: Live, a: seq<Event>, b: seq<Event>, n: nat)
    requires n <= |a + b|
    ensures Replay(live, (a + b)[..n]) == if n <= |a| then Replay(live, a[..n]) else Replay(Replay(live, a), b[..n - |a|])
  {
    if n <= |a| {
      assert (a + b)[..n] == a[..n];
    } else {
      assert (a + b)[..n] == a + b[..n - |a|];
      ReplayConcat(live, a, b[..n - |a|]);
    }
  }

  // The listener

  /** Diff.SlicesLen: the previous values to delete, then the current values to add, each in order. */
  method SlicesLen(prev: seq<Item>, curr: seq<Item>) returns (deleted: seq<Item>, added: seq<Item>)
    ensures deleted == Gone(prev, curr) && added == Gone(curr, prev)
  {
    deleted := MissingFrom(prev, curr);
    added := MissingFrom(curr, prev);
  }

  method MissingFrom(these: seq<Item>, those: seq<Item>) returns (missing: seq<Item>)
    ensures missing == Gone(these, those)
  {
    missing := [];
    var i := 0;
    while i < |these|
      invariant i <= |these|
      invariant missing + Gone(these[i..], those) == Gone(these, those)
    {
      var j := 0;
      while j < |those| && these[i] != those[j]
        invariant j <= |those| && these[i] !in those[..j]
      {
        j := j + 1;
      }
      assert these[i..][1..] == these[i + 1..];
      assert j == |those| ==> those[..j] == those;
      if j == |those| {
        assert missing + ([these[i]] + Gone(these[i + 1..], those)) == missing + [these[i]] + Gone(these[i + 1..], those);
        missing := missing + [these[i]];
      }
      i := i + 1;
    }
  }

  method PairsOf(kind: Kind, ip: string, ports: seq<Port>) returns (pairs: seq<Item>)
    ensures pairs == PairsOfIP(kind, ip, ports)
  {
    pairs := [];
    var i := 0;
    while i < |ports|
      invariant i <= |ports| && pairs + PairsOfIP(kind, ip, ports[i..]) == PairsOfIP(kind, ip, ports)
    {
      assert ports[i..][1..] == ports[i + 1..];
      pairs, i := pairs + [PairItem(kind, ip, ports[i])], i + 1;
    }
  }

  method Combine(svc: Option<Service>, kind: Kind) returns (pairs: seq<Item>)
    ensures pairs == Items(svc, PairGroup(kind))
  {
    if svc.None? { return []; }
    pairs := CombineAll(kind, GetIPs(svc.value, kind), svc.value.ports);
  }

  method CombineAll(kind: Kind, ips: seq<string>, ports: seq<Port>) returns (pairs: seq<Item>)
    ensures pairs == PairItems(kind, ips, ports)
  {
    pairs := [];
    var i := 0;
    while i < |ips|
      invariant i <= |ips| && pairs + PairItems(kind, ips[i..], ports) == PairItems(kind, ips, ports)
    {
      assert ips[i..][1..] == ips[i + 1..];
      var more := PairsOf(kind, ips[i], ports);
      Regroup(pairs, more, PairItems(kind, ips[i + 1..], ports));
      pairs, i := pairs + more, i + 1;
    }
  }

  class ServicesListener {
    const on: Listeners
    var services: Services
    /** The listener calls made so far. */
    var calls: seq<Event>

    constructor (on: Listeners)
      ensures this.on == on && services == map[] && calls == []
    {
      this.on := on;
      services, calls := map[], [];
    }

    method DeleteEach(key: Key, items: seq<Item>)
      modifies `calls
      ensures calls == old(calls) + Dels(key, items)
    {
      var i := 0;
      while i < |items|
        invariant i <= |items| && calls + Dels(key, items[i..]) == old(calls) + Dels(key, items)
      {
        assert items[i..][1..] == items[i + 1..];
        assert calls + ([Del(key, items[i])] + Dels(key, items[i + 1..])) == calls + [Del(key, items[i])] + Dels(key, items[i + 1..]);
        calls := calls + [Del(key, items[i])];
        i := i + 1;
      }
    }

    method AddEach(key: Key, items: seq<Item>)
      modifies `calls
      ensures calls == old(calls) + Adds(key, items)
    {
      var i := 0;
      while i < |items|
        invariant i <= |items| && calls + Adds(key, items[i..]) == old(calls) + Adds(key, items)
      {
        assert items[i..][1..] == items[i + 1..];
        assert calls + ([Add(key, items[i])] + Adds(key, items[i + 1..])) == calls + [Add(key, items[i])] + Adds(key, items[i + 1..]);
        calls := calls + [Add(key, items[i])];
        i := i + 1;
      }
    }

    method DiffPorts(key: Key, prev: Option<Service>, curr: Option<Service>)
      modifies `calls
      ensures calls == old(calls) + PortPhase(on, key, prev, curr)
    {
      if on.ports {
        var deleted, added := SlicesLen(Items(prev, PortGroup), Items(curr, PortGroup));
        DeleteEach(key, deleted);
        AddEach(key, added);
      }
    }

    /** Fires the AddIP calls and returns the DeleteIP calls to make at the end. */
    method DiffIPs(key: Key, prev: Option<Service>, curr: Option<Service>, kinds: seq<Kind>) returns (deferred: seq<Event>)
      modifies `calls
      ensures calls == old(calls) + AddIPs(key, prev, curr, kinds)
      ensures deferred == DelIPs(key, prev, curr, kinds)
    {
      deferred := [];
      var i := 0;
      while i < |kinds|
        invariant i <= |kinds|
        invariant calls + AddIPs(key, prev, curr, kinds[i..]) == old(calls) + AddIPs(key, prev, curr, kinds)
        invariant deferred + DelIPs(key, prev, curr, kinds[i..]) == DelIPs(key, prev, curr, kinds)
      {
        var g := IPGroup(kinds[i]);
        ghost var was, waiting, rest := calls, deferred, kinds[i + 1..];
        assert kinds[i..][1..] == rest;
        var deleted, added := SlicesLen(Items(prev, g), Items(curr, g));
        AddEach(key, added);
        deferred := deferred + Dels(key, deleted);
        Regroup(was, AddGroup(key, prev, curr, g), AddIPs(key, prev, curr, rest));
        Regroup(waiting, DelGroup(key, prev, curr, g), DelIPs(key, prev, curr, rest));
        i := i + 1;
      }
    }

    method DiffPairs(key: Key, prev: Option<Service>, curr: Option<Service>, kinds: seq<Kind>)
      modifies `calls
      ensures calls == old(calls) + Pairs(key, prev, curr, kinds)
    {
      var i := 0;
      while i < |kinds|
        invariant i <= |kinds|
        invariant calls + Pairs(key, prev, curr, kinds[i..]) == old(calls) + Pairs(key, prev, curr, kinds)
      {
        ghost var g := PairGroup(kinds[i]);
        ghost var was, rest := calls, kinds[i + 1..];
        assert kinds[i..][1..] == rest;
        var prevs := Combine(prev, kinds[i]);
        var currs := Combine(curr, kinds[i]);
        var deleted, added := SlicesLen(prevs, currs);
        DeleteEach(key, deleted);
        AddEach(key, added);
        Regroup(was, DelGroup(key, prev, curr, g), AddGroup(key, prev, curr, g));
        Regroup(was, DelGroup(key, prev, curr, g) + AddGroup(key, prev, curr, g), Pairs(key, prev, curr, rest));
        i := i + 1;
      }
    }

    method DiffEarly(key: Key, prev: Option<Service>, curr: Option<Service>) returns (deferred: seq<Event>)
      modifies `calls
      ensures calls == old(calls) + Early(on, key, prev, curr)
      ensures deferred == Late(on, key, prev, curr)
    {
      DiffPorts(key, prev, curr);
      deferred := [];
      if on.ips {
        deferred := DiffIPs(key, prev, curr, KINDS);
        Regroup(old(calls), PortPhase(on, key, prev, curr), AddIPs(key, prev, curr, KINDS));
      }
    }

    method DiffMiddle(key: Key, prev: Option<Service>, curr: Option<Service>)
      modifies `calls
      ensures calls == old(calls) + Middle(on, key, prev, curr)
    {
      if on.pairs {
        DiffPairs(key, prev, curr, KINDS);
        Regroup(old(calls), Pairs(key, prev, curr, KINDS), FlagPhase(on, key, prev, curr));
      }
      calls := calls + FlagPhase(on, key, prev, curr);
    }

    method Diff(key: Key, prev: Option<Service>, curr: Option<Service>)
      modifies `calls
      ensures calls == old(calls) + DiffEvents(on, key, prev, curr)
    {
      var deferred := DiffEarly(key, prev, curr);
      DiffMiddle(key, prev, curr);
      Regroup(old(calls), Early(on, key, prev, curr), Middle(on, key, prev, curr));
      Regroup(old(calls), Early(on, key, prev, curr) + Middle(on, key, prev, curr), deferred);
      calls := calls + deferred;
    }

    method SetService(svc: Service)
      modifies this
      ensures services == Next(old(services), Op.SetService(svc))
      ensures calls == old(calls) + Emitted(on, old(services), Op.SetService(svc))
    {
      var prev := Stored(services, KeyOf(svc));
      services := services[KeyOf(svc) := svc];
      Diff(KeyOf(svc), prev, Some(svc));
    }

    method DeleteService(ns: string, name: string)
      modifies this
      ensures services == Next(old(services), Op.DeleteService(ns, name))
      ensures calls == old(calls) + Emitted(on, old(services), Op.DeleteService(ns, name))
    {
      var key := ns + "/" + name;
      if key !in services { return; }
      var prev := services[key];
      services := services - {key};
      Diff(key, Some(prev), None);
    }
  }
}
