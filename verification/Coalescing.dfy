/** Service changes of the userspace proxy: events are coalesced per service until a sync merges them
    into the map of proxied ports. Sockets, portals and port allocation are taken to succeed. */
module Coalescing {
  import opened Options

  datatype Name = Name(ns: string, name: string)

  datatype Port = Port(name: string, protocol: int, port: int, nodePort: int)

  datatype ServiceObject = ServiceObject(name: Name, externalName: bool, clusterV4: seq<string>, clusterV6: seq<string>,
                                         externalIPs: seq<string>, lbIPs: seq<string>, ports: seq<Port>)

  /** Without a cluster IP, or of type ExternalName, a service is not proxied. */
  predicate Skipped(svc: ServiceObject) {
    (svc.clusterV4 == [] && svc.clusterV6 == []) || svc.externalName
  }

  /** Merging indexes the first IPv4 cluster IP, so a proxied service has one. */
  type Service = svc: ServiceObject | Skipped(svc) || svc.clusterV4 != []
    witness ServiceObject(Name("", ""), true, [], [], [], [], [])

  datatype Config = Config(protocol: int, port: int, nodePort: int, clusterIP: string, externalIPs: seq<string>)

  datatype Info = Info(config: Config, lbIPs: seq<string>)

  type Infos = map<(Name, string), Info>

  function ConfigOf(svc: Service, port: Port): Config
    requires !Skipped(svc)
  {
    Config(port.protocol, port.port, port.nodePort, svc.clusterV4[0], svc.externalIPs)
  }

  /** Nothing is said of load balancer IPs. */
  predicate SameConfig(info: Info, svc: Service, port: Port)
    requires !Skipped(svc)
  {
    info.config == ConfigOf(svc, port)
  }

  // Merging

  function MergePort(infos: Infos, svc: Service, port: Port): Infos
    requires !Skipped(svc)
  {
    var key := (svc.name, port.name);
    if key in infos && SameConfig(infos[key], svc, port) then infos
    else infos[key := Info(ConfigOf(svc, port), svc.lbIPs)]
  }

  function MergePorts(infos: Infos, svc: Service, ports: seq<Port>): Infos
    requires !Skipped(svc)
    decreases ports
  {
    if ports == [] then infos else MergePorts(MergePort(infos, svc, ports[0]), svc, ports[1..])
  }

  function PortNames(ports: seq<Port>): set<string> {
    set p | p in ports :: p.name
  }

  function Merge(infos: Infos, svc: Option<Service>): Infos {
    if svc.None? || Skipped(svc.value) then infos else MergePorts(infos, svc.value, svc.value.ports)
  }

  /** The names of the ports that a service wants proxied. */
  function Existing(svc: Option<Service>): set<string> {
    if svc.None? || Skipped(svc.value) then {} else PortNames(svc.value.ports)
  }

  function Unmerge(infos: Infos, svc: Option<Service>, existing: set<string>): Infos {
    if svc.None? then infos
    else map key | key in infos && !(key.0 == svc.value.name && key.1 in Existing(svc) - existing) :: infos[key]
  }

  function ApplyChange(infos: Infos, previous: Option<Service>, current: Option<Service>): Infos {
    Unmerge(Merge(infos, current), previous, Existing(current))
  }

  // What a service wants

  function LastNamed(ports: seq<Port>, name: string): Option<Port> {
    if ports == [] then None
    else
      var rest := LastNamed(ports[1..], name);
      if rest.Some? then rest else if ports[0].name == name then Some(ports[0]) else None
  }

  /** The configuration a service wants under a port name; of several ports with the name the last one counts. */
  function Wants(svc: Option<Service>, port: string): Option<Config> {
    if svc.None? || Skipped(svc.value) then None
    else
      var p := LastNamed(svc.value.ports, port);
      if p.None? then None else Some(ConfigOf(svc.value, p.value))
  }

  function Has(infos: Infos, name: Name, port: string): Option<Config> {
    if (name, port) in infos then Some(infos[(name, port)].config) else None
  }

  ghost predicate Holds(infos: Infos, name: Name, svc: Option<Service>) {
    forall port :: Has(infos, name, port) == Wants(svc, port)
  }

  ghost predicate SameBut(a: Infos, b: Infos, name: Name) {
    forall key: (Name, string) :: key.0 != name ==> (key in a <==> key in b) && (key in a ==> a[key] == b[key])
  }

  lemma {:induction false} LastNamedExists(ports: seq<Port>, name: string)
    ensures LastNamed(ports, name).Some? <==> name in PortNames(ports)
  {
    if ports == [] {
    } else {
      LastNamedExists(ports[1..], name);
      assert forall p :: p in ports <==> p == ports[0] || p in ports[1..];
    }
  }

  lemma {:induction false} MergePortsHas(infos: Infos, svc: Service, ports: seq<Port>, port: string)
    requires !Skipped(svc)
    ensures (Has(MergePorts(infos, svc, ports), svc.name, port) ==
             var p := LastNamed(ports, port); if p.None? then Has(infos, svc.name, port) else Some(ConfigOf(svc, p.value)))
    decreases ports
  {
    if ports != [] { MergePortsHas(MergePort(infos, svc, ports[0]), svc, ports[1..], port); }
  }

  lemma {:induction false} MergePortsElsewhere(infos: Infos, svc: Service, ports: seq<Port>)
    requires !Skipped(svc)
    ensures SameBut(MergePorts(infos, svc, ports), infos, svc.name)
    decreases ports
  {
    if ports != [] { MergePortsElsewhere(MergePort(infos, svc, ports[0]), svc, ports[1..]); }
  }

  ghost predicate Named(svc: Option<Service>, name: Name) {
    svc.Some? ==> svc.value.name == name
  }

  lemma MergeHas(infos: Infos, name: Name, svc: Option<Service>, port: string)
    requires Named(svc, name)
    ensures (Has(Merge(infos, svc), name, port) ==
             if Wants(svc, port).None? then Has(infos, name, port) else Wants(svc, port))
    ensures Wants(svc, port).Some? <==> port in Existing(svc)
  {
    if svc.Some? && !Skipped(svc.value) {
      MergePortsHas(infos, svc.value, svc.value.ports, port);
      LastNamedExists(svc.value.ports, port);
    }
  }

  /** What is proxied under a port after a change is merged, whatever was proxied before. */
  lemma ApplyHas(infos: Infos, name: Name, previous: Option<Service>, current: Option<Service>, port: string)
    requires Named(previous, name) && Named(current, name)
    ensures Has(ApplyChange(infos, previous, current), name, port)
         == if Wants(current, port).Some? then Wants(current, port)
            else if Wants(previous, port).Some? then None
            else Has(infos, name, port)
  {
    MergeHas(infos, name, current, port);
    MergeHas(infos, name, previous, port);
    assert Has(ApplyChange(infos, previous, current), name, port)
        == if port in Existing(previous) - Existing(current) then None else Has(Merge(infos, current), name, port);
  }

  lemma ApplyElsewhere(infos: Infos, name: Name, previous: Option<Service>, current: Option<Service>)
    requires Named(previous, name) && Named(current, name)
    ensures SameBut(ApplyChange(infos, previous, current), infos, name)
  {
    if current.Some? && !Skipped(current.value) { MergePortsElsewhere(infos, current.value, current.value.ports); }
  }

  /** Merging the current service and unmerging the previous one replaces what the previous one wanted
      by what the current one wants, and touches no other service. */
  lemma ApplyReplaces(infos: Infos, name: Name, previous: Option<Service>, current: Option<Service>)
    requires Named(previous, name) && Named(current, name) && Holds(infos, name, previous)
    ensures Holds(ApplyChange(infos, previous, current), name, current)
    ensures SameBut(ApplyChange(infos, previous, current), infos, name)
  {
    ApplyElsewhere(infos, name, previous, current);
    forall port ensures Has(ApplyChange(infos, previous, current), name, port) == Wants(current, port) {
      ApplyHas(infos, name, previous, current, port);
      assert Has(infos, name, port) == Wants(previous, port);
    }
  }

  // Events and syncs

  type Cluster = map<Name, Service>

  function Find(cluster: Cluster, name: Name): Option<Service> {
    if name in cluster then Some(cluster[name]) else None
  }

  function After(cluster: Cluster, name: Name, svc: Option<Service>): Cluster {
    if svc.Some? then cluster[name := svc.value] else cluster - {name}
  }

  datatype Change = Change(previous: Option<Service>, current: Option<Service>)

  type Changes = map<Name, Change>

  /** Keep the oldest previous and the latest current, and nothing if they are the same. */
  function Record(changes: Changes, name: Name, previous: Option<Service>, current: Option<Service>): Changes {
    var change := Change(if name in changes then changes[name].previous else previous, current);
    if change.previous == change.current then changes - {name} else changes[name := change]
  }

  /** The services as last announced; the recorded changes; the batches that syncs took, in that order, and the
      services before the first and after each of them; the batches whose sync got the lock, in that order; the
      changes the sync that holds the lock has still to merge; the proxied ports; whether syncs may run. */
  datatype State = State(latest: Cluster, changes: Changes, batches: seq<Changes>, bases: seq<Cluster>,
                         merged: seq<nat>, todo: Changes, infos: Infos, initialized: bool)

  /** A service is added, updated or deleted; the proxy is initialized; a sync takes the recorded changes,
      gets the lock when no other sync holds it, and merges one of its changes, in any order. Syncs overlap:
      one may take changes while others wait for the lock, and those get it in any order. */
  datatype Step = Announce(name: Name, svc: Option<Service>) | Initialize | Take | Lock(batch: nat) | MergeOne(name: Name)

  predicate Enabled(s: State, step: Step) {
    match step
    case Announce(name, svc) => (svc.Some? ==> svc.value.name == name) && (svc.None? ==> name in s.latest)
    case Initialize => true
    case Take => s.initialized
    case Lock(batch) => s.todo == map[] && batch < |s.batches| && batch !in s.merged
    case MergeOne(name) => name in s.todo
  }

  function Next(s: State, step: Step): State {
    if !Enabled(s, step) then s
    else
      match step
      case Announce(name, svc) =>
        s.(latest := After(s.latest, name, svc), changes := Record(s.changes, name, Find(s.latest, name), svc))
      case Initialize => s.(initialized := true)
      case Take => s.(batches := s.batches + [s.changes], bases := s.bases + [s.latest], changes := map[])
      case Lock(batch) => s.(merged := s.merged + [batch], todo := s.batches[batch])
      case MergeOne(name) =>
        s.(infos := ApplyChange(s.infos, s.todo[name].previous, s.todo[name].current), todo := s.todo - {name})
  }

  function Run(s: State, steps: seq<Step>): State
    decreases steps
  {
    if steps == [] then s else Run(Next(s, steps[0]), steps[1..])
  }

  const START := State(map[], map[], [], [map[]], [], map[], map[], false)

  /** A change goes from the service at the last sync to the service as last announced; no change means they agree. */
  ghost predicate Tracked(changes: Changes, from: Cluster, to: Cluster, name: Name) {
    if name in changes then
      changes[name] == Change(Find(from, name), Find(to, name)) && Find(from, name) != Find(to, name)
    else Find(from, name) == Find(to, name)
  }

  ghost predicate Tracks(changes: Changes, from: Cluster, to: Cluster) {
    forall name :: Tracked(changes, from, to, name)
  }

  ghost predicate WellNamed(cluster: Cluster) {
    forall name :: name in cluster ==> cluster[name].name == name
  }

  // What batches write

  /** What merging a batch writes under a port, if anything. */
  function Writes(batch: Changes, name: Name, port: string): Option<Option<Config>> {
    if name !in batch then None
    else if Wants(batch[name].current, port).Some? then Some(Wants(batch[name].current, port))
    else if Wants(batch[name].previous, port).Some? then Some(None)
    else None
  }

  ghost predicate Indices(order: seq<nat>, batches: seq<Changes>) {
    forall a :: 0 <= a < |order| ==> order[a] < |batches|
  }

  /** The last batch to write under a port, when they are merged in this order. */
  ghost function LastWriter(batches: seq<Changes>, order: seq<nat>, name: Name, port: string): Option<nat>
    requires Indices(order, batches)
  {
    if order == [] then None
    else
      var n := |order| - 1;
      if Writes(batches[order[n]], name, port).Some? then Some(order[n]) else LastWriter(batches, order[..n], name, port)
  }

  lemma {:induction false} LastWriterWrites(batches: seq<Changes>, order: seq<nat>, name: Name, port: string)
    requires Indices(order, batches)
    ensures var w := LastWriter(batches, order, name, port);
            w.Some? ==> w.value < |batches| && Writes(batches[w.value], name, port).Some?
  {
    if order != [] { LastWriterWrites(batches, order[..|order| - 1], name, port); }
  }

  /** What they leave there. */
  ghost function Leaves(batches: seq<Changes>, order: seq<nat>, name: Name, port: string): Option<Config>
    requires Indices(order, batches)
  {
    LastWriterWrites(batches, order, name, port);
    var w := LastWriter(batches, order, name, port);
    if w.None? then None else Writes(batches[w.value], name, port).value
  }

  lemma LeavesOneMore(batches: seq<Changes>, order: seq<nat>, i: nat, name: Name, port: string)
    requires Indices(order, batches) && i < |batches|
    ensures Indices(order + [i], batches)
    ensures Leaves(batches, order + [i], name, port)
         == if Writes(batches[i], name, port).Some? then Writes(batches[i], name, port).value else Leaves(batches, order, name, port)
  {
    assert (order + [i])[..|order|] == order;
  }

  /** Later batches do not matter. */
  lemma {:induction false} LeavesPrefix(batches: seq<Changes>, batch: Changes, order: seq<nat>, name: Name, port: string)
    requires Indices(order, batches)
    ensures Indices(order, batches + [batch])
    ensures LastWriter(batches + [batch], order, name, port) == LastWriter(batches, order, name, port)
    ensures Leaves(batches + [batch], order, name, port) == Leaves(batches, order, name, port)
  {
    LastWriterWrites(batches, order, name, port);
    if order != [] { LeavesPrefix(batches, batch, order[..|order| - 1], name, port); }
  }

  /** The order in which they were taken. */
  ghost function UpTo(k: nat): (r: seq<nat>)
    ensures |r| == k && forall i :: 0 <= i < k ==> r[i] == i
  {
    seq(k, i => i)
  }

  /** The batches go from each cluster to the next. */
  ghost predicate Chained(batches: seq<Changes>, bases: seq<Cluster>) {
    && |bases| == |batches| + 1 && bases[0] == map[]
    && (forall i :: 0 <= i < |bases| ==> WellNamed(bases[i]))
    && (forall i :: 0 <= i < |batches| ==> Tracks(batches[i], bases[i], bases[i + 1]))
  }

  /** Merged in the order they were taken, batches leave what the services wanted. */
  lemma {:induction false} InOrderLeaves(batches: seq<Changes>, bases: seq<Cluster>, k: nat, name: Name, port: string)
    requires Chained(batches, bases) && k <= |batches|
    ensures Indices(UpTo(k), batches)
    ensures Leaves(batches, UpTo(k), name, port) == Wants(Find(bases[k], name), port)
  {
    if k > 0 {
      InOrderLeaves(batches, bases, k - 1, name, port);
      assert UpTo(k) == UpTo(k - 1) + [k - 1];
      LeavesOneMore(batches, UpTo(k - 1), k - 1, name, port);
      assert Tracks(batches[k - 1], bases[k - 1], bases[k]);
      assert Tracked(batches[k - 1], bases[k - 1], bases[k], name);
    }
  }

  // What every run keeps

  /** The sync that holds the lock has merged this service, or has still to. */
  ghost function OrderFor(s: State, name: Name): seq<nat>
    requires s.todo != map[] ==> s.merged != []
  {
    if name in s.todo then s.merged[..|s.merged| - 1] else s.merged
  }

  ghost predicate TodoOk(s: State) {
    && Indices(s.merged, s.batches)
    && (s.todo != map[] ==> s.merged != [])
    && forall name :: name in s.todo ==> name in s.batches[s.merged[|s.merged| - 1]] && s.todo[name] == s.batches[s.merged[|s.merged| - 1]][name]
  }

  ghost predicate InfosOf(s: State, name: Name)
    requires TodoOk(s)
  {
    forall port :: Has(s.infos, name, port) == Leaves(s.batches, OrderFor(s, name), name, port)
  }

  ghost predicate Inv(s: State) {
    && Chained(s.batches, s.bases) && WellNamed(s.latest)
    && Tracks(s.changes, s.bases[|s.batches|], s.latest)
    && TodoOk(s) && forall name :: InfosOf(s, name)
  }

  lemma RecordTracks(changes: Changes, from: Cluster, to: Cluster, name: Name, svc: Option<Service>, n: Name)
    requires Tracked(changes, from, to, name) && Tracked(changes, from, to, n)
    ensures Tracked(Record(changes, name, Find(to, name), svc), from, After(to, name, svc), n)
  {
    assert Find(After(to, name, svc), n) == if n == name then svc else Find(to, n);
  }

  lemma AnnounceKeeps(s: State, name: Name, svc: Option<Service>)
    requires Inv(s)
    ensures Inv(Next(s, Announce(name, svc)))
  {
    var next, base := Next(s, Announce(name, svc)), s.bases[|s.batches|];
    if Enabled(s, Announce(name, svc)) {
      forall n ensures Tracked(next.changes, base, next.latest, n) {
        assert Tracked(s.changes, base, s.latest, name) && Tracked(s.changes, base, s.latest, n);
        RecordTracks(s.changes, base, s.latest, name, svc, n);
      }
      forall n ensures InfosOf(next, n) { assert InfosOf(s, n); }
    }
  }

  lemma ChainedOneMore(batches: seq<Changes>, bases: seq<Cluster>, changes: Changes, latest: Cluster)
    requires Chained(batches, bases) && WellNamed(latest) && Tracks(changes, bases[|batches|], latest)
    ensures Chained(batches + [changes], bases + [latest])
  {
    var bs, cs := batches + [changes], bases + [latest];
    forall i | 0 <= i < |bs| ensures Tracks(bs[i], cs[i], cs[i + 1]) {
      if i < |batches| { assert Tracks(batches[i], bases[i], bases[i + 1]); }
    }
  }

  lemma TakeKeeps(s: State)
    requires Inv(s)
    ensures Inv(Next(s, Take))
  {
    var next := Next(s, Take);
    if Enabled(s, Take) {
      ChainedOneMore(s.batches, s.bases, s.changes, s.latest);
      forall n ensures Tracked(next.changes, next.bases[|next.batches|], next.latest, n) {}
      forall n ensures InfosOf(next, n) {
        assert InfosOf(s, n);
        forall port ensures Has(next.infos, n, port) == Leaves(next.batches, OrderFor(next, n), n, port) {
          LeavesPrefix(s.batches, s.changes, OrderFor(s, n), n, port);
        }
      }
    }
  }

  lemma LockKeeps(s: State, batch: nat)
    requires Inv(s)
    ensures Inv(Next(s, Lock(batch)))
  {
    var next := Next(s, Lock(batch));
    if Enabled(s, Lock(batch)) {
      assert next.merged[..|s.merged|] == s.merged;
      forall n ensures InfosOf(next, n) {
        assert InfosOf(s, n);
        forall port ensures Has(next.infos, n, port) == Leaves(next.batches, OrderFor(next, n), n, port) {
          LeavesOneMore(s.batches, s.merged, batch, n, port);
        }
      }
    }
  }

  lemma TodoNamed(s: State, name: Name)
    requires Inv(s) && name in s.todo
    ensures Named(s.todo[name].previous, name) && Named(s.todo[name].current, name)
  {
    var batch := s.merged[|s.merged| - 1];
    assert Tracks(s.batches[batch], s.bases[batch], s.bases[batch + 1]);
    assert Tracked(s.batches[batch], s.bases[batch], s.bases[batch + 1], name);
    assert WellNamed(s.bases[batch]) && WellNamed(s.bases[batch + 1]);
  }

  /** Merging the change of a service writes what the batch writes. */
  lemma MergedHere(infos: Infos, batches: seq<Changes>, order: seq<nat>, i: nat, name: Name, port: string)
    requires Indices(order, batches) && i < |batches| && name in batches[i]
    requires Named(batches[i][name].previous, name) && Named(batches[i][name].current, name)
    requires Has(infos, name, port) == Leaves(batches, order, name, port)
    ensures Indices(order + [i], batches)
    ensures Has(ApplyChange(infos, batches[i][name].previous, batches[i][name].current), name, port)
         == Leaves(batches, order + [i], name, port)
  {
    ApplyHas(infos, name, batches[i][name].previous, batches[i][name].current, port);
    LeavesOneMore(batches, order, i, name, port);
  }

  lemma MergedElsewhere(infos: Infos, name: Name, change: Change, n: Name, port: string)
    requires Named(change.previous, name) && Named(change.current, name) && n != name
    ensures Has(ApplyChange(infos, change.previous, change.current), n, port) == Has(infos, n, port)
  {
    ApplyElsewhere(infos, name, change.previous, change.current);
    var key := (n, port);
    assert key.0 != name;
  }

  lemma MergedNamed(s: State, next: State, name: Name)
    requires TodoOk(s) && InfosOf(s, name) && name in s.todo && next == Next(s, MergeOne(name)) && TodoOk(next)
    requires Named(s.todo[name].previous, name) && Named(s.todo[name].current, name)
    ensures InfosOf(next, name)
  {
    var last := |s.merged| - 1;
    var order, i, change := s.merged[..last], s.merged[last], s.todo[name];
    assert s.merged == order + [i];
    assert OrderFor(s, name) == order && OrderFor(next, name) == s.merged && change == s.batches[i][name];
    forall port ensures Has(next.infos, name, port) == Leaves(next.batches, OrderFor(next, name), name, port) {
      assert Has(s.infos, name, port) == Leaves(s.batches, order, name, port);
      MergedHere(s.infos, s.batches, order, i, name, port);
    }
  }

  lemma MergedOther(s: State, next: State, name: Name, n: Name)
    requires TodoOk(s) && InfosOf(s, n) && name in s.todo && next == Next(s, MergeOne(name)) && TodoOk(next) && n != name
    requires Named(s.todo[name].previous, name) && Named(s.todo[name].current, name)
    ensures InfosOf(next, n)
  {
    assert OrderFor(s, n) == OrderFor(next, n);
    forall port ensures Has(next.infos, n, port) == Leaves(next.batches, OrderFor(next, n), n, port) {
      assert Has(s.infos, n, port) == Leaves(s.batches, OrderFor(s, n), n, port);
      MergedElsewhere(s.infos, name, s.todo[name], n, port);
    }
  }

  lemma MergeKeeps(s: State, name: Name)
    requires Inv(s)
    ensures Inv(Next(s, MergeOne(name)))
  {
    if name in s.todo {
      var next := Next(s, MergeOne(name));
      TodoNamed(s, name);
      assert TodoOk(next);
      forall n ensures InfosOf(next, n) {
        assert InfosOf(s, n);
        if n == name { MergedNamed(s, next, name); } else { MergedOther(s, next, name, n); }
      }
    }
  }

  lemma SameButHolds(a: Infos, b: Infos, name: Name, other: Name)
    requires SameBut(a, b, name) && other != name
    ensures forall svc :: Holds(b, other, svc) ==> Holds(a, other, svc)
  {
    forall port ensures Has(a, other, port) == Has(b, other, port) {
      var key := (other, port);
      assert key.0 != name;
    }
  }

  lemma NextKeeps(s: State, step: Step)
    requires Inv(s)
    ensures Inv(Next(s, step))
  {
    match step
    case Announce(name, svc) => AnnounceKeeps(s, name, svc);
    case Initialize =>
      var next := Next(s, step);
      forall n ensures InfosOf(next, n) { assert InfosOf(s, n); }
    case Take => TakeKeeps(s);
    case Lock(batch) => LockKeeps(s, batch);
    case MergeOne(name) => MergeKeeps(s, name);
  }

  lemma {:induction false} RunKeeps(s: State, steps: seq<Step>)
    requires Inv(s)
    ensures Inv(Run(s, steps))
    decreases steps
  {
    if steps != [] {
      NextKeeps(s, steps[0]);
      RunKeeps(Next(s, steps[0]), steps[1..]);
    }
  }

  lemma EveryRunKeeps(steps: seq<Step>)
    ensures Inv(Run(START, steps))
  {
    forall n ensures Tracked(START.changes, START.bases[0], START.latest, n) && InfosOf(START, n) {}
    RunKeeps(START, steps);
  }

  /** The proxied ports are exactly what the services of the cluster want. */
  ghost predicate Serves(infos: Infos, cluster: Cluster) {
    forall name :: Holds(infos, name, Find(cluster, name))
  }

  /** Under every port, the batch that writes last in this order leaves what the last one of the
      first k batches taken leaves. */
  ghost predicate LastWritesAgree(batches: seq<Changes>, order: seq<nat>, k: nat)
    requires Indices(order, batches) && Indices(UpTo(k), batches)
  {
    forall name, port :: Leaves(batches, order, name, port) == Leaves(batches, UpTo(k), name, port)
  }

  /** In every run of events and overlapping syncs, whenever no sync holds the lock: the proxied ports are exactly
      those of the services when the k-th batch was taken, if and only if under every port the last batch to be
      merged wrote what the last of the first k batches to be taken wrote. */
  lemma EverySyncServesExactly(steps: seq<Step>, k: nat)
    requires var s := Run(START, steps); s.todo == map[] && k <= |s.batches|
    ensures (var s := Run(START, steps);
             && |s.bases| == |s.batches| + 1 && Indices(s.merged, s.batches) && Indices(UpTo(k), s.batches)
             && (Serves(s.infos, s.bases[k]) <==> LastWritesAgree(s.batches, s.merged, k)))
  {
    var s := Run(START, steps);
    EveryRunKeeps(steps);
    forall name, port ensures Leaves(s.batches, s.merged, name, port) == Has(s.infos, name, port)
      ensures Leaves(s.batches, UpTo(k), name, port) == Wants(Find(s.bases[k], name), port)
    {
      assert InfosOf(s, name);
      InOrderLeaves(s.batches, s.bases, k, name, port);
    }
    ServesIsLeaves(s, k);
  }

  lemma ServesIsLeaves(s: State, k: nat)
    requires k < |s.bases| && Indices(s.merged, s.batches) && Indices(UpTo(k), s.batches)
    requires forall name, port :: Leaves(s.batches, s.merged, name, port) == Has(s.infos, name, port)
    requires forall name, port :: Leaves(s.batches, UpTo(k), name, port) == Wants(Find(s.bases[k], name), port)
    ensures Serves(s.infos, s.bases[k]) <==> LastWritesAgree(s.batches, s.merged, k)
  {
    if Serves(s.infos, s.bases[k]) {
      forall name, port ensures Leaves(s.batches, s.merged, name, port) == Leaves(s.batches, UpTo(k), name, port) {
        assert Holds(s.infos, name, Find(s.bases[k], name));
      }
    }
    if LastWritesAgree(s.batches, s.merged, k) {
      forall name ensures Holds(s.infos, name, Find(s.bases[k], name)) {
        forall port ensures Has(s.infos, name, port) == Wants(Find(s.bases[k], name), port) {
          assert Leaves(s.batches, s.merged, name, port) == Leaves(s.batches, UpTo(k), name, port);
        }
      }
    }
  }

  lemma NothingRecorded(s: State)
    requires Inv(s) && s.changes == map[] && Serves(s.infos, s.bases[|s.batches|])
    ensures Serves(s.infos, s.latest)
  {
    forall n ensures Holds(s.infos, n, Find(s.latest, n)) {
      assert Tracked(s.changes, s.bases[|s.batches|], s.latest, n);
      assert Holds(s.infos, n, Find(s.bases[|s.batches|], n));
    }
  }

  /** Syncs that get the lock in the order in which they took their changes: whenever one has merged what it took,
      the proxied ports are exactly those of the services when it took them, and of the latest services if no
      other sync waits and nothing changed since. */
  lemma EverySyncServes(steps: seq<Step>)
    requires var s := Run(START, steps); s.todo == map[] && s.merged == UpTo(|s.merged|)
    ensures (var s := Run(START, steps);
             && |s.merged| < |s.bases| && Serves(s.infos, s.bases[|s.merged|])
             && (|s.merged| == |s.batches| && s.changes == map[] ==> Serves(s.infos, s.latest)))
  {
    var s := Run(START, steps);
    EveryRunKeeps(steps);
    assert |s.merged| <= |s.batches| by {
      assert s.merged != [] ==> s.merged[|s.merged| - 1] in s.merged;
    }
    EverySyncServesExactly(steps, |s.merged|);
    if |s.merged| == |s.batches| && s.changes == map[] { NothingRecorded(s); }
  }

  // Syncs that overtake each other

  /** Every batch is merged, and batches with a service in common in the order in which they were taken. */
  ghost predicate SharedInOrder(batches: seq<Changes>, order: seq<nat>)
    requires Indices(order, batches)
  {
    && (forall i: nat :: i < |batches| ==> i in order)
    && forall a, b, name :: 0 <= a < b < |order| && name in batches[order[a]] && name in batches[order[b]] ==> order[a] <= order[b]
  }

  /** A place in the order after which nobody writes. */
  ghost predicate WritesLast(batches: seq<Changes>, order: seq<nat>, name: Name, port: string, a: nat)
    requires Indices(order, batches)
  {
    && a < |order| && Writes(batches[order[a]], name, port).Some?
    && forall b :: a < b < |order| ==> Writes(batches[order[b]], name, port).None?
  }

  /** No batch taken later writes. */
  ghost predicate TakenLast(batches: seq<Changes>, name: Name, port: string, w: nat) {
    && w < |batches| && Writes(batches[w], name, port).Some?
    && forall i: nat :: i < |batches| && Writes(batches[i], name, port).Some? ==> i <= w
  }

  lemma {:induction false} LastWriterIs(batches: seq<Changes>, order: seq<nat>, name: Name, port: string)
    requires Indices(order, batches)
    ensures match LastWriter(batches, order, name, port)
            case None => forall a :: 0 <= a < |order| ==> Writes(batches[order[a]], name, port).None?
            case Some(w) => exists a: nat :: WritesLast(batches, order, name, port, a) && order[a] == w
  {
    if order != [] {
      var n := |order| - 1;
      if Writes(batches[order[n]], name, port).Some? {
        assert WritesLast(batches, order, name, port, n);
      } else {
        LastWriterIs(batches, order[..n], name, port);
        if LastWriter(batches, order[..n], name, port).Some? {
          var a: nat :| WritesLast(batches, order[..n], name, port, a) && order[..n][a] == LastWriter(batches, order, name, port).value;
          assert WritesLast(batches, order, name, port, a);
        }
      }
    }
  }

  lemma SharedLastWriter(batches: seq<Changes>, order: seq<nat>, name: Name, port: string)
    requires Indices(order, batches) && SharedInOrder(batches, order)
    ensures match LastWriter(batches, order, name, port)
            case None => forall i: nat :: i < |batches| ==> Writes(batches[i], name, port).None?
            case Some(w) => TakenLast(batches, name, port, w)
  {
    LastWriterIs(batches, order, name, port);
    var w := LastWriter(batches, order, name, port);
    if w.None? {
      forall i: nat | i < |batches| ensures Writes(batches[i], name, port).None? {
        assert i in order;
      }
    } else {
      var a: nat :| WritesLast(batches, order, name, port, a) && order[a] == w.value;
      forall i: nat | i < |batches| && Writes(batches[i], name, port).Some? ensures i <= w.value {
        assert i in order;
        var b :| 0 <= b < |order| && order[b] == i;
        assert b <= a && name in batches[order[a]] && name in batches[order[b]];
      }
      assert TakenLast(batches, name, port, w.value);
    }
  }

  lemma UpToShared(batches: seq<Changes>)
    ensures Indices(UpTo(|batches|), batches) && SharedInOrder(batches, UpTo(|batches|))
  {
    var order := UpTo(|batches|);
    forall i: nat | i < |batches| ensures i in order { assert order[i] == i; }
  }

  lemma SharedLeaves(batches: seq<Changes>, order: seq<nat>, name: Name, port: string)
    requires Indices(order, batches) && SharedInOrder(batches, order)
    ensures Indices(UpTo(|batches|), batches)
    ensures Leaves(batches, order, name, port) == Leaves(batches, UpTo(|batches|), name, port)
  {
    UpToShared(batches);
    SharedLastWriter(batches, order, name, port);
    SharedLastWriter(batches, UpTo(|batches|), name, port);
  }

  /** Syncs may overtake each other as long as the overtaken one has no service in common: the proxied
      ports end as those of the last services taken. */
  lemma DisjointSyncsServe(steps: seq<Step>)
    requires var s := Run(START, steps);
             s.todo == map[] && Indices(s.merged, s.batches) && SharedInOrder(s.batches, s.merged)
    ensures var s := Run(START, steps); |s.bases| == |s.batches| + 1 && Serves(s.infos, s.bases[|s.batches|])
  {
    var s := Run(START, steps);
    EverySyncServesExactly(steps, |s.batches|);
    forall name, port ensures Leaves(s.batches, s.merged, name, port) == Leaves(s.batches, UpTo(|s.batches|), name, port) {
      SharedLeaves(s.batches, s.merged, name, port);
    }
  }

  /** Every event merged at once, without coalescing. */
  function RunDirect(latest: Cluster, infos: Infos, steps: seq<Step>): (Cluster, Infos)
    decreases steps
  {
    if steps == [] then (latest, infos)
    else
      match steps[0]
      case Announce(name, svc) =>
        if Enabled(START.(latest := latest), steps[0]) then
          RunDirect(After(latest, name, svc), ApplyChange(infos, Find(latest, name), svc), steps[1..])
        else RunDirect(latest, infos, steps[1..])
      case _ => RunDirect(latest, infos, steps[1..])
  }

  lemma {:induction false} DirectServes(latest: Cluster, infos: Infos, s: State, steps: seq<Step>)
    requires WellNamed(latest) && Serves(infos, latest) && s.latest == latest
    ensures (var direct := RunDirect(latest, infos, steps);
             direct.0 == Run(s, steps).latest && Serves(direct.1, direct.0))
    decreases steps
  {
    if steps != [] {
      var step := steps[0];
      if step.Announce? && Enabled(s, step) {
        ServesNext(latest, infos, step.name, step.svc);
        DirectServes(After(latest, step.name, step.svc), ApplyChange(infos, Find(latest, step.name), step.svc), Next(s, step), steps[1..]);
      } else {
        DirectServes(latest, infos, Next(s, step), steps[1..]);
      }
    }
  }

  lemma ServesNext(latest: Cluster, infos: Infos, name: Name, svc: Option<Service>)
    requires WellNamed(latest) && Serves(infos, latest) && Named(svc, name)
    ensures WellNamed(After(latest, name, svc))
    ensures Serves(ApplyChange(infos, Find(latest, name), svc), After(latest, name, svc))
  {
    var after := ApplyChange(infos, Find(latest, name), svc);
    assert Holds(infos, name, Find(latest, name));
    ApplyReplaces(infos, name, Find(latest, name), svc);
    forall n ensures Holds(after, n, Find(After(latest, name, svc), n)) {
      assert Holds(infos, n, Find(latest, n));
      if n != name { SameButHolds(after, infos, name, n); }
    }
  }

  /** Coalescing is faithful: with nothing left to do, every port has the configuration it would have had if
      every event had been merged at once, if and only if the batch that wrote it last in merge order wrote what
      the one that wrote it last in the order of taking wrote. */
  lemma CoalescingIsFaithful(steps: seq<Step>)
    requires var s := Run(START, steps); s.todo == map[] && s.changes == map[]
    ensures (var s := Run(START, steps); var k := |s.batches|;
             && Indices(s.merged, s.batches) && Indices(UpTo(k), s.batches)
             && ((forall name, port :: Has(s.infos, name, port) == Has(RunDirect(map[], map[], steps).1, name, port))
                 <==> LastWritesAgree(s.batches, s.merged, k)))
  {
    var s := Run(START, steps);
    var k, direct := |s.batches|, RunDirect(map[], map[], steps).1;
    EveryRunKeeps(steps);
    EverySyncServesExactly(steps, k);
    DirectServes(map[], map[], START, steps);
    forall name, port ensures Has(direct, name, port) == Wants(Find(s.bases[k], name), port) {
      assert Holds(direct, name, Find(s.latest, name));
      assert Tracked(s.changes, s.bases[k], s.latest, name);
    }
    SameIsServes(s.infos, direct, s.bases[k]);
  }

  lemma SameIsServes(infos: Infos, direct: Infos, cluster: Cluster)
    requires forall name, port :: Has(direct, name, port) == Wants(Find(cluster, name), port)
    ensures (forall name, port :: Has(infos, name, port) == Has(direct, name, port)) <==> Serves(infos, cluster)
  {
    if Serves(infos, cluster) {
      forall name, port ensures Has(infos, name, port) == Has(direct, name, port) {
        assert Holds(infos, name, Find(cluster, name));
      }
    }
  }

  // Two syncs at once

  /** The later service wants nothing else than the middle one under a port of the middle one,
      and nothing under a port that the middle one gave up. */
  predicate OvertakesAt(first: Option<Service>, middle: Option<Service>, last: Option<Service>, port: string) {
    && (Wants(middle, port).Some? ==> Wants(last, port) == Wants(middle, port))
    && (Wants(first, port).Some? && Wants(middle, port).None? ==> Wants(last, port).None?)
  }

  ghost predicate Overtakes(first: Option<Service>, middle: Option<Service>, last: Option<Service>) {
    forall port :: OvertakesAt(first, middle, last, port)
  }

  /** What is left under a port when the change to the middle service is merged after the change from it. */
  function Late(first: Option<Service>, middle: Option<Service>, last: Option<Service>, port: string): Option<Config> {
    if Wants(middle, port).Some? then Wants(middle, port)
    else if Wants(first, port).Some? then None
    else Wants(last, port)
  }

  /** A sync takes the changes before it waits for the lock it merges under, so a second sync can merge first.
      A service that changed in both then ends as announced last if and only if that makes no difference. */
  lemma LateSyncExactly(infos: Infos, name: Name, first: Option<Service>, middle: Option<Service>, last: Option<Service>)
    requires Named(first, name) && Named(middle, name) && Named(last, name) && Holds(infos, name, first)
    ensures Holds(ApplyChange(ApplyChange(infos, middle, last), first, middle), name, last) <==> Overtakes(first, middle, last)
  {
    var late := ApplyChange(infos, middle, last);
    var end := ApplyChange(late, first, middle);
    forall port ensures Has(end, name, port) == Late(first, middle, last, port) {
      ApplyHas(late, name, first, middle, port);
      ApplyHas(infos, name, middle, last, port);
      assert Has(infos, name, port) == Wants(first, port);
    }
    assert forall port :: Late(first, middle, last, port) == Wants(last, port) <==> OvertakesAt(first, middle, last, port);
  }

  /** Under one port: the last batch but one merged after the last one. */
  lemma OvertakenPort(batches: seq<Changes>, bases: seq<Cluster>, k: nat, name: Name, port: string)
    requires Chained(batches, bases) && k + 2 <= |batches|
    ensures Indices(UpTo(k) + [k + 1] + [k], batches)
    ensures (var first, middle, last := Find(bases[k], name), Find(bases[k + 1], name), Find(bases[k + 2], name);
             Leaves(batches, UpTo(k) + [k + 1] + [k], name, port)
             == if name in batches[k] && name in batches[k + 1] then Late(first, middle, last, port) else Wants(last, port))
  {
    InOrderLeaves(batches, bases, k, name, port);
    LeavesOneMore(batches, UpTo(k), k + 1, name, port);
    LeavesOneMore(batches, UpTo(k) + [k + 1], k, name, port);
    assert Tracks(batches[k], bases[k], bases[k + 1]) && Tracks(batches[k + 1], bases[k + 1], bases[k + 2]);
    assert Tracked(batches[k], bases[k], bases[k + 1], name);
    assert Tracked(batches[k + 1], bases[k + 1], bases[k + 2], name);
  }

  ghost predicate OvertakenSafely(batches: seq<Changes>, bases: seq<Cluster>, k: nat)
    requires |bases| == |batches| + 1 && k + 2 <= |batches|
  {
    forall name :: name in batches[k] && name in batches[k + 1] ==>
      Overtakes(Find(bases[k], name), Find(bases[k + 1], name), Find(bases[k + 2], name))
  }

  lemma OvertakenAgrees(batches: seq<Changes>, bases: seq<Cluster>, k: nat)
    requires Chained(batches, bases) && k + 2 <= |batches|
    ensures Indices(UpTo(k) + [k + 1] + [k], batches) && Indices(UpTo(k + 2), batches)
    ensures LastWritesAgree(batches, UpTo(k) + [k + 1] + [k], k + 2) <==> OvertakenSafely(batches, bases, k)
  {
    var order := UpTo(k) + [k + 1] + [k];
    forall name, port
      ensures Leaves(batches, order, name, port) == Leaves(batches, UpTo(k + 2), name, port)
         <==> (name in batches[k] && name in batches[k + 1] ==>
                 OvertakesAt(Find(bases[k], name), Find(bases[k + 1], name), Find(bases[k + 2], name), port))
    {
      InOrderLeaves(batches, bases, k + 2, name, port);
      OvertakenPort(batches, bases, k, name, port);
    }
    if LastWritesAgree(batches, order, k + 2) {
      forall name | name in batches[k] && name in batches[k + 1]
        ensures Overtakes(Find(bases[k], name), Find(bases[k + 1], name), Find(bases[k + 2], name))
      {
        var first, middle, last := Find(bases[k], name), Find(bases[k + 1], name), Find(bases[k + 2], name);
        forall port ensures OvertakesAt(first, middle, last, port) {
          assert Leaves(batches, order, name, port) == Leaves(batches, UpTo(k + 2), name, port);
        }
      }
    }
  }

  /** In every run in which one sync overtakes the one before it, the whole map ends as the services taken
      last if and only if every service changed in both is overtaken safely. */
  lemma OvertakenSyncExactly(steps: seq<Step>, k: nat)
    requires var s := Run(START, steps); s.todo == map[] && k + 2 <= |s.batches| && s.merged == UpTo(k) + [k + 1] + [k]
    ensures (var s := Run(START, steps);
             && |s.bases| == |s.batches| + 1
             && (Serves(s.infos, s.bases[k + 2]) <==> OvertakenSafely(s.batches, s.bases, k)))
  {
    var s := Run(START, steps);
    EveryRunKeeps(steps);
    EverySyncServesExactly(steps, k + 2);
    OvertakenAgrees(s.batches, s.bases, k);
  }

  /** Two updates of a port, merged in the wrong order, leave the older configuration. */
  lemma LateSyncGoesBack()
    ensures exists infos, name, first, middle, last ::
              && Named(first, name) && Named(middle, name) && Named(last, name) && Holds(infos, name, first)
              && !Holds(ApplyChange(ApplyChange(infos, middle, last), first, middle), name, last)
  {
    var name := Name("ns", "a");
    var middle: Service := ServiceObject(name, false, ["10.0.0.1"], [], [], [], [Port("http", 1, 80, 0)]);
    var last: Service := ServiceObject(name, false, ["10.0.0.1"], [], [], [], [Port("http", 1, 8080, 0)]);
    assert Holds(map[], name, None);
    assert LastNamed(middle.ports, "http") == Some(middle.ports[0]) && LastNamed(last.ports, "http") == Some(last.ports[0]) by {
      assert middle.ports[1..] == [] && last.ports[1..] == [];
    }
    assert Wants(Some(middle), "http") != Wants(Some(last), "http");
    LateSyncExactly(map[], name, None, Some(middle), Some(last));
  }

  // Load balancer IPs

  ghost predicate FreshLB(infos: Infos, name: Name, svc: Option<Service>) {
    forall port :: (name, port) in infos ==> svc.Some? && infos[(name, port)].lbIPs == svc.value.lbIPs
  }

  lemma {:induction false} MergePortsLB(infos: Infos, svc: Service, ports: seq<Port>, port: string)
    requires !Skipped(svc) && (forall i, j :: 0 <= i < j < |ports| ==> ports[i].name != ports[j].name)
    ensures (var key, p := (svc.name, port), LastNamed(ports, port);
             var merged := MergePorts(infos, svc, ports);
             if p.None? then (key in merged <==> key in infos) && (key in merged ==> merged[key] == infos[key])
             else key in merged &&
                  (if key in infos && SameConfig(infos[key], svc, p.value) then merged[key] == infos[key]
                   else merged[key].lbIPs == svc.lbIPs))
    decreases ports
  {
    if ports != [] {
      MergePortsLB(MergePort(infos, svc, ports[0]), svc, ports[1..], port);
      LastNamedExists(ports[1..], port);
      assert forall q :: q in ports[1..] ==> q.name != ports[0].name;
    }
  }

  /** A merge leaves the load balancer IPs of the current service under each of its ports, if and only if
      no port keeps its configuration while the load balancer IPs change. */
  lemma LBIPsFreshExactly(infos: Infos, previous: Service, current: Service)
    requires previous.name == current.name && !Skipped(current)
    requires forall i, j :: 0 <= i < j < |current.ports| ==> current.ports[i].name != current.ports[j].name
    requires Holds(infos, current.name, Some(previous)) && FreshLB(infos, current.name, Some(previous))
    ensures (FreshLB(ApplyChange(infos, Some(previous), Some(current)), current.name, Some(current)) <==>
             previous.lbIPs == current.lbIPs ||
             forall port :: port in PortNames(current.ports) ==> Wants(Some(previous), port) != Wants(Some(current), port))
  {
    var name := current.name;
    var merged, after := Merge(infos, Some(current)), ApplyChange(infos, Some(previous), Some(current));
    ApplyReplaces(infos, name, Some(previous), Some(current));
    forall port ensures (name, port) in after ==>
        port in PortNames(current.ports) &&
        after[(name, port)].lbIPs == if Wants(Some(previous), port) == Wants(Some(current), port) then previous.lbIPs else current.lbIPs {
      MergePortsLB(infos, current, current.ports, port);
      MergeHas(infos, name, Some(current), port);
      assert Has(infos, name, port) == Wants(Some(previous), port);
      assert Has(after, name, port) == Wants(Some(current), port);
    }
    forall port | port in PortNames(current.ports) ensures (name, port) in after {
      MergeHas(infos, name, Some(current), port);
      assert Has(after, name, port) == Wants(Some(current), port);
    }
  }

  /** New load balancer IPs alone are not taken over. */
  lemma LBIPsGoStale()
    ensures exists infos, previous: Service, current: Service ::
              && Holds(infos, current.name, Some(previous)) && FreshLB(infos, current.name, Some(previous))
              && Holds(ApplyChange(infos, Some(previous), Some(current)), current.name, Some(current))
              && !FreshLB(ApplyChange(infos, Some(previous), Some(current)), current.name, Some(current))
  {
    var name, http := Name("ns", "a"), Port("http", 1, 80, 0);
    var previous: Service := ServiceObject(name, false, ["10.0.0.1"], [], [], ["1.1.1.1"], [http]);
    var current: Service := ServiceObject(name, false, ["10.0.0.1"], [], [], ["2.2.2.2"], [http]);
    var infos := map[(name, "http") := Info(ConfigOf(previous, http), ["1.1.1.1"])];
    assert forall port :: LastNamed([http], port) == if port == "http" then Some(http) else None by { assert [http][1..] == []; }
    assert Holds(infos, name, Some(previous));
    assert http in current.ports && "http" in PortNames(current.ports);
    ApplyReplaces(infos, name, Some(previous), Some(current));
    LBIPsFreshExactly(infos, previous, current);
  }

  // The proxy

  /** Half way through a sync: the services still to merge are as at the last sync, the others as announced. */
  ghost predicate MidSync(infos: Infos, todo: Changes, base: Cluster, latest: Cluster) {
    forall name :: Holds(infos, name, Find(if name in todo then base else latest, name))
  }

  lemma SyncStarts(infos: Infos, changes: Changes, base: Cluster, latest: Cluster)
    requires Serves(infos, base) && forall name :: Tracked(changes, base, latest, name)
    ensures MidSync(infos, changes, base, latest)
    ensures forall name :: name in changes ==> changes[name] == Change(Find(base, name), Find(latest, name))
  {
    forall name ensures Holds(infos, name, Find(if name in changes then base else latest, name)) {
      assert Holds(infos, name, Find(base, name)) && Tracked(changes, base, latest, name);
    }
    forall name | name in changes ensures changes[name] == Change(Find(base, name), Find(latest, name)) {
      assert Tracked(changes, base, latest, name);
    }
  }

  lemma SyncProceeds(infos: Infos, todo: Changes, base: Cluster, latest: Cluster, name: Name)
    requires WellNamed(base) && WellNamed(latest) && MidSync(infos, todo, base, latest) && name in todo
    ensures MidSync(ApplyChange(infos, Find(base, name), Find(latest, name)), todo - {name}, base, latest)
  {
    var after := ApplyChange(infos, Find(base, name), Find(latest, name));
    assert Holds(infos, name, Find(if name in todo then base else latest, name));
    ApplyReplaces(infos, name, Find(base, name), Find(latest, name));
    forall n ensures Holds(after, n, Find(if n in todo - {name} then base else latest, n)) {
      assert Holds(infos, n, Find(if n in todo then base else latest, n));
      if n != name { SameButHolds(after, infos, name, n); }
    }
  }

  class Proxier {
    var serviceChanges: Changes
    var serviceMap: Infos
    var initialized: bool

    constructor ()
      ensures serviceChanges == map[] && serviceMap == map[] && !initialized
    {
      serviceChanges, serviceMap, initialized := map[], map[], false;
    }

    method ServiceChange(previous: Option<Service>, current: Option<Service>)
      requires previous.Some? || current.Some?
      modifies this
      ensures (var name := if current.Some? then current.value.name else previous.value.name;
               serviceChanges == Record(old(serviceChanges), name, previous, current))
      ensures serviceMap == old(serviceMap) && initialized == old(initialized)
    {
      var name := if current.Some? then current.value.name else previous.value.name;
      var changes := serviceChanges;
      if name !in changes {
        changes := changes[name := Change(previous, None)];
      }
      changes := changes[name := changes[name].(current := current)];
      if changes[name].previous == changes[name].current {
        changes := changes - {name};
      }
      serviceChanges := changes;
    }

    method MergeService(svc: Option<Service>) returns (existing: set<string>)
      modifies `serviceMap
      ensures serviceMap == Merge(old(serviceMap), svc) && existing == Existing(svc)
    {
      existing := {};
      if svc.None? || Skipped(svc.value) { return; }
      var service := svc.value;
      for i := 0 to |service.ports|
        invariant existing == PortNames(service.ports[..i])
        invariant MergePorts(serviceMap, service, service.ports[i..]) == Merge(old(serviceMap), svc)
      {
        var port := service.ports[i];
        assert service.ports[..i + 1] == service.ports[..i] + [port] && service.ports[i..][1..] == service.ports[i + 1..];
        existing := existing + {port.name};
        var key := (service.name, port.name);
        if key in serviceMap && SameConfig(serviceMap[key], service, port) { continue; }
        ghost var was := serviceMap;
        serviceMap := serviceMap - {key};
        serviceMap := serviceMap[key := Info(ConfigOf(service, port), service.lbIPs)];
        assert serviceMap == MergePort(was, service, port);
      }
      assert service.ports[..|service.ports|] == service.ports;
    }

    method UnmergeService(svc: Option<Service>, existing: set<string>)
      modifies `serviceMap
      ensures serviceMap == Unmerge(old(serviceMap), svc, existing)
    {
      if svc.None? || Skipped(svc.value) { return; }
      var service := svc.value;
      for i := 0 to |service.ports|
        invariant serviceMap == map key | key in old(serviceMap)
                                          && !(key.0 == service.name && key.1 in PortNames(service.ports[..i]) - existing) :: old(serviceMap)[key]
      {
        var port := service.ports[i];
        assert PortNames(service.ports[..i + 1]) == PortNames(service.ports[..i]) + {port.name} by {
          assert service.ports[..i + 1] == service.ports[..i] + [port];
        }
        if port.name in existing { continue; }
        serviceMap := serviceMap - {(service.name, port.name)};
      }
      assert service.ports[..|service.ports|] == service.ports;
    }

    /** The sync merges the recorded changes in whatever order the map gives them. */
    method SyncProxyRules(ghost base: Cluster, ghost latest: Cluster)
      requires WellNamed(base) && WellNamed(latest) && Serves(serviceMap, base)
      requires forall name :: Tracked(serviceChanges, base, latest, name)
      modifies this
      ensures initialized == old(initialized)
      ensures initialized ==> serviceChanges == map[] && Serves(serviceMap, latest)
      ensures !initialized ==> serviceChanges == old(serviceChanges) && serviceMap == old(serviceMap)
    {
      if !initialized { return; }
      var todo := serviceChanges;
      serviceChanges := map[];
      SyncStarts(serviceMap, todo, base, latest);
      while todo.Keys != {}
        invariant initialized && serviceChanges == map[]
        invariant forall name :: name in todo ==> todo[name] == Change(Find(base, name), Find(latest, name))
        invariant MidSync(serviceMap, todo, base, latest)
        decreases |todo.Keys|
      {
        var name :| name in todo.Keys;
        SyncProceeds(serviceMap, todo, base, latest, name);
        var existing := MergeService(todo[name].current);
        UnmergeService(todo[name].previous, existing);
        todo := todo - {name};
      }
    }
  }
}
