/** The whole table: every service in turn, then the dispatch chains. */
module NftTables {
  import opened NftRules
  import opened NftCompiler

  // Building, as the renderer appends to its chain buffers

  function At(t: Table, c: Chain): seq<Rule> {
    if c in t then t[c] else []
  }

  /** Chains.Get and a write: an absent chain starts empty. */
  function Append(t: Table, c: Chain, rules: seq<Rule>): Table {
    t[c := At(t, c) + rules]
  }

  function AddEndpointChain(t: Table, svc: Service, e: EpIP): Table {
    var c := SvcEp(svc.id, e.ip);
    Append(Append(AddAffinity(t, svc, e), c, DnatRules(svc.ports, e, false)), c, DnatRules(svc.ports, e, true))
  }

  /** With client affinity the endpoint remembers its clients and the service chain looks them up first. */
  function AddAffinity(t: Table, svc: Service, e: EpIP): Table {
    var c := SvcEp(svc.id, e.ip);
    if svc.affinity.NoAffinity? then Append(t, c, [])
    else Append(Append(t, c, [Remember(c)]), SvcDnat(svc.id), [RecentRule(svc, e)])
  }

  function AddEndpointChains(t: Table, svc: Service, eps: seq<EpIP>): Table
    decreases eps
  {
    if eps == [] then t else AddEndpointChains(AddEndpointChain(t, svc, eps[0]), svc, eps[1..])
  }

  /** The chain that gets the rules of a port, and the node port chain that leads to it. */
  function PortChain(svc: Service, served: bool): Chain {
    if served then SvcDnat(svc.id) else SvcFilter(svc.id)
  }

  function NodePorts(served: bool): Chain {
    if served then NodePortsDnat else NodePortsFilter
  }

  function NodePortRule(svc: Service, p: PortMapping, served: bool): Rule {
    OnPort(false, p.protocol, p.nodePort, Jump(PortChain(svc, served)))
  }

  function PortRule(svc: Service, eps: seq<EpIP>, p: PortMapping, src: int): Rule {
    OnPort(src == p.nodePort, p.protocol, src, PortAction(svc, eps, p))
  }

  /** The dnat chain of the node ports comes to exist even when the port is only rejected. */
  function RecordNodePort(t: Table, svc: Service, p: PortMapping, served: bool): Table {
    Append(Append(t, NodePortsDnat, []), NodePorts(served), [NodePortRule(svc, p, served)])
  }

  function AddSrcPort(t: Table, svc: Service, eps: seq<EpIP>, p: PortMapping, src: int): Table {
    var served := Having(eps, p) != [];
    var t1 := if src == p.nodePort then RecordNodePort(t, svc, p, served) else t;
    Append(t1, PortChain(svc, served), [PortRule(svc, eps, p, src)])
  }

  function AddSrcPorts(t: Table, svc: Service, eps: seq<EpIP>, p: PortMapping, srcs: seq<int>): Table
    decreases srcs
  {
    if srcs == [] then t else AddSrcPorts(AddSrcPort(t, svc, eps, p, srcs[0]), svc, eps, p, srcs[1..])
  }

  function AddPort(t: Table, svc: Service, eps: seq<EpIP>, p: PortMapping, hashBug: bool): Table {
    var t1 := if NeedsOwnVmap(eps, p) then Append(t, SvcEpsPort(svc.id, p.name), [Vmap(svc, Having(eps, p), hashBug)]) else t;
    AddSrcPorts(t1, svc, eps, p, SrcPorts(p))
  }

  function AddPorts(t: Table, svc: Service, eps: seq<EpIP>, ports: seq<PortMapping>, hashBug: bool): Table
    decreases ports
  {
    if ports == [] then t else AddPorts(AddPort(t, svc, eps, ports[0], hashBug), svc, eps, ports[1..], hashBug)
  }

  /** The table just before the ports of a service are written. */
  function BeforePorts(t: Table, svc: Service, eps: seq<EpIP>, hashBug: bool): Table {
    var t1 := Append(Append(t, SvcDnat(svc.id), []), SvcFilter(svc.id), []);
    if eps != [] then Append(t1, SvcEps(svc.id), [Vmap(svc, eps, hashBug)]) else t1
  }

  function AddSvcChain(t: Table, svc: Service, eps: seq<EpIP>, hashBug: bool): Table {
    AddPorts(BeforePorts(t, svc, eps, hashBug), svc, eps, svc.ports, hashBug)
  }

  function Owners(t: Table, c: Chain): seq<(string, Chain)> {
    if c in t && |t[c]| == 1 && t[c][0].ByDaddr? then t[c][0].owners else []
  }

  function Entries(ips: seq<string>, c: Chain): seq<(string, Chain)> {
    if ips == [] then [] else [(ips[0], c)] + Entries(ips[1..], c)
  }

  /** The vmap of a dispatch chain is one rule that grows. */
  function AddDispatch(t: Table, dispatch: Chain, target: Chain, ips: seq<string>): Table {
    if ips == [] || At(t, target) == [] then t
    else t[dispatch := [ByDaddr(Owners(t, dispatch) + Entries(ips, target))]]
  }

  function AddDispatches(t: Table, svc: Service): Table {
    AddDispatch(AddDispatch(t, DispatchDnat, SvcDnat(svc.id), SvcIPs(svc)), DispatchFilter, SvcFilter(svc.id), SvcIPs(svc))
  }

  function AddService(t: Table, se: ServiceEndpoints, hashBug: bool): Table {
    var svc, eps := se.svc, EpIPs(se.endpoints);
    var t1 := AddEndpointChains(Append(t, SvcDnat(svc.id), []), svc, eps);
    AddDispatches(AddSvcChain(t1, svc, eps, hashBug), svc)
  }

  function AddServices(ses: seq<ServiceEndpoints>, hashBug: bool): Table {
    if ses == [] then map[] else AddService(AddServices(ses[..|ses| - 1], hashBug), ses[|ses| - 1], hashBug)
  }

  /** addDispatchChains: the entry chains of both paths. */
  function Finalize(t: Table): Table {
    var dnat :=
      (if DispatchDnat in t then [Always(Jump(DispatchDnat))] else [])
      + (if NodePortsDnat in t then [IfLocal(Jump(NodePortsDnat))] else []);
    var filter :=
      [IfInvalid(Drop)]
      + (if DispatchFilter in t then [Always(Jump(DispatchFilter))] else [])
      + (if NodePortsFilter in t then [IfLocal(Jump(NodePortsFilter))] else []);
    t[DnatAll := dnat][FilterAll := filter]
  }

  function Compile(ses: seq<ServiceEndpoints>, hashBug: bool): Table {
    Finalize(AddServices(ses, hashBug))
  }

  // Frames

  predicate OwnedBy(c: Chain, id: SvcName) {
    match c
    case SvcDnat(svc) => svc == id
    case SvcFilter(svc) => svc == id
    case SvcEps(svc) => svc == id
    case SvcEpsPort(svc, _) => svc == id
    case SvcEp(svc, _) => svc == id
    case _ => false
  }

  ghost predicate SameChain(t: Table, t': Table, c: Chain) {
    (c in t <==> c in t') && (c in t ==> t[c] == t'[c])
  }

  predicate PortChains(c: Chain, id: SvcName) {
    c in {SvcDnat(id), SvcFilter(id), NodePortsDnat, NodePortsFilter}
  }

  lemma EndpointChainFrame(t: Table, svc: Service, e: EpIP, c: Chain)
    requires c != SvcDnat(svc.id) && c != SvcEp(svc.id, e.ip)
    ensures SameChain(t, AddEndpointChain(t, svc, e), c)
  {
  }

  lemma {:induction false} EndpointChainsFrame(t: Table, svc: Service, eps: seq<EpIP>, c: Chain)
    requires c != SvcDnat(svc.id) && forall e :: e in eps ==> c != SvcEp(svc.id, e.ip)
    ensures SameChain(t, AddEndpointChains(t, svc, eps), c)
    decreases eps
  {
    if eps != [] {
      assert eps[0] in eps;
      EndpointChainFrame(t, svc, eps[0], c);
      EndpointChainsFrame(AddEndpointChain(t, svc, eps[0]), svc, eps[1..], c);
    }
  }

  lemma {:induction false} SrcPortsFrame(t: Table, svc: Service, eps: seq<EpIP>, p: PortMapping, srcs: seq<int>, c: Chain)
    requires !PortChains(c, svc.id)
    ensures SameChain(t, AddSrcPorts(t, svc, eps, p, srcs), c)
    decreases srcs
  {
    if srcs != [] {
      assert SameChain(t, AddSrcPort(t, svc, eps, p, srcs[0]), c);
      SrcPortsFrame(AddSrcPort(t, svc, eps, p, srcs[0]), svc, eps, p, srcs[1..], c);
    }
  }

  lemma PortFrame(t: Table, svc: Service, eps: seq<EpIP>, p: PortMapping, hashBug: bool, c: Chain)
    requires !PortChains(c, svc.id) && c != SvcEpsPort(svc.id, p.name)
    ensures SameChain(t, AddPort(t, svc, eps, p, hashBug), c)
  {
    var t1 := if NeedsOwnVmap(eps, p) then Append(t, SvcEpsPort(svc.id, p.name), [Vmap(svc, Having(eps, p), hashBug)]) else t;
    SrcPortsFrame(t1, svc, eps, p, SrcPorts(p), c);
  }

  lemma {:induction false} PortsFrame(t: Table, svc: Service, eps: seq<EpIP>, ports: seq<PortMapping>, hashBug: bool, c: Chain)
    requires !PortChains(c, svc.id) && forall p :: p in ports ==> c != SvcEpsPort(svc.id, p.name)
    ensures SameChain(t, AddPorts(t, svc, eps, ports, hashBug), c)
    decreases ports
  {
    if ports != [] {
      assert ports[0] in ports;
      PortFrame(t, svc, eps, ports[0], hashBug, c);
      PortsFrame(AddPort(t, svc, eps, ports[0], hashBug), svc, eps, ports[1..], hashBug, c);
    }
  }

  lemma SvcChainFrame(t: Table, svc: Service, eps: seq<EpIP>, hashBug: bool, c: Chain)
    requires !PortChains(c, svc.id) && c != SvcEps(svc.id) && forall p :: p in svc.ports ==> c != SvcEpsPort(svc.id, p.name)
    ensures SameChain(t, AddSvcChain(t, svc, eps, hashBug), c)
  {
    assert SameChain(t, BeforePorts(t, svc, eps, hashBug), c);
    PortsFrame(BeforePorts(t, svc, eps, hashBug), svc, eps, svc.ports, hashBug, c);
  }

  /** A service leaves the chains of other services alone. */
  lemma ServiceFrame(t: Table, se: ServiceEndpoints, hashBug: bool, c: Chain)
    requires !OwnedBy(c, se.svc.id) && c !in {DispatchDnat, DispatchFilter, NodePortsDnat, NodePortsFilter}
    ensures SameChain(t, AddService(t, se, hashBug), c)
  {
    var svc, eps := se.svc, EpIPs(se.endpoints);
    var t0 := Append(t, SvcDnat(svc.id), []);
    var t1 := AddEndpointChains(t0, svc, eps);
    assert SameChain(t, t0, c);
    EndpointChainsFrame(t0, svc, eps, c);
    ServiceTailFrame(t1, svc, eps, hashBug, c);
  }

  lemma ServiceTailFrame(t: Table, svc: Service, eps: seq<EpIP>, hashBug: bool, c: Chain)
    requires !OwnedBy(c, svc.id) && c !in {DispatchDnat, DispatchFilter, NodePortsDnat, NodePortsFilter}
    ensures SameChain(t, AddDispatches(AddSvcChain(t, svc, eps, hashBug), svc), c)
  {
    var t2 := AddSvcChain(t, svc, eps, hashBug);
    SvcChainFrame(t, svc, eps, hashBug, c);
    DispatchKeeps(t2, svc, c);
  }

  lemma DispatchKeeps(t: Table, svc: Service, c: Chain)
    requires c !in {DispatchDnat, DispatchFilter}
    ensures SameChain(t, AddDispatches(t, svc), c)
  {
  }

  // Contents

  lemma AffinityMeans(t: Table, svc: Service, e: EpIP)
    requires SvcEp(svc.id, e.ip) !in t
    ensures var t' := AddAffinity(t, svc, e); var c := SvcEp(svc.id, e.ip);
            && c in t' && t'[c] == (if svc.affinity.ClientIP? then [Remember(c)] else [])
            && At(t', SvcDnat(svc.id)) == At(t, SvcDnat(svc.id)) + (if svc.affinity.NoAffinity? then [] else [RecentRule(svc, e)])
  {
  }

  lemma EndpointChainMeans(t: Table, svc: Service, e: EpIP)
    requires SvcEp(svc.id, e.ip) !in t
    ensures var t' := AddEndpointChain(t, svc, e);
            && SvcEp(svc.id, e.ip) in t' && t'[SvcEp(svc.id, e.ip)] == EpRules(svc, e)
            && At(t', SvcDnat(svc.id)) == At(t, SvcDnat(svc.id)) + (if svc.affinity.NoAffinity? then [] else [RecentRule(svc, e)])
  {
    AffinityMeans(t, svc, e);
  }

  lemma TailIsFresh(t: Table, svc: Service, eps: seq<EpIP>)
    requires eps != [] && DistinctIPs(eps) && forall e :: e in eps ==> SvcEp(svc.id, e.ip) !in t
    ensures DistinctIPs(eps[1..])
    ensures forall f :: f in eps[1..] ==> f.ip != eps[0].ip && SvcEp(svc.id, f.ip) !in t
  {
    forall f | f in eps[1..] ensures f.ip != eps[0].ip && SvcEp(svc.id, f.ip) !in t {
      var i :| 0 <= i < |eps[1..]| && eps[1..][i] == f;
      assert eps[i + 1] == f && f in eps;
    }
  }

  lemma {:induction false} EndpointChainsMean(t: Table, svc: Service, eps: seq<EpIP>)
    requires DistinctIPs(eps) && forall e :: e in eps ==> SvcEp(svc.id, e.ip) !in t
    ensures EpsInstalled(AddEndpointChains(t, svc, eps), svc, eps)
    ensures At(AddEndpointChains(t, svc, eps), SvcDnat(svc.id)) == At(t, SvcDnat(svc.id)) + RecentRules(svc, eps)
    decreases eps
  {
    if eps != [] {
      var e, rest := eps[0], eps[1..];
      assert e in eps;
      TailIsFresh(t, svc, eps);
      EndpointChainMeans(t, svc, e);
      var t1 := AddEndpointChain(t, svc, e);
      forall f | f in rest ensures SvcEp(svc.id, f.ip) !in t1 { EndpointChainFrame(t, svc, e, SvcEp(svc.id, f.ip)); }
      EndpointChainsMean(t1, svc, rest);
      EndpointChainsFrame(t1, svc, rest, SvcEp(svc.id, e.ip));
      InstalledTogether(t1, AddEndpointChains(t1, svc, rest), svc, e, rest, eps);
      RecentRulesStep(svc, eps, At(t, SvcDnat(svc.id)));
    }
  }

  lemma InstalledTogether(t1: Table, t2: Table, svc: Service, e: EpIP, rest: seq<EpIP>, eps: seq<EpIP>)
    requires eps == [e] + rest && EpsInstalled(t2, svc, rest) && SameChain(t1, t2, SvcEp(svc.id, e.ip))
    requires SvcEp(svc.id, e.ip) in t1 && t1[SvcEp(svc.id, e.ip)] == EpRules(svc, e)
    ensures EpsInstalled(t2, svc, eps)
  {
  }

  lemma RecentRulesStep(svc: Service, eps: seq<EpIP>, before: seq<Rule>)
    requires eps != []
    ensures before + (if svc.affinity.NoAffinity? then [] else [RecentRule(svc, eps[0])]) + RecentRules(svc, eps[1..])
         == before + RecentRules(svc, eps)
  {
    if svc.affinity.NoAffinity? { assert RecentRules(svc, eps[1..]) == []; }
  }

  /** The rules a port adds to the node port chain. */
  function NodeRules(svc: Service, p: PortMapping, srcs: seq<int>, served: bool): seq<Rule> {
    if srcs == [] then []
    else (if srcs[0] == p.nodePort then [NodePortRule(svc, p, served)] else []) + NodeRules(svc, p, srcs[1..], served)
  }

  ghost predicate Grows(t: Table, t': Table, c: Chain, rules: seq<Rule>) {
    At(t', c) == At(t, c) + rules
  }

  lemma GrowsTwice(t: Table, t1: Table, t2: Table, c: Chain, a: seq<Rule>, b: seq<Rule>)
    requires Grows(t, t1, c, a) && Grows(t1, t2, c, b)
    ensures Grows(t, t2, c, a + b)
  {
  }

  lemma {:induction false} SrcPortsMean(t: Table, svc: Service, eps: seq<EpIP>, p: PortMapping, srcs: seq<int>, served: bool)
    ensures var t' := AddSrcPorts(t, svc, eps, p, srcs); var mine := (Having(eps, p) != []) == served;
            && Grows(t, t', PortChain(svc, served), if mine then PortRules(svc, eps, p, srcs) else [])
            && Grows(t, t', NodePorts(served), if mine then NodeRules(svc, p, srcs, served) else [])
    decreases srcs
  {
    if srcs != [] {
      var t1 := AddSrcPort(t, svc, eps, p, srcs[0]);
      var mine := (Having(eps, p) != []) == served;
      var a := if mine then [PortRule(svc, eps, p, srcs[0])] else [];
      var b := if mine && srcs[0] == p.nodePort then [NodePortRule(svc, p, served)] else [];
      assert Grows(t, t1, PortChain(svc, served), a);
      assert Grows(t, t1, NodePorts(served), b);
      SrcPortsMean(t1, svc, eps, p, srcs[1..], served);
      var t' := AddSrcPorts(t1, svc, eps, p, srcs[1..]);
      GrowsTwice(t, t1, t', PortChain(svc, served), a, if mine then PortRules(svc, eps, p, srcs[1..]) else []);
      GrowsTwice(t, t1, t', NodePorts(served), b, if mine then NodeRules(svc, p, srcs[1..], served) else []);
    }
  }

  /** What a list of ports adds to the node port chain. */
  function AllNodeRules(svc: Service, eps: seq<EpIP>, ports: seq<PortMapping>, served: bool): seq<Rule> {
    if ports == [] then []
    else
      (if (Having(eps, ports[0]) != []) == served then NodeRules(svc, ports[0], SrcPorts(ports[0]), served) else [])
      + AllNodeRules(svc, eps, ports[1..], served)
  }

  lemma {:induction false} PortsMean(t: Table, svc: Service, eps: seq<EpIP>, ports: seq<PortMapping>, hashBug: bool, served: bool)
    ensures var t' := AddPorts(t, svc, eps, ports, hashBug);
            && Grows(t, t', PortChain(svc, served), SvcRules(svc, eps, ports, served))
            && Grows(t, t', NodePorts(served), AllNodeRules(svc, eps, ports, served))
    decreases ports
  {
    if ports != [] {
      var p := ports[0];
      var t0 := if NeedsOwnVmap(eps, p) then Append(t, SvcEpsPort(svc.id, p.name), [Vmap(svc, Having(eps, p), hashBug)]) else t;
      var t1 := AddPort(t, svc, eps, p, hashBug);
      var t' := AddPorts(t1, svc, eps, ports[1..], hashBug);
      var mine := (Having(eps, p) != []) == served;
      var a := if mine then PortRules(svc, eps, p, SrcPorts(p)) else [];
      var b := if mine then NodeRules(svc, p, SrcPorts(p), served) else [];
      SrcPortsMean(t0, svc, eps, p, SrcPorts(p), served);
      assert Grows(t, t1, PortChain(svc, served), a) && Grows(t, t1, NodePorts(served), b);
      PortsMean(t1, svc, eps, ports[1..], hashBug, served);
      GrowsTwice(t, t1, t', PortChain(svc, served), a, SvcRules(svc, eps, ports[1..], served));
      GrowsTwice(t, t1, t', NodePorts(served), b, AllNodeRules(svc, eps, ports[1..], served));
    }
  }

  ghost predicate DistinctNames(ports: seq<PortMapping>) {
    forall i, j :: 0 <= i < j < |ports| ==> ports[i].name != ports[j].name
  }

  lemma {:induction false} OwnVmaps(t: Table, svc: Service, eps: seq<EpIP>, ports: seq<PortMapping>, hashBug: bool, i: nat)
    requires i < |ports| && DistinctNames(ports) && SvcEpsPort(svc.id, ports[i].name) !in t
    ensures OwnVmap(AddPorts(t, svc, eps, ports, hashBug), svc, eps, ports[i], hashBug)
    decreases ports
  {
    var p, c := ports[0], SvcEpsPort(svc.id, ports[i].name);
    var t1 := AddPort(t, svc, eps, p, hashBug);
    if i == 0 {
      var t0 := if NeedsOwnVmap(eps, p) then Append(t, c, [Vmap(svc, Having(eps, p), hashBug)]) else t;
      SrcPortsFrame(t0, svc, eps, p, SrcPorts(p), c);
      forall q | q in ports[1..] ensures c != SvcEpsPort(svc.id, q.name) {
        var j :| 0 <= j < |ports[1..]| && ports[1..][j] == q;
        assert ports[j + 1] == q;
      }
      PortsFrame(t1, svc, eps, ports[1..], hashBug, c);
    } else {
      PortFrame(t, svc, eps, p, hashBug, c);
      OwnVmaps(t1, svc, eps, ports[1..], hashBug, i - 1);
    }
  }

  // One whole service

  ghost predicate Keeps(t: Table, t': Table) {
    forall c :: c in t ==> c in t'
  }

  lemma {:induction false} SrcPortsKeep(t: Table, svc: Service, eps: seq<EpIP>, p: PortMapping, srcs: seq<int>)
    ensures Keeps(t, AddSrcPorts(t, svc, eps, p, srcs))
    decreases srcs
  {
    if srcs != [] {
      assert Keeps(t, AddSrcPort(t, svc, eps, p, srcs[0]));
      SrcPortsKeep(AddSrcPort(t, svc, eps, p, srcs[0]), svc, eps, p, srcs[1..]);
    }
  }

  lemma {:induction false} PortsKeep(t: Table, svc: Service, eps: seq<EpIP>, ports: seq<PortMapping>, hashBug: bool)
    ensures Keeps(t, AddPorts(t, svc, eps, ports, hashBug))
    decreases ports
  {
    if ports != [] {
      var p := ports[0];
      var t0 := if NeedsOwnVmap(eps, p) then Append(t, SvcEpsPort(svc.id, p.name), [Vmap(svc, Having(eps, p), hashBug)]) else t;
      assert Keeps(t, t0);
      SrcPortsKeep(t0, svc, eps, p, SrcPorts(p));
      PortsKeep(AddPort(t, svc, eps, p, hashBug), svc, eps, ports[1..], hashBug);
    }
  }

  ghost predicate NoneOf(t: Table, id: SvcName) {
    forall c :: c in t ==> !OwnedBy(c, id)
  }

  ghost predicate WellFormed(se: ServiceEndpoints) {
    DistinctIPs(EpIPs(se.endpoints)) && DistinctNames(se.svc.ports)
  }

  lemma SvcChainContents(t: Table, svc: Service, eps: seq<EpIP>, hashBug: bool)
    requires At(t, SvcDnat(svc.id)) == RecentRules(svc, eps) && SvcFilter(svc.id) !in t
    ensures ServiceChains(AddSvcChain(t, svc, eps, hashBug), svc, eps)
  {
    var t0 := BeforePorts(t, svc, eps, hashBug);
    BeforePortsContents(t, svc, eps, hashBug);
    PortsKeep(t0, svc, eps, svc.ports, hashBug);
    PortsMean(t0, svc, eps, svc.ports, hashBug, true);
    PortsMean(t0, svc, eps, svc.ports, hashBug, false);
    GrownChains(t0, AddPorts(t0, svc, eps, svc.ports, hashBug), svc, eps);
  }

  lemma GrownChains(t0: Table, t': Table, svc: Service, eps: seq<EpIP>)
    requires SvcDnat(svc.id) in t0 && SvcFilter(svc.id) in t0 && Keeps(t0, t')
    requires At(t0, SvcDnat(svc.id)) == RecentRules(svc, eps) && At(t0, SvcFilter(svc.id)) == []
    requires Grows(t0, t', PortChain(svc, true), SvcRules(svc, eps, svc.ports, true))
    requires Grows(t0, t', PortChain(svc, false), SvcRules(svc, eps, svc.ports, false))
    ensures ServiceChains(t', svc, eps)
  {
  }

  lemma BeforePortsContents(t: Table, svc: Service, eps: seq<EpIP>, hashBug: bool)
    ensures var t0 := BeforePorts(t, svc, eps, hashBug);
            && SvcDnat(svc.id) in t0 && SvcFilter(svc.id) in t0
            && At(t0, SvcDnat(svc.id)) == At(t, SvcDnat(svc.id)) && At(t0, SvcFilter(svc.id)) == At(t, SvcFilter(svc.id))
  {
  }

  lemma SvcChainVmaps(t: Table, svc: Service, eps: seq<EpIP>, hashBug: bool)
    requires DistinctNames(svc.ports) && SvcEps(svc.id) !in t
    requires forall p :: p in svc.ports ==> SvcEpsPort(svc.id, p.name) !in t
    ensures SharedVmap(AddSvcChain(t, svc, eps, hashBug), svc, eps, hashBug)
    ensures forall p :: p in svc.ports ==> OwnVmap(AddSvcChain(t, svc, eps, hashBug), svc, eps, p, hashBug)
  {
    var t0 := BeforePorts(t, svc, eps, hashBug);
    PortsFrame(t0, svc, eps, svc.ports, hashBug, SvcEps(svc.id));
    forall p | p in svc.ports ensures OwnVmap(AddSvcChain(t, svc, eps, hashBug), svc, eps, p, hashBug) {
      var i :| 0 <= i < |svc.ports| && svc.ports[i] == p;
      OwnVmaps(t0, svc, eps, svc.ports, hashBug, i);
    }
  }

  lemma SvcChainEndpoints(t: Table, svc: Service, eps: seq<EpIP>, hashBug: bool)
    requires EpsInstalled(t, svc, eps)
    ensures EpsInstalled(AddSvcChain(t, svc, eps, hashBug), svc, eps)
  {
    var t' := AddSvcChain(t, svc, eps, hashBug);
    forall e | e in eps ensures SvcEp(svc.id, e.ip) in t' && t'[SvcEp(svc.id, e.ip)] == EpRules(svc, e) {
      SvcChainFrame(t, svc, eps, hashBug, SvcEp(svc.id, e.ip));
    }
  }

  lemma InstalledFrame(t: Table, t': Table, svc: Service, eps: seq<EpIP>, hashBug: bool)
    requires Installed(t, svc, eps, hashBug) && forall c :: OwnedBy(c, svc.id) ==> SameChain(t, t', c)
    ensures Installed(t', svc, eps, hashBug)
  {
    assert SameChain(t, t', SvcDnat(svc.id)) && SameChain(t, t', SvcFilter(svc.id)) && SameChain(t, t', SvcEps(svc.id));
    forall e | e in eps ensures SvcEp(svc.id, e.ip) in t' && t'[SvcEp(svc.id, e.ip)] == EpRules(svc, e) {
      assert SameChain(t, t', SvcEp(svc.id, e.ip));
    }
    forall p | p in svc.ports ensures OwnVmap(t', svc, eps, p, hashBug) {
      assert OwnVmap(t, svc, eps, p, hashBug) && SameChain(t, t', SvcEpsPort(svc.id, p.name));
    }
  }

  lemma EndpointsReady(t: Table, svc: Service, eps: seq<EpIP>)
    requires NoneOf(t, svc.id) && DistinctIPs(eps)
    ensures var t1 := AddEndpointChains(Append(t, SvcDnat(svc.id), []), svc, eps);
            && EpsInstalled(t1, svc, eps) && At(t1, SvcDnat(svc.id)) == RecentRules(svc, eps)
            && SvcFilter(svc.id) !in t1 && SvcEps(svc.id) !in t1
            && forall p :: p in svc.ports ==> SvcEpsPort(svc.id, p.name) !in t1
  {
    var t0 := Append(t, SvcDnat(svc.id), []);
    EndpointChainsMean(t0, svc, eps);
    EndpointChainsFrame(t0, svc, eps, SvcFilter(svc.id));
    EndpointChainsFrame(t0, svc, eps, SvcEps(svc.id));
    forall p | p in svc.ports ensures SvcEpsPort(svc.id, p.name) !in AddEndpointChains(t0, svc, eps) {
      EndpointChainsFrame(t0, svc, eps, SvcEpsPort(svc.id, p.name));
    }
  }

  /** Rendering a service installs all of its chains in their final form. */
  lemma ServiceInstalls(t: Table, se: ServiceEndpoints, hashBug: bool)
    requires NoneOf(t, se.svc.id) && WellFormed(se)
    ensures Installed(AddService(t, se, hashBug), se.svc, EpIPs(se.endpoints), hashBug)
  {
    var svc, eps := se.svc, EpIPs(se.endpoints);
    EndpointsReady(t, svc, eps);
    var t1 := AddEndpointChains(Append(t, SvcDnat(svc.id), []), svc, eps);
    SvcChainContents(t1, svc, eps, hashBug);
    SvcChainVmaps(t1, svc, eps, hashBug);
    SvcChainEndpoints(t1, svc, eps, hashBug);
    DispatchKeepsOwned(AddSvcChain(t1, svc, eps, hashBug), svc);
    InstalledFrame(AddSvcChain(t1, svc, eps, hashBug), AddService(t, se, hashBug), svc, eps, hashBug);
  }

  lemma DispatchKeepsOwned(t: Table, svc: Service)
    ensures var t' := AddDispatches(t, svc); forall c :: c !in {DispatchDnat, DispatchFilter} ==> SameChain(t, t', c)
  {
  }

  /** A service leaves the chains of any other service alone. */
  lemma OthersKept(t: Table, se: ServiceEndpoints, hashBug: bool, id: SvcName)
    requires id != se.svc.id
    ensures forall c :: OwnedBy(c, id) ==> SameChain(t, AddService(t, se, hashBug), c)
  {
    forall c | OwnedBy(c, id) ensures SameChain(t, AddService(t, se, hashBug), c) {
      ServiceFrame(t, se, hashBug, c);
    }
  }

  // All services

  ghost predicate DistinctServices(ses: seq<ServiceEndpoints>) {
    forall i, j :: 0 <= i < j < |ses| ==> ses[i].svc.id != ses[j].svc.id
  }

  lemma {:induction false} OwnersAreServices(ses: seq<ServiceEndpoints>, hashBug: bool, id: SvcName)
    requires forall se :: se in ses ==> se.svc.id != id
    ensures NoneOf(AddServices(ses, hashBug), id)
  {
    if ses != [] {
      var n := |ses| - 1;
      OwnersAreServices(ses[..n], hashBug, id);
      var t := AddServices(ses[..n], hashBug);
      forall c | c in AddService(t, ses[n], hashBug) ensures !OwnedBy(c, id) {
        if OwnedBy(c, id) { ServiceFrame(t, ses[n], hashBug, c); }
      }
    }
  }

  lemma LastInstalled(ses: seq<ServiceEndpoints>, last: ServiceEndpoints, hashBug: bool)
    requires WellFormed(last) && forall se :: se in ses ==> se.svc.id != last.svc.id
    ensures Installed(AddService(AddServices(ses, hashBug), last, hashBug), last.svc, EpIPs(last.endpoints), hashBug)
  {
    OwnersAreServices(ses, hashBug, last.svc.id);
    ServiceInstalls(AddServices(ses, hashBug), last, hashBug);
  }

  lemma StaysInstalled(t: Table, next: ServiceEndpoints, svc: Service, eps: seq<EpIP>, hashBug: bool)
    requires Installed(t, svc, eps, hashBug) && next.svc.id != svc.id
    ensures Installed(AddService(t, next, hashBug), svc, eps, hashBug)
  {
    OthersKept(t, next, hashBug, svc.id);
    InstalledFrame(t, AddService(t, next, hashBug), svc, eps, hashBug);
  }

  lemma DistinctBefore(before: seq<ServiceEndpoints>, last: ServiceEndpoints)
    requires DistinctServices(before + [last])
    ensures DistinctServices(before) && forall se :: se in before ==> se.svc.id != last.svc.id
  {
    var ses := before + [last];
    forall i, j | 0 <= i < j < |before| ensures before[i].svc.id != before[j].svc.id {
      assert ses[i] == before[i] && ses[j] == before[j];
    }
    forall i | 0 <= i < |before| ensures before[i].svc.id != last.svc.id {
      assert ses[i] == before[i] && ses[|before|] == last;
    }
  }

  lemma OneMoreService(before: seq<ServiceEndpoints>, last: ServiceEndpoints, hashBug: bool)
    ensures AddServices(before + [last], hashBug) == AddService(AddServices(before, hashBug), last, hashBug)
  {
    assert (before + [last])[..|before|] == before;
  }

  /** Every well-formed service ends up installed, whatever comes after it. */
  lemma {:induction false} AllInstalled(ses: seq<ServiceEndpoints>, hashBug: bool, i: nat)
    requires DistinctServices(ses) && i < |ses| && WellFormed(ses[i])
    ensures Installed(AddServices(ses, hashBug), ses[i].svc, EpIPs(ses[i].endpoints), hashBug)
  {
    var n := |ses| - 1;
    var before, last, se := ses[..n], ses[n], ses[i];
    assert ses == before + [last];
    DistinctBefore(before, last);
    OneMoreService(before, last, hashBug);
    if i == n {
      LastInstalled(before, last, hashBug);
    } else {
      assert before[i] == se && se in before;
      AllInstalled(before, hashBug, i);
      StaysInstalled(AddServices(before, hashBug), last, se.svc, EpIPs(se.endpoints), hashBug);
    }
  }
}
