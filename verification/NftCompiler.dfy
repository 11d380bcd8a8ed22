/** From a service and its endpoints to nft chains, and what those chains mean. */
module NftCompiler {
  import opened Options
  import opened NftRules
  import IPSets

  datatype PortMapping = PortMapping(name: string, protocol: Protocol, port: int, nodePort: int,
                                     targetPort: int, targetPortName: string)

  datatype PortName = PortName(name: string, port: int)

  /** The addresses are those of the table's own family. */
  datatype Endpoint = Endpoint(ips: seq<string>, overrides: seq<PortName>)

  datatype Affinity = NoAffinity | ClientIP(timeoutSeconds: int)

  datatype Service = Service(id: SvcName, ports: seq<PortMapping>, clusterIPs: seq<string>, externalIPs: seq<string>,
                             affinity: Affinity)

  datatype ServiceEndpoints = ServiceEndpoints(svc: Service, endpoints: seq<Endpoint>)

  datatype EpIP = EpIP(ip: string, ep: Endpoint)

  // Ports

  function Override(overrides: seq<PortName>, name: string, default: int): int {
    if overrides == [] then default
    else if overrides[0].name == name then overrides[0].port
    else Override(overrides[1..], name, default)
  }

  /** Endpoint.PortMapping: the endpoint's own port for a service port, 0 if it has none. */
  function TargetPort(ep: Endpoint, p: PortMapping): int {
    if p.targetPortName != "" then Override(ep.overrides, p.name, p.targetPort) else p.targetPort
  }

  function SrcPorts(p: PortMapping): seq<int> {
    (if p.port != 0 then [p.port] else []) + (if p.nodePort != 0 then [p.nodePort] else [])
  }

  // Endpoints

  function EpIPs(endpoints: seq<Endpoint>): seq<EpIP> {
    if endpoints == [] then []
    else (if endpoints[0].ips == [] then [] else [EpIP(endpoints[0].ips[0], endpoints[0])]) + EpIPs(endpoints[1..])
  }

  /** The endpoints on which a port is available. */
  function Having(eps: seq<EpIP>, p: PortMapping): seq<EpIP> {
    if eps == [] then []
    else (if TargetPort(eps[0].ep, p) == 0 then [] else [eps[0]]) + Having(eps[1..], p)
  }

  // Rules

  function DnatRule(p: PortMapping, e: EpIP, node: bool): seq<Rule> {
    var src, target := if node then p.nodePort else p.port, TargetPort(e.ep, p);
    if src == 0 || target == 0 then []
    else [OnPort(node, p.protocol, src, Dnat(e.ip, if src != target then Some(target) else None))]
  }

  function DnatRules(ports: seq<PortMapping>, e: EpIP, node: bool): seq<Rule> {
    if ports == [] then [] else DnatRule(ports[0], e, node) + DnatRules(ports[1..], e, node)
  }

  function EpRules(svc: Service, e: EpIP): seq<Rule> {
    (if svc.affinity.ClientIP? then [Remember(SvcEp(svc.id, e.ip))] else [])
    + DnatRules(svc.ports, e, false) + DnatRules(svc.ports, e, true)
  }

  function RecentRule(svc: Service, e: EpIP): Rule {
    IfRecent(SvcEp(svc.id, e.ip), Jump(SvcEp(svc.id, e.ip)))
  }

  function RecentRules(svc: Service, eps: seq<EpIP>): seq<Rule> {
    if eps == [] || svc.affinity.NoAffinity? then [] else [RecentRule(svc, eps[0])] + RecentRules(svc, eps[1..])
  }

  function Vmap(svc: Service, eps: seq<EpIP>, hashBug: bool): Rule {
    Numgen(|eps|, seq(|eps|, i requires 0 <= i < |eps| => (NftKey(hashBug, i), SvcEp(svc.id, eps[i].ip))))
  }

  function VmapName(svc: Service, eps: seq<EpIP>, p: PortMapping): Chain {
    if |Having(eps, p)| == |eps| then SvcEps(svc.id) else SvcEpsPort(svc.id, p.name)
  }

  function PortAction(svc: Service, eps: seq<EpIP>, p: PortMapping): Action {
    if Having(eps, p) == [] then Reject else Jump(VmapName(svc, eps, p))
  }

  function PortRules(svc: Service, eps: seq<EpIP>, p: PortMapping, srcs: seq<int>): seq<Rule> {
    if srcs == [] then []
    else [OnPort(srcs[0] == p.nodePort, p.protocol, srcs[0], PortAction(svc, eps, p))] + PortRules(svc, eps, p, srcs[1..])
  }

  /** The rules of the service chain: served ports go to the dnat chain, the others to the filter chain. */
  function SvcRules(svc: Service, eps: seq<EpIP>, ports: seq<PortMapping>, served: bool): seq<Rule> {
    if ports == [] then []
    else
      (if (Having(eps, ports[0]) != []) == served then PortRules(svc, eps, ports[0], SrcPorts(ports[0])) else [])
      + SvcRules(svc, eps, ports[1..], served)
  }

  /** The addresses of a service in the dispatch maps; load-balancer addresses are not among them. */
  function SvcIPs(svc: Service): seq<string> {
    IPSets.InsertAll(IPSets.InsertAll([], svc.clusterIPs), svc.externalIPs)
  }

  // What the code assumes of its input

  ghost predicate DistinctIPs(eps: seq<EpIP>) {
    forall i, j :: 0 <= i < j < |eps| ==> eps[i].ip != eps[j].ip
  }

  // The chains of one service, in their final form

  ghost predicate ServiceChains(t: Table, svc: Service, eps: seq<EpIP>) {
    && SvcDnat(svc.id) in t && t[SvcDnat(svc.id)] == RecentRules(svc, eps) + SvcRules(svc, eps, svc.ports, true)
    && SvcFilter(svc.id) in t && t[SvcFilter(svc.id)] == SvcRules(svc, eps, svc.ports, false)
  }

  ghost predicate EpsInstalled(t: Table, svc: Service, eps: seq<EpIP>) {
    forall e :: e in eps ==> SvcEp(svc.id, e.ip) in t && t[SvcEp(svc.id, e.ip)] == EpRules(svc, e)
  }

  ghost predicate SharedVmap(t: Table, svc: Service, eps: seq<EpIP>, hashBug: bool) {
    eps != [] ==> SvcEps(svc.id) in t && t[SvcEps(svc.id)] == [Vmap(svc, eps, hashBug)]
  }

  predicate NeedsOwnVmap(eps: seq<EpIP>, p: PortMapping) {
    |Having(eps, p)| != |eps| && Having(eps, p) != []
  }

  ghost predicate OwnVmap(t: Table, svc: Service, eps: seq<EpIP>, p: PortMapping, hashBug: bool) {
    NeedsOwnVmap(eps, p) ==>
      SvcEpsPort(svc.id, p.name) in t && t[SvcEpsPort(svc.id, p.name)] == [Vmap(svc, Having(eps, p), hashBug)]
  }

  ghost predicate Installed(t: Table, svc: Service, eps: seq<EpIP>, hashBug: bool) {
    && ServiceChains(t, svc, eps) && EpsInstalled(t, svc, eps) && SharedVmap(t, svc, eps, hashBug)
    && forall p :: p in svc.ports ==> OwnVmap(t, svc, eps, p, hashBug)
  }

  /** The packet matches a source port of p: its port, or on local addresses its node port. */
  ghost predicate Hits(pkt: Packet, p: PortMapping, node: bool) {
    var src := if node then p.nodePort else p.port;
    src != 0 && pkt.protocol == p.protocol && pkt.dport == src && (node ==> pkt.local)
  }

  ghost predicate Asks(pkt: Packet, p: PortMapping) {
    Hits(pkt, p, false) || Hits(pkt, p, true)
  }

  /** The packet asks for exactly one port of the service. */
  ghost predicate Only(pkt: Packet, ports: seq<PortMapping>, i: nat) {
    i < |ports| && Asks(pkt, ports[i]) && forall j :: 0 <= j < |ports| && Asks(pkt, ports[j]) ==> j == i
  }

  /** The service chain has a rule for the packet: a port equal to its node port is
      only matched on local addresses. */
  predicate Reachable(pkt: Packet, p: PortMapping) {
    pkt.local || p.port != p.nodePort
  }

  // Meaning of the endpoint chain

  lemma {:induction false} DnatRulesMean(t: Table, k: Kernel, pkt: Packet, rank: nat, ports: seq<PortMapping>, e: EpIP, i: nat, node: bool)
    requires Only(pkt, ports, i)
    ensures Eval(t, k, pkt, rank, DnatRules(ports, e, node))
         == if Hits(pkt, ports[i], node) && TargetPort(e.ep, ports[i]) != 0 then DnatTo(e.ip, TargetPort(e.ep, ports[i])) else Continue
  {
    EvalConcat(t, k, pkt, rank, DnatRule(ports[0], e, node), DnatRules(ports[1..], e, node));
    if i == 0 {
      NoMatchNoDnat(t, k, pkt, rank, ports[1..], e, node);
    } else {
      assert !Asks(pkt, ports[0]);
      DnatRulesMean(t, k, pkt, rank, ports[1..], e, i - 1, node);
    }
  }

  lemma {:induction false} NoMatchNoDnat(t: Table, k: Kernel, pkt: Packet, rank: nat, ports: seq<PortMapping>, e: EpIP, node: bool)
    requires forall p :: p in ports ==> !Asks(pkt, p)
    ensures Eval(t, k, pkt, rank, DnatRules(ports, e, node)) == Continue
  {
    if ports != [] {
      EvalConcat(t, k, pkt, rank, DnatRule(ports[0], e, node), DnatRules(ports[1..], e, node));
      assert ports[0] in ports;
      NoMatchNoDnat(t, k, pkt, rank, ports[1..], e, node);
    }
  }

  /** The chain of an endpoint: to its own target port, or nothing if it lacks the port. */
  lemma EpChainMeans(t: Table, k: Kernel, pkt: Packet, rank: nat, svc: Service, e: EpIP, i: nat)
    requires Only(pkt, svc.ports, i)
    ensures Eval(t, k, pkt, rank, EpRules(svc, e))
         == if TargetPort(e.ep, svc.ports[i]) != 0 then DnatTo(e.ip, TargetPort(e.ep, svc.ports[i])) else Continue
  {
    var first := if svc.affinity.ClientIP? then [Remember(SvcEp(svc.id, e.ip))] else [];
    EvalConcat(t, k, pkt, rank, first + DnatRules(svc.ports, e, false), DnatRules(svc.ports, e, true));
    EvalConcat(t, k, pkt, rank, first, DnatRules(svc.ports, e, false));
    EvalSilent(t, k, pkt, rank, first);
    DnatRulesMean(t, k, pkt, rank, svc.ports, e, i, false);
    DnatRulesMean(t, k, pkt, rank, svc.ports, e, i, true);
  }

  // Meaning of the service chains

  /** The packet goes to an endpoint that has the port, at that endpoint's own port. */
  ghost predicate Served(v: Verdict, eps: seq<EpIP>, p: PortMapping) {
    exists e :: e in Having(eps, p) && v == DnatTo(e.ip, TargetPort(e.ep, p))
  }

  lemma {:induction false} HavingMembers(eps: seq<EpIP>, p: PortMapping)
    ensures forall e :: e in Having(eps, p) <==> e in eps && TargetPort(e.ep, p) != 0
    ensures |Having(eps, p)| <= |eps|
    ensures |Having(eps, p)| == |eps| ==> Having(eps, p) == eps
  {
    if eps != [] { HavingMembers(eps[1..], p); }
  }

  lemma {:induction false} HavingDistinct(eps: seq<EpIP>, p: PortMapping)
    requires DistinctIPs(eps)
    ensures DistinctIPs(Having(eps, p))
  {
    if eps != [] {
      HavingDistinct(eps[1..], p);
      HavingMembers(eps[1..], p);
      var rest := Having(eps[1..], p);
      forall j | 0 <= j < |rest| ensures rest[j].ip != eps[0].ip {
        assert rest[j] in rest && rest[j] in eps[1..];
      }
    }
  }

  function ToEp(e: EpIP, p: PortMapping): Verdict {
    DnatTo(e.ip, TargetPort(e.ep, p))
  }

  /** The endpoints whose recent set holds the client; none without affinity. */
  function Recents(k: Kernel, saddr: string, svc: Service, es: seq<EpIP>): seq<EpIP> {
    if es == [] || svc.affinity.NoAffinity? then []
    else (if (SvcEp(svc.id, es[0].ip), saddr) in k.recent then [es[0]] else []) + Recents(k, saddr, svc, es[1..])
  }

  ghost predicate Remembers(k: Kernel, saddr: string, svc: Service, e: EpIP) {
    svc.affinity.ClientIP? && (SvcEp(svc.id, e.ip), saddr) in k.recent
  }

  lemma {:induction false} RecentsMembers(k: Kernel, saddr: string, svc: Service, es: seq<EpIP>)
    ensures forall e :: e in Recents(k, saddr, svc, es) <==> e in es && Remembers(k, saddr, svc, e)
    ensures Recents(k, saddr, svc, es) == [] <==> forall e :: e in es ==> !Remembers(k, saddr, svc, e)
  {
    if es != [] && svc.affinity.ClientIP? {
      RecentsMembers(k, saddr, svc, es[1..]);
      assert Remembers(k, saddr, svc, es[0]) <==> es[0] in Recents(k, saddr, svc, [es[0]]);
    }
  }

  /** Looking only at the endpoints with the port, one endpoint further on. */
  lemma RecentsOfHaving(k: Kernel, saddr: string, svc: Service, eps: seq<EpIP>, p: PortMapping)
    requires eps != [] && svc.affinity.ClientIP?
    ensures Recents(k, saddr, svc, Having(eps, p))
         == (if TargetPort(eps[0].ep, p) != 0 && (SvcEp(svc.id, eps[0].ip), saddr) in k.recent then [eps[0]] else [])
            + Recents(k, saddr, svc, Having(eps[1..], p))
  {
    var rest := Having(eps[1..], p);
    if TargetPort(eps[0].ep, p) == 0 {
      assert Having(eps, p) == rest;
    } else {
      assert Having(eps, p)[1..] == rest;
    }
  }

  lemma RecentRuleMeans(t: Table, k: Kernel, pkt: Packet, svc: Service, e: EpIP, i: nat)
    requires Only(pkt, svc.ports, i) && EpsInstalled(t, svc, [e])
    ensures Eval(t, k, pkt, 3, [RecentRule(svc, e)])
         == if (SvcEp(svc.id, e.ip), pkt.saddr) in k.recent && TargetPort(e.ep, svc.ports[i]) != 0
            then ToEp(e, svc.ports[i]) else Continue
  {
    assert e in [e];
    EpChainMeans(t, k, pkt, 1, svc, e, i);
  }

  /** The affinity rules send the packet to the first endpoint that has the port and whose
      recent set holds the client, and let it pass if there is none. */
  lemma {:induction false} RecentRulesMean(t: Table, k: Kernel, pkt: Packet, svc: Service, eps: seq<EpIP>, i: nat)
    requires Only(pkt, svc.ports, i) && EpsInstalled(t, svc, eps)
    ensures var es := Recents(k, pkt.saddr, svc, Having(eps, svc.ports[i]));
            Eval(t, k, pkt, 3, RecentRules(svc, eps)) == if es == [] then Continue else ToEp(es[0], svc.ports[i])
  {
    if eps != [] && svc.affinity.ClientIP? {
      var p := svc.ports[i];
      assert eps[0] in eps;
      RecentRuleMeans(t, k, pkt, svc, eps[0], i);
      EvalConcat(t, k, pkt, 3, [RecentRule(svc, eps[0])], RecentRules(svc, eps[1..]));
      RecentRulesMean(t, k, pkt, svc, eps[1..], i);
      RecentsOfHaving(k, pkt.saddr, svc, eps, p);
    }
  }

  lemma VmapFinds(svc: Service, eps: seq<EpIP>, hashBug: bool, r: nat)
    requires r < |eps| && (hashBug ==> |eps| <= 0x1000000)
    ensures Lookup(Vmap(svc, eps, hashBug).targets, NftKey(hashBug, r)) == Some(Jump(SvcEp(svc.id, eps[r].ip)))
  {
    NftKeyInjective(hashBug, |eps|);
    LookupFinds(Vmap(svc, eps, hashBug).targets, r);
  }

  /** The vmap sends the packet to the endpoint of the number drawn. */
  lemma VmapMeans(t: Table, k: Kernel, pkt: Packet, svc: Service, eps: seq<EpIP>, i: nat)
    requires Only(pkt, svc.ports, i) && EpsInstalled(t, svc, eps)
    requires eps != [] && (k.hashBug ==> |eps| <= 0x1000000)
    requires forall e :: e in eps ==> TargetPort(e.ep, svc.ports[i]) != 0
    ensures var e := eps[k.draw % |eps|];
            Eval(t, k, pkt, 2, [Vmap(svc, eps, k.hashBug)]) == DnatTo(e.ip, TargetPort(e.ep, svc.ports[i]))
  {
    var r := k.draw % |eps|;
    VmapFinds(svc, eps, k.hashBug, r);
    EpChainMeans(t, k, pkt, 1, svc, eps[r], i);
    assert eps[r] in eps;
  }

  lemma {:induction false} PortRulesAre(svc: Service, eps: seq<EpIP>, p: PortMapping, srcs: seq<int>)
    ensures |PortRules(svc, eps, p, srcs)| == |srcs|
    ensures forall i :: 0 <= i < |srcs| ==>
              PortRules(svc, eps, p, srcs)[i] == OnPort(srcs[i] == p.nodePort, p.protocol, srcs[i], PortAction(svc, eps, p))
  {
    if srcs != [] { PortRulesAre(svc, eps, p, srcs[1..]); }
  }

  /** Evaluated alone, the rules of one port act on the packet or let it pass. */
  lemma PortRulesMean(t: Table, k: Kernel, pkt: Packet, svc: Service, eps: seq<EpIP>, p: PortMapping)
    requires Having(eps, p) != [] ==>
               var c := VmapName(svc, eps, p); c in t && Eval(t, k, pkt, 2, t[c]) != Continue
    ensures Eval(t, k, pkt, 3, PortRules(svc, eps, p, SrcPorts(p)))
         == if !(Asks(pkt, p) && Reachable(pkt, p)) then Continue
            else if Having(eps, p) == [] then Rejected
            else Eval(t, k, pkt, 2, t[VmapName(svc, eps, p)])
  {
    var rules := PortRules(svc, eps, p, SrcPorts(p));
    PortRulesAre(svc, eps, p, SrcPorts(p));
    if !(Asks(pkt, p) && Reachable(pkt, p)) {
      EvalSilent(t, k, pkt, 3, rules);
    } else if Fires(rules[0], k, pkt) == None {
      assert |rules| == 2;
      assert rules == [rules[0]] + [rules[1]];
      EvalConcat(t, k, pkt, 3, [rules[0]], [rules[1]]);
    } else {
      assert rules == [rules[0]] + rules[1..];
      EvalConcat(t, k, pkt, 3, [rules[0]], rules[1..]);
    }
  }

  lemma UnaskedPortPasses(t: Table, k: Kernel, pkt: Packet, svc: Service, eps: seq<EpIP>, p: PortMapping)
    requires !(Asks(pkt, p) && Reachable(pkt, p))
    ensures Eval(t, k, pkt, 3, PortRules(svc, eps, p, SrcPorts(p))) == Continue
  {
    PortRulesAre(svc, eps, p, SrcPorts(p));
    EvalSilent(t, k, pkt, 3, PortRules(svc, eps, p, SrcPorts(p)));
  }

  lemma {:induction false} OtherPortsPass(t: Table, k: Kernel, pkt: Packet, svc: Service, eps: seq<EpIP>, ports: seq<PortMapping>, served: bool)
    requires forall p :: p in ports ==> !(Asks(pkt, p) && Reachable(pkt, p)) || (Having(eps, p) != []) != served
    ensures Eval(t, k, pkt, 3, SvcRules(svc, eps, ports, served)) == Continue
  {
    if ports != [] {
      var p := ports[0];
      var head := if (Having(eps, p) != []) == served then PortRules(svc, eps, p, SrcPorts(p)) else [];
      EvalConcat(t, k, pkt, 3, head, SvcRules(svc, eps, ports[1..], served));
      if (Having(eps, p) != []) == served { UnaskedPortPasses(t, k, pkt, svc, eps, p); }
      OtherPortsPass(t, k, pkt, svc, eps, ports[1..], served);
    }
  }

  /** The rules of the one port asked decide. */
  lemma {:induction false} SvcRulesReach(t: Table, k: Kernel, pkt: Packet, svc: Service, eps: seq<EpIP>, ports: seq<PortMapping>, i: nat)
    requires Only(pkt, ports, i) && Reachable(pkt, ports[i])
    requires Having(eps, ports[i]) != [] ==>
               var c := VmapName(svc, eps, ports[i]); c in t && Eval(t, k, pkt, 2, t[c]) != Continue
    ensures Eval(t, k, pkt, 3, SvcRules(svc, eps, ports, Having(eps, ports[i]) != []))
         == if Having(eps, ports[i]) == [] then Rejected else Eval(t, k, pkt, 2, t[VmapName(svc, eps, ports[i])])
  {
    var served := Having(eps, ports[i]) != [];
    var head := if (Having(eps, ports[0]) != []) == served then PortRules(svc, eps, ports[0], SrcPorts(ports[0])) else [];
    EvalConcat(t, k, pkt, 3, head, SvcRules(svc, eps, ports[1..], served));
    if i > 0 {
      assert !Asks(pkt, ports[0]);
      UnaskedPortPasses(t, k, pkt, svc, eps, ports[0]);
      SvcRulesReach(t, k, pkt, svc, eps, ports[1..], i - 1);
    } else {
      PortRulesMean(t, k, pkt, svc, eps, ports[0]);
    }
  }

  /** The endpoint a number draws among those that have the port. */
  function Drawn(eps: seq<EpIP>, p: PortMapping, draw: nat): EpIP
    requires Having(eps, p) != []
  {
    Having(eps, p)[draw % |Having(eps, p)|]
  }

  /** The vmap chain of a served port: the drawn endpoint, at its own target port. */
  lemma ServedVmap(t: Table, k: Kernel, pkt: Packet, svc: Service, eps: seq<EpIP>, i: nat)
    requires Installed(t, svc, eps, k.hashBug) && Only(pkt, svc.ports, i)
    requires Having(eps, svc.ports[i]) != [] && (k.hashBug ==> |eps| <= 0x1000000)
    ensures var p := svc.ports[i]; var c := VmapName(svc, eps, p); var e := Drawn(eps, p, k.draw);
            c in t && Eval(t, k, pkt, 2, t[c]) == DnatTo(e.ip, TargetPort(e.ep, p))
  {
    var p := svc.ports[i];
    var subset := Having(eps, p);
    HavingMembers(eps, p);
    assert p in svc.ports && OwnVmap(t, svc, eps, p, k.hashBug);
    VmapMeans(t, k, pkt, svc, subset, i);
  }

  lemma ServedRules(t: Table, k: Kernel, pkt: Packet, svc: Service, eps: seq<EpIP>, i: nat)
    requires Installed(t, svc, eps, k.hashBug) && Only(pkt, svc.ports, i) && (k.hashBug ==> |eps| <= 0x1000000)
    requires Reachable(pkt, svc.ports[i])
    ensures Eval(t, k, pkt, 3, SvcRules(svc, eps, svc.ports, true))
         == if Having(eps, svc.ports[i]) == [] then Continue
            else DnatTo(Drawn(eps, svc.ports[i], k.draw).ip, TargetPort(Drawn(eps, svc.ports[i], k.draw).ep, svc.ports[i]))
  {
    if Having(eps, svc.ports[i]) != [] {
      ServedVmap(t, k, pkt, svc, eps, i);
      SvcRulesReach(t, k, pkt, svc, eps, svc.ports, i);
    } else {
      OtherPortsPass(t, k, pkt, svc, eps, svc.ports, true);
    }
  }

  /** What the nat path makes of a packet that asks for one port: to the first endpoint that
      has the port and remembers the client, else to the drawn one of those that have the port.
      It passes when no endpoint has the port, and when nobody remembers the client and the
      service chain has no rule for it. */
  function DnatOutcome(k: Kernel, pkt: Packet, svc: Service, eps: seq<EpIP>, p: PortMapping): Verdict {
    var es := Having(eps, p);
    var remembered := Recents(k, pkt.saddr, svc, es);
    if remembered != [] then ToEp(remembered[0], p)
    else if es == [] || !Reachable(pkt, p) then Continue
    else ToEp(Drawn(eps, p, k.draw), p)
  }

  lemma DnatChainMeans(t: Table, k: Kernel, pkt: Packet, svc: Service, eps: seq<EpIP>, i: nat)
    requires Installed(t, svc, eps, k.hashBug) && Only(pkt, svc.ports, i) && (k.hashBug ==> |eps| <= 0x1000000)
    ensures EvalChain(t, k, pkt, SvcDnat(svc.id)) == DnatOutcome(k, pkt, svc, eps, svc.ports[i])
  {
    EvalConcat(t, k, pkt, 3, RecentRules(svc, eps), SvcRules(svc, eps, svc.ports, true));
    RecentRulesMean(t, k, pkt, svc, eps, i);
    if Reachable(pkt, svc.ports[i]) {
      ServedRules(t, k, pkt, svc, eps, i);
    } else {
      OtherPortsPass(t, k, pkt, svc, eps, svc.ports, true);
    }
  }

  /** What the filter path makes of it. */
  function FilterOutcome(pkt: Packet, eps: seq<EpIP>, p: PortMapping): Verdict {
    if Having(eps, p) == [] && Reachable(pkt, p) then Rejected else Continue
  }

  /** The filter chain of a service rejects the port exactly when no endpoint has it. */
  lemma FilterChainMeans(t: Table, k: Kernel, pkt: Packet, svc: Service, eps: seq<EpIP>, i: nat)
    requires Installed(t, svc, eps, k.hashBug) && Only(pkt, svc.ports, i)
    ensures EvalChain(t, k, pkt, SvcFilter(svc.id)) == FilterOutcome(pkt, eps, svc.ports[i])
  {
    if Having(eps, svc.ports[i]) == [] && Reachable(pkt, svc.ports[i]) {
      SvcRulesReach(t, k, pkt, svc, eps, svc.ports, i);
    } else {
      OtherPortsPass(t, k, pkt, svc, eps, svc.ports, false);
    }
  }

  /** An outcome that translates goes to an endpoint that has the port, at its own port. */
  lemma OutcomeServes(k: Kernel, pkt: Packet, svc: Service, eps: seq<EpIP>, p: PortMapping)
    ensures var v := DnatOutcome(k, pkt, svc, eps, p); v == Continue || Served(v, eps, p)
  {
    var es := Having(eps, p);
    var remembered := Recents(k, pkt.saddr, svc, es);
    RecentsMembers(k, pkt.saddr, svc, es);
    if remembered != [] {
      assert remembered[0] in remembered;
      assert remembered[0] in es && DnatOutcome(k, pkt, svc, eps, p) == DnatTo(remembered[0].ip, TargetPort(remembered[0].ep, p));
    } else if es != [] {
      assert Drawn(eps, p, k.draw) in es;
    }
  }

  /** A packet that asks for no port of the service passes an endpoint chain. */
  lemma UnaskedEpChain(t: Table, k: Kernel, pkt: Packet, rank: nat, svc: Service, e: EpIP)
    requires forall p :: p in svc.ports ==> !Asks(pkt, p)
    ensures Eval(t, k, pkt, rank, EpRules(svc, e)) == Continue
  {
    var first := if svc.affinity.ClientIP? then [Remember(SvcEp(svc.id, e.ip))] else [];
    EvalConcat(t, k, pkt, rank, first + DnatRules(svc.ports, e, false), DnatRules(svc.ports, e, true));
    EvalConcat(t, k, pkt, rank, first, DnatRules(svc.ports, e, false));
    EvalSilent(t, k, pkt, rank, first);
    NoMatchNoDnat(t, k, pkt, rank, svc.ports, e, false);
    NoMatchNoDnat(t, k, pkt, rank, svc.ports, e, true);
  }

  lemma {:induction false} UnaskedRecentRules(t: Table, k: Kernel, pkt: Packet, svc: Service, eps: seq<EpIP>)
    requires EpsInstalled(t, svc, eps)
    requires svc.affinity.NoAffinity? || forall p :: p in svc.ports ==> !Asks(pkt, p)
    ensures Eval(t, k, pkt, 3, RecentRules(svc, eps)) == Continue
  {
    if eps != [] && svc.affinity.ClientIP? {
      assert eps[0] in eps;
      UnaskedEpChain(t, k, pkt, 1, svc, eps[0]);
      EvalConcat(t, k, pkt, 3, [RecentRule(svc, eps[0])], RecentRules(svc, eps[1..]));
      UnaskedRecentRules(t, k, pkt, svc, eps[1..]);
    }
  }

  /** A packet for which the service chain has no rule passes both chains. */
  lemma UnaskedChains(t: Table, k: Kernel, pkt: Packet, svc: Service, eps: seq<EpIP>, hashBug: bool)
    requires Installed(t, svc, eps, hashBug)
    requires forall p :: p in svc.ports ==> !(Asks(pkt, p) && Reachable(pkt, p))
    requires svc.affinity.NoAffinity? || forall p :: p in svc.ports ==> !Asks(pkt, p)
    ensures EvalChain(t, k, pkt, SvcDnat(svc.id)) == Continue && EvalChain(t, k, pkt, SvcFilter(svc.id)) == Continue
  {
    EvalConcat(t, k, pkt, 3, RecentRules(svc, eps), SvcRules(svc, eps, svc.ports, true));
    UnaskedRecentRules(t, k, pkt, svc, eps);
    OtherPortsPass(t, k, pkt, svc, eps, svc.ports, true);
    OtherPortsPass(t, k, pkt, svc, eps, svc.ports, false);
  }
}
