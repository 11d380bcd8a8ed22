/** The render context: the loops that append rules to chain buffers, each against the
    function that says what the table holds afterwards. */
module NftRender {
  import opened Options
  import opened NftRules
  import opened NftCompiler
  import opened NftTables
  import Scans

  /** Endpoint.PortMapping. */
  method FindTargetPort(ep: Endpoint, port: PortMapping) returns (target: int)
    ensures target == TargetPort(ep, port)
  {
    target := port.targetPort;
    if port.targetPortName != "" {
      var i := 0;
      while i < |ep.overrides|
        invariant 0 <= i <= |ep.overrides|
        invariant Override(ep.overrides[i..], port.name, port.targetPort) == TargetPort(ep, port)
      {
        assert ep.overrides[i..][1..] == ep.overrides[i + 1..];
        if ep.overrides[i].name == port.name { return ep.overrides[i].port; }
        i := i + 1;
      }
    }
  }

  method CollectEpIPs(endpoints: seq<Endpoint>) returns (eps: seq<EpIP>)
    ensures eps == EpIPs(endpoints)
  {
    eps := [];
    var i := 0;
    while i < |endpoints|
      invariant 0 <= i <= |endpoints| && eps + EpIPs(endpoints[i..]) == EpIPs(endpoints)
    {
      assert endpoints[i..][1..] == endpoints[i + 1..];
      var found: seq<EpIP> := if endpoints[i].ips == [] then [] else [EpIP(endpoints[i].ips[0], endpoints[i])];
      Scans.Regroup(eps, found, EpIPs(endpoints[i + 1..]));
      eps := eps + found;
      i := i + 1;
    }
  }

  /** The endpoints on which a port is available, as addSvcChain collects them. */
  method Subset(eps: seq<EpIP>, port: PortMapping) returns (subset: seq<EpIP>)
    ensures subset == Having(eps, port)
  {
    subset := [];
    var i := 0;
    while i < |eps|
      invariant 0 <= i <= |eps| && subset + Having(eps[i..], port) == Having(eps, port)
    {
      assert eps[i..][1..] == eps[i + 1..];
      var target := FindTargetPort(eps[i].ep, port);
      var found: seq<EpIP> := if target == 0 then [] else [eps[i]];
      Scans.Regroup(subset, found, Having(eps[i + 1..], port));
      subset := subset + found;
      i := i + 1;
    }
  }

  method WriteDnatRule(p: PortMapping, e: EpIP, node: bool) returns (rules: seq<Rule>)
    ensures rules == DnatRule(p, e, node)
  {
    var src := if node then p.nodePort else p.port;
    if src == 0 { return []; }
    var target := FindTargetPort(e.ep, p);
    if target == 0 { return []; }
    rules := [OnPort(node, p.protocol, src, Dnat(e.ip, if src != target then Some(target) else None))];
  }

  method WriteDnatRules(ports: seq<PortMapping>, e: EpIP, node: bool) returns (rules: seq<Rule>)
    ensures rules == DnatRules(ports, e, node)
  {
    rules := [];
    var i := 0;
    while i < |ports|
      invariant 0 <= i <= |ports| && rules + DnatRules(ports[i..], e, node) == DnatRules(ports, e, node)
    {
      ghost var was, rest := rules, DnatRules(ports[i + 1..], e, node);
      assert ports[i..][1..] == ports[i + 1..];
      var rule := WriteDnatRule(ports[i], e, node);
      Scans.Regroup(was, rule, rest);
      rules := rules + rule;
      i := i + 1;
    }
  }

  class RenderContext {
    var chains: Table
    const hashBug: bool

    constructor (hashBug: bool)
      ensures chains == map[] && this.hashBug == hashBug
    {
      chains := map[];
      this.hashBug := hashBug;
    }

    /** Get a chain buffer and write to it. */
    method Write(c: Chain, rules: seq<Rule>)
      modifies this
      ensures chains == Append(old(chains), c, rules)
    {
      chains := chains[c := (if c in chains then chains[c] else []) + rules];
    }

    method WriteEndpointChain(svc: Service, e: EpIP)
      modifies this
      ensures chains == AddEndpointChain(old(chains), svc, e)
    {
      var c := SvcEp(svc.id, e.ip);
      match svc.affinity {
        case NoAffinity => Write(c, []);
        case ClientIP(_) =>
          Write(c, [Remember(c)]);
          Write(SvcDnat(svc.id), [IfRecent(c, Jump(c))]);
      }
      var rules := WriteDnatRules(svc.ports, e, false);
      Write(c, rules);
      rules := WriteDnatRules(svc.ports, e, true);
      Write(c, rules);
    }

    method WriteVmap(c: Chain, svc: Service, eps: seq<EpIP>)
      requires eps != []
      modifies this
      ensures chains == Append(old(chains), c, [Vmap(svc, eps, hashBug)])
    {
      var targets: seq<(nat, Chain)> := [];
      for i := 0 to |eps|
        invariant |targets| == i && forall j :: 0 <= j < i ==> targets[j] == (NftKey(hashBug, j), SvcEp(svc.id, eps[j].ip))
        invariant chains == old(chains)
      {
        targets := targets + [(NftKey(hashBug, i), SvcEp(svc.id, eps[i].ip))];
      }
      assert targets == Vmap(svc, eps, hashBug).targets;
      Write(c, [Numgen(|eps|, targets)]);
    }

    method WritePort(svc: Service, eps: seq<EpIP>, port: PortMapping)
      modifies this
      ensures chains == AddPort(old(chains), svc, eps, port, hashBug)
    {
      var subset := Subset(eps, port);
      var served := subset != [];
      if |subset| != |eps| && |subset| != 0 {
        WriteVmap(SvcEpsPort(svc.id, port.name), svc, subset);
      }
      var action := if !served then Reject else Jump(if |subset| == |eps| then SvcEps(svc.id) else SvcEpsPort(svc.id, port.name));
      assert action == PortAction(svc, eps, port);
      var srcs := SrcPorts(port);
      ghost var start := chains;
      var i := 0;
      while i < |srcs|
        invariant 0 <= i <= |srcs|
        invariant AddSrcPorts(chains, svc, eps, port, srcs[i..]) == AddSrcPorts(start, svc, eps, port, srcs)
      {
        assert srcs[i..][1..] == srcs[i + 1..];
        if srcs[i] == port.nodePort {
          Write(NodePortsDnat, []);
          Write(NodePorts(served), [OnPort(false, port.protocol, port.nodePort, Jump(PortChain(svc, served)))]);
        }
        Write(PortChain(svc, served), [OnPort(srcs[i] == port.nodePort, port.protocol, srcs[i], action)]);
        i := i + 1;
      }
    }

    method WriteSvcChain(svc: Service, eps: seq<EpIP>)
      modifies this
      ensures chains == AddSvcChain(old(chains), svc, eps, hashBug)
    {
      WriteAllEndpoints(svc, eps);
      WritePorts(svc, eps);
    }

    /** The chains of the service and the default map with all endpoints. */
    method WriteAllEndpoints(svc: Service, eps: seq<EpIP>)
      modifies this
      ensures chains == BeforePorts(old(chains), svc, eps, hashBug)
    {
      Write(SvcDnat(svc.id), []);
      Write(SvcFilter(svc.id), []);
      if |eps| != 0 { WriteVmap(SvcEps(svc.id), svc, eps); }
    }

    method WritePorts(svc: Service, eps: seq<EpIP>)
      modifies this
      ensures chains == AddPorts(old(chains), svc, eps, svc.ports, hashBug)
    {
      var i := 0;
      while i < |svc.ports|
        invariant 0 <= i <= |svc.ports|
        invariant AddPorts(chains, svc, eps, svc.ports[i..], hashBug) == AddPorts(old(chains), svc, eps, svc.ports, hashBug)
      {
        assert svc.ports[i..][1..] == svc.ports[i + 1..];
        WritePort(svc, eps, svc.ports[i]);
        i := i + 1;
      }
    }

    method WriteEndpointChains(svc: Service, eps: seq<EpIP>)
      modifies this
      ensures chains == AddEndpointChains(old(chains), svc, eps)
    {
      var i := 0;
      while i < |eps|
        invariant 0 <= i <= |eps|
        invariant AddEndpointChains(chains, svc, eps[i..]) == AddEndpointChains(old(chains), svc, eps)
      {
        assert eps[i..][1..] == eps[i + 1..];
        WriteEndpointChain(svc, eps[i]);
        i := i + 1;
      }
    }

    /** The vmap of one dispatch chain. */
    method WriteDispatch(dispatch: Chain, target: Chain, ips: seq<string>)
      modifies this
      ensures chains == AddDispatch(old(chains), dispatch, target, ips)
    {
      if |ips| == 0 || target !in chains || |chains[target]| == 0 { return; }
      var owners := if dispatch in chains && |chains[dispatch]| == 1 && chains[dispatch][0].ByDaddr? then chains[dispatch][0].owners else [];
      ghost var start := owners;
      var i := 0;
      while i < |ips|
        invariant 0 <= i <= |ips| && owners + Entries(ips[i..], target) == start + Entries(ips, target)
        invariant chains == old(chains)
      {
        assert ips[i..][1..] == ips[i + 1..];
        assert owners + ([(ips[i], target)] + Entries(ips[i + 1..], target)) == owners + [(ips[i], target)] + Entries(ips[i + 1..], target);
        owners := owners + [(ips[i], target)];
        i := i + 1;
      }
      assert ips[i..] == [] && owners == start + Entries(ips, target);
      assert start == Owners(chains, dispatch);
      chains := chains[dispatch := [ByDaddr(owners)]];
    }

    method AddServiceEndpoints(se: ServiceEndpoints)
      modifies this
      ensures chains == AddService(old(chains), se, hashBug)
    {
      var eps := CollectEpIPs(se.endpoints);
      Write(SvcDnat(se.svc.id), []);
      WriteEndpointChains(se.svc, eps);
      WriteSvcChain(se.svc, eps);
      var ips := SvcIPs(se.svc);
      WriteDispatch(DispatchDnat, SvcDnat(se.svc.id), ips);
      WriteDispatch(DispatchFilter, SvcFilter(se.svc.id), ips);
    }

    /** Callback: every service in turn, then the entry chains. */
    method Render(ses: seq<ServiceEndpoints>)
      requires chains == map[]
      modifies this
      ensures chains == Compile(ses, hashBug)
    {
      for i := 0 to |ses|
        invariant chains == AddServices(ses[..i], hashBug)
      {
        AddServiceEndpoints(ses[i]);
        assert ses[..i + 1][..i] == ses[..i];
      }
      assert ses[..|ses|] == ses;
      AddDispatchChains();
    }

    method AddDispatchChains()
      modifies this
      ensures chains == Finalize(old(chains))
    {
      var dnat: seq<Rule> := [];
      if DispatchDnat in chains { dnat := dnat + [Always(Jump(DispatchDnat))]; }
      if NodePortsDnat in chains { dnat := dnat + [IfLocal(Jump(NodePortsDnat))]; }
      var filter := [IfInvalid(Drop)];
      if DispatchFilter in chains { filter := filter + [Always(Jump(DispatchFilter))]; }
      if NodePortsFilter in chains { filter := filter + [IfLocal(Jump(NodePortsFilter))]; }
      assert dnat == Finalize(chains)[DnatAll] && filter == Finalize(chains)[FilterAll];
      chains := chains[DnatAll := dnat][FilterAll := filter];
    }
  }
}
