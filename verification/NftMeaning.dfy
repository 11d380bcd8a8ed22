/** Compilation preserves meaning: what a packet meets in the compiled table is what
    the services and their endpoints say. */
module NftMeaning {
  import opened Options
  import opened NftRules
  import opened NftCompiler
  import opened NftTables

  function Dispatch(served: bool): Chain {
    if served then DispatchDnat else DispatchFilter
  }

  // The dispatch maps

  lemma {:induction false} EntriesMembers(ips: seq<string>, c: Chain)
    ensures forall x :: x in Entries(ips, c) <==> x.1 == c && x.0 in ips
  {
    if ips != [] { EntriesMembers(ips[1..], c); }
  }

  ghost predicate DispatchShape(t: Table, served: bool) {
    var d := Dispatch(served);
    d in t ==> t[d] == [ByDaddr(Owners(t, d))] && Owners(t, d) != []
  }

  /** One service contributes its addresses if its chain has rules. */
  lemma DispatchStep(t: Table, se: ServiceEndpoints, hashBug: bool, served: bool)
    requires DispatchShape(t, served)
    ensures var t' := AddService(t, se, hashBug); var c := PortChain(se.svc, served);
            && DispatchShape(t', served)
            && Owners(t', Dispatch(served)) == Owners(t, Dispatch(served)) + (if At(t', c) == [] then [] else Entries(SvcIPs(se.svc), c))
  {
    var svc, eps := se.svc, EpIPs(se.endpoints);
    var t0 := Append(t, SvcDnat(svc.id), []);
    var t1 := AddEndpointChains(t0, svc, eps);
    var t2 := AddSvcChain(t1, svc, eps, hashBug);
    EndpointChainsFrame(t0, svc, eps, Dispatch(served));
    SvcChainFrame(t1, svc, eps, hashBug, Dispatch(served));
    DispatchKeepsOwned(t2, svc);
    assert SameChain(t2, AddDispatches(t2, svc), PortChain(svc, served));
    DispatchesStep(t2, svc, served);
  }

  lemma DispatchesStep(t: Table, svc: Service, served: bool)
    requires DispatchShape(t, served)
    ensures var t' := AddDispatches(t, svc); var c := PortChain(svc, served);
            && DispatchShape(t', served)
            && Owners(t', Dispatch(served)) == Owners(t, Dispatch(served)) + (if At(t, c) == [] then [] else Entries(SvcIPs(svc), c))
  {
  }

  ghost predicate Entry(t: Table, ses: seq<ServiceEndpoints>, served: bool, x: (string, Chain)) {
    exists j :: 0 <= j < |ses| && x.0 in SvcIPs(ses[j].svc) && x.1 == PortChain(ses[j].svc, served) && At(t, x.1) != []
  }

  /** The dispatch map lists exactly the addresses of the services whose chain has rules. */
  ghost predicate OwnersOk(t: Table, ses: seq<ServiceEndpoints>, served: bool) {
    && DispatchShape(t, served)
    && forall x :: x in Owners(t, Dispatch(served)) <==> Entry(t, ses, served, x)
  }

  lemma {:induction false} AllOwnersOk(ses: seq<ServiceEndpoints>, hashBug: bool, served: bool)
    requires DistinctServices(ses)
    ensures OwnersOk(AddServices(ses, hashBug), ses, served)
  {
    if ses != [] {
      var n := |ses| - 1;
      AllOwnersOk(ses[..n], hashBug, served);
      OwnersStep(AddServices(ses[..n], hashBug), ses, hashBug, served);
    }
  }

  lemma OwnersStep(t: Table, ses: seq<ServiceEndpoints>, hashBug: bool, served: bool)
    requires ses != [] && DistinctServices(ses) && OwnersOk(t, ses[..|ses| - 1], served)
    ensures OwnersOk(AddService(t, ses[|ses| - 1], hashBug), ses, served)
  {
    var n := |ses| - 1;
    var t' := AddService(t, ses[n], hashBug);
    DispatchStep(t, ses[n], hashBug, served);
    EntriesMembers(SvcIPs(ses[n].svc), PortChain(ses[n].svc, served));
    forall x ensures Entry(t', ses, served, x) <==>
                     Entry(t, ses[..n], served, x)
                     || (x.1 == PortChain(ses[n].svc, served) && x.0 in SvcIPs(ses[n].svc) && At(t', x.1) != [])
    {
      EntryStep(t, ses, hashBug, served, x);
    }
  }

  lemma EarlierChainsStay(t: Table, ses: seq<ServiceEndpoints>, hashBug: bool, served: bool)
    requires ses != [] && DistinctServices(ses)
    ensures forall j :: 0 <= j < |ses| - 1 ==>
              At(AddService(t, ses[|ses| - 1], hashBug), PortChain(ses[j].svc, served)) == At(t, PortChain(ses[j].svc, served))
  {
    var n := |ses| - 1;
    forall j | 0 <= j < n
      ensures At(AddService(t, ses[n], hashBug), PortChain(ses[j].svc, served)) == At(t, PortChain(ses[j].svc, served))
    {
      ServiceFrame(t, ses[n], hashBug, PortChain(ses[j].svc, served));
    }
  }

  lemma EntryStep(t: Table, ses: seq<ServiceEndpoints>, hashBug: bool, served: bool, x: (string, Chain))
    requires ses != [] && DistinctServices(ses)
    ensures var n := |ses| - 1; var t' := AddService(t, ses[n], hashBug);
            Entry(t', ses, served, x) <==>
              Entry(t, ses[..n], served, x)
              || (x.1 == PortChain(ses[n].svc, served) && x.0 in SvcIPs(ses[n].svc) && At(t', x.1) != [])
  {
    EarlierChainsStay(t, ses, hashBug, served);
    EntrySplits(t, AddService(t, ses[|ses| - 1], hashBug), ses, served, x);
  }

  lemma EntrySplits(t: Table, t': Table, ses: seq<ServiceEndpoints>, served: bool, x: (string, Chain))
    requires ses != []
    requires forall j :: 0 <= j < |ses| - 1 ==> At(t', PortChain(ses[j].svc, served)) == At(t, PortChain(ses[j].svc, served))
    ensures var n := |ses| - 1;
            Entry(t', ses, served, x) <==>
              Entry(t, ses[..n], served, x)
              || (x.1 == PortChain(ses[n].svc, served) && x.0 in SvcIPs(ses[n].svc) && At(t', x.1) != [])
  {
    var n := |ses| - 1;
    if Entry(t', ses, served, x) {
      var j :| 0 <= j < |ses| && x.0 in SvcIPs(ses[j].svc) && x.1 == PortChain(ses[j].svc, served) && At(t', x.1) != [];
      if j < n { assert ses[..n][j] == ses[j]; }
    }
    if Entry(t, ses[..n], served, x) {
      var j :| 0 <= j < n && x.0 in SvcIPs(ses[..n][j].svc) && x.1 == PortChain(ses[..n][j].svc, served) && At(t, x.1) != [];
      assert ses[..n][j] == ses[j];
    }
  }

  /** The address belongs to this service and to no other. */
  ghost predicate OwnedOnly(ses: seq<ServiceEndpoints>, i: nat, ip: string) {
    i < |ses| && forall j :: 0 <= j < |ses| ==> (ip in SvcIPs(ses[j].svc) <==> j == i)
  }

  lemma LookupOwner(t: Table, ses: seq<ServiceEndpoints>, served: bool, i: nat, ip: string)
    requires OwnersOk(t, ses, served) && OwnedOnly(ses, i, ip)
    ensures var c := PortChain(ses[i].svc, served);
            Lookup(Owners(t, Dispatch(served)), ip) == if At(t, c) == [] then None else Some(Jump(c))
  {
    var c, owners := PortChain(ses[i].svc, served), Owners(t, Dispatch(served));
    forall m | 0 <= m < |owners| && owners[m].0 == ip ensures owners[m].1 == c && At(t, c) != [] {
      assert owners[m] in owners && Entry(t, ses, served, owners[m]);
    }
    if At(t, c) == [] {
      LookupMisses(owners, ip);
    } else {
      assert Entry(t, ses, served, (ip, c));
      var m :| 0 <= m < |owners| && owners[m] == (ip, c);
      LookupFinds(owners, m);
    }
  }

  lemma LookupStranger(t: Table, ses: seq<ServiceEndpoints>, served: bool, ip: string)
    requires OwnersOk(t, ses, served) && forall se :: se in ses ==> ip !in SvcIPs(se.svc)
    ensures Lookup(Owners(t, Dispatch(served)), ip) == None
  {
    var owners := Owners(t, Dispatch(served));
    forall m | 0 <= m < |owners| ensures owners[m].0 != ip {
      assert owners[m] in owners && Entry(t, ses, served, owners[m]);
    }
    LookupMisses(owners, ip);
  }

  // The node port chains

  function SvcNodeRules(se: ServiceEndpoints, served: bool): seq<Rule> {
    AllNodeRules(se.svc, EpIPs(se.endpoints), se.svc.ports, served)
  }

  function NodeRulesOf(ses: seq<ServiceEndpoints>, served: bool): seq<Rule> {
    if ses == [] then [] else NodeRulesOf(ses[..|ses| - 1], served) + SvcNodeRules(ses[|ses| - 1], served)
  }

  lemma NodeStep(t: Table, se: ServiceEndpoints, hashBug: bool, served: bool)
    ensures Grows(t, AddService(t, se, hashBug), NodePorts(served), SvcNodeRules(se, served))
  {
    var svc, eps := se.svc, EpIPs(se.endpoints);
    var t0 := Append(t, SvcDnat(svc.id), []);
    var t1 := AddEndpointChains(t0, svc, eps);
    EndpointChainsFrame(t0, svc, eps, NodePorts(served));
    assert At(BeforePorts(t1, svc, eps, hashBug), NodePorts(served)) == At(t, NodePorts(served));
    PortsMean(BeforePorts(t1, svc, eps, hashBug), svc, eps, svc.ports, hashBug, served);
    DispatchKeepsOwned(AddSvcChain(t1, svc, eps, hashBug), svc);
    assert SameChain(AddSvcChain(t1, svc, eps, hashBug), AddService(t, se, hashBug), NodePorts(served));
  }

  lemma {:induction false} NodeContents(ses: seq<ServiceEndpoints>, hashBug: bool, served: bool)
    ensures At(AddServices(ses, hashBug), NodePorts(served)) == NodeRulesOf(ses, served)
  {
    if ses != [] {
      var n := |ses| - 1;
      NodeContents(ses[..n], hashBug, served);
      NodeStep(AddServices(ses[..n], hashBug), ses[n], hashBug, served);
    }
  }

  /** A node port rule of the service for this packet. */
  ghost predicate HitsNode(pkt: Packet, p: PortMapping) {
    p.nodePort != 0 && pkt.protocol == p.protocol && pkt.dport == p.nodePort
  }

  lemma {:induction false} NodeRulesAre(svc: Service, p: PortMapping, srcs: seq<int>, served: bool)
    ensures forall r :: r in NodeRules(svc, p, srcs, served) <==> r == NodePortRule(svc, p, served) && p.nodePort in srcs
  {
    if srcs != [] { NodeRulesAre(svc, p, srcs[1..], served); }
  }

  lemma {:induction false} AllNodeRulesAre(svc: Service, eps: seq<EpIP>, ports: seq<PortMapping>, served: bool)
    ensures forall r :: r in AllNodeRules(svc, eps, ports, served) <==>
              exists p :: p in ports && p.nodePort != 0 && (Having(eps, p) != []) == served && r == NodePortRule(svc, p, served)
  {
    if ports != [] {
      var p := ports[0];
      AllNodeRulesAre(svc, eps, ports[1..], served);
      NodeRulesAre(svc, p, SrcPorts(p), served);
      assert forall q :: q in ports <==> q == p || q in ports[1..];
      assert p.nodePort in SrcPorts(p) <==> p.nodePort != 0;
    }
  }

  /** Rules that all jump to one chain or stay silent, at least one of which fires. */
  lemma {:induction false} EvalOneTarget(t: Table, k: Kernel, pkt: Packet, rank: nat, rules: seq<Rule>, c: Chain)
    requires c in t && Rank(c) < rank
    requires forall r :: r in rules ==> Fires(r, k, pkt) == None || Fires(r, k, pkt) == Some(Jump(c))
    ensures Eval(t, k, pkt, rank, rules)
         == if (exists r :: r in rules && Fires(r, k, pkt) != None) then Eval(t, k, pkt, Rank(c), t[c]) else Continue
  {
    if rules != [] {
      EvalOneTarget(t, k, pkt, rank, rules[1..], c);
      assert forall r :: r in rules <==> r == rules[0] || r in rules[1..];
    }
  }

  lemma NodeRuleSplits(ses: seq<ServiceEndpoints>, served: bool, r: Rule)
    requires ses != []
    ensures (r in NodeRulesOf(ses, served) <==>
             r in NodeRulesOf(ses[..|ses| - 1], served) || r in SvcNodeRules(ses[|ses| - 1], served))
  {
    InEither(NodeRulesOf(ses[..|ses| - 1], served), SvcNodeRules(ses[|ses| - 1], served), r);
  }

  lemma {:induction false} NodeRuleIn(ses: seq<ServiceEndpoints>, served: bool, j: nat, r: Rule)
    requires j < |ses| && r in SvcNodeRules(ses[j], served)
    ensures r in NodeRulesOf(ses, served)
  {
    NodeRuleSplits(ses, served, r);
    if j < |ses| - 1 { NodeRuleIn(ses[..|ses| - 1], served, j, r); }
  }

  lemma InEither(a: seq<Rule>, b: seq<Rule>, r: Rule)
    ensures r in a + b <==> r in a || r in b
  {
  }

  lemma {:induction false} NodeRuleFrom(ses: seq<ServiceEndpoints>, served: bool, r: Rule) returns (j: nat)
    requires r in NodeRulesOf(ses, served)
    ensures j < |ses| && r in SvcNodeRules(ses[j], served)
  {
    NodeRuleSplits(ses, served, r);
    j := |ses| - 1;
    if r !in SvcNodeRules(ses[j], served) { j := NodeRuleFrom(ses[..j], served, r); }
  }

  /** No other service has a port with this node port. */
  ghost predicate NodeOwnedOnly(ses: seq<ServiceEndpoints>, i: nat, pkt: Packet) {
    i < |ses| && forall j, p :: 0 <= j < |ses| && p in ses[j].svc.ports && HitsNode(pkt, p) ==> j == i
  }

  lemma NodeRuleFires(ses: seq<ServiceEndpoints>, served: bool, i: nat, k: Kernel, pkt: Packet, r: Rule)
    requires NodeOwnedOnly(ses, i, pkt) && r in NodeRulesOf(ses, served) && Fires(r, k, pkt) != None
    ensures Fires(r, k, pkt) == Some(Jump(PortChain(ses[i].svc, served))) && NodeServed(ses[i], served, pkt)
  {
    var j := NodeRuleFrom(ses, served, r);
    var eps := EpIPs(ses[j].endpoints);
    AllNodeRulesAre(ses[j].svc, eps, ses[j].svc.ports, served);
    var p :| p in ses[j].svc.ports && p.nodePort != 0 && (Having(eps, p) != []) == served && r == NodePortRule(ses[j].svc, p, served);
    assert HitsNode(pkt, p);
  }

  /** Some port of the service has this node port, and is served or not as asked. */
  ghost predicate NodeServed(se: ServiceEndpoints, served: bool, pkt: Packet) {
    exists p :: p in se.svc.ports && HitsNode(pkt, p) && (Having(EpIPs(se.endpoints), p) != []) == served
  }

  lemma NodeRuleExists(ses: seq<ServiceEndpoints>, served: bool, i: nat, k: Kernel, pkt: Packet)
    requires i < |ses| && NodeServed(ses[i], served, pkt)
    ensures exists r :: r in NodeRulesOf(ses, served) && Fires(r, k, pkt) != None
  {
    var se := ses[i];
    var p :| p in se.svc.ports && HitsNode(pkt, p) && (Having(EpIPs(se.endpoints), p) != []) == served;
    var r := NodePortRule(se.svc, p, served);
    AllNodeRulesAre(se.svc, EpIPs(se.endpoints), se.svc.ports, served);
    assert r in SvcNodeRules(ses[i], served);
    NodeRuleIn(ses, served, i, r);
    assert Fires(r, k, pkt) != None;
  }

  lemma NodeChainMeans(t: Table, k: Kernel, pkt: Packet, ses: seq<ServiceEndpoints>, served: bool, i: nat)
    requires NodeOwnedOnly(ses, i, pkt) && PortChain(ses[i].svc, served) in t
    ensures Eval(t, k, pkt, 4, NodeRulesOf(ses, served))
         == if NodeServed(ses[i], served, pkt) then EvalChain(t, k, pkt, PortChain(ses[i].svc, served)) else Continue
  {
    var rules, c := NodeRulesOf(ses, served), PortChain(ses[i].svc, served);
    forall r | r in rules && Fires(r, k, pkt) != None
      ensures Fires(r, k, pkt) == Some(Jump(c)) && NodeServed(ses[i], served, pkt)
    {
      NodeRuleFires(ses, served, i, k, pkt, r);
    }
    if NodeServed(ses[i], served, pkt) { NodeRuleExists(ses, served, i, k, pkt); }
    EvalOneTarget(t, k, pkt, 4, rules, c);
  }

  // The entry chains

  function EntryChain(served: bool): Chain {
    if served then DnatAll else FilterAll
  }

  /** What a packet meets behind a jump from an entry chain; an absent chain is not jumped to. */
  ghost function Via(t: Table, k: Kernel, pkt: Packet, c: Chain): Verdict {
    if c in t then Eval(t, k, pkt, 4, t[c]) else Continue
  }

  lemma EntryMeans(t: Table, k: Kernel, pkt: Packet, served: bool)
    requires !pkt.invalid && DnatAll !in t && FilterAll !in t
    ensures EvalChain(Finalize(t), k, pkt, EntryChain(served))
         == (var v := Via(Finalize(t), k, pkt, Dispatch(served));
             if v == Continue && pkt.local then Via(Finalize(t), k, pkt, NodePorts(served)) else v)
  {
    var T := Finalize(t);
    var first := if served then [] else [IfInvalid(Drop)];
    var d := if Dispatch(served) in t then [Always(Jump(Dispatch(served)))] else [];
    var n := if NodePorts(served) in t then [IfLocal(Jump(NodePorts(served)))] else [];
    assert T[EntryChain(served)] == first + d + n;
    EvalConcat(T, k, pkt, 5, first + d, n);
    EvalConcat(T, k, pkt, 5, first, d);
    EvalSilent(T, k, pkt, 5, first);
  }

  lemma {:induction false} NoEntryChains(ses: seq<ServiceEndpoints>, hashBug: bool)
    ensures DnatAll !in AddServices(ses, hashBug) && FilterAll !in AddServices(ses, hashBug)
  {
    if ses != [] {
      var n := |ses| - 1;
      NoEntryChains(ses[..n], hashBug);
      ServiceFrame(AddServices(ses[..n], hashBug), ses[n], hashBug, DnatAll);
      ServiceFrame(AddServices(ses[..n], hashBug), ses[n], hashBug, FilterAll);
    }
  }

  /** Everything the final table needs to hold for one service. */
  ghost predicate Rendered(t: Table, ses: seq<ServiceEndpoints>, hashBug: bool, i: nat)
    requires i < |ses|
  {
    && Installed(t, ses[i].svc, EpIPs(ses[i].endpoints), hashBug)
    && (forall served :: OwnersOk(t, ses, served) && At(t, NodePorts(served)) == NodeRulesOf(ses, served))
    && DnatAll !in t && FilterAll !in t
  }

  lemma AllRendered(ses: seq<ServiceEndpoints>, hashBug: bool, i: nat)
    requires DistinctServices(ses) && i < |ses| && WellFormed(ses[i])
    ensures Rendered(AddServices(ses, hashBug), ses, hashBug, i)
  {
    AllInstalled(ses, hashBug, i);
    NoEntryChains(ses, hashBug);
    forall served ensures OwnersOk(AddServices(ses, hashBug), ses, served)
                       && At(AddServices(ses, hashBug), NodePorts(served)) == NodeRulesOf(ses, served)
    {
      AllOwnersOk(ses, hashBug, served);
      NodeContents(ses, hashBug, served);
    }
  }

  lemma FinalizeKeeps(t: Table, c: Chain)
    requires c != DnatAll && c != FilterAll
    ensures SameChain(t, Finalize(t), c)
  {
  }

  lemma StillInstalled(t: Table, svc: Service, eps: seq<EpIP>, hashBug: bool)
    requires Installed(t, svc, eps, hashBug)
    ensures Installed(Finalize(t), svc, eps, hashBug)
  {
    forall c | OwnedBy(c, svc.id) ensures SameChain(t, Finalize(t), c) { FinalizeKeeps(t, c); }
    InstalledFrame(t, Finalize(t), svc, eps, hashBug);
  }

  lemma DaddrMapMeans(t: Table, k: Kernel, pkt: Packet, owners: seq<(string, Chain)>)
    ensures Eval(t, k, pkt, 4, [ByDaddr(owners)])
         == match Lookup(owners, pkt.daddr)
            case None => Continue
            case Some(a) => Eval(t, k, pkt, 4, [Always(a)])
  {
    assert [ByDaddr(owners)][1..] == [];
  }

  lemma JumpMeans(t: Table, k: Kernel, pkt: Packet, c: Chain)
    requires c in t && Rank(c) < 4
    ensures Eval(t, k, pkt, 4, [Always(Jump(c))]) == EvalChain(t, k, pkt, c)
  {
    assert [Always(Jump(c))][1..] == [];
  }

  /** A packet to an address of one service runs through that service's chain. */
  lemma DispatchMeans(t: Table, ses: seq<ServiceEndpoints>, hashBug: bool, i: nat, k: Kernel, pkt: Packet, served: bool)
    requires OwnedOnly(ses, i, pkt.daddr) && Rendered(t, ses, hashBug, i)
    ensures Via(Finalize(t), k, pkt, Dispatch(served)) == EvalChain(Finalize(t), k, pkt, PortChain(ses[i].svc, served))
  {
    var T, c := Finalize(t), PortChain(ses[i].svc, served);
    FinalizeKeeps(t, c);
    FinalizeKeeps(t, Dispatch(served));
    LookupOwner(t, ses, served, i, pkt.daddr);
    DaddrMapMeans(T, k, pkt, Owners(t, Dispatch(served)));
    JumpMeans(T, k, pkt, c);
  }

  /** A packet to no service address passes the dispatch maps. */
  lemma DispatchPasses(t: Table, ses: seq<ServiceEndpoints>, k: Kernel, pkt: Packet, served: bool)
    requires OwnersOk(t, ses, served) && forall se :: se in ses ==> pkt.daddr !in SvcIPs(se.svc)
    ensures Via(Finalize(t), k, pkt, Dispatch(served)) == Continue
  {
    FinalizeKeeps(t, Dispatch(served));
    LookupStranger(t, ses, served, pkt.daddr);
    DaddrMapMeans(Finalize(t), k, pkt, Owners(t, Dispatch(served)));
  }

  // The theorems

  ghost predicate DistinctPorts(ports: seq<PortMapping>) {
    forall i, j :: 0 <= i < j < |ports| && ports[i].port != 0 && ports[i].port == ports[j].port ==> ports[i].protocol != ports[j].protocol
  }

  /** A valid packet to a service address that is not an address of this node. */
  ghost predicate ToService(pkt: Packet, p: PortMapping) {
    !pkt.local && !pkt.invalid && p.port != 0 && pkt.protocol == p.protocol && pkt.dport == p.port
  }

  lemma OnePortAsked(pkt: Packet, ports: seq<PortMapping>, j: nat)
    requires DistinctPorts(ports) && j < |ports| && ToService(pkt, ports[j])
    ensures Only(pkt, ports, j)
  {
    forall m | 0 <= m < |ports| && Asks(pkt, ports[m]) ensures m == j {
      assert ports[m].port == ports[j].port && ports[m].protocol == ports[j].protocol;
    }
  }

  /** For every draw and every content of the recent sets, a packet to a service address and
      port goes to the first endpoint that has the port and remembers the client, else to the
      drawn one of those that have the port, at the endpoint's own target port; if no endpoint
      has the port the nat path leaves it alone and the filter path rejects it. A port that
      equals its own node port is only translated for clients that are remembered. */
  lemma ServicePacket(ses: seq<ServiceEndpoints>, i: nat, j: nat, k: Kernel, pkt: Packet)
    requires DistinctServices(ses) && OwnedOnly(ses, i, pkt.daddr) && WellFormed(ses[i])
    requires j < |ses[i].svc.ports| && DistinctPorts(ses[i].svc.ports) && ToService(pkt, ses[i].svc.ports[j])
    requires k.hashBug ==> |EpIPs(ses[i].endpoints)| <= 0x1000000
    ensures var T := Compile(ses, k.hashBug); var svc, eps, p := ses[i].svc, EpIPs(ses[i].endpoints), ses[i].svc.ports[j];
            && EvalChain(T, k, pkt, DnatAll) == DnatOutcome(k, pkt, svc, eps, p)
            && (DnatOutcome(k, pkt, svc, eps, p) == Continue || Served(DnatOutcome(k, pkt, svc, eps, p), eps, p))
            && EvalChain(T, k, pkt, FilterAll) == FilterOutcome(pkt, eps, p)
  {
    AllRendered(ses, k.hashBug, i);
    OnePortAsked(pkt, ses[i].svc.ports, j);
    RenderedServicePacket(AddServices(ses, k.hashBug), ses, i, j, k, pkt);
    OutcomeServes(k, pkt, ses[i].svc, EpIPs(ses[i].endpoints), ses[i].svc.ports[j]);
  }

  lemma RenderedServicePacket(t: Table, ses: seq<ServiceEndpoints>, i: nat, j: nat, k: Kernel, pkt: Packet)
    requires OwnedOnly(ses, i, pkt.daddr) && Rendered(t, ses, k.hashBug, i) && !pkt.local && !pkt.invalid
    requires Only(pkt, ses[i].svc.ports, j)
    requires k.hashBug ==> |EpIPs(ses[i].endpoints)| <= 0x1000000
    ensures var T := Finalize(t); var svc, eps, p := ses[i].svc, EpIPs(ses[i].endpoints), ses[i].svc.ports[j];
            && EvalChain(T, k, pkt, DnatAll) == DnatOutcome(k, pkt, svc, eps, p)
            && EvalChain(T, k, pkt, FilterAll) == FilterOutcome(pkt, eps, p)
  {
    var svc, eps := ses[i].svc, EpIPs(ses[i].endpoints);
    StillInstalled(t, svc, eps, k.hashBug);
    EntryMeans(t, k, pkt, true);
    EntryMeans(t, k, pkt, false);
    DispatchMeans(t, ses, k.hashBug, i, k, pkt, true);
    DispatchMeans(t, ses, k.hashBug, i, k, pkt, false);
    DnatChainMeans(Finalize(t), k, pkt, svc, eps, j);
    FilterChainMeans(Finalize(t), k, pkt, svc, eps, j);
  }

  /** A packet to a service address and port is translated exactly when some endpoint has the
      port and either the port differs from its own node port or one of those remembers the client. */
  lemma TranslatedExactly(ses: seq<ServiceEndpoints>, i: nat, j: nat, k: Kernel, pkt: Packet)
    requires DistinctServices(ses) && OwnedOnly(ses, i, pkt.daddr) && WellFormed(ses[i])
    requires j < |ses[i].svc.ports| && DistinctPorts(ses[i].svc.ports) && ToService(pkt, ses[i].svc.ports[j])
    requires k.hashBug ==> |EpIPs(ses[i].endpoints)| <= 0x1000000
    ensures var svc, p := ses[i].svc, ses[i].svc.ports[j]; var es := Having(EpIPs(ses[i].endpoints), p);
            EvalChain(Compile(ses, k.hashBug), k, pkt, DnatAll).DnatTo?
            <==> es != [] && (p.port != p.nodePort || exists e :: e in es && Remembers(k, pkt.saddr, svc, e))
  {
    var svc, p := ses[i].svc, ses[i].svc.ports[j];
    var es := Having(EpIPs(ses[i].endpoints), p);
    ServicePacket(ses, i, j, k, pkt);
    RecentsMembers(k, pkt.saddr, svc, es);
  }

  /** Client IP affinity: whatever is drawn, a client that one endpoint with the port remembers
      goes to that endpoint. */
  lemma RememberedClient(ses: seq<ServiceEndpoints>, i: nat, j: nat, k: Kernel, pkt: Packet, e: EpIP)
    requires DistinctServices(ses) && OwnedOnly(ses, i, pkt.daddr) && WellFormed(ses[i])
    requires j < |ses[i].svc.ports| && DistinctPorts(ses[i].svc.ports) && ToService(pkt, ses[i].svc.ports[j])
    requires k.hashBug ==> |EpIPs(ses[i].endpoints)| <= 0x1000000
    requires var es := Having(EpIPs(ses[i].endpoints), ses[i].svc.ports[j]);
             && e in es && Remembers(k, pkt.saddr, ses[i].svc, e)
             && forall o :: o in es && Remembers(k, pkt.saddr, ses[i].svc, o) ==> o == e
    ensures EvalChain(Compile(ses, k.hashBug), k, pkt, DnatAll) == ToEp(e, ses[i].svc.ports[j])
  {
    var svc, p := ses[i].svc, ses[i].svc.ports[j];
    var es := Having(EpIPs(ses[i].endpoints), p);
    ServicePacket(ses, i, j, k, pkt);
    RecentsMembers(k, pkt.saddr, svc, es);
    var remembered := Recents(k, pkt.saddr, svc, es);
    assert e in remembered;
    assert remembered[0] in remembered;
    assert Remembers(k, pkt.saddr, svc, remembered[0]);
  }

  /** This draw sends the packet to the endpoint and no other draw does. */
  ghost predicate ReachedOnlyBy(ses: seq<ServiceEndpoints>, k: Kernel, pkt: Packet, v: Verdict, n: nat, r: nat) {
    && r < n && EvalChain(Compile(ses, k.hashBug), k.(draw := r), pkt, DnatAll) == v
    && forall q: nat :: q < n && EvalChain(Compile(ses, k.hashBug), k.(draw := q), pkt, DnatAll) == v ==> q == r
  }

  lemma DrawnAt(eps: seq<EpIP>, p: PortMapping, r: nat)
    requires r < |Having(eps, p)|
    ensures Drawn(eps, p, r) == Having(eps, p)[r]
  {
    SmallModulus(r, |Having(eps, p)|);
  }

  lemma SmallModulus(q: nat, n: nat)
    requires q < n
    ensures q % n == q
  {
  }

  /** A client that nobody remembers goes where the draw says. */
  lemma NewClient(ses: seq<ServiceEndpoints>, i: nat, j: nat, k: Kernel, pkt: Packet)
    requires DistinctServices(ses) && OwnedOnly(ses, i, pkt.daddr) && WellFormed(ses[i])
    requires j < |ses[i].svc.ports| && DistinctPorts(ses[i].svc.ports) && ToService(pkt, ses[i].svc.ports[j])
    requires ses[i].svc.ports[j].port != ses[i].svc.ports[j].nodePort
    requires k.hashBug ==> |EpIPs(ses[i].endpoints)| <= 0x1000000
    requires var es := Having(EpIPs(ses[i].endpoints), ses[i].svc.ports[j]);
             k.draw < |es| && forall o :: o in es ==> !Remembers(k, pkt.saddr, ses[i].svc, o)
    ensures var es := Having(EpIPs(ses[i].endpoints), ses[i].svc.ports[j]);
            EvalChain(Compile(ses, k.hashBug), k, pkt, DnatAll) == ToEp(es[k.draw], ses[i].svc.ports[j])
  {
    var svc, eps, p := ses[i].svc, EpIPs(ses[i].endpoints), ses[i].svc.ports[j];
    var es := Having(eps, p);
    ServicePacket(ses, i, j, k, pkt);
    RecentsMembers(k, pkt.saddr, svc, es);
    DrawnAt(eps, p, k.draw);
  }

  /** For a client that nobody remembers, always so without affinity, exactly one draw sends
      the packet to a given endpoint that has the port. */
  lemma OneDrawPerEndpoint(ses: seq<ServiceEndpoints>, i: nat, j: nat, k: Kernel, pkt: Packet, e: EpIP)
    requires DistinctServices(ses) && OwnedOnly(ses, i, pkt.daddr) && WellFormed(ses[i])
    requires j < |ses[i].svc.ports| && DistinctPorts(ses[i].svc.ports) && ToService(pkt, ses[i].svc.ports[j])
    requires ses[i].svc.ports[j].port != ses[i].svc.ports[j].nodePort
    requires k.hashBug ==> |EpIPs(ses[i].endpoints)| <= 0x1000000
    requires var es := Having(EpIPs(ses[i].endpoints), ses[i].svc.ports[j]);
             e in es && forall o :: o in es ==> !Remembers(k, pkt.saddr, ses[i].svc, o)
    ensures exists r: nat ::
              ReachedOnlyBy(ses, k, pkt, ToEp(e, ses[i].svc.ports[j]), |Having(EpIPs(ses[i].endpoints), ses[i].svc.ports[j])|, r)
  {
    var svc, eps, p := ses[i].svc, EpIPs(ses[i].endpoints), ses[i].svc.ports[j];
    var es, v := Having(eps, p), ToEp(e, p);
    HavingDistinct(eps, p);
    var r: nat :| r < |es| && es[r] == e;
    NewClient(ses, i, j, k.(draw := r), pkt);
    forall q: nat | q < |es| && EvalChain(Compile(ses, k.hashBug), k.(draw := q), pkt, DnatAll) == v ensures q == r {
      NewClient(ses, i, j, k.(draw := q), pkt);
    }
    assert ReachedOnlyBy(ses, k, pkt, v, |es|, r);
  }

  /** A local packet to a node port of one service fares the same, by way of the node port chains. */
  lemma NodePortPacket(ses: seq<ServiceEndpoints>, i: nat, j: nat, k: Kernel, pkt: Packet)
    requires DistinctServices(ses) && i < |ses| && WellFormed(ses[i])
    requires forall se :: se in ses ==> pkt.daddr !in SvcIPs(se.svc)
    requires pkt.local && !pkt.invalid && NodeOwnedOnly(ses, i, pkt)
    requires Only(pkt, ses[i].svc.ports, j) && HitsNode(pkt, ses[i].svc.ports[j])
    requires k.hashBug ==> |EpIPs(ses[i].endpoints)| <= 0x1000000
    ensures var T := Compile(ses, k.hashBug); var svc, eps, p := ses[i].svc, EpIPs(ses[i].endpoints), ses[i].svc.ports[j];
            && EvalChain(T, k, pkt, DnatAll) == DnatOutcome(k, pkt, svc, eps, p)
            && EvalChain(T, k, pkt, FilterAll) == if Having(eps, p) == [] then Rejected else Continue
  {
    AllRendered(ses, k.hashBug, i);
    RenderedNodePacket(AddServices(ses, k.hashBug), ses, i, j, k, pkt);
  }

  /** The node port chain leads to the service chain exactly when the port is there. */
  lemma ViaNodePorts(t: Table, ses: seq<ServiceEndpoints>, i: nat, j: nat, k: Kernel, pkt: Packet, served: bool)
    requires i < |ses| && Rendered(t, ses, k.hashBug, i) && pkt.local && NodeOwnedOnly(ses, i, pkt)
    requires Only(pkt, ses[i].svc.ports, j) && HitsNode(pkt, ses[i].svc.ports[j])
    ensures Via(Finalize(t), k, pkt, NodePorts(served))
         == if (Having(EpIPs(ses[i].endpoints), ses[i].svc.ports[j]) != []) == served
            then EvalChain(Finalize(t), k, pkt, PortChain(ses[i].svc, served)) else Continue
  {
    var ports := ses[i].svc.ports;
    FinalizeKeeps(t, NodePorts(served));
    FinalizeKeeps(t, PortChain(ses[i].svc, served));
    NodeChainMeans(Finalize(t), k, pkt, ses, served, i);
    assert ports[j] in ports;
    forall p | p in ports && HitsNode(pkt, p) ensures p == ports[j] {
      var m :| 0 <= m < |ports| && ports[m] == p;
      assert Asks(pkt, ports[m]);
    }
    if NodePorts(served) !in t { assert NodeRulesOf(ses, served) == []; }
  }

  lemma RenderedNodePacket(t: Table, ses: seq<ServiceEndpoints>, i: nat, j: nat, k: Kernel, pkt: Packet)
    requires i < |ses| && Rendered(t, ses, k.hashBug, i)
    requires forall se :: se in ses ==> pkt.daddr !in SvcIPs(se.svc)
    requires pkt.local && !pkt.invalid && NodeOwnedOnly(ses, i, pkt)
    requires Only(pkt, ses[i].svc.ports, j) && HitsNode(pkt, ses[i].svc.ports[j])
    requires k.hashBug ==> |EpIPs(ses[i].endpoints)| <= 0x1000000
    ensures var T := Finalize(t); var svc, eps, p := ses[i].svc, EpIPs(ses[i].endpoints), ses[i].svc.ports[j];
            && EvalChain(T, k, pkt, DnatAll) == DnatOutcome(k, pkt, svc, eps, p)
            && EvalChain(T, k, pkt, FilterAll) == if Having(eps, p) == [] then Rejected else Continue
  {
    var svc, eps := ses[i].svc, EpIPs(ses[i].endpoints);
    StillInstalled(t, svc, eps, k.hashBug);
    EntryMeans(t, k, pkt, true);
    EntryMeans(t, k, pkt, false);
    DispatchPasses(t, ses, k, pkt, true);
    DispatchPasses(t, ses, k, pkt, false);
    ViaNodePorts(t, ses, i, j, k, pkt, true);
    ViaNodePorts(t, ses, i, j, k, pkt, false);
    DnatChainMeans(Finalize(t), k, pkt, svc, eps, j);
    FilterChainMeans(Finalize(t), k, pkt, svc, eps, j);
  }

  /** A packet to a service address for which the service has no usable port passes both
      paths; in particular one to a port that equals its own node port, without affinity. */
  lemma UnaskedPacket(ses: seq<ServiceEndpoints>, i: nat, k: Kernel, pkt: Packet)
    requires DistinctServices(ses) && OwnedOnly(ses, i, pkt.daddr) && WellFormed(ses[i]) && !pkt.local && !pkt.invalid
    requires forall p :: p in ses[i].svc.ports ==> !(Asks(pkt, p) && p.port != p.nodePort)
    requires ses[i].svc.affinity.NoAffinity? || forall p :: p in ses[i].svc.ports ==> !Asks(pkt, p)
    ensures EvalChain(Compile(ses, k.hashBug), k, pkt, DnatAll) == Continue
    ensures EvalChain(Compile(ses, k.hashBug), k, pkt, FilterAll) == Continue
  {
    AllRendered(ses, k.hashBug, i);
    RenderedUnasked(AddServices(ses, k.hashBug), ses, i, k, pkt);
  }

  lemma RenderedUnasked(t: Table, ses: seq<ServiceEndpoints>, i: nat, k: Kernel, pkt: Packet)
    requires OwnedOnly(ses, i, pkt.daddr) && Rendered(t, ses, k.hashBug, i) && !pkt.local && !pkt.invalid
    requires forall p :: p in ses[i].svc.ports ==> !(Asks(pkt, p) && Reachable(pkt, p))
    requires ses[i].svc.affinity.NoAffinity? || forall p :: p in ses[i].svc.ports ==> !Asks(pkt, p)
    ensures EvalChain(Finalize(t), k, pkt, DnatAll) == Continue && EvalChain(Finalize(t), k, pkt, FilterAll) == Continue
  {
    var svc, eps := ses[i].svc, EpIPs(ses[i].endpoints);
    StillInstalled(t, svc, eps, k.hashBug);
    EntryMeans(t, k, pkt, true);
    EntryMeans(t, k, pkt, false);
    DispatchMeans(t, ses, k.hashBug, i, k, pkt, true);
    DispatchMeans(t, ses, k.hashBug, i, k, pkt, false);
    UnaskedChains(Finalize(t), k, pkt, svc, eps, k.hashBug);
  }
}
