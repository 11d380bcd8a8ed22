/** Client IP affinity over time: packets update the recent sets that later packets meet. */
module NftAffinity {
  import opened Options
  import opened NftRules
  import opened NftCompiler
  import opened NftTables
  import opened NftMeaning

  // What one packet records

  /** The packet records nothing but what is recorded already and, with affinity, its client in the set of the
      endpoint it is sent to. */
  ghost predicate RecordOk(k: Kernel, pkt: Packet, svc: Service, v: Verdict, recorded: set<(Chain, string)>) {
    && recorded <= k.recent + (if v.DnatTo? then {(SvcEp(svc.id, v.ip), pkt.saddr)} else {})
    && (svc.affinity.ClientIP? && v.DnatTo? ==> (SvcEp(svc.id, v.ip), pkt.saddr) in recorded)
    && (svc.affinity.NoAffinity? ==> recorded == {})
  }

  ghost predicate RulesOk(t: Table, k: Kernel, pkt: Packet, rank: nat, rules: seq<Rule>, svc: Service) {
    RecordOk(k, pkt, svc, Eval(t, k, pkt, rank, rules), Recorded(t, k, pkt, rank, rules))
  }

  /** The rule only jumps, and only to chains of which that holds, or rejects or drops. */
  ghost predicate JumpOk(t: Table, k: Kernel, pkt: Packet, rank: nat, r: Rule, svc: Service) {
    && !r.Remember?
    && match Fires(r, k, pkt)
       case Some(Jump(c)) => c in t && Rank(c) < rank && RulesOk(t, k, pkt, Rank(c), t[c], svc)
       case Some(Dnat(_, _)) => false
       case _ => true
  }

  lemma {:induction false} RulesRecord(t: Table, k: Kernel, pkt: Packet, rank: nat, rules: seq<Rule>, svc: Service)
    requires forall r :: r in rules ==> JumpOk(t, k, pkt, rank, r, svc)
    ensures RulesOk(t, k, pkt, rank, rules, svc)
  {
    if rules != [] {
      assert JumpOk(t, k, pkt, rank, rules[0], svc);
      RulesRecord(t, k, pkt, rank, rules[1..], svc);
    }
  }

  lemma {:induction false} DnatRulesRecord(t: Table, k: Kernel, pkt: Packet, rank: nat, rules: seq<Rule>)
    requires forall r :: r in rules ==> r.OnPort? && r.action.Dnat?
    ensures Recorded(t, k, pkt, rank, rules) == {}
  {
    if rules != [] {
      assert rules[0] in rules;
      DnatRulesRecord(t, k, pkt, rank, rules[1..]);
    }
  }

  lemma {:induction false} DnatRulesAre(ports: seq<PortMapping>, e: EpIP, node: bool)
    ensures forall r :: r in DnatRules(ports, e, node) ==> r.OnPort? && r.action.Dnat?
  {
    if ports != [] { DnatRulesAre(ports[1..], e, node); }
  }

  /** An endpoint's chain records the client in the endpoint's own set. */
  lemma EpChainRecords(t: Table, k: Kernel, pkt: Packet, rank: nat, svc: Service, e: EpIP)
    ensures Recorded(t, k, pkt, rank, EpRules(svc, e))
         == if svc.affinity.ClientIP? then {(SvcEp(svc.id, e.ip), pkt.saddr)} else {}
  {
    var dnat := DnatRules(svc.ports, e, false) + DnatRules(svc.ports, e, true);
    DnatRulesAre(svc.ports, e, false);
    DnatRulesAre(svc.ports, e, true);
    DnatRulesRecord(t, k, pkt, rank, dnat);
    if svc.affinity.ClientIP? {
      assert EpRules(svc, e) == [Remember(SvcEp(svc.id, e.ip))] + dnat;
      assert EpRules(svc, e)[1..] == dnat;
    } else {
      assert EpRules(svc, e) == dnat;
    }
  }

  /** Entered by a client it remembers, or for a port it has, the chain of an endpoint records as it should. */
  lemma EpChainOk(t: Table, k: Kernel, pkt: Packet, svc: Service, e: EpIP, i: nat)
    requires Only(pkt, svc.ports, i)
    requires TargetPort(e.ep, svc.ports[i]) != 0 || Remembers(k, pkt.saddr, svc, e)
    ensures RulesOk(t, k, pkt, 1, EpRules(svc, e), svc)
  {
    EpChainMeans(t, k, pkt, 1, svc, e, i);
    EpChainRecords(t, k, pkt, 1, svc, e);
  }

  lemma {:induction false} RecentRulesOk(t: Table, k: Kernel, pkt: Packet, svc: Service, eps: seq<EpIP>, i: nat)
    requires Only(pkt, svc.ports, i) && EpsInstalled(t, svc, eps)
    ensures forall r :: r in RecentRules(svc, eps) ==> JumpOk(t, k, pkt, 3, r, svc)
  {
    if eps != [] && svc.affinity.ClientIP? {
      var e := eps[0];
      assert e in eps;
      RecentRulesOk(t, k, pkt, svc, eps[1..], i);
      if Remembers(k, pkt.saddr, svc, e) { EpChainOk(t, k, pkt, svc, e, i); }
      assert JumpOk(t, k, pkt, 3, RecentRule(svc, e), svc);
    }
  }

  /** A map of endpoints that have the port. */
  lemma VmapOk(t: Table, k: Kernel, pkt: Packet, svc: Service, eps: seq<EpIP>, i: nat)
    requires Only(pkt, svc.ports, i) && EpsInstalled(t, svc, eps) && eps != [] && (k.hashBug ==> |eps| <= 0x1000000)
    requires forall e :: e in eps ==> TargetPort(e.ep, svc.ports[i]) != 0
    ensures RulesOk(t, k, pkt, 2, [Vmap(svc, eps, k.hashBug)], svc)
  {
    var r := k.draw % |eps|;
    VmapFinds(svc, eps, k.hashBug, r);
    assert eps[r] in eps;
    EpChainOk(t, k, pkt, svc, eps[r], i);
    RulesRecord(t, k, pkt, 2, [Vmap(svc, eps, k.hashBug)], svc);
  }

  lemma ServedVmapOk(t: Table, k: Kernel, pkt: Packet, svc: Service, eps: seq<EpIP>, i: nat)
    requires Installed(t, svc, eps, k.hashBug) && Only(pkt, svc.ports, i)
    requires Having(eps, svc.ports[i]) != [] && (k.hashBug ==> |eps| <= 0x1000000)
    ensures var c := VmapName(svc, eps, svc.ports[i]); c in t && RulesOk(t, k, pkt, 2, t[c], svc)
  {
    var p := svc.ports[i];
    HavingMembers(eps, p);
    assert p in svc.ports && OwnVmap(t, svc, eps, p, k.hashBug);
    VmapOk(t, k, pkt, svc, Having(eps, p), i);
  }

  /** A rule of the service chain that fires is one of the port asked. */
  lemma {:induction false} SvcRuleFires(svc: Service, eps: seq<EpIP>, ports: seq<PortMapping>, served: bool, k: Kernel, pkt: Packet, r: Rule)
    requires r in SvcRules(svc, eps, ports, served)
    ensures r.OnPort? && (r.action.Jump? || r.action.Reject?)
    ensures Fires(r, k, pkt) != None ==> exists p :: p in ports && Asks(pkt, p) && r.action == PortAction(svc, eps, p)
  {
    var p := ports[0];
    PortRulesAre(svc, eps, p, SrcPorts(p));
    if r in SvcRules(svc, eps, ports[1..], served) {
      SvcRuleFires(svc, eps, ports[1..], served, k, pkt, r);
    } else {
      var rules := PortRules(svc, eps, p, SrcPorts(p));
      var m :| 0 <= m < |rules| && rules[m] == r;
      assert r == OnPort(SrcPorts(p)[m] == p.nodePort, p.protocol, SrcPorts(p)[m], PortAction(svc, eps, p));
      if Fires(r, k, pkt) != None { assert p in ports && Asks(pkt, p); }
    }
  }

  lemma SvcRuleOk(t: Table, k: Kernel, pkt: Packet, svc: Service, eps: seq<EpIP>, i: nat, r: Rule)
    requires Only(pkt, svc.ports, i) && r in SvcRules(svc, eps, svc.ports, true)
    requires Having(eps, svc.ports[i]) != [] ==>
               var c := VmapName(svc, eps, svc.ports[i]); c in t && RulesOk(t, k, pkt, 2, t[c], svc)
    ensures JumpOk(t, k, pkt, 3, r, svc)
  {
    SvcRuleFires(svc, eps, svc.ports, true, k, pkt, r);
    if Fires(r, k, pkt) != None {
      var p :| p in svc.ports && Asks(pkt, p) && r.action == PortAction(svc, eps, p);
      var m :| 0 <= m < |svc.ports| && svc.ports[m] == p;
      assert m == i;
    }
  }

  lemma SvcRulesOk(t: Table, k: Kernel, pkt: Packet, svc: Service, eps: seq<EpIP>, i: nat)
    requires Installed(t, svc, eps, k.hashBug) && Only(pkt, svc.ports, i) && (k.hashBug ==> |eps| <= 0x1000000)
    ensures forall r :: r in SvcRules(svc, eps, svc.ports, true) ==> JumpOk(t, k, pkt, 3, r, svc)
  {
    if Having(eps, svc.ports[i]) != [] { ServedVmapOk(t, k, pkt, svc, eps, i); }
    forall r | r in SvcRules(svc, eps, svc.ports, true) ensures JumpOk(t, k, pkt, 3, r, svc) {
      SvcRuleOk(t, k, pkt, svc, eps, i, r);
    }
  }

  lemma DnatChainOk(t: Table, k: Kernel, pkt: Packet, svc: Service, eps: seq<EpIP>, i: nat)
    requires Installed(t, svc, eps, k.hashBug) && Only(pkt, svc.ports, i) && (k.hashBug ==> |eps| <= 0x1000000)
    ensures SvcDnat(svc.id) in t && RulesOk(t, k, pkt, 3, t[SvcDnat(svc.id)], svc)
  {
    RecentRulesOk(t, k, pkt, svc, eps, i);
    SvcRulesOk(t, k, pkt, svc, eps, i);
    RulesRecord(t, k, pkt, 3, t[SvcDnat(svc.id)], svc);
  }

  lemma DaddrMapOk(t: Table, k: Kernel, pkt: Packet, owners: seq<(string, Chain)>, svc: Service)
    requires SvcDnat(svc.id) in t && RulesOk(t, k, pkt, 3, t[SvcDnat(svc.id)], svc)
    requires Lookup(owners, pkt.daddr) == None || Lookup(owners, pkt.daddr) == Some(Jump(SvcDnat(svc.id)))
    ensures RulesOk(t, k, pkt, 4, [ByDaddr(owners)], svc)
  {
    var r := ByDaddr(owners);
    assert JumpOk(t, k, pkt, 4, r, svc);
    RulesRecord(t, k, pkt, 4, [r], svc);
  }

  lemma DispatchOk(t: Table, ses: seq<ServiceEndpoints>, i: nat, k: Kernel, pkt: Packet)
    requires OwnedOnly(ses, i, pkt.daddr) && OwnersOk(t, ses, true) && DispatchDnat in t
    requires SvcDnat(ses[i].svc.id) in Finalize(t)
    requires RulesOk(Finalize(t), k, pkt, 3, Finalize(t)[SvcDnat(ses[i].svc.id)], ses[i].svc)
    ensures DispatchDnat in Finalize(t) && RulesOk(Finalize(t), k, pkt, 4, Finalize(t)[DispatchDnat], ses[i].svc)
  {
    LookupOwner(t, ses, true, i, pkt.daddr);
    FinalizeKeeps(t, DispatchDnat);
    DaddrMapOk(Finalize(t), k, pkt, Owners(t, DispatchDnat), ses[i].svc);
  }

  /** Away from the node's own addresses the entry chain only leads to the dispatch map. */
  lemma EntryRulesOk(t: Table, k: Kernel, pkt: Packet, svc: Service)
    requires !pkt.local
    requires DispatchDnat in t ==> DispatchDnat in Finalize(t) && RulesOk(Finalize(t), k, pkt, 4, Finalize(t)[DispatchDnat], svc)
    ensures RulesOk(Finalize(t), k, pkt, 5, Finalize(t)[DnatAll], svc)
  {
    var rules := Finalize(t)[DnatAll];
    forall r | r in rules ensures JumpOk(Finalize(t), k, pkt, 5, r, svc) {
      assert r == IfLocal(Jump(NodePortsDnat)) || (r == Always(Jump(DispatchDnat)) && DispatchDnat in t);
    }
    RulesRecord(Finalize(t), k, pkt, 5, rules, svc);
  }

  lemma EntryOk(t: Table, ses: seq<ServiceEndpoints>, i: nat, j: nat, k: Kernel, pkt: Packet)
    requires OwnedOnly(ses, i, pkt.daddr) && Installed(t, ses[i].svc, EpIPs(ses[i].endpoints), k.hashBug) && OwnersOk(t, ses, true)
    requires !pkt.local && Only(pkt, ses[i].svc.ports, j) && (k.hashBug ==> |EpIPs(ses[i].endpoints)| <= 0x1000000)
    ensures RulesOk(Finalize(t), k, pkt, 5, Finalize(t)[DnatAll], ses[i].svc)
  {
    var svc, eps := ses[i].svc, EpIPs(ses[i].endpoints);
    StillInstalled(t, svc, eps, k.hashBug);
    DnatChainOk(Finalize(t), k, pkt, svc, eps, j);
    if DispatchDnat in t { DispatchOk(t, ses, i, k, pkt); }
    EntryRulesOk(t, k, pkt, svc);
  }

  function RecordedChain(t: Table, k: Kernel, pkt: Packet, c: Chain): set<(Chain, string)> {
    if c in t then Recorded(t, k, pkt, Rank(c), t[c]) else {}
  }

  /** A packet to a port of one service, and that service's table small enough for the byte-order work-around. */
  ghost predicate Addressed(ses: seq<ServiceEndpoints>, hashBug: bool, pkt: Packet, i: nat, j: nat) {
    && OwnedOnly(ses, i, pkt.daddr) && WellFormed(ses[i])
    && j < |ses[i].svc.ports| && DistinctPorts(ses[i].svc.ports) && ToService(pkt, ses[i].svc.ports[j])
    && (hashBug ==> |EpIPs(ses[i].endpoints)| <= 0x1000000)
  }

  lemma RecordIs(k: Kernel, pkt: Packet, svc: Service, v: Verdict, recorded: set<(Chain, string)>)
    requires RecordOk(k, pkt, svc, v, recorded)
    ensures k.recent + recorded
         == k.recent + if svc.affinity.ClientIP? && v.DnatTo? then {(SvcEp(svc.id, v.ip), pkt.saddr)} else {}
  {
  }

  lemma FinalRecords(t: Table, k: Kernel, pkt: Packet, svc: Service)
    requires RulesOk(Finalize(t), k, pkt, 5, Finalize(t)[DnatAll], svc)
    ensures RecordOk(k, pkt, svc, EvalChain(Finalize(t), k, pkt, DnatAll), RecordedChain(Finalize(t), k, pkt, DnatAll))
  {
  }

  /** After a packet the recent sets hold its client in the set of the endpoint it was sent to, if its service has
      affinity, and otherwise what they held before. */
  lemma PacketRecords(ses: seq<ServiceEndpoints>, i: nat, j: nat, k: Kernel, pkt: Packet)
    requires DistinctServices(ses) && Addressed(ses, k.hashBug, pkt, i, j)
    ensures var T, svc := Compile(ses, k.hashBug), ses[i].svc; var v := EvalChain(T, k, pkt, DnatAll);
            k.recent + RecordedChain(T, k, pkt, DnatAll)
            == k.recent + if svc.affinity.ClientIP? && v.DnatTo? then {(SvcEp(svc.id, v.ip), pkt.saddr)} else {}
  {
    AllRendered(ses, k.hashBug, i);
    OnePortAsked(pkt, ses[i].svc.ports, j);
    var t := AddServices(ses, k.hashBug);
    EntryOk(t, ses, i, j, k, pkt);
    FinalRecords(t, k, pkt, ses[i].svc);
    var T := Compile(ses, k.hashBug);
    RecordIs(k, pkt, ses[i].svc, EvalChain(T, k, pkt, DnatAll), RecordedChain(T, k, pkt, DnatAll));
  }

  /** A packet records nobody but its own client. */
  lemma {:induction false} RecordsOwnClient(t: Table, k: Kernel, pkt: Packet, rank: nat, rules: seq<Rule>)
    ensures forall x :: x in Recorded(t, k, pkt, rank, rules) ==> x.1 == pkt.saddr
    decreases rank, |rules|
  {
    if rules != [] {
      RecordsOwnClient(t, k, pkt, rank, rules[1..]);
      match Fires(rules[0], k, pkt) {
        case Some(Jump(c)) => if c in t && Rank(c) < rank { RecordsOwnClient(t, k, pkt, Rank(c), t[c]); }
        case _ =>
      }
    }
  }

  // Packets over time

  /** A packet arrives: the number it draws, and the entries of the recent sets that expired before it. */
  datatype Arrival = Arrival(pkt: Packet, draw: nat, expired: set<(Chain, string)>)

  /** The kernel that the packet meets, and the one it leaves. */
  function Meets(k: Kernel, a: Arrival): Kernel {
    k.(draw := a.draw, recent := k.recent - a.expired)
  }

  function After(ses: seq<ServiceEndpoints>, k: Kernel, a: Arrival): Kernel {
    var m := Meets(k, a);
    m.(recent := m.recent + RecordedChain(Compile(ses, k.hashBug), m, a.pkt, DnatAll))
  }

  function VerdictOn(ses: seq<ServiceEndpoints>, k: Kernel, a: Arrival): Verdict {
    EvalChain(Compile(ses, k.hashBug), Meets(k, a), a.pkt, DnatAll)
  }

  /** Of the service's endpoints just this one remembers the client. */
  ghost predicate KeptTo(k: Kernel, client: string, se: ServiceEndpoints, e: EpIP) {
    e in EpIPs(se.endpoints) && forall o :: o in EpIPs(se.endpoints) ==> (Remembers(k, client, se.svc, o) <==> o == e)
  }

  /** The client's entry with the endpoint does not expire; the client's own packets go to ports of services,
      and to this service only at ports that the endpoint has. Other clients may send what they like. */
  ghost predicate Within(ses: seq<ServiceEndpoints>, hashBug: bool, i: nat, client: string, e: EpIP, a: Arrival)
    requires i < |ses|
  {
    && (SvcEp(ses[i].svc.id, e.ip), client) !in a.expired
    && (a.pkt.saddr == client ==>
          exists n: nat, j: nat :: Addressed(ses, hashBug, a.pkt, n, j) && (n == i ==> TargetPort(e.ep, ses[i].svc.ports[j]) != 0))
  }

  /** Every packet of the client to a port of the service goes to the endpoint. */
  ghost predicate StaysAt(ses: seq<ServiceEndpoints>, k: Kernel, i: nat, arrivals: seq<Arrival>, client: string, e: EpIP)
    decreases arrivals
  {
    arrivals != [] ==>
      var a := arrivals[0];
      && (a.pkt.saddr == client ==> forall j: nat :: Addressed(ses, k.hashBug, a.pkt, i, j) ==>
            VerdictOn(ses, k, a) == ToEp(e, ses[i].svc.ports[j]))
      && StaysAt(ses, After(ses, k, a), i, arrivals[1..], client, e)
  }

  lemma {:induction false} EpOfDistinct(eps: seq<EpIP>, e: EpIP, o: EpIP)
    requires DistinctIPs(eps) && e in eps && o in eps && o.ip == e.ip
    ensures o == e
  {
    var m :| 0 <= m < |eps| && eps[m] == e;
    var n :| 0 <= n < |eps| && eps[n] == o;
    assert m == n;
  }

  lemma ExpiryKeeps(k: Kernel, a: Arrival, client: string, se: ServiceEndpoints, e: EpIP)
    requires KeptTo(k, client, se, e) && (SvcEp(se.svc.id, e.ip), client) !in a.expired
    ensures KeptTo(Meets(k, a), client, se, e)
  {
    forall o | o in EpIPs(se.endpoints) ensures Remembers(Meets(k, a), client, se.svc, o) <==> o == e {
      assert Remembers(k, client, se.svc, o) <==> o == e;
    }
  }

  lemma SameEntriesKeep(k: Kernel, k': Kernel, client: string, se: ServiceEndpoints, e: EpIP)
    requires KeptTo(k, client, se, e)
    requires forall ip :: (SvcEp(se.svc.id, ip), client) in k'.recent <==> (SvcEp(se.svc.id, ip), client) in k.recent
    ensures KeptTo(k', client, se, e)
  {
    forall o | o in EpIPs(se.endpoints) ensures Remembers(k', client, se.svc, o) <==> o == e {
      assert Remembers(k, client, se.svc, o) <==> o == e;
      assert (SvcEp(se.svc.id, o.ip), client) in k'.recent <==> (SvcEp(se.svc.id, o.ip), client) in k.recent;
    }
  }

  /** Packets of others leave the client where it is. */
  lemma OtherClientKeeps(ses: seq<ServiceEndpoints>, k: Kernel, i: nat, a: Arrival, client: string, e: EpIP)
    requires i < |ses| && KeptTo(Meets(k, a), client, ses[i], e) && a.pkt.saddr != client
    ensures KeptTo(After(ses, k, a), client, ses[i], e)
  {
    var m, T := Meets(k, a), Compile(ses, k.hashBug);
    if DnatAll in T { RecordsOwnClient(T, m, a.pkt, 5, T[DnatAll]); }
    SameEntriesKeep(m, After(ses, k, a), client, ses[i], e);
  }

  /** So do its own packets to other services. */
  lemma OtherServiceKeeps(ses: seq<ServiceEndpoints>, k: Kernel, i: nat, a: Arrival, client: string, e: EpIP, n: nat, j: nat)
    requires DistinctServices(ses) && i < |ses| && KeptTo(Meets(k, a), client, ses[i], e)
    requires n != i && Addressed(ses, k.hashBug, a.pkt, n, j)
    ensures KeptTo(After(ses, k, a), client, ses[i], e)
  {
    PacketRecords(ses, n, j, Meets(k, a), a.pkt);
    assert ses[n].svc.id != ses[i].svc.id;
    SameEntriesKeep(Meets(k, a), After(ses, k, a), client, ses[i], e);
  }

  /** A packet that goes to the endpoint leaves the client there. */
  lemma SentKeeps(ses: seq<ServiceEndpoints>, k: Kernel, i: nat, j: nat, a: Arrival, e: EpIP)
    requires DistinctServices(ses) && Addressed(ses, k.hashBug, a.pkt, i, j) && ses[i].svc.affinity.ClientIP?
    requires VerdictOn(ses, k, a) == ToEp(e, ses[i].svc.ports[j]) && e in EpIPs(ses[i].endpoints)
    requires forall o :: o in EpIPs(ses[i].endpoints) && Remembers(Meets(k, a), a.pkt.saddr, ses[i].svc, o) ==> o == e
    ensures KeptTo(After(ses, k, a), a.pkt.saddr, ses[i], e)
  {
    var m, after, client := Meets(k, a), After(ses, k, a), a.pkt.saddr;
    PacketRecords(ses, i, j, m, a.pkt);
    forall o | o in EpIPs(ses[i].endpoints) ensures Remembers(after, client, ses[i].svc, o) <==> o == e {
      if Remembers(after, client, ses[i].svc, o) && !Remembers(m, client, ses[i].svc, o) {
        assert o.ip == e.ip;
        EpOfDistinct(EpIPs(ses[i].endpoints), e, o);
      }
    }
  }

  lemma KeptIsSent(ses: seq<ServiceEndpoints>, k: Kernel, i: nat, j: nat, a: Arrival, e: EpIP)
    requires DistinctServices(ses) && Addressed(ses, k.hashBug, a.pkt, i, j)
    requires KeptTo(Meets(k, a), a.pkt.saddr, ses[i], e) && TargetPort(e.ep, ses[i].svc.ports[j]) != 0
    ensures VerdictOn(ses, k, a) == ToEp(e, ses[i].svc.ports[j])
  {
    HavingMembers(EpIPs(ses[i].endpoints), ses[i].svc.ports[j]);
    assert Remembers(Meets(k, a), a.pkt.saddr, ses[i].svc, e);
    RememberedClient(ses, i, j, Meets(k, a), a.pkt, e);
  }

  /** The same packet cannot ask for two ports of the service. */
  lemma SamePort(ses: seq<ServiceEndpoints>, hashBug: bool, pkt: Packet, i: nat, j: nat, n: nat, q: nat)
    requires Addressed(ses, hashBug, pkt, i, j) && Addressed(ses, hashBug, pkt, n, q)
    ensures n == i && q == j
  {
    OnePortAsked(pkt, ses[i].svc.ports, j);
    assert Asks(pkt, ses[i].svc.ports[j]);
    assert n == i;
    assert Asks(pkt, ses[i].svc.ports[q]);
  }

  lemma {:induction false} KeptStays(ses: seq<ServiceEndpoints>, k: Kernel, i: nat, arrivals: seq<Arrival>, client: string, e: EpIP)
    requires DistinctServices(ses) && i < |ses| && KeptTo(k, client, ses[i], e)
    requires forall a :: a in arrivals ==> Within(ses, k.hashBug, i, client, e, a)
    ensures StaysAt(ses, k, i, arrivals, client, e)
    decreases arrivals
  {
    if arrivals != [] {
      var a := arrivals[0];
      assert Within(ses, k.hashBug, i, client, e, a);
      ExpiryKeeps(k, a, client, ses[i], e);
      OneArrival(ses, k, i, a, client, e);
      KeptStays(ses, After(ses, k, a), i, arrivals[1..], client, e);
    }
  }

  lemma OneArrival(ses: seq<ServiceEndpoints>, k: Kernel, i: nat, a: Arrival, client: string, e: EpIP)
    requires DistinctServices(ses) && i < |ses| && KeptTo(Meets(k, a), client, ses[i], e)
    requires Within(ses, k.hashBug, i, client, e, a)
    ensures KeptTo(After(ses, k, a), client, ses[i], e)
    ensures a.pkt.saddr == client ==> forall j: nat :: Addressed(ses, k.hashBug, a.pkt, i, j) ==>
              VerdictOn(ses, k, a) == ToEp(e, ses[i].svc.ports[j])
  {
    if a.pkt.saddr != client {
      OtherClientKeeps(ses, k, i, a, client, e);
    } else {
      var n: nat, j: nat :| Addressed(ses, k.hashBug, a.pkt, n, j) && (n == i ==> TargetPort(e.ep, ses[i].svc.ports[j]) != 0);
      forall q: nat | Addressed(ses, k.hashBug, a.pkt, i, q) ensures n == i && q == j { SamePort(ses, k.hashBug, a.pkt, n, j, i, q); }
      if n == i {
        KeptIsSent(ses, k, i, j, a, e);
        assert Remembers(Meets(k, a), client, ses[i].svc, e);
        SentKeeps(ses, k, i, j, a, e);
      } else {
        OtherServiceKeeps(ses, k, i, a, client, e, n, j);
      }
    }
  }

  /** Client IP affinity: a client that no endpoint of a service remembers is sent to one; from then on all its packets
      to ports that this endpoint has go there, whatever they draw and whatever other clients send, until its
      entry expires. */
  lemma AffinityHolds(ses: seq<ServiceEndpoints>, k: Kernel, i: nat, j: nat, a: Arrival, e: EpIP, arrivals: seq<Arrival>)
    requires DistinctServices(ses) && Addressed(ses, k.hashBug, a.pkt, i, j) && ses[i].svc.affinity.ClientIP?
    requires forall o :: o in EpIPs(ses[i].endpoints) ==> !Remembers(Meets(k, a), a.pkt.saddr, ses[i].svc, o)
    requires e in EpIPs(ses[i].endpoints) && VerdictOn(ses, k, a) == ToEp(e, ses[i].svc.ports[j])
    requires forall b :: b in arrivals ==> Within(ses, k.hashBug, i, a.pkt.saddr, e, b)
    ensures StaysAt(ses, After(ses, k, a), i, arrivals, a.pkt.saddr, e)
  {
    SentKeeps(ses, k, i, j, a, e);
    KeptStays(ses, After(ses, k, a), i, arrivals, a.pkt.saddr, e);
  }

  lemma {:induction false} FirstRecentIs(k: Kernel, saddr: string, svc: Service, eps: seq<EpIP>, p: PortMapping, m: nat)
    requires m < |eps| && TargetPort(eps[m].ep, p) != 0 && Remembers(k, saddr, svc, eps[m])
    requires forall n :: 0 <= n < m ==> !(TargetPort(eps[n].ep, p) != 0 && Remembers(k, saddr, svc, eps[n]))
    ensures Recents(k, saddr, svc, Having(eps, p)) != [] && Recents(k, saddr, svc, Having(eps, p))[0] == eps[m]
  {
    RecentsOfHaving(k, saddr, svc, eps, p);
    if m > 0 {
      assert !(TargetPort(eps[0].ep, p) != 0 && Remembers(k, saddr, svc, eps[0]));
      FirstRecentIs(k, saddr, svc, eps[1..], p, m - 1);
    }
  }

  /** A client that asks for a port its endpoint lacks is sent to another one; if that comes first in the list, the
      client's next packet goes there even for a port that both have. */
  lemma LackedPortMovesClient(ses: seq<ServiceEndpoints>, k: Kernel, i: nat, j: nat, a: Arrival, b: Arrival, q: nat, n: nat, m: nat)
    requires DistinctServices(ses) && Addressed(ses, k.hashBug, a.pkt, i, j) && Addressed(ses, k.hashBug, b.pkt, i, q)
    requires m < n < |EpIPs(ses[i].endpoints)| && b.pkt.saddr == a.pkt.saddr && b.expired == {}
    requires KeptTo(Meets(k, a), a.pkt.saddr, ses[i], EpIPs(ses[i].endpoints)[n])
    requires VerdictOn(ses, k, a) == ToEp(EpIPs(ses[i].endpoints)[m], ses[i].svc.ports[j])
    requires TargetPort(EpIPs(ses[i].endpoints)[m].ep, ses[i].svc.ports[q]) != 0
    ensures VerdictOn(ses, After(ses, k, a), b) == ToEp(EpIPs(ses[i].endpoints)[m], ses[i].svc.ports[q])
  {
    var svc, eps, client := ses[i].svc, EpIPs(ses[i].endpoints), a.pkt.saddr;
    var later := Meets(After(ses, k, a), b);
    assert eps[n] in eps && Remembers(Meets(k, a), client, svc, eps[n]);
    PacketRecords(ses, i, j, Meets(k, a), a.pkt);
    forall x | 0 <= x < m ensures !Remembers(later, client, svc, eps[x]) {
      assert eps[x] in eps && eps[x].ip != eps[m].ip && eps[x].ip != eps[n].ip;
      assert !Remembers(Meets(k, a), client, svc, eps[x]);
    }
    FirstRecentIs(later, client, svc, eps, svc.ports[q], m);
    ServicePacket(ses, i, q, later, b.pkt);
  }
}
