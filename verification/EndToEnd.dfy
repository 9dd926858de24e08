/** From two machines to the oracle's verdicts: on the networks that are set up and deployed, the
    oracle says who is reached, and lending addresses to its endpoints can be undone. */
module EndToEnd {
  import opened Wrappers
  import opened Seqs
  import opened Constants
  import opened OpenFlow
  import opened Ports
  import opened FlowTables
  import opened Network
  import opened Honesty
  import opened Delivery
  import opened Vswitch
  import opened Pal
  import opened Reachability
  import opened NatVms
  import opened Assembly
  import T = Topology
  import Allocation

  // ---- the guests of a host ----

  // The host's VMs, whose interfaces its bridge carries in order behind its own.  The node a VM
  // notes for itself stays 0.
  function GuestsOf(br: Bridge): seq<Guest>
    reads br`vifs
  {
    GuestsIn(br.vifs)
  }

  function GuestsIn(vs: seq<Vif>): seq<Guest> {
    seq(PairsAfter(|vs|), k requires 0 <= k < PairsAfter(|vs|) => GuestIn(vs, k))
  }

  function GuestIn(vs: seq<Vif>, k: nat): Guest
    requires 2 * k + 2 < |vs|
  {
    Guest(0, [vs[2 * k + 1], vs[2 * k + 2]])
  }

  // How many pairs follow the first of n elements.
  function PairsAfter(n: nat): (k: nat)
    ensures n > 0 ==> 2 * k + 1 <= n <= 2 * k + 2
    ensures n == 0 ==> k == 0
  {
    if n == 0 then 0 else (n - 1) / 2
  }

  function SutsOf(a: Bridge, b: Bridge): seq<seq<Guest>>
    reads a`vifs, b`vifs
  {
    [GuestsOf(a), GuestsOf(b)]
  }

  function BridgeAt(a: Bridge, b: Bridge, h: nat): Bridge {
    if h == 0 then a else b
  }

  // Where an interface the oracle visits sits on its bridge: its port number tells.
  ghost predicate Seated(a: Bridge, b: Bridge, e: EndPoint)
    reads a`vifs, b`vifs
  {
    && e.host < 2 && OFP_VHOST_BASE < e.vif.ofp
    && var j, br := e.vif.ofp - OFP_VHOST_BASE, BridgeAt(a, b, e.host);
       j < |br.vifs| && br.vifs[j] == e.vif && e.guest == (j - 1) / 2 && e.numa == 0
  }

  lemma SeatIs(br: Bridge, ifaces: seq<T.Iface>, j: nat)
    requires Populated(br, ifaces) && 0 < j < |br.vifs|
    ensures br.vifs[j].ofp == OFP_VHOST_BASE + j
    ensures br.vifs[j].mac.Some? && br.vifs[j].ifAddr.Some? && br.vifs[j].restoreIfAddr == None
  {
    assert br.vifs[j] == br.vifs[1..][j - 1];
  }

  lemma GuestAt(br: Bridge, g: nat, i: nat)
    requires g < |GuestsOf(br)| && i < 2
    ensures 2 * g + 1 + i < |br.vifs| && GuestsOf(br)[g] == GuestIn(br.vifs, g)
    ensures GuestsOf(br)[g].vifs[i] == br.vifs[2 * g + 1 + i]
  {
    assert i == 0 || i == 1;
  }

  lemma GuestSeated(br: Bridge, ifaces: seq<T.Iface>, g: nat, i: nat)
    requires Populated(br, ifaces) && g < |GuestsOf(br)| && i < 2
    ensures var j := 2 * g + 1 + i;
      && j < |br.vifs| && GuestsOf(br)[g].vifs[i] == br.vifs[j] && br.vifs[j].ofp == OFP_VHOST_BASE + j
      && br.vifs[j].mac.Some? && br.vifs[j].ifAddr.Some? && br.vifs[j].restoreIfAddr == None
  {
    GuestAt(br, g, i);
    SeatIs(br, ifaces, 2 * g + 1 + i);
  }

  lemma AllSeated(a: Bridge, nodes: seq<T.Node>, b: Bridge, nodes': seq<T.Node>, e: EndPoint)
    requires Apart(a, nodes, b, nodes') && e in All(SutsOf(a, b))
    ensures Seated(a, b, e) && e.vif.mac.Some? && e.vif.ifAddr.Some? && e.vif.restoreIfAddr == None
  {
    var i := PlaceOf(SutsOf(a, b), e);
    assert SutsOf(a, b)[e.host] == GuestsOf(BridgeAt(a, b, e.host));
    SeatedAt(BridgeAt(a, b, e.host), Allocation.AllIfaces(if e.host == 0 then nodes else nodes'), e, i);
  }

  lemma SeatedAt(br: Bridge, ifaces: seq<T.Iface>, e: EndPoint, i: nat)
    requires Populated(br, ifaces) && e.guest < |GuestsOf(br)| && i < |GuestsOf(br)[e.guest].vifs|
    requires e.vif == GuestsOf(br)[e.guest].vifs[i] && e.numa == GuestsOf(br)[e.guest].numa
    ensures OFP_VHOST_BASE < e.vif.ofp && e.numa == 0
    ensures var j := e.vif.ofp - OFP_VHOST_BASE; j < |br.vifs| && br.vifs[j] == e.vif && e.guest == (j - 1) / 2
    ensures e.vif.mac.Some? && e.vif.ifAddr.Some? && e.vif.restoreIfAddr == None
  {
    GuestSeated(br, ifaces, e.guest, i);
    Halved(e.guest, i);
  }

  lemma Halved(g: nat, i: nat)
    requires i < 2
    ensures (2 * g + i) / 2 == g
  {
  }

  lemma OneSeat(a: Bridge, b: Bridge, e: EndPoint, e': EndPoint)
    requires Seated(a, b, e) && Seated(a, b, e') && e.host == e'.host && e.vif.ofp == e'.vif.ofp
    ensures e == e'
  {
  }

  lemma VifsOnce(a: Bridge, nodes: seq<T.Node>, b: Bridge, nodes': seq<T.Node>)
    requires Apart(a, nodes, b, nodes')
    ensures Distinct(All(SutsOf(a, b))) && OwnVifs(All(SutsOf(a, b)))
  {
    GuestsDistinct(a, Allocation.AllIfaces(nodes));
    GuestsDistinct(b, Allocation.AllIfaces(nodes'));
    AllDistinct(SutsOf(a, b));
    forall e, e' | e in All(SutsOf(a, b)) && e' in All(SutsOf(a, b)) && e.vif == e'.vif ensures e == e' {
      AllSeated(a, nodes, b, nodes', e);
      AllSeated(a, nodes, b, nodes', e');
      SameHost(a, nodes, b, nodes', e, e');
      OneSeat(a, b, e, e');
    }
  }

  lemma GuestsDistinct(br: Bridge, ifaces: seq<T.Iface>)
    requires Populated(br, ifaces)
    ensures forall g :: 0 <= g < |GuestsOf(br)| ==> Distinct(GuestsOf(br)[g].vifs)
  {
  }

  lemma SameHost(a: Bridge, nodes: seq<T.Node>, b: Bridge, nodes': seq<T.Node>, e: EndPoint, e': EndPoint)
    requires Apart(a, nodes, b, nodes') && Seated(a, b, e) && Seated(a, b, e') && e.vif == e'.vif
    ensures e.host == e'.host
  {
    var j := e.vif.ofp - OFP_VHOST_BASE;
    var br, br' := BridgeAt(a, b, e.host), BridgeAt(a, b, e'.host);
    assert br.vifs[j] in br.vifs && br'.vifs[j] in br'.vifs;
  }

  // The interfaces the oracle visits are attached to the network's bridges.
  lemma GuestsAttached(a: Bridge, nodes: seq<T.Node>, b: Bridge, nodes': seq<T.Node>, c: Config)
    requires Apart(a, nodes, b, nodes') && c.a.br == a.View() && c.b.br == b.View()
    ensures var eps := All(SutsOf(a, b)); Attached(c, Facts(eps), eps)
  {
    var eps := All(SutsOf(a, b));
    forall e | e in eps
      ensures e.host < 2 && e.vif in Facts(eps) && e.vif.mac.Some?
              && e.vif.ofp != OFP_LOCAL && ViewOf(Facts(eps), e) in Br(c, HostOf(e.host)).vifs
    {
      AllSeated(a, nodes, b, nodes', e);
      var j, br := e.vif.ofp - OFP_VHOST_BASE, BridgeAt(a, b, e.host);
      assert br.View().vifs[j] == br.vifs[j].View();
    }
    forall e, e' | e in eps && e' in eps && e.host == e'.host && e.vif.ofp == e'.vif.ofp ensures e == e' {
      AllSeated(a, nodes, b, nodes', e);
      AllSeated(a, nodes, b, nodes', e');
      OneSeat(a, b, e, e');
    }
  }

  // No pair of guests is ever told to be on different nodes of one host.
  lemma NeverAcrossNodes(a: Bridge, nodes: seq<T.Node>, b: Bridge, nodes': seq<T.Node>, e: EndPoint, e': EndPoint)
    requires Apart(a, nodes, b, nodes') && e in All(SutsOf(a, b)) && e' in All(SutsOf(a, b))
    ensures LocalityOf(e, e') == if e.host == e'.host then Numa else XHost
  {
    AllSeated(a, nodes, b, nodes', e);
    AllSeated(a, nodes, b, nodes', e');
  }

  // ---- hardware addresses ----

  lemma OwnerOf(br: Bridge, nodes: seq<T.Node>, w: VifView) returns (i: nat)
    requires Populated(br, Allocation.AllIfaces(nodes)) && w in br.View().vifs && w.ofp != OFP_LOCAL
    ensures i < |Allocation.AllIfaces(nodes)| && w.mac == Some(Allocation.AllIfaces(nodes)[i].mac)
    ensures i + 1 < |br.vifs| && w == br.vifs[i + 1].View()
  {
    var j :| 0 <= j < |br.View().vifs| && br.View().vifs[j] == w;
    i := j - 1;
    assert br.vifs[j] == br.vifs[1..][i];
  }

  lemma MacsDiffer(m: Machine, i: nat, m': Machine, j: nat)
    requires Provided(m).Some? && Provided(m').Some?
    requires i < |Allocation.AllIfaces(Provided(m).value.0)| && j < |Allocation.AllIfaces(Provided(m').value.0)|
    ensures Allocation.AllIfaces(Provided(m).value.0)[i].mac == Allocation.AllIfaces(Provided(m').value.0)[j].mac <==>
              m.spec.host == m'.spec.host && i == j
  {
    var c := m.spec.(pnic := T.PnicNode(m.uplinks).value);
    var c' := m'.spec.(pnic := T.PnicNode(m'.uplinks).value);
    Allocation.IdentitiesDistinct(c, m.cpus, m.pools, i, c', m'.cpus, m'.pools, j);
  }

  // Machines with different numbers give all interfaces different hardware addresses.
  lemma MachinesDistinct(m: Machine, a: Bridge, m': Machine, b: Bridge, c: Config)
    requires Provided(m).Some? && Provided(m').Some? && m.spec.host != m'.spec.host
    requires Apart(a, Provided(m).value.0, b, Provided(m').value.0) && c.a.br == a.View() && c.b.br == b.View()
    ensures MacsDistinct(c)
  {
    var nodes, nodes' := Provided(m).value.0, Provided(m').value.0;
    forall h, w, h', w' | w in Br(c, h).vifs && w' in Br(c, h').vifs && w.ofp != OFP_LOCAL && w'.ofp != OFP_LOCAL
                          && w.mac.Some? && w.mac == w'.mac
      ensures h == h' && w == w'
    {
      var i := OwnerOf(if h == HostA then a else b, if h == HostA then nodes else nodes', w);
      var j := OwnerOf(if h' == HostA then a else b, if h' == HostA then nodes else nodes', w');
      MacsDiffer(if h == HostA then m else m', i, if h' == HostA then m else m', j);
    }
  }

  // ---- the oracle on the network ----

  // A network on which the oracle's answers hold.
  ghost predicate Askable(c: Config, facts: map<Vif, Fact>, eps: seq<EndPoint>) {
    ConfigOk(c) && Open(c) && MacsDistinct(c) && Distinct(eps) && OwnVifs(eps) && Attached(c, facts, eps)
  }

  // What the oracle's lists say happens, after every run of honest senders.
  lemma PredictionHolds(c: Config, facts: map<Vif, Fact>, eps: seq<EndPoint>, sep: EndPoint,
                        evs: seq<Event>, n: Net, id: nat, e: EndPoint)
    requires Askable(c, facts, eps) && HonestEvents(c, evs) && Leads(c, evs, n) && n.wire == []
    requires sep in eps && e in eps && e != sep && facts[e.vif].net == facts[sep.vif].net
    requires SentBy(n, id, sep) && e.vif.mac == Some(n.sent[id].frame.dst)
    ensures var r := Oracle(facts, eps, sep);
      && (Got(n, id, HostOf(e.host), e.vif.ofp) <==> Pairs(r.allow, LocalityOf(sep, e), sep, e))
      && (!Got(n, id, HostOf(e.host), e.vif.ofp) <==> Pairs(r.deny, LocalityOf(sep, e), sep, e))
  {
    OracleAgrees(c, evs, n, facts, eps, id, sep, e);
  }

  // The network of two hosts with the default ACL.
  function NetOf(a: Bridge, tep: Ip, b: Bridge, tep': Ip, deploy: Deploy, md: bool): Config
    reads a`vifs, a`vnis, a`tnlPorts, a`uplinks, a`flows, a.vifs
    reads b`vifs, b`vnis, b`tnlPorts, b`uplinks, b`flows, b.vifs
    reads set i, j | 0 <= i < |a.vnis| && 0 <= j < |a.vnis[i].vifs| :: a.vnis[i].vifs[j]
    reads set i, j | 0 <= i < |b.vnis| && 0 <= j < |b.vnis[i].vifs| :: b.vnis[i].vifs[j]
  {
    Config(deploy, md, SideOf(a, tep, DEFAULT_ACL), SideOf(b, tep', DEFAULT_ACL))
  }

  lemma NetworkAskable(m: Machine, a: Bridge, m': Machine, b: Bridge, deploy: Deploy, md: bool)
    requires Provided(m).Some? && Provided(m').Some? && m.spec.host != m'.spec.host
    requires Apart(a, Provided(m).value.0, b, Provided(m').value.0)
    requires ConfigOk(NetOf(a, Provided(m).value.1, b, Provided(m').value.1, deploy, md))
    ensures var eps := All(SutsOf(a, b));
      Askable(NetOf(a, Provided(m).value.1, b, Provided(m').value.1, deploy, md), Facts(eps), eps)
  {
    var c := NetOf(a, Provided(m).value.1, b, Provided(m').value.1, deploy, md);
    GuestsAttached(a, Provided(m).value.0, b, Provided(m').value.0, c);
    VifsOnce(a, Provided(m).value.0, b, Provided(m').value.0);
    MachinesDistinct(m, a, m', b, c);
  }

  lemma NothingMissing(a: Bridge, nodes: seq<T.Node>, b: Bridge, nodes': seq<T.Node>)
    requires Apart(a, nodes, b, nodes')
    ensures var suts := SutsOf(a, b);
      && (SourceOf(suts, NO_CRITERIA).Success? <==> |Allocation.AllIfaces(nodes)| > 1)
      && forall e :: e in All(suts) ==> e.vif.ifAddr.Some? && e.vif.restoreIfAddr == None
  {
    var suts := SutsOf(a, b);
    forall e | e in All(suts) ensures e.vif.ifAddr.Some? && e.vif.restoreIfAddr == None {
      AllSeated(a, nodes, b, nodes', e);
    }
  }

  // The oracle has answered about all guests.
  ghost predicate AnswerOn(suts: seq<seq<Guest>>, vt: VerifyTopology)
    reads VifsOf(All(suts)), vt, vt.Entries()
  {
    && vt.Valid() && SourceOf(suts, NO_CRITERIA).Success? && SourceOf(suts, NO_CRITERIA).value in All(suts)
    && vt.View() == Oracle(Facts(All(suts)), All(suts), SourceOf(suts, NO_CRITERIA).value)
  }

  // With addresses everywhere the oracle answers whenever there is a source.
  method Ask(suts: seq<seq<Guest>>) returns (r: Option<VerifyTopology>)
    requires forall e :: e in All(suts) ==> e.vif.ifAddr.Some?
    ensures r.Some? <==> SourceOf(suts, NO_CRITERIA).Success?
    ensures r.Some? ==> AnswerOn(suts, r.value)
    ensures Facts(All(suts)) == old(Facts(All(suts)))
  {
    if SourceOf(suts, NO_CRITERIA).Success? {
      InAll(suts, 0, 0, 0);
      SearchSucceeds(suts, SourceOf(suts, NO_CRITERIA).value);
      VisitedAll(SourceOf(suts, NO_CRITERIA).value, All(suts));
    }
    var vt := VerifyTopologyGet(suts, NO_CRITERIA);
    r := if vt.Success? then Some(vt.value) else None;
  }

  // The oracle's answer about two hosts, on a network on which it holds.
  ghost predicate Predicted(a: Bridge, tep: Ip, b: Bridge, tep': Ip, deploy: Deploy, md: bool, vt: VerifyTopology)
    reads a`vifs, a`vnis, a`tnlPorts, a`uplinks, a`flows, a.vifs
    reads b`vifs, b`vnis, b`tnlPorts, b`uplinks, b`flows, b.vifs
    reads set i, j | 0 <= i < |a.vnis| && 0 <= j < |a.vnis[i].vifs| :: a.vnis[i].vifs[j]
    reads set i, j | 0 <= i < |b.vnis| && 0 <= j < |b.vnis[i].vifs| :: b.vnis[i].vifs[j]
    reads VifsOf(All(SutsOf(a, b))), vt, vt.Entries()
  {
    var eps := All(SutsOf(a, b));
    AnswerOn(SutsOf(a, b), vt) && Askable(NetOf(a, tep, b, tep', deploy, md), Facts(eps), eps)
  }

  method AskAbout(a: Bridge, ghost tep: Ip, b: Bridge, ghost tep': Ip, ghost deploy: Deploy, ghost md: bool)
    returns (r: Option<VerifyTopology>)
    requires forall e :: e in All(SutsOf(a, b)) ==> e.vif.ifAddr.Some?
    requires Askable(NetOf(a, tep, b, tep', deploy, md), Facts(All(SutsOf(a, b))), All(SutsOf(a, b)))
    ensures r.Some? <==> SourceOf(SutsOf(a, b), NO_CRITERIA).Success?
    ensures r.Some? ==> Predicted(a, tep, b, tep', deploy, md, r.value)
  {
    r := AskBeside(a, tep, b, tep', deploy, md);
  }

  // Asking leaves the network and the facts about it alone.
  method AskBeside(a: Bridge, ghost tep: Ip, b: Bridge, ghost tep': Ip, ghost deploy: Deploy, ghost md: bool)
    returns (r: Option<VerifyTopology>)
    requires forall e :: e in All(SutsOf(a, b)) ==> e.vif.ifAddr.Some?
    ensures r.Some? <==> SourceOf(SutsOf(a, b), NO_CRITERIA).Success?
    ensures r.Some? ==> AnswerOn(SutsOf(a, b), r.value)
    ensures SutsOf(a, b) == old(SutsOf(a, b)) && Facts(All(SutsOf(a, b))) == old(Facts(All(SutsOf(a, b))))
    ensures NetOf(a, tep, b, tep', deploy, md) == old(NetOf(a, tep, b, tep', deploy, md))
  {
    r := Ask(SutsOf(a, b));
  }

  // The same for the hosts of two machines: only a first host without guests has no answer.
  method AskMachines(ghost m: Machine, a: Bridge, ghost m': Machine, b: Bridge, ghost deploy: Deploy, ghost md: bool)
    returns (r: Option<VerifyTopology>)
    requires Provided(m).Some? && Provided(m').Some? && m.spec.host != m'.spec.host
    requires Apart(a, Provided(m).value.0, b, Provided(m').value.0)
    requires ConfigOk(NetOf(a, Provided(m).value.1, b, Provided(m').value.1, deploy, md))
    ensures r.Some? <==> |Allocation.AllIfaces(Provided(m).value.0)| > 1
    ensures r.Some? ==> Predicted(a, Provided(m).value.1, b, Provided(m').value.1, deploy, md, r.value)
  {
    ghost var ((nodes, tep), (nodes', tep')) := (Provided(m).value, Provided(m').value);
    NothingMissing(a, nodes, b, nodes');
    NetworkAskable(m, a, m', b, deploy, md);
    r := AskAbout(a, tep, b, tep', deploy, md);
  }

  // From two machines to an answer that holds.
  method Predict(m: Machine, m': Machine, walkVms: bool, deploy: Deploy)
    returns (r: Option<(Bridge, Bridge, VerifyTopology)>)
    requires |m.pools| <= 22 && |m'.pools| <= 22 && OnUplink(deploy, walkVms) && m.spec.host != m'.spec.host
    ensures r.Some? <==> Provided(m).Some? && Provided(m').Some? && |Allocation.AllIfaces(Provided(m).value.0)| > 1
    ensures r.Some? ==>
              Predicted(r.value.0, Provided(m).value.1, r.value.1, Provided(m').value.1, deploy, false, r.value.2)
  {
    var up := BringUpL2(m, m', walkVms, deploy);
    if up == None { return None; }
    var (a, b) := up.value;
    var vt := AskMachines(m, a, m', b, deploy, false);
    if vt == None { return None; }
    r := Some((a, b, vt.value));
  }

  method PredictTunnels(m: Machine, m': Machine, walkVms: bool, ripFlow: bool, vniFlow: bool, md: bool)
    returns (r: Option<(Bridge, Bridge, VerifyTopology)>)
    requires |m.pools| <= 22 && |m'.pools| <= 22 && m.spec.host != m'.spec.host
    ensures r.Some? <==> Provided(m).Some? && Provided(m').Some? && |Allocation.AllIfaces(Provided(m).value.0)| > 1
    ensures r.Some? ==>
              Predicted(r.value.0, Provided(m).value.1, r.value.1, Provided(m').value.1, Tnl, md, r.value.2)
  {
    var up := BringUpTunnels(m, m', walkVms, ripFlow, vniFlow, md);
    if up == None { return None; }
    var (a, b) := up.value;
    var vt := AskMachines(m, a, m', b, Tnl, md);
    if vt == None { return None; }
    r := Some((a, b, vt.value));
  }

  // On such hosts address translation is configured and undone without a trace, whenever the oracle
  // allows anything.
  method LendOnHosts(suts: seq<seq<Guest>>, ghost a: Bridge, ghost nodes: seq<T.Node>,
                     ghost b: Bridge, ghost nodes': seq<T.Node>)
    returns (ok: bool)
    requires Apart(a, nodes, b, nodes') && suts == SutsOf(a, b)
    modifies VifsOf(All(suts))`ifAddr, VifsOf(All(suts))`restoreIfAddr
    ensures ok <==> old(AllowedEntry(suts).Some? && EnoughAddresses(|Used(AllowedEntry(suts).value)|))
    ensures ok ==> Slots(VifsOf(All(suts))) == old(Slots(VifsOf(All(suts))))
  {
    ghost var lent;
    VifsOnce(a, nodes, b, nodes');
    NothingMissing(a, nodes, b, nodes');
    ok, lent := LendAndReturn(suts);
  }
}
