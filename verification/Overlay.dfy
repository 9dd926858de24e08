/** The deployment steps of overlay.py on one host: VNI assignment, tunnel
    ports, and the flow tables of an overlay. */
module Overlay {
  import opened Wrappers
  import opened Seqs
  import opened Constants
  import opened OpenFlow
  import opened Ports
  import opened FlowTables
  import opened Lookups
  import opened Switching
  import opened Vswitch
  import opened FlowUtils
  import opened TunnelIds

  const VNI_BASE_BY_IDX_ON_VM: nat := 200
  const VNI_BASE_BY_IDX_ON_HOST: nat := 300

  // ---- VNI assignment ----

  // Numbers a list of interfaces from a base on.
  method AssignVnis(vifs: seq<Vif>, base: nat)
    requires forall i, j :: 0 <= i < j < |vifs| ==> vifs[i] != vifs[j]
    modifies vifs`vni
    ensures forall i :: 0 <= i < |vifs| ==> vifs[i].vni == base + i
  {
    for i := 0 to |vifs|
      invariant forall j :: 0 <= j < i ==> vifs[j].vni == base + j
    {
      vifs[i].vni := base + i;
    }
  }

  function Flatten<T>(xss: seq<seq<T>>): seq<T> {
    if xss == [] then [] else Flatten(xss[..|xss| - 1]) + xss[|xss| - 1]
  }

  lemma {:induction false} InFlatten<T>(xss: seq<seq<T>>, x: T)
    ensures x in Flatten(xss) <==> exists i :: 0 <= i < |xss| && x in xss[i]
  {
    if xss == [] {
    } else {
      var n := |xss| - 1;
      InFlatten(xss[..n], x);
      if i :| 0 <= i < |xss| && x in xss[i] {
        if i < n { assert xss[..n][i] == xss[i]; }
      }
    }
  }

  ghost predicate DistinctVifs(vms: seq<seq<Vif>>) {
    && (forall a, i, j :: 0 <= a < |vms| && 0 <= i < j < |vms[a]| ==> vms[a][i] != vms[a][j])
    && (forall a, b, i, j :: 0 <= a < b < |vms| && 0 <= i < |vms[a]| && 0 <= j < |vms[b]| ==> vms[a][i] != vms[b][j])
  }

  // The i-th interface of every VM gets VNI 200 + i; the index follows.
  method SetVifVniByIdxOnVm(vms: seq<seq<Vif>>, br: Bridge)
    requires DistinctVifs(vms)
    modifies Flatten(vms)`vni, br`vnis
    ensures forall a, i :: 0 <= a < |vms| && 0 <= i < |vms[a]| ==> vms[a][i].vni == 200 + i
    ensures br.Agrees()
  {
    for a := 0 to |vms|
      invariant forall b, i :: 0 <= b < a && 0 <= i < |vms[b]| ==> vms[b][i].vni == VNI_BASE_BY_IDX_ON_VM + i
    {
      forall i | 0 <= i < |vms[a]| ensures vms[a][i] in Flatten(vms) { InFlatten(vms, vms[a][i]); }
      AssignVnis(vms[a], VNI_BASE_BY_IDX_ON_VM);
    }
    br.RefreshVnis();
  }

  function CountBefore(vms: seq<seq<Vif>>, a: nat): nat
    requires a <= |vms|
  {
    if a == 0 then 0 else CountBefore(vms, a - 1) + |vms[a - 1]|
  }

  // The k-th interface of the host, over all VMs, gets VNI 300 + k; the index follows.
  method SetVifVniByIdxOnHost(vms: seq<seq<Vif>>, br: Bridge)
    requires DistinctVifs(vms)
    modifies Flatten(vms)`vni, br`vnis
    ensures forall a, i :: 0 <= a < |vms| && 0 <= i < |vms[a]| ==>
              vms[a][i].vni == 300 + CountBefore(vms, a) + i
    ensures br.Agrees()
  {
    var next := VNI_BASE_BY_IDX_ON_HOST;
    for a := 0 to |vms|
      invariant next == VNI_BASE_BY_IDX_ON_HOST + CountBefore(vms, a)
      invariant forall b, i :: 0 <= b < a && 0 <= i < |vms[b]| ==>
                  vms[b][i].vni == VNI_BASE_BY_IDX_ON_HOST + CountBefore(vms, b) + i
    {
      forall i | 0 <= i < |vms[a]| ensures vms[a][i] in Flatten(vms) { InFlatten(vms, vms[a][i]); }
      AssignVnis(vms[a], next);
      next := next + |vms[a]|;
    }
    br.RefreshVnis();
  }

  method ResetVifVni(vms: seq<seq<Vif>>, br: Bridge)
    modifies Flatten(vms)`vni, br`vnis
    ensures forall a, i :: 0 <= a < |vms| && 0 <= i < |vms[a]| ==> vms[a][i].vni == VNI_NONE
    ensures br.Agrees()
  {
    for a := 0 to |vms|
      invariant forall b, i :: 0 <= b < a && 0 <= i < |vms[b]| ==> vms[b][i].vni == VNI_NONE
    {
      for i := 0 to |vms[a]|
        invariant forall b, j :: 0 <= b < a && 0 <= j < |vms[b]| ==> vms[b][j].vni == VNI_NONE
        invariant forall j :: 0 <= j < i ==> vms[a][j].vni == VNI_NONE
      {
        InFlatten(vms, vms[a][i]);
        vms[a][i].vni := VNI_NONE;
      }
    }
    br.RefreshVnis();
  }

  // ---- tunnel ports ----

  function State(br: Bridge): Tunnels
    reads br`tnlPorts, br.tunnelIds
  {
    Tunnels(br.tunnelIds.ids, br.tnlPorts)
  }

  // Creates a list of ports; false stands for the exception that ends the creation early.
  method CreatePorts(br: Bridge, want: seq<Spec>) returns (ok: bool)
    modifies br`tnlPorts, br.tunnelIds
    ensures (State(br), ok) == CreateAll(old(State(br)), want)
  {
    for i := 0 to |want|
      invariant CreateAll(State(br), want[i..]) == CreateAll(old(State(br)), want)
    {
      var t := br.CreateTunnelPort(want[i].rip, want[i].key);
      assert want[i..][1..] == want[i + 1..];
      if t == None { return false; }
    }
    ok := true;
  }

  method CreateTunnelPorts(br: Bridge, peers: seq<Ip>, ripFlow: bool, vniFlow: bool) returns (ok: bool)
    modifies br`tnlPorts, br.tunnelIds
    ensures (State(br), ok) == CreateAll(old(State(br)), Wanted(KeysOf(br.vnis), peers, ripFlow, vniFlow))
  {
    var vnis := KeysOf(br.vnis);
    var want := [];
    if !ripFlow {
      for i := 0 to |peers|
        invariant want == FlatMap(peers[..i], PerPeer(vniFlow, vnis)) && State(br) == old(State(br))
      {
        FlatMapStep(peers, i, PerPeer(vniFlow, vnis));
        want := want + if vniFlow then [Spec(FixedRip(peers[i]), FlowKey)] else PerVni(FixedRip(peers[i]), vnis);
      }
      assert peers[..|peers|] == peers;
    } else if !vniFlow {
      want := PerVni(FlowRip, vnis);
    } else {
      want := [Spec(FlowRip, FlowKey)];
    }
    assert want == Wanted(KeysOf(br.vnis), peers, ripFlow, vniFlow);
    ok := CreatePorts(br, want);
  }

  // Walks the port list while removing from it, as the source does.
  method DeleteTunnelPorts(br: Bridge)
    modifies br`tnlPorts, br.tunnelIds
    ensures State(br) == DeletePass(old(State(br)))
  {
    var i := 0;
    while i < |br.tnlPorts|
      invariant 0 <= i
      invariant DeleteFrom(State(br), i) == DeletePass(old(State(br)))
      decreases |br.tnlPorts| - i
    {
      var t := br.tnlPorts[i];
      RemoveFirstShorter(br.tnlPorts, t);
      br.DeleteTunnelPort(t);
      i := i + 1;
    }
  }

  // ---- flow tables ----

  // The INPUT and OUTPUT tables cleared and filled again.
  ghost predicate Replaced(was: seq<Flow>, now: seq<Flow>, b: BridgeView, deploy: Deploy, md: bool, peers: seq<Ip>) {
    now == Filter(Filter(was, (f: Flow) => f.table != OF_TABLE_INPUT), (f: Flow) => f.table != OF_TABLE_OUTPUT)
           + (InputFlows(b, deploy) + OutputFlows(b, deploy, md, peers))
  }

  method OverlayFlowSetup(br: Bridge, deploy: Deploy, md: bool, peers: seq<Ip>) returns (ok: bool)
    modifies br`flows, br`withMd
    ensures ok <==> !deploy.Unknown? && NoEmptyVni(old(br.View()))
    ensures br.withMd == (md || old(br.withMd))
    ensures ok ==> Replaced(old(br.flows), br.flows, old(br.View()), deploy, md, peers)
    ensures !ok ==> br.flows == Filter(Filter(old(br.flows), (f: Flow) => f.table != OF_TABLE_INPUT),
                                       (f: Flow) => f.table != OF_TABLE_OUTPUT)
  {
    var b := br.View();
    if md { br.withMd := true; }
    br.DelTable(OF_TABLE_INPUT);
    br.DelTable(OF_TABLE_OUTPUT);
    var input := GenerateInputFlows(b, deploy);
    var output := GenerateOutputFlows(b, deploy, md, peers);
    if output.Failure? { return false; }
    br.Provision(input + output.value);
    ok := true;
  }

  // Replacing the INPUT and OUTPUT tables of the default pipeline leaves exactly the deployed tables.
  lemma ReplacedTables(flows: seq<Flow>, b: BridgeView, deploy: Deploy, md: bool, peers: seq<Ip>)
    requires !deploy.Unknown?
    requires Replaced(DefaultPipeline(b, peers), flows, b, deploy, md, peers)
    ensures Installed(flows, b, deploy, md, peers, DEFAULT_ACL)
  {
    var all := DefaultPipeline(b, peers);
    forall f
      ensures f in flows <==>
                || f in FIXED_STAGES || f in DEFAULT_ACL
                || f in InputFlows(b, deploy) || f in OutputFlows(b, deploy, md, peers)
    {
      InFilter(all, (g: Flow) => g.table != OF_TABLE_INPUT, f);
      InFilter(Filter(all, (g: Flow) => g.table != OF_TABLE_INPUT), (g: Flow) => g.table != OF_TABLE_OUTPUT, f);
      KeptFlows(b, peers, f);
    }
  }

  lemma KeptFlows(b: BridgeView, peers: seq<Ip>, f: Flow)
    ensures f in DefaultPipeline(b, peers) && f.table != OF_TABLE_INPUT && f.table != OF_TABLE_OUTPUT
        <==> f in FIXED_STAGES || f in DEFAULT_ACL
  {
    if f in OutputFlows(b, Native, false, peers) { OutputActionsPlain(b, Native, false, peers, f); }
  }

  // The default pipeline and then the overlay's tables.
  method FlowSetup(br: Bridge, deploy: Deploy, md: bool, peers: seq<Ip>) returns (ok: bool)
    requires !deploy.Unknown?
    modifies br`flows, br`withMd
    ensures ok <==> NoEmptyVni(old(br.View()))
    ensures if ok then Installed(br.flows, old(br.View()), deploy, md, peers, DEFAULT_ACL) else br.flows == []
    ensures br.withMd == (old(br.withMd) || (ok && md))
  {
    ghost var b := br.View();
    ok := SetupDefaultPipeline(br, peers);
    if ok {
      assert br.View() == b;
      ok := OverlayFlowSetup(br, deploy, md, peers);
      ReplacedTables(br.flows, b, deploy, md, peers);
    }
  }

  lemma SameVnis(b: BridgeView, b': BridgeView)
    requires b.vnis == b'.vnis
    ensures NoEmptyVni(b) <==> NoEmptyVni(b')
  {
    FullIs(b, |b.vnis|);
    FullIs(b', |b'.vnis|);
  }

  // With an index that follows the interfaces, flow generation never meets a VNI without one.
  lemma IndexedNeverEmpty(b: BridgeView)
    requires b.vnis == VniIndex(b.vifs, Vnis(b.vifs))
    ensures NoEmptyVni(b)
  {
    VniIndexGroups(b.vifs, Vnis(b.vifs));
    FullIs(b, |b.vnis|);
  }

  // Deploys one of the overlays that use the uplink.
  method DeployL2Overlay(br: Bridge, deploy: Deploy, peers: seq<Ip>) returns (ok: bool)
    requires deploy.Vlan? || deploy.Qinq?
    modifies br`flows, br`withMd
    ensures ok <==> NoEmptyVni(old(br.View()))
    ensures if ok then Installed(br.flows, old(br.View()), deploy, false, peers, DEFAULT_ACL) else br.flows == []
    ensures br.withMd == old(br.withMd)
  {
    ok := FlowSetup(br, deploy, false, peers);
  }

  method DeployTunnelOverlay(br: Bridge, peers: seq<Ip>, ripFlow: bool, vniFlow: bool, md: bool) returns (ok: bool)
    modifies br`flows, br`withMd, br`tnlPorts, br.tunnelIds
    ensures var (s, created) := CreateAll(old(State(br)), Wanted(KeysOf(br.vnis), peers, ripFlow, vniFlow));
      && State(br) == s
      && (ok <==> created && NoEmptyVni(old(br.View())))
      && (ok ==> Installed(br.flows, old(br.View()).(tnls := s.ports), Tnl, md, peers, DEFAULT_ACL))
      && (!ok ==> br.flows == if created then [] else old(br.flows))
      && br.withMd == (old(br.withMd) || (ok && md))
  {
    ghost var b := br.View();
    ok := CreateTunnelPorts(br, peers, ripFlow, vniFlow);
    if ok {
      assert br.View() == b.(tnls := br.tnlPorts);
      SameVnis(b, br.View());
      ok := FlowSetup(br, Tnl, md, peers);
    }
  }

  method UndeployTunnelOverlay(br: Bridge)
    modifies br`flows, br`withMd, br`tnlPorts, br.tunnelIds
    ensures br.flows == [] && !br.withMd
    ensures State(br) == DeletePass(old(State(br)))
  {
    br.DelFlows();
    br.withMd := false;
    DeleteTunnelPorts(br);
  }

  // ---- a deployment on a clean bridge is one the isolation theorems speak about ----

  // Starting without tunnel ports, every mode creates the ports the two-host theorems assume.
  lemma CleanDeployment(b: BridgeView, s: Tunnels, peer: Ip, ripFlow: bool, vniFlow: bool)
    requires s.ports == [] && b.tnls == CreateAll(s, Wanted(KeysOf(b.vnis), [peer], ripFlow, vniFlow)).0.ports
    requires CreateAll(s, Wanted(KeysOf(b.vnis), [peer], ripFlow, vniFlow)).1
    ensures TunnelsOk(b, peer)
  {
    var want := Wanted(KeysOf(b.vnis), [peer], ripFlow, vniFlow);
    CreateAllPorts(s, want);
    if !ripFlow {
      FlatMapOne([peer], PerPeer(vniFlow, KeysOf(b.vnis)));
    }
  }
}
