/** One host end to end: from the division of its resources over its interfaces, bridge, VNIs and
    deployment to a host the two-host theorems speak about. */
module Assembly {
  import opened Wrappers
  import opened Seqs
  import opened Constants
  import opened OpenFlow
  import opened Ports
  import opened FlowTables
  import opened Lookups
  import opened Switching
  import opened Network
  import opened Vswitch
  import opened TunnelIds
  import FlowUtils
  import opened Overlay
  import opened Conntrack
  import opened Firewall
  import opened Deployment
  import T = Topology
  import Allocation

  // ---- a host's interfaces ----

  // The objects carry the ports, hardware and network addresses of a list of interfaces.
  ghost predicate Identified(vifs: seq<Vif>, ifaces: seq<T.Iface>)
    reads vifs
  {
    && |vifs| == |ifaces|
    && forall i :: 0 <= i < |vifs| ==>
         && vifs[i].ofp == ifaces[i].ofp && vifs[i].mac == Some(ifaces[i].mac)
         && vifs[i].ifAddr == Some(ifaces[i].addr) && vifs[i].restoreIfAddr == None
  }

  // The objects as they are made: on no VNI yet.
  ghost predicate AsMade(vifs: seq<Vif>, ifaces: seq<T.Iface>)
    reads vifs
  {
    Identified(vifs, ifaces) && forall i :: 0 <= i < |vifs| ==> vifs[i].vni == VNI_NONE
  }

  method MakeVifs(ifaces: seq<T.Iface>) returns (vifs: seq<Vif>)
    ensures fresh(vifs) && Distinct(vifs) && AsMade(vifs, ifaces)
  {
    vifs := [];
    for i := 0 to |ifaces|
      invariant fresh(vifs) && Distinct(vifs) && AsMade(vifs, ifaces[..i])
    {
      var vif := MakeVif(ifaces[i]);
      AsMadeMore(vifs, ifaces[..i], [vif], [ifaces[i]]);
      assert ifaces[..i + 1] == ifaces[..i] + [ifaces[i]];
      vifs := vifs + [vif];
    }
  }

  method MakeVif(iface: T.Iface) returns (vif: Vif)
    ensures fresh(vif) && AsMade([vif], [iface])
  {
    vif := new Vif(iface.ofp, Some(iface.mac));
    vif.ifAddr := Some(iface.addr);
  }

  class Sut {
    // The list the VNI assignment walks, and the interfaces of the VMs of all NUMA nodes in order.
    var vms: seq<seq<Vif>>
    var vifs: seq<Vif>

    constructor (nodes: seq<T.Node>)
      ensures vms == [] && fresh(vifs) && Distinct(vifs) && AsMade(vifs, Allocation.AllIfaces(nodes))
    {
      var all := MakeNodes(nodes);
      vms, vifs := [], all;
    }

    // The VMs of all NUMA nodes, each with its interfaces.
    function GetVms(): seq<seq<Vif>>
      reads this
    {
      VmPairs(vifs)
    }
  }

  function VmPairs(vifs: seq<Vif>): seq<seq<Vif>> {
    seq(|vifs| / T.VIFS_PER_VM, k requires 0 <= k < |vifs| / T.VIFS_PER_VM => [vifs[2 * k], vifs[2 * k + 1]])
  }

  lemma AsMadeMore(vifs: seq<Vif>, ifaces: seq<T.Iface>, more: seq<Vif>, others: seq<T.Iface>)
    requires AsMade(vifs, ifaces) && AsMade(more, others)
    ensures AsMade(vifs + more, ifaces + others)
  {
  }

  method MakeNodes(nodes: seq<T.Node>) returns (vifs: seq<Vif>)
    ensures fresh(vifs) && Distinct(vifs) && AsMade(vifs, Allocation.AllIfaces(nodes))
  {
    vifs := [];
    ghost var gen := Allocation.NodeIfaces();
    for i := 0 to |nodes|
      invariant fresh(vifs) && Distinct(vifs) && AsMade(vifs, FlatMap(nodes[..i], gen))
    {
      FlatMapStep(nodes, i, gen);
      var more := MakeVms(nodes[i].vms);
      AsMadeMore(vifs, FlatMap(nodes[..i], gen), more, Allocation.VmIfaces(nodes[i].vms));
      vifs := vifs + more;
    }
    assert nodes[..|nodes|] == nodes;
  }

  // The interfaces of the VMs of one node.
  method MakeVms(vms: seq<T.Vm>) returns (vifs: seq<Vif>)
    ensures fresh(vifs) && Distinct(vifs) && AsMade(vifs, Allocation.VmIfaces(vms))
  {
    vifs := [];
    for i := 0 to |vms|
      invariant fresh(vifs) && Distinct(vifs) && AsMade(vifs, Allocation.VmIfaces(vms[..i]))
    {
      assert vms[..i + 1][..i] == vms[..i];
      var more := MakeVifs(vms[i].vifs);
      AsMadeMore(vifs, Allocation.VmIfaces(vms[..i]), more, vms[i].vifs);
      vifs := vifs + more;
    }
    assert vms[..|vms|] == vms;
  }

  // ---- the bridge ----

  // The bridge's own interface.
  ghost predicate IsTap(v: Vif)
    reads v
  {
    v.ofp == OFP_LOCAL && v.mac == None && v.vni == VNI_NONE
  }

  // A bridge with its own interface, an uplink, and the guests' interfaces attached in order.
  method BuildBridge(sut: Sut) returns (br: Bridge)
    ensures fresh(br) && fresh(br.tunnelIds) && br.Agrees()
    ensures |br.vifs| == |sut.vifs| + 1 && br.vifs[1..] == sut.vifs
    ensures fresh(br.vifs[0]) && IsTap(br.vifs[0])
    ensures br.uplinks == [OFP_UPLINK_BASE] && State(br) == FRESH && br.flows == [] && !br.withMd
  {
    br := new Bridge();
    br.CreateUplink();
    AddVifs(br, sut.vifs);
  }

  method AddVifs(br: Bridge, vifs: seq<Vif>)
    modifies br`vifs, br`vnis
    ensures br.vifs == old(br.vifs) + vifs
    ensures old(br.Agrees()) ==> br.Agrees()
  {
    for i := 0 to |vifs|
      invariant br.vifs == old(br.vifs) + vifs[..i]
      invariant old(br.Agrees()) ==> br.Agrees()
    {
      br.AddVif(vifs[i]);
    }
  }

  // ---- deployment ----

  // A bridge whose index follows its interfaces can always be programmed.
  lemma Programmable(br: Bridge)
    requires br.Agrees()
    ensures br.View().vnis == VniIndex(br.View().vifs, Vnis(br.View().vifs)) && FlowUtils.NoEmptyVni(br.View())
  {
    br.ViewIndexed();
    IndexedNeverEmpty(br.View());
  }

  ghost predicate AllFit(br: Bridge, deploy: Deploy)
    reads br`vifs, br.vifs
  {
    forall i :: 0 <= i < |br.vifs| ==> VniFits(deploy, br.vifs[i].vni)
  }

  lemma ViewFits(br: Bridge, deploy: Deploy)
    requires AllFit(br, deploy)
    ensures forall w :: w in br.View().vifs ==> VniFits(deploy, w.vni)
  {
    assert br.View().vifs == br.Views();
  }

  // The modes that use the uplink; without an overlay all guests stay on one VNI.
  predicate OnUplink(deploy: Deploy, walkVms: bool) {
    deploy.Vlan? || deploy.Qinq? || (deploy.Native? && !walkVms)
  }

  // The default pipeline, and an overlay on top of it when there is one.
  method ProgramL2(br: Bridge, deploy: Deploy, peer: Ip) returns (ok: bool)
    requires deploy.Vlan? || deploy.Qinq? || deploy.Native?
    requires br.Agrees() && |br.uplinks| == 1 && AllFit(br, deploy)
    modifies br`flows, br`withMd
    ensures ok && br.View() == old(br.View())
    ensures Provisioned(br.View(), deploy, false, peer, br.flows, DEFAULT_ACL)
  {
    Programmable(br);
    ViewFits(br, deploy);
    ghost var b := br.View();
    ok := InstallL2(br, deploy, peer);
    assert br.View() == b;
  }

  method InstallL2(br: Bridge, deploy: Deploy, peer: Ip) returns (ok: bool)
    requires deploy.Vlan? || deploy.Qinq? || deploy.Native?
    modifies br`flows, br`withMd
    ensures ok <==> FlowUtils.NoEmptyVni(old(br.View()))
    ensures ok ==> Installed(br.flows, old(br.View()), deploy, false, [peer], DEFAULT_ACL)
  {
    if deploy.Native? {
      ok := FlowUtils.SetupDefaultPipeline(br, [peer]);
    } else {
      ok := DeployL2Overlay(br, deploy, [peer]);
    }
  }

  // A tunnel deployment on a bridge without tunnel ports fails only for lack of port numbers.
  method ProgramTunnels(br: Bridge, peer: Ip, ripFlow: bool, vniFlow: bool, md: bool) returns (ok: bool)
    requires br.Agrees() && br.tnlPorts == [] && AllFit(br, Tnl)
    modifies br`flows, br`withMd, br`tnlPorts, br.tunnelIds
    ensures ok <==> |Wanted(KeysOf(old(br.vnis)), [peer], ripFlow, vniFlow)| <= |old(br.tunnelIds.ids)|
    ensures State(br) == Apply(old(State(br)), CreateOp(KeysOf(old(br.vnis)), [peer], ripFlow, vniFlow))
    ensures br.View() == old(br.View()).(tnls := br.tnlPorts)
    ensures ok ==> Provisioned(br.View(), Tnl, md, peer, br.flows, DEFAULT_ACL)
  {
    Programmable(br);
    ViewFits(br, Tnl);
    ghost var b, s, want := br.View(), State(br), Wanted(KeysOf(br.vnis), [peer], ripFlow, vniFlow);
    SameKeys(br);
    CreateAllFails(s, want);
    ok := DeployTunnelOverlay(br, [peer], ripFlow, vniFlow, md);
    assert br.View() == b.(tnls := br.tnlPorts);
    if ok { CleanDeployment(br.View(), s, peer, ripFlow, vniFlow); }
  }

  lemma SameKeys(br: Bridge)
    ensures KeysOf(br.View().vnis) == KeysOf(br.vnis)
  {
  }

  // The stateful ACL on a host, with the drop flows when it has the protected endpoint.
  method SwapAcl(br: Bridge, proto: Proto, guard: Option<Mac>)
    modifies br`flows
    ensures br.View() == old(br.View())
    ensures br.flows == Swapped(old(br.flows), old(br.View()), proto, guard)
  {
    AclSetupAllowProto(br, proto);
    if guard.Some? {
      DropInbound(br, guard.value, proto);
    } else {
      assert br.flows + [] == br.flows;
    }
  }

  method ProgramFirewall(br: Bridge, proto: Proto, guard: Option<Mac>, ghost deploy: Deploy, ghost md: bool,
                         ghost peer: Ip, ghost acl: seq<Flow>)
    requires !deploy.Unknown? && AclShaped(acl) && Provisioned(br.View(), deploy, md, peer, br.flows, acl)
    modifies br`flows
    ensures br.View() == old(br.View())
    ensures Provisioned(old(br.View()), deploy, md, peer, br.flows, HostAcl(old(br.View()), proto, guard))
  {
    ghost var b, was := br.View(), br.flows;
    SwapAcl(br, proto, guard);
    FirewallProvisioned(b, deploy, md, peer, was, acl, br.flows, proto, guard);
  }

  lemma FirewallProvisioned(b: BridgeView, deploy: Deploy, md: bool, peer: Ip, was: seq<Flow>, acl: seq<Flow>,
                            now: seq<Flow>, proto: Proto, guard: Option<Mac>)
    requires !deploy.Unknown? && AclShaped(acl) && Provisioned(b, deploy, md, peer, was, acl)
    requires now == Swapped(was, b, proto, guard)
    ensures Provisioned(b, deploy, md, peer, now, HostAcl(b, proto, guard))
  {
    var swapped := Filter(was, (f: Flow) => f.table != OF_TABLE_ACL) + AllowProto(b, proto);
    AclInstalled(was, swapped, b, deploy, md, [peer], acl, proto);
    if guard.Some? {
      OriginateInstalled(swapped, b, deploy, md, [peer], proto, guard.value);
    } else {
      assert swapped + [] == swapped && AllowProto(b, proto) + [] == AllowProto(b, proto);
    }
  }

  // ---- from a host's set-up on ----

  // The VNIs after an assignment that walked a list of VMs of the host.
  ghost predicate VnisAssigned(br: Bridge, walked: bool)
    reads br`vifs, br.vifs
  {
    && br.vifs != [] && br.vifs[0].vni == VNI_NONE
    && forall i :: 0 < i < |br.vifs| ==>
         br.vifs[i].vni == if walked then VNI_BASE_BY_IDX_ON_VM + (i - 1) % 2 else VNI_NONE
  }

  // The bridge of a host as set up, with its ports.
  ghost predicate OnPorts(br: Bridge)
    reads br`vifs, br.vifs
  {
    && br.vifs != [] && br.vifs[0].ofp == OFP_LOCAL
    && forall i :: 0 < i < |br.vifs| ==> br.vifs[i].ofp == OFP_VHOST_BASE + i
  }

  lemma ViewAssembled(br: Bridge, ops: seq<Op>)
    requires OnPorts(br) && (br.uplinks == [] || br.uplinks == [OFP_UPLINK_BASE]) && br.tnlPorts == ApplyAll(ops).ports
    ensures Assembled(br.View(), ops) && |br.View().vifs| == |br.vifs|
  {
  }

  // A host's interfaces, its bridge with all of them attached, and a VNI assignment: over the list
  // the host keeps, as the source calls it, or over its VMs.
  method Assemble(nodes: seq<T.Node>, walkVms: bool) returns (sut: Sut, br: Bridge)
    requires Allocation.GuestsOnPorts(Allocation.AllIfaces(nodes))
    ensures fresh(br) && fresh(br.tunnelIds) && fresh(br.vifs) && br.Agrees() && VnisAssigned(br, walkVms)
    ensures Populated(br, Allocation.AllIfaces(nodes))
    ensures br.uplinks == [OFP_UPLINK_BASE] && State(br) == FRESH
  {
    sut, br := AssembleBare(nodes);
    AllPopulated(sut, br, Allocation.AllIfaces(nodes));
    AssignPopulated(sut, br, walkVms, Allocation.AllIfaces(nodes));
  }

  method AssignPopulated(sut: Sut, br: Bridge, walkVms: bool, ghost ifaces: seq<T.Iface>)
    requires sut.vms == [] && OnBridge(sut, br) && Populated(br, ifaces)
    requires forall v :: v in sut.vifs ==> v.vni == VNI_NONE
    modifies br`vnis, sut.vifs`vni
    ensures br.Agrees() && VnisAssigned(br, walkVms) && Populated(br, ifaces)
  {
    AssignByVm(sut, br, walkVms);
  }

  // The same before VNIs are assigned.
  method AssembleBare(nodes: seq<T.Node>) returns (sut: Sut, br: Bridge)
    ensures fresh(br) && fresh(br.tunnelIds) && fresh(sut.vifs) && fresh(br.vifs) && br.Agrees()
    ensures sut.vms == [] && Distinct(sut.vifs) && AsMade(sut.vifs, Allocation.AllIfaces(nodes))
    ensures |br.vifs| == |sut.vifs| + 1 && br.vifs[1..] == sut.vifs && br.vifs[0] !in sut.vifs
    ensures IsTap(br.vifs[0]) && br.uplinks == [OFP_UPLINK_BASE] && State(br) == FRESH
  {
    sut := new Sut(nodes);
    br := BuildBridge(sut);
    FreshVifs(br, sut);
  }

  twostate lemma FreshVifs(new br: Bridge, new sut: Sut)
    requires fresh(sut.vifs) && |br.vifs| == |sut.vifs| + 1 && br.vifs[1..] == sut.vifs && fresh(br.vifs[0])
    ensures fresh(br.vifs)
  {
    forall i | 0 <= i < |br.vifs| ensures fresh(br.vifs[i]) { if i > 0 { assert br.vifs[i] == br.vifs[1..][i - 1]; } }
  }

  // The bridge carries the interfaces of the host's guests behind its own.
  ghost predicate Populated(br: Bridge, ifaces: seq<T.Iface>)
    reads br`vifs, br.vifs
  {
    OnPorts(br) && Distinct(br.vifs) && br.vifs[0].mac == None && Identified(br.vifs[1..], ifaces)
  }

  lemma AllPopulated(sut: Sut, br: Bridge, ifaces: seq<T.Iface>)
    requires |br.vifs| == |sut.vifs| + 1 && br.vifs[1..] == sut.vifs && br.vifs[0] !in sut.vifs && IsTap(br.vifs[0])
    requires Distinct(sut.vifs) && Identified(sut.vifs, ifaces) && Allocation.GuestsOnPorts(ifaces)
    ensures Populated(br, ifaces)
  {
    forall i | 0 < i < |br.vifs| ensures br.vifs[i].ofp == OFP_VHOST_BASE + i {
      assert br.vifs[i] == br.vifs[1..][i - 1];
    }
    forall i, j | 0 <= i < j < |br.vifs| ensures br.vifs[i] != br.vifs[j] {
      assert br.vifs[j] == br.vifs[1..][j - 1];
      if i > 0 { assert br.vifs[i] == br.vifs[1..][i - 1]; }
    }
  }

  // The assignment walks the host's own list of VMs, as the source calls it, or its VMs.
  method AssignByVm(sut: Sut, br: Bridge, walkVms: bool)
    requires sut.vms == [] && OnBridge(sut, br) && forall v :: v in sut.vifs ==> v.vni == VNI_NONE
    modifies br`vnis, sut.vifs`vni
    ensures br.Agrees() && VnisAssigned(br, walkVms)
  {
    if walkVms { AssignWalked(sut, br); } else { AssignAsCalled(sut, br); }
  }

  // The bridge carries its own interface and the host's, two for each VM.
  ghost predicate OnBridge(sut: Sut, br: Bridge)
    reads sut`vifs, br`vifs, br.vifs
  {
    && Distinct(sut.vifs) && |sut.vifs| % 2 == 0
    && |br.vifs| == |sut.vifs| + 1 && br.vifs[1..] == sut.vifs && br.vifs[0] !in sut.vifs && br.vifs[0].vni == VNI_NONE
  }

  // The list a host keeps is empty after its set-up, so no VNI changes.
  method AssignAsCalled(sut: Sut, br: Bridge)
    requires sut.vms == [] && OnBridge(sut, br) && forall v :: v in sut.vifs ==> v.vni == VNI_NONE
    modifies br`vnis
    ensures br.Agrees() && br.Keys() == old(br.Keys()) && VnisAssigned(br, false)
  {
    SetVifVniByIdxOnVm(sut.vms, br);
    forall i | 0 < i < |br.vifs| ensures br.vifs[i].vni == VNI_NONE { assert br.vifs[i] == br.vifs[1..][i - 1]; }
  }

  method AssignWalked(sut: Sut, br: Bridge)
    requires OnBridge(sut, br)
    modifies br`vnis, sut.vifs`vni
    ensures br.Agrees() && VnisAssigned(br, true)
  {
    var vms := sut.GetVms();
    PairsFlat(sut.vifs);
    assert forall i :: 0 <= i < |Flatten(vms)| ==> Flatten(vms)[i] in sut.vifs;
    SetVifVniByIdxOnVm(vms, br);
    forall i | 0 < i < |br.vifs| ensures br.vifs[i].vni == VNI_BASE_BY_IDX_ON_VM + (i - 1) % 2 {
      assert br.vifs[i] == br.vifs[1..][i - 1] && vms[(i - 1) / 2][(i - 1) % 2] == sut.vifs[i - 1];
    }
  }

  lemma PairsFlat(vifs: seq<Vif>)
    requires Distinct(vifs) && |vifs| % 2 == 0
    ensures DistinctVifs(VmPairs(vifs)) && forall v :: v in Flatten(VmPairs(vifs)) ==> v in vifs
  {
    forall v | v in Flatten(VmPairs(vifs)) ensures v in vifs { InFlatten(VmPairs(vifs), v); }
  }

  // ---- whole hosts ----

  lemma AssignedSmall(br: Bridge, walked: bool, deploy: Deploy)
    requires VnisAssigned(br, walked) && (deploy.Tnl? || OnUplink(deploy, walked))
    ensures AllFit(br, deploy) && forall i :: 0 <= i < |br.vifs| ==> br.vifs[i].vni < 0x1_0000
  {
  }

  // Guests with two interfaces each, on consecutive ports that stay clear of the tunnels'.
  predicate Sized(nodes: seq<T.Node>) {
    Allocation.GuestsOnPorts(Allocation.AllIfaces(nodes)) && |Allocation.AllIfaces(nodes)| <= 89
  }

  // A host as the two-host theorems see it.
  function SideOf(br: Bridge, tep: Ip, acl: seq<Flow>): Side
    reads br`vifs, br`vnis, br`tnlPorts, br`uplinks, br`flows, br.vifs
    reads set i, j | 0 <= i < |br.vnis| && 0 <= j < |br.vnis[i].vifs| :: br.vnis[i].vifs[j]
  {
    Side(br.View(), tep, acl, br.flows)
  }

  // A host from its guests to the default pipeline or a vlan or qinq overlay.
  method HostL2(nodes: seq<T.Node>, walkVms: bool, deploy: Deploy, peer: Ip, ghost tep: Ip) returns (br: Bridge)
    requires Sized(nodes) && OnUplink(deploy, walkVms)
    ensures fresh(br) && fresh(br.vifs) && VnisAssigned(br, walkVms) && Populated(br, Allocation.AllIfaces(nodes))
    ensures BuiltFor(Built(SideOf(br, tep, DEFAULT_ACL), []), deploy, false, peer)
  {
    var sut;
    sut, br := Assemble(nodes, walkVms);
    AssignedSmall(br, walkVms, deploy);
    assert br.tnlPorts == ApplyAll([]).ports;
    ViewAssembled(br, []);
    var ok := ProgramL2(br, deploy, peer);
  }

  // The same with a tunnel overlay: a host of that size never runs out of port numbers.
  method HostTunnels(nodes: seq<T.Node>, walkVms: bool, peer: Ip, ripFlow: bool, vniFlow: bool, md: bool, ghost tep: Ip)
    returns (br: Bridge, ghost ops: seq<Op>)
    requires Sized(nodes)
    ensures fresh(br) && fresh(br.vifs) && VnisAssigned(br, walkVms) && Populated(br, Allocation.AllIfaces(nodes))
    ensures BuiltFor(Built(SideOf(br, tep, DEFAULT_ACL), ops), Tnl, md, peer)
  {
    var sut;
    sut, br := Assemble(nodes, walkVms);
    ops := TunnelsOnBridge(br, walkVms, peer, ripFlow, vniFlow, md, tep);
  }

  method TunnelsOnBridge(br: Bridge, ghost walked: bool, peer: Ip, ripFlow: bool, vniFlow: bool, md: bool,
                        ghost tep: Ip)
    returns (ghost ops: seq<Op>)
    requires br.Agrees() && State(br) == FRESH && OnPorts(br) && VnisAssigned(br, walked) && |br.vifs| <= 90
    requires br.uplinks == [OFP_UPLINK_BASE]
    modifies br`flows, br`withMd, br`tnlPorts, br.tunnelIds
    ensures BuiltFor(Built(SideOf(br, tep, DEFAULT_ACL), ops), Tnl, md, peer)
  {
    AssignedSmall(br, walked, Tnl);
    ops := TunnelsOnFresh(br, peer, ripFlow, vniFlow, md);
    ViewAssembled(br, ops);
  }

  method TunnelsOnFresh(br: Bridge, peer: Ip, ripFlow: bool, vniFlow: bool, md: bool) returns (ghost ops: seq<Op>)
    requires br.Agrees() && State(br) == FRESH && AllFit(br, Tnl) && |br.vifs| <= 90
    modifies br`flows, br`withMd, br`tnlPorts, br.tunnelIds
    ensures br.tnlPorts == ApplyAll(ops).ports && Provisioned(br.View(), Tnl, md, peer, br.flows, DEFAULT_ACL)
  {
    ops := [CreateOp(KeysOf(br.vnis), [peer], ripFlow, vniFlow)];
    OneOp(ops[0]);
    VniIndexSmall(br.vifs, br.Keys());
    FewWanted(KeysOf(br.vnis), peer, ripFlow, vniFlow);
    var ok := ProgramTunnels(br, peer, ripFlow, vniFlow, md);
    assert ok;
  }

  lemma OneOp(op: Op)
    ensures ApplyAll([op]) == Apply(FRESH, op)
  {
    assert [op][..0] == [] && ApplyAll([]) == FRESH;
  }

  // Towards one peer a deployment wants one port, or one per VNI.
  lemma FewWanted(vnis: seq<nat>, peer: Ip, ripFlow: bool, vniFlow: bool)
    ensures |Wanted(vnis, [peer], ripFlow, vniFlow)| == if vniFlow then 1 else |vnis|
    ensures |FRESH.ids| == 101
  {
    if !ripFlow { FlatMapOne([peer], PerPeer(vniFlow, vnis)); }
  }

  // Two bridges with the guests' interfaces of their hosts, none of them on both.
  ghost predicate Apart(a: Bridge, nodesA: seq<T.Node>, b: Bridge, nodesB: seq<T.Node>)
    reads a`vifs, a.vifs, b`vifs, b.vifs
  {
    && a != b && Populated(a, Allocation.AllIfaces(nodesA)) && Populated(b, Allocation.AllIfaces(nodesB))
    && forall v :: v in a.vifs ==> v !in b.vifs
  }

  // Two hosts built and deployed towards each other form a network the run theorems apply to.
  method TwoHosts(nodesA: seq<T.Node>, tepA: Ip, nodesB: seq<T.Node>, tepB: Ip, walkVms: bool, deploy: Deploy)
    returns (a: Bridge, b: Bridge)
    requires Sized(nodesA) && Sized(nodesB) && OnUplink(deploy, walkVms)
    ensures fresh(a) && fresh(b) && VnisAssigned(a, walkVms) && VnisAssigned(b, walkVms)
    ensures Apart(a, nodesA, b, nodesB)
    ensures BuiltFor(Built(SideOf(a, tepA, DEFAULT_ACL), []), deploy, false, tepB)
    ensures BuiltFor(Built(SideOf(b, tepB, DEFAULT_ACL), []), deploy, false, tepA)
    ensures ConfigOk(Config(deploy, false, SideOf(a, tepA, DEFAULT_ACL), SideOf(b, tepB, DEFAULT_ACL)))
  {
    a := HostL2(nodesA, walkVms, deploy, tepB, tepA);
    ghost var x := SideOf(a, tepA, DEFAULT_ACL);
    b := HostBeside(a, x, nodesA, nodesB, walkVms, deploy, tepA, tepB);
    DefaultAclShaped();
    DeployedNetwork(deploy, false, Built(x, []), Built(SideOf(b, tepB, DEFAULT_ACL), []));
  }

  // Building a host leaves another as it is.
  method HostBeside(a: Bridge, ghost x: Side, ghost nodesA: seq<T.Node>, nodes: seq<T.Node>, walkVms: bool,
                    deploy: Deploy, peer: Ip, ghost tep: Ip)
    returns (b: Bridge)
    requires Sized(nodes) && OnUplink(deploy, walkVms)
    requires x == SideOf(a, x.tep, x.acl) && VnisAssigned(a, walkVms) && Populated(a, Allocation.AllIfaces(nodesA))
    ensures fresh(b) && VnisAssigned(b, walkVms)
    ensures BuiltFor(Built(SideOf(b, tep, DEFAULT_ACL), []), deploy, false, peer)
    ensures x == SideOf(a, x.tep, x.acl) && VnisAssigned(a, walkVms) && Apart(a, nodesA, b, nodes)
  {
    b := HostL2(nodes, walkVms, deploy, peer, tep);
  }

  // The same with tunnels.
  method TwoTunnelHosts(nodesA: seq<T.Node>, tepA: Ip, nodesB: seq<T.Node>, tepB: Ip, walkVms: bool,
                        ripFlow: bool, vniFlow: bool, md: bool)
    returns (a: Bridge, b: Bridge)
    requires Sized(nodesA) && Sized(nodesB)
    ensures fresh(a) && fresh(b) && Apart(a, nodesA, b, nodesB)
    ensures ConfigOk(Config(Tnl, md, SideOf(a, tepA, DEFAULT_ACL), SideOf(b, tepB, DEFAULT_ACL)))
  {
    ghost var opsA, opsB;
    a, opsA := HostTunnels(nodesA, walkVms, tepB, ripFlow, vniFlow, md, tepA);
    ghost var x := SideOf(a, tepA, DEFAULT_ACL);
    b, opsB := TunnelsBeside(a, x, nodesA, nodesB, walkVms, tepA, ripFlow, vniFlow, md, tepB);
    DefaultAclShaped();
    DeployedNetwork(Tnl, md, Built(x, opsA), Built(SideOf(b, tepB, DEFAULT_ACL), opsB));
  }

  method TunnelsBeside(a: Bridge, ghost x: Side, ghost nodesA: seq<T.Node>, nodes: seq<T.Node>, walkVms: bool, peer: Ip,
                       ripFlow: bool, vniFlow: bool, md: bool, ghost tep: Ip)
    returns (b: Bridge, ghost ops: seq<Op>)
    requires Sized(nodes) && x == SideOf(a, x.tep, x.acl) && Populated(a, Allocation.AllIfaces(nodesA))
    ensures fresh(b) && x == SideOf(a, x.tep, x.acl) && Apart(a, nodesA, b, nodes)
    ensures BuiltFor(Built(SideOf(b, tep, DEFAULT_ACL), ops), Tnl, md, peer)
  {
    b, ops := HostTunnels(nodes, walkVms, peer, ripFlow, vniFlow, md, tep);
  }

  // A host with the stateful ACL.
  ghost predicate Walled(x: Side, deploy: Deploy, peer: Ip, proto: Proto, guard: Option<Mac>) {
    && BuiltFor(Built(x, []), deploy, false, peer) && x.acl == HostAcl(x.br, proto, guard)
    && forall w :: w in x.br.vifs ==> w.vni < 0x1_0000
  }

  // The flows a host has after its ACL is swapped.
  function Swapped(flows: seq<Flow>, b: BridgeView, proto: Proto, guard: Option<Mac>): seq<Flow> {
    Filter(flows, (f: Flow) => f.table != OF_TABLE_ACL) + AllowProto(b, proto)
    + (if guard.Some? then OriginateOnly(guard.value, proto) else [])
  }

  method SwapBoth(a: Bridge, b: Bridge, proto: Proto, guardA: Option<Mac>, guardB: Option<Mac>)
    requires a != b
    modifies a`flows, b`flows
    ensures a.View() == old(a.View()) && a.flows == Swapped(old(a.flows), old(a.View()), proto, guardA)
    ensures b.View() == old(b.View()) && b.flows == Swapped(old(b.flows), old(b.View()), proto, guardB)
  {
    SwapBeside(a, b, proto, guardA);
    SwapBeside(b, a, proto, guardB);
  }

  method SwapBeside(br: Bridge, other: Bridge, proto: Proto, guard: Option<Mac>)
    requires br != other
    modifies br`flows
    ensures br.View() == old(br.View()) && br.flows == Swapped(old(br.flows), old(br.View()), proto, guard)
    ensures other.View() == old(other.View())
  {
    SwapAcl(br, proto, guard);
    other.ViewKept();
  }

  // With the stateful ACL on both and one protected endpoint on the first, a network the firewall
  // theorems apply to.
  method TwoFirewalls(nodesA: seq<T.Node>, tepA: Ip, nodesB: seq<T.Node>, tepB: Ip, walkVms: bool, deploy: Deploy,
                      proto: Proto, mac: Mac)
    returns (a: Bridge, b: Bridge)
    requires Sized(nodesA) && Sized(nodesB) && OnUplink(deploy, walkVms)
    ensures FirewallOk(Config(deploy, false, SideOf(a, tepA, HostAcl(a.View(), proto, Some(mac))),
                              SideOf(b, tepB, HostAcl(b.View(), proto, None))), proto, Some((HostA, mac)))
  {
    a, b := TwoHosts(nodesA, tepA, nodesB, tepB, walkVms, deploy);
    ghost var x := GuardedSide(a, proto, Some(mac), deploy, tepB, tepA, walkVms);
    ghost var y := GuardedSide(b, proto, None, deploy, tepA, tepB, walkVms);
    WalledPair(x.side, y.side, deploy, proto, mac);
    SwapBoth(a, b, proto, Some(mac), None);
  }

  lemma WalledPair(x: Side, y: Side, deploy: Deploy, proto: Proto, mac: Mac)
    requires !deploy.Unknown?
    requires Walled(x, deploy, y.tep, proto, Some(mac)) && Walled(y, deploy, x.tep, proto, None)
    ensures FirewallOk(Config(deploy, false, x, y), proto, Some((HostA, mac)))
  {
    DeployedFirewall(deploy, false, Built(x, []), Built(y, []), proto, Some((HostA, mac)));
  }

  // The host after its ACL is swapped.
  lemma GuardedSide(br: Bridge, proto: Proto, guard: Option<Mac>, deploy: Deploy, peer: Ip, tep: Ip, walkVms: bool)
    returns (x: Built)
    requires OnUplink(deploy, walkVms) && VnisAssigned(br, walkVms)
    requires BuiltFor(Built(SideOf(br, tep, DEFAULT_ACL), []), deploy, false, peer)
    ensures x.side == Side(br.View(), tep, HostAcl(br.View(), proto, guard), Swapped(br.flows, br.View(), proto, guard))
    ensures Walled(x.side, deploy, peer, proto, guard)
  {
    var b := br.View();
    DefaultAclShaped();
    var now := Swapped(br.flows, b, proto, guard);
    FirewallProvisioned(b, deploy, false, peer, br.flows, DEFAULT_ACL, now, proto, guard);
    x := Built(Side(b, tep, HostAcl(b, proto, guard), now), []);
    AssignedSmall(br, walkVms, deploy);
    assert b.vifs == br.Views();
  }

  // ---- from two machines on ----

  // What is known of a machine before its set-up.
  datatype Machine = Machine(spec: T.HostSpec, uplinks: seq<nat>, cpus: seq<T.Cpu>, pools: seq<Option<nat>>)

  // The nodes with their guests, and the tunnel endpoint, that the set-up of a machine provides.
  function Provided(m: Machine): Option<(seq<T.Node>, Ip)> {
    match T.SetupHost(m.spec, m.uplinks, m.cpus, m.pools)
    case Failure(_) => None
    case Success((division, tep)) => Some((division.nodes, tep.ipv4))
  }

  lemma SetupProvides(m: Machine)
    requires Provided(m).Some? && |m.pools| <= 22
    ensures Sized(Provided(m).value.0)
  {
    var c := m.spec.(pnic := T.PnicNode(m.uplinks).value);
    Allocation.SetupGuests(c, m.cpus, m.pools);
    Allocation.SmallHostsClear(c, m.cpus, m.pools);
  }

  method SetupMachine(m: Machine) returns (r: Option<(seq<T.Node>, Ip)>)
    requires |m.pools| <= 22
    ensures r == Provided(m) && (r.Some? ==> Sized(r.value.0))
  {
    var s := T.SetupSut(m.spec, m.uplinks, m.cpus, m.pools);
    if s.Failure? { return None; }
    r := Some((T.NodeViews(s.value.1), s.value.2.ipv4));
    SetupProvides(m);
  }

  // Two machines set up and deployed: when both can be set up, the rest cannot fail.
  method BringUpL2(m: Machine, m': Machine, walkVms: bool, deploy: Deploy) returns (r: Option<(Bridge, Bridge)>)
    requires |m.pools| <= 22 && |m'.pools| <= 22 && OnUplink(deploy, walkVms)
    ensures r.Some? <==> Provided(m).Some? && Provided(m').Some?
    ensures r.Some? ==>
              var ((nodes, tep), (nodes', tep')) := (Provided(m).value, Provided(m').value);
              && Apart(r.value.0, nodes, r.value.1, nodes')
              && ConfigOk(Config(deploy, false, SideOf(r.value.0, tep, DEFAULT_ACL),
                                 SideOf(r.value.1, tep', DEFAULT_ACL)))
  {
    var x := SetupMachine(m);
    var y := SetupMachine(m');
    if x == None || y == None { return None; }
    var a, b := TwoHosts(x.value.0, x.value.1, y.value.0, y.value.1, walkVms, deploy);
    r := Some((a, b));
  }

  method BringUpTunnels(m: Machine, m': Machine, walkVms: bool, ripFlow: bool, vniFlow: bool, md: bool)
    returns (r: Option<(Bridge, Bridge)>)
    requires |m.pools| <= 22 && |m'.pools| <= 22
    ensures r.Some? <==> Provided(m).Some? && Provided(m').Some?
    ensures r.Some? ==>
              var ((nodes, tep), (nodes', tep')) := (Provided(m).value, Provided(m').value);
              && Apart(r.value.0, nodes, r.value.1, nodes')
              && ConfigOk(Config(Tnl, md, SideOf(r.value.0, tep, DEFAULT_ACL), SideOf(r.value.1, tep', DEFAULT_ACL)))
  {
    var x := SetupMachine(m);
    var y := SetupMachine(m');
    if x == None || y == None { return None; }
    var a, b := TwoTunnelHosts(x.value.0, x.value.1, y.value.0, y.value.1, walkVms, ripFlow, vniFlow, md);
    r := Some((a, b));
  }

  method BringUpFirewalls(m: Machine, m': Machine, walkVms: bool, deploy: Deploy, proto: Proto, mac: Mac)
    returns (r: Option<(Bridge, Bridge)>)
    requires |m.pools| <= 22 && |m'.pools| <= 22 && OnUplink(deploy, walkVms)
    ensures r.Some? <==> Provided(m).Some? && Provided(m').Some?
    ensures r.Some? ==>
              var ((a, b), tep, tep') := (r.value, Provided(m).value.1, Provided(m').value.1);
              FirewallOk(Config(deploy, false, SideOf(a, tep, HostAcl(a.View(), proto, Some(mac))),
                                SideOf(b, tep', HostAcl(b.View(), proto, None))), proto, Some((HostA, mac)))
  {
    var x := SetupMachine(m);
    var y := SetupMachine(m');
    if x == None || y == None { return None; }
    var a, b := TwoFirewalls(x.value.0, x.value.1, y.value.0, y.value.1, walkVms, deploy, proto, mac);
    r := Some((a, b));
  }
}
