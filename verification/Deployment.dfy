/** From a host's set-up and a deployment to the two-host network: port numbers that never meet,
    tables that are complete, and so a network the run theorems speak about. */
module Deployment {
  import opened Wrappers
  import opened Constants
  import opened OpenFlow
  import opened Ports
  import opened FlowTables
  import opened FlowTableProps
  import opened Lookups
  import opened Switching
  import opened Network
  import opened TunnelIds
  import opened Overlay
  import opened Conntrack
  import opened Firewall
  import opened Honesty
  import opened Delivery

  // A bridge as it is assembled: its own interface, then the guests' interfaces on consecutive
  // ports, at most one uplink, and the tunnel ports of a run of deployments and removals.
  ghost predicate Assembled(b: BridgeView, ops: seq<Op>) {
    && b.vifs != [] && b.vifs[0].ofp == OFP_LOCAL
    && (forall i :: 0 < i < |b.vifs| ==> b.vifs[i].ofp == OFP_VHOST_BASE + i)
    && (b.uplinks == [] || b.uplinks == [OFP_UPLINK_BASE])
    && b.tnls == ApplyAll(ops).ports
  }

  // The three kinds of port numbers stay apart exactly as long as the bridge has no interface
  // beyond port 99, or no tunnel port that one of them meets.
  lemma PortsApart(b: BridgeView, ops: seq<Op>, deploy: Deploy)
    requires Assembled(b, ops)
    ensures PortsOk(b, deploy) <==>
              (deploy.Tnl? ==> forall t :: t in b.tnls ==> t.ofp >= OFP_VHOST_BASE + |b.vifs|)
    ensures |b.vifs| <= 90 ==> PortsOk(b, deploy)
  {
    TunnelIdConservation(ops);
    forall t | t in b.tnls ensures t.ofp in TnlOfps(b.tnls) { TnlOfpIn(b.tnls, t); }
    forall x | x in TnlOfps(b.tnls) ensures exists t :: t in b.tnls && t.ofp == x {
      var i :| 0 <= i < |b.tnls| && TnlOfps(b.tnls)[i] == x;
      assert b.tnls[i] in b.tnls;
    }
    if deploy.Tnl? {
      TunnelsApart(b);
    } else {
      UplinkApart(b, deploy);
    }
  }

  lemma UplinkApart(b: BridgeView, deploy: Deploy)
    requires b.vifs != [] && b.vifs[0].ofp == OFP_LOCAL
    requires forall i :: 0 < i < |b.vifs| ==> b.vifs[i].ofp == OFP_VHOST_BASE + i
    requires (b.uplinks == [] || b.uplinks == [OFP_UPLINK_BASE]) && !deploy.Tnl?
    ensures PortsOk(b, deploy)
  {
    assert forall w :: w in b.vifs ==> w.ofp == OFP_LOCAL || w.ofp > OFP_VHOST_BASE;
  }

  lemma TunnelsApart(b: BridgeView)
    requires b.vifs != [] && b.vifs[0].ofp == OFP_LOCAL
    requires forall i :: 0 < i < |b.vifs| ==> b.vifs[i].ofp == OFP_VHOST_BASE + i
    requires forall t :: t in b.tnls ==> OFP_TUNNEL_BASE <= t.ofp && t.ofp in TnlOfps(b.tnls)
    requires forall x :: x in TnlOfps(b.tnls) ==> exists t :: t in b.tnls && t.ofp == x
    ensures (forall x, w :: x in TnlOfps(b.tnls) && w in b.vifs ==> x != w.ofp) <==>
              forall t :: t in b.tnls ==> t.ofp >= OFP_VHOST_BASE + |b.vifs|
  {
    if t :| t in b.tnls && t.ofp < OFP_VHOST_BASE + |b.vifs| {
      assert b.vifs[t.ofp - OFP_VHOST_BASE] in b.vifs;
    }
  }

  // What the deployment operations, and those that replace the ACL table, leave on a bridge with
  // an index that follows its interfaces.
  ghost predicate Provisioned(b: BridgeView, deploy: Deploy, md: bool, peer: Ip, flows: seq<Flow>, acl: seq<Flow>) {
    && b.vnis == VniIndex(b.vifs, Vnis(b.vifs))
    && Installed(flows, b, deploy, md, [peer], acl)
    && (forall w :: w in b.vifs ==> VniFits(deploy, w.vni))
    && (if deploy.Tnl? then TunnelsOk(b, peer) else |b.uplinks| == 1 && !md)
  }

  lemma SingleVni(b: BridgeView)
    requires b.vnis == VniIndex(b.vifs, Vnis(b.vifs)) && forall w :: w in b.vifs ==> w.vni == VNI_NONE
    ensures |b.vnis| <= 1
  {
    VniIndexGroups(b.vifs, Vnis(b.vifs));
    var clash := |b.vnis| > 1 && b.vnis[0].vni == b.vnis[1].vni;
    forall i | 0 <= i < |b.vnis| ensures b.vnis[i].vni == VNI_NONE {
      var w := b.vnis[i].vifs[0];
      InSublist(b.vifs, Vnis(b.vifs), b.vnis[i].vni, w);
      var j :| 0 <= j < |b.vifs| && b.vifs[j] == w && Vnis(b.vifs)[j] == b.vnis[i].vni;
      assert b.vifs[j] in b.vifs;
    }
  }

  lemma HostReady(b: BridgeView, ops: seq<Op>, deploy: Deploy, md: bool, peer: Ip, flows: seq<Flow>, acl: seq<Flow>)
    requires !deploy.Unknown? && Assembled(b, ops) && |b.vifs| <= 90 && AclShaped(acl)
    requires Provisioned(b, deploy, md, peer, flows, acl)
    ensures Ready(flows, b, deploy, md, peer, acl)
  {
    PortsApart(b, ops, deploy);
    if deploy.Native? { SingleVni(b); }
    PipelineWellStaged(flows, b, deploy, md, [peer], acl);
  }

  // One of the two hosts: its bridge, the deployments and removals it went through, and its tables.
  datatype Built = Built(side: Side, ops: seq<Op>)

  ghost predicate BuiltFor(x: Built, deploy: Deploy, md: bool, peer: Ip) {
    && Assembled(x.side.br, x.ops) && |x.side.br.vifs| <= 90
    && Provisioned(x.side.br, deploy, md, peer, x.side.flows, x.side.acl)
  }

  // Two hosts of up to 89 guest interfaces each, deployed in the same mode towards each other,
  // form a network the run theorems apply to.
  lemma DeployedNetwork(deploy: Deploy, md: bool, a: Built, b: Built)
    requires !deploy.Unknown? && BuiltFor(a, deploy, md, b.side.tep) && BuiltFor(b, deploy, md, a.side.tep)
    requires AclShaped(a.side.acl) && AclShaped(b.side.acl)
    ensures ConfigOk(Config(deploy, md, a.side, b.side))
  {
    HostReady(a.side.br, a.ops, deploy, md, b.side.tep, a.side.flows, a.side.acl);
    HostReady(b.side.br, b.ops, deploy, md, a.side.tep, b.side.flows, b.side.acl);
  }

  // With the stateful ACL on both hosts it is one the firewall theorems apply to.
  lemma DeployedFirewall(deploy: Deploy, md: bool, a: Built, b: Built, proto: Proto, guard: Option<(Host, Mac)>)
    requires !deploy.Unknown? && BuiltFor(a, deploy, md, b.side.tep) && BuiltFor(b, deploy, md, a.side.tep)
    requires a.side.acl == HostAcl(a.side.br, proto, GuardAt(guard, HostA))
    requires b.side.acl == HostAcl(b.side.br, proto, GuardAt(guard, HostB))
    requires forall w :: w in a.side.br.vifs || w in b.side.br.vifs ==> w.vni < 0x1_0000
    ensures FirewallOk(Config(deploy, md, a.side, b.side), proto, guard)
  {
    HostAclShaped(a.side.br, proto, GuardAt(guard, HostA));
    HostAclShaped(b.side.br, proto, GuardAt(guard, HostB));
    DeployedNetwork(deploy, md, a, b);
    RunsFirewall(Config(deploy, md, a.side, b.side), proto, guard);
  }

  lemma RunsFirewall(c: Config, proto: Proto, guard: Option<(Host, Mac)>)
    requires ConfigOk(c)
    requires c.a.acl == HostAcl(c.a.br, proto, GuardAt(guard, HostA))
    requires c.b.acl == HostAcl(c.b.br, proto, GuardAt(guard, HostB))
    requires forall w :: w in c.a.br.vifs || w in c.b.br.vifs ==> w.vni < 0x1_0000
    ensures FirewallOk(c, proto, guard)
  {
    forall h ensures At(c, h).acl == HostAcl(Br(c, h), proto, GuardAt(guard, h)) {
      if h == HostA { assert At(c, h) == c.a; } else { assert At(c, h) == c.b; }
    }
  }

  // ---- such networks exist ----

  // A host with two guest interfaces, on two VNIs where the mode has several.
  function SmallVifs(mac: Mac, deploy: Deploy): seq<VifView> {
    var vni := if deploy.Native? then VNI_NONE else VNI_BASE_BY_IDX_ON_VM;
    var other := if deploy.Native? then VNI_NONE else VNI_BASE_BY_IDX_ON_VM + 1;
    [VifView(OFP_LOCAL, VNI_NONE, None),
     VifView(OFP_VHOST_BASE + 1, vni, Some(mac)),
     VifView(OFP_VHOST_BASE + 2, other, Some(mac + 1))]
  }

  // One tunnel port for all peers and VNIs, or an uplink.
  function SmallOps(deploy: Deploy): seq<Op> {
    if deploy.Tnl? then [CreateOp([], [], true, true)] else []
  }

  function SmallBridge(mac: Mac, deploy: Deploy): BridgeView {
    var vifs := SmallVifs(mac, deploy);
    BridgeView(vifs, VniIndex(vifs, Vnis(vifs)), ApplyAll(SmallOps(deploy)).ports,
               if deploy.Tnl? then [] else [OFP_UPLINK_BASE])
  }

  function SmallHost(mac: Mac, tep: Ip, peer: Ip, deploy: Deploy, acl: seq<Flow>): Built {
    var b := SmallBridge(mac, deploy);
    var flows := FIXED_STAGES + acl + InputFlows(b, deploy) + OutputFlows(b, deploy, false, [peer]);
    Built(Side(b, tep, acl, flows), SmallOps(deploy))
  }

  lemma SmallTunnels(mac: Mac, peer: Ip)
    ensures TunnelsOk(SmallBridge(mac, Tnl), peer)
  {
    var op := CreateOp([], [], true, true);
    assert SmallOps(Tnl) == [op] && [op][..0] == [];
    assert ApplyAll([op]) == Apply(FRESH, op);
    CreateAllFails(FRESH, [Spec(FlowRip, FlowKey)]);
    CreateAllPorts(FRESH, [Spec(FlowRip, FlowKey)]);
  }

  lemma SmallHostBuilt(mac: Mac, tep: Ip, peer: Ip, deploy: Deploy, acl: seq<Flow>)
    requires !deploy.Unknown?
    ensures BuiltFor(SmallHost(mac, tep, peer, deploy, acl), deploy, false, peer)
  {
    if deploy.Tnl? { SmallTunnels(mac, peer); }
    SmallInstalled(SmallBridge(mac, deploy), deploy, peer, acl);
    SmallFits(mac, deploy);
  }

  lemma SmallInstalled(b: BridgeView, deploy: Deploy, peer: Ip, acl: seq<Flow>)
    ensures var flows := FIXED_STAGES + acl + InputFlows(b, deploy) + OutputFlows(b, deploy, false, [peer]);
      Installed(flows, b, deploy, false, [peer], acl)
  {
  }

  lemma SmallFits(mac: Mac, deploy: Deploy)
    requires !deploy.Unknown?
    ensures forall w :: w in SmallVifs(mac, deploy) ==> VniFits(deploy, w.vni)
  {
  }

  lemma SmallVif(mac: Mac, deploy: Deploy, w: VifView)
    requires w in SmallBridge(mac, deploy).vifs
    ensures w in SmallVifs(mac, deploy) && w.vni < 0x1_0000
    ensures w.ofp != OFP_LOCAL ==> w == SmallVifs(mac, deploy)[1] || w == SmallVifs(mac, deploy)[2]
  {
  }

  lemma SmallMacs(c: Config, macA: Mac, macB: Mac)
    requires c.a.br == SmallBridge(macA, c.deploy) && c.b.br == SmallBridge(macB, c.deploy) && macA + 1 < macB
    ensures MacsDistinct(c)
  {
    forall h, w, h', w' | w in Br(c, h).vifs && w' in Br(c, h').vifs && w.ofp != OFP_LOCAL && w'.ofp != OFP_LOCAL
                          && w.mac.Some? && w.mac == w'.mac
      ensures h == h' && w == w'
    {
      SmallVif(if h == HostA then macA else macB, c.deploy, w);
      SmallVif(if h' == HostA then macA else macB, c.deploy, w');
    }
  }

  lemma SmallNetwork(deploy: Deploy, macA: Mac, tepA: Ip, aclA: seq<Flow>, macB: Mac, tepB: Ip, aclB: seq<Flow>)
    returns (c: Config)
    requires !deploy.Unknown? && AclShaped(aclA) && AclShaped(aclB)
    ensures ConfigOk(c) && c.deploy == deploy && c.a.acl == aclA && c.b.acl == aclB
    ensures c.a.br == SmallBridge(macA, deploy) && c.b.br == SmallBridge(macB, deploy)
  {
    SmallHostBuilt(macA, tepA, tepB, deploy, aclA);
    SmallHostBuilt(macB, tepB, tepA, deploy, aclB);
    var x, y := SmallHost(macA, tepA, tepB, deploy, aclA), SmallHost(macB, tepB, tepA, deploy, aclB);
    DeployedNetwork(deploy, false, x, y);
    c := Config(deploy, false, x.side, y.side);
  }

  lemma SmallVnis(c: Config, macA: Mac, macB: Mac)
    requires c.a.br == SmallBridge(macA, c.deploy) && c.b.br == SmallBridge(macB, c.deploy)
    ensures forall w :: w in c.a.br.vifs || w in c.b.br.vifs ==> w.vni < 0x1_0000
  {
    forall w | w in c.a.br.vifs || w in c.b.br.vifs ensures w.vni < 0x1_0000 {
      if w in c.a.br.vifs { SmallVif(macA, c.deploy, w); } else { SmallVif(macB, c.deploy, w); }
    }
  }

  lemma SmallFirewall(c: Config, proto: Proto, macA: Mac, macB: Mac)
    requires ConfigOk(c) && c.a.br == SmallBridge(macA, c.deploy) && c.b.br == SmallBridge(macB, c.deploy)
    requires c.a.acl == HostAcl(c.a.br, proto, Some(macA)) && c.b.acl == HostAcl(c.b.br, proto, None)
    ensures FirewallOk(c, proto, Some((HostA, macA)))
  {
    SmallVnis(c, macA, macB);
    RunsFirewall(c, proto, Some((HostA, macA)));
  }

  lemma DefaultAclShaped()
    ensures AclShaped(DEFAULT_ACL)
  {
  }

  // The assumptions of the run theorems are met: there are two-host networks with distinct addresses
  // in every mode, without and with the stateful ACL.
  lemma OpenNetworkExists(deploy: Deploy, macA: Mac, tepA: Ip, macB: Mac, tepB: Ip) returns (c: Config)
    requires !deploy.Unknown? && macA + 1 < macB
    ensures c.deploy == deploy && ConfigOk(c) && Open(c) && MacsDistinct(c)
  {
    DefaultAclShaped();
    c := SmallNetwork(deploy, macA, tepA, DEFAULT_ACL, macB, tepB, DEFAULT_ACL);
    SmallMacs(c, macA, macB);
  }

  lemma FilteredNetworkExists(deploy: Deploy, proto: Proto, macA: Mac, tepA: Ip, macB: Mac, tepB: Ip)
    returns (c: Config)
    requires !deploy.Unknown? && macA + 1 < macB
    ensures c.deploy == deploy && FirewallOk(c, proto, Some((HostA, macA))) && MacsDistinct(c)
  {
    var a, b := SmallBridge(macA, deploy), SmallBridge(macB, deploy);
    HostAclShaped(a, proto, Some(macA));
    HostAclShaped(b, proto, None);
    c := SmallNetwork(deploy, macA, tepA, HostAcl(a, proto, Some(macA)), macB, tepB, HostAcl(b, proto, None));
    SmallFirewall(c, proto, macA, macB);
    SmallMacs(c, macA, macB);
  }
}
