/** The stateful ACL tables of conntrack.py and what they decide. */
module Conntrack {
  import opened Wrappers
  import opened Seqs
  import opened Constants
  import opened OpenFlow
  import opened Ports
  import opened FlowTables
  import opened Lookups
  import opened Vswitch

  // ---- the tables ----

  datatype L4 = L4(proto: Proto, v6: bool)

  function Both(proto: Proto): seq<L4> {
    [L4(proto, false), L4(proto, true)]
  }

  // The UDP test needs TCP for its control connections.
  function Protos(proto: Proto): seq<L4> {
    if proto.Udp? then Both(Tcp) + Both(Udp) else Both(proto)
  }

  const IS_UNTRACKED := ANY_CT.(trk := Some(false))
  const IS_NEW := ANY_CT.(trk := Some(true), isNew := Some(true))
  const IS_EST := ANY_CT.(trk := Some(true), est := Some(true))
  const IS_REPLY := ANY_CT.(trk := Some(true), est := Some(true), rpl := Some(true))
  const IS_INVALID := ANY_CT.(trk := Some(true), inv := Some(true))

  function FragFlow(ofp: nat): Flow {
    Flow(OF_TABLE_ACL, 100, ANY.(inPort := Some(ofp), proto := Some(IsIp6LaterFrag), ct := IS_UNTRACKED),
         [CtTrack(OF_TABLE_ACL)])
  }

  function L4Match(ofp: nat, p: L4): Match {
    ANY.(inPort := Some(ofp), proto := Some(IsProto(p.proto, p.v6)))
  }

  function TrackFlow(ofp: nat, p: L4): Flow {
    Flow(OF_TABLE_ACL, 100, L4Match(ofp, p).(ct := IS_UNTRACKED), [CtTrack(OF_TABLE_ACL)])
  }

  function NewFlow(vni: nat, ofp: nat, p: L4): Flow {
    Flow(OF_TABLE_ACL, 100, L4Match(ofp, p).(zone := Some(vni), ct := IS_NEW), [CtCommit(vni), Goto(OF_TABLE_CORE)])
  }

  function EstFlow(vni: nat, ofp: nat, p: L4): Flow {
    Flow(OF_TABLE_ACL, 100, L4Match(ofp, p).(zone := Some(vni), ct := IS_EST), [Goto(OF_TABLE_CORE)])
  }

  function ReplyFlow(vni: nat, ofp: nat, p: L4): Flow {
    Flow(OF_TABLE_ACL, 100, L4Match(ofp, p).(zone := Some(vni), ct := IS_REPLY), [Goto(OF_TABLE_CORE)])
  }

  function L4Flows(vni: nat, ofp: nat): L4 -> seq<Flow> {
    (p: L4) => [TrackFlow(ofp, p), NewFlow(vni, ofp, p), EstFlow(vni, ofp, p), ReplyFlow(vni, ofp, p)]
  }

  function PortFlows(vni: nat, proto: Proto): nat -> seq<Flow> {
    (ofp: nat) => [FragFlow(ofp)] + FlatMap(Protos(proto), L4Flows(vni, ofp))
  }

  function VniLocal(proto: Proto): VniEntry<VifView> -> seq<Flow> {
    (e: VniEntry<VifView>) => FlatMap(Ofps(e.vifs), PortFlows(e.vni, proto))
  }

  function VniTrunk(b: BridgeView, proto: Proto): VniEntry<VifView> -> seq<Flow> {
    (e: VniEntry<VifView>) =>
      FlatMap(TnlOfps(b.tnls), PortFlows(e.vni, proto)) + FlatMap(b.uplinks, PortFlows(e.vni, proto))
  }

  const ARP_PASS := Flow(OF_TABLE_ACL, 2000, ANY.(proto := Some(IsArp)), [Goto(OF_TABLE_CORE)])
  const ND_SOLICIT := Flow(OF_TABLE_ACL, 2000, ANY.(proto := Some(IsNd(135))), [Goto(OF_TABLE_CORE)])
  const ND_ADVERT := Flow(OF_TABLE_ACL, 2000, ANY.(proto := Some(IsNd(136))), [Goto(OF_TABLE_CORE)])
  const ACL_HEAD := [ACL_DROP, ARP_PASS, ND_SOLICIT, ND_ADVERT]

  // The ACL table that admits one protocol, statefully.
  function AllowProto(b: BridgeView, proto: Proto): seq<Flow> {
    ACL_HEAD + FlatMap(b.vnis, VniLocal(proto)) + FlatMap(b.vnis, VniTrunk(b, proto))
  }

  function DenyNew(mac: Mac, p: L4): Flow {
    Flow(OF_TABLE_ACL, 2000, ANY.(dst := Some(mac), proto := Some(IsProto(p.proto, p.v6)), ct := IS_NEW), [])
  }

  function DenyInvalid(mac: Mac, p: L4): Flow {
    Flow(OF_TABLE_ACL, 2000, ANY.(dst := Some(mac), proto := Some(IsProto(p.proto, p.v6)), ct := IS_INVALID), [])
  }

  function DenyFlows(mac: Mac): L4 -> seq<Flow> {
    (p: L4) => [DenyNew(mac, p), DenyInvalid(mac, p)]
  }

  // The extra flows on the host of an endpoint that may only originate connections.
  function OriginateOnly(mac: Mac, proto: Proto): seq<Flow> {
    FlatMap(Both(proto), DenyFlows(mac))
  }

  // ---- the generators ----

  method GenerateFlowTrackProto(vni: nat, ofp: nat, proto: Proto) returns (flows: seq<Flow>)
    ensures flows == PortFlows(vni, proto)(ofp)
  {
    flows := [FragFlow(ofp)];
    var protos := if proto == Udp then [L4(Tcp, false), L4(Tcp, true), L4(Udp, false), L4(Udp, true)]
                  else [L4(proto, false), L4(proto, true)];
    assert protos == Protos(proto);
    for i := 0 to |protos|
      invariant flows == [FragFlow(ofp)] + FlatMap(protos[..i], L4Flows(vni, ofp))
    {
      FlatMapStep(protos, i, L4Flows(vni, ofp));
      var p := protos[i];
      flows := flows + [TrackFlow(ofp, p)];
      flows := flows + [NewFlow(vni, ofp, p)];
      flows := flows + [EstFlow(vni, ofp, p)];
      flows := flows + [ReplyFlow(vni, ofp, p)];
    }
    assert protos[..|protos|] == protos;
  }

  method PortsFlows(vni: nat, ofps: seq<nat>, proto: Proto) returns (flows: seq<Flow>)
    ensures flows == FlatMap(ofps, PortFlows(vni, proto))
  {
    flows := [];
    for i := 0 to |ofps|
      invariant flows == FlatMap(ofps[..i], PortFlows(vni, proto))
    {
      FlatMapStep(ofps, i, PortFlows(vni, proto));
      var more := GenerateFlowTrackProto(vni, ofps[i], proto);
      flows := flows + more;
    }
    assert ofps[..|ofps|] == ofps;
  }

  method LocalAclFlows(b: BridgeView, proto: Proto) returns (flows: seq<Flow>)
    ensures flows == FlatMap(b.vnis, VniLocal(proto))
  {
    flows := [];
    for i := 0 to |b.vnis|
      invariant flows == FlatMap(b.vnis[..i], VniLocal(proto))
    {
      FlatMapStep(b.vnis, i, VniLocal(proto));
      var more := PortsFlows(b.vnis[i].vni, Ofps(b.vnis[i].vifs), proto);
      flows := flows + more;
    }
    assert b.vnis[..|b.vnis|] == b.vnis;
  }

  method TrunkAclFlows(b: BridgeView, proto: Proto) returns (flows: seq<Flow>)
    ensures flows == FlatMap(b.vnis, VniTrunk(b, proto))
  {
    flows := [];
    for i := 0 to |b.vnis|
      invariant flows == FlatMap(b.vnis[..i], VniTrunk(b, proto))
    {
      FlatMapStep(b.vnis, i, VniTrunk(b, proto));
      var tnl := PortsFlows(b.vnis[i].vni, TnlOfps(b.tnls), proto);
      var up := PortsFlows(b.vnis[i].vni, b.uplinks, proto);
      flows := flows + (tnl + up);
    }
    assert b.vnis[..|b.vnis|] == b.vnis;
  }

  // Replaces the ACL table of one host.
  method AclSetupAllowProto(br: Bridge, proto: Proto)
    modifies br`flows
    ensures br.flows == Filter(old(br.flows), (f: Flow) => f.table != OF_TABLE_ACL) + AllowProto(old(br.View()), proto)
    ensures br.View() == old(br.View())
  {
    var flows := AllowProtoFlows(br.View(), proto);
    ReplaceTable(br, OF_TABLE_ACL, flows);
  }

  method ReplaceTable(br: Bridge, table: nat, flows: seq<Flow>)
    modifies br`flows
    ensures br.flows == Filter(old(br.flows), (f: Flow) => f.table != table) + flows && br.View() == old(br.View())
  {
    br.DelTable(table);
    br.Provision(flows);
  }

  method AllowProtoFlows(b: BridgeView, proto: Proto) returns (flows: seq<Flow>)
    ensures flows == AllowProto(b, proto)
  {
    var local := LocalAclFlows(b, proto);
    var trunk := TrunkAclFlows(b, proto);
    flows := ACL_HEAD + local + trunk;
  }

  // Drops what would open a connection towards an address, or is invalid.
  method DropInbound(br: Bridge, mac: Mac, proto: Proto)
    modifies br`flows
    ensures br.flows == old(br.flows) + OriginateOnly(mac, proto) && br.View() == old(br.View())
  {
    var protos := [L4(proto, false), L4(proto, true)];
    var flows := [];
    for i := 0 to |protos|
      invariant flows == FlatMap(protos[..i], DenyFlows(mac)) && br.flows == old(br.flows)
    {
      FlatMapStep(protos, i, DenyFlows(mac));
      flows := flows + [DenyNew(mac, protos[i])];
      flows := flows + [DenyInvalid(mac, protos[i])];
    }
    assert protos[..|protos|] == protos;
    br.Provision(flows);
  }

  // Swapping the ACL table keeps the rest of a deployment in place.
  lemma AclInstalled(was: seq<Flow>, now: seq<Flow>, b: BridgeView, deploy: Deploy, md: bool, teps: seq<Ip>,
                     acl: seq<Flow>, proto: Proto)
    requires !deploy.Unknown? && AclShaped(acl) && Installed(was, b, deploy, md, teps, acl)
    requires now == Filter(was, (f: Flow) => f.table != OF_TABLE_ACL) + AllowProto(b, proto)
    ensures Installed(now, b, deploy, md, teps, AllowProto(b, proto))
  {
    forall f
      ensures f in now <==> f in FIXED_STAGES || f in AllowProto(b, proto) || f in InputFlows(b, deploy)
                            || f in OutputFlows(b, deploy, md, teps)
    {
      InFilter(was, (g: Flow) => g.table != OF_TABLE_ACL, f);
      if f in InputFlows(b, deploy) { InputActionsStaged(b, deploy, f); }
      if f in OutputFlows(b, deploy, md, teps) { OutputActionsPlain(b, deploy, md, teps, f); }
    }
  }

  // Adding the drop flows of a protected address to it completes the host's ACL.
  lemma OriginateInstalled(was: seq<Flow>, b: BridgeView, deploy: Deploy, md: bool, teps: seq<Ip>, proto: Proto,
                           mac: Mac)
    requires Installed(was, b, deploy, md, teps, AllowProto(b, proto))
    ensures Installed(was + OriginateOnly(mac, proto), b, deploy, md, teps, HostAcl(b, proto, Some(mac)))
  {
  }

  // ---- what is in the tables ----

  ghost predicate IsPortFlow(f: Flow, vni: nat, ofp: nat, proto: Proto) {
    || f == FragFlow(ofp)
    || exists p :: p in Protos(proto) &&
         (f == TrackFlow(ofp, p) || f == NewFlow(vni, ofp, p) || f == EstFlow(vni, ofp, p)
           || f == ReplyFlow(vni, ofp, p))
  }

  lemma PortFlowsAre(vni: nat, ofp: nat, proto: Proto, f: Flow)
    ensures f in PortFlows(vni, proto)(ofp) <==> IsPortFlow(f, vni, ofp, proto)
  {
    InFlatMap(Protos(proto), L4Flows(vni, ofp), f);
    if f != FragFlow(ofp) && IsPortFlow(f, vni, ofp, proto) {
      var p :| p in Protos(proto) &&
        (f == TrackFlow(ofp, p) || f == NewFlow(vni, ofp, p) || f == EstFlow(vni, ofp, p)
          || f == ReplyFlow(vni, ofp, p));
      var i :| 0 <= i < |Protos(proto)| && Protos(proto)[i] == p;
      assert f in L4Flows(vni, ofp)(Protos(proto)[i]);
    }
  }

  // The ports a VNI's flows are generated for: its interfaces and every trunk port.
  ghost predicate Listed(b: BridgeView, e: VniEntry<VifView>, ofp: nat) {
    e in b.vnis && (ofp in Ofps(e.vifs) || ofp in TnlOfps(b.tnls) || ofp in b.uplinks)
  }

  lemma PortListAre(vni: nat, ofps: seq<nat>, proto: Proto, f: Flow)
    ensures f in FlatMap(ofps, PortFlows(vni, proto)) <==> exists ofp :: ofp in ofps && IsPortFlow(f, vni, ofp, proto)
  {
    InFlatMap(ofps, PortFlows(vni, proto), f);
    if i :| 0 <= i < |ofps| && f in PortFlows(vni, proto)(ofps[i]) { PortFlowsAre(vni, ofps[i], proto, f); }
    if ofp :| ofp in ofps && IsPortFlow(f, vni, ofp, proto) { PortFlowsAre(vni, ofp, proto, f); }
  }

  ghost predicate IsTracked(b: BridgeView, proto: Proto, f: Flow) {
    exists e, ofp :: Listed(b, e, ofp) && IsPortFlow(f, e.vni, ofp, proto)
  }

  lemma AllowProtoAre(b: BridgeView, proto: Proto, f: Flow)
    ensures f in AllowProto(b, proto) <==> f in ACL_HEAD || IsTracked(b, proto, f)
  {
    InFlatMap(b.vnis, VniLocal(proto), f);
    InFlatMap(b.vnis, VniTrunk(b, proto), f);
    if i :| 0 <= i < |b.vnis| && f in VniLocal(proto)(b.vnis[i]) {
      LocalEntryAre(b, proto, b.vnis[i], f);
    } else if i :| 0 <= i < |b.vnis| && f in VniTrunk(b, proto)(b.vnis[i]) {
      LocalEntryAre(b, proto, b.vnis[i], f);
    } else if IsTracked(b, proto, f) {
      var e, ofp :| Listed(b, e, ofp) && IsPortFlow(f, e.vni, ofp, proto);
      LocalEntryAre(b, proto, e, f);
    }
  }

  lemma LocalEntryAre(b: BridgeView, proto: Proto, e: VniEntry<VifView>, f: Flow)
    requires e in b.vnis
    ensures f in VniLocal(proto)(e) || f in VniTrunk(b, proto)(e) <==>
              exists ofp :: Listed(b, e, ofp) && IsPortFlow(f, e.vni, ofp, proto)
  {
    PortListAre(e.vni, Ofps(e.vifs), proto, f);
    PortListAre(e.vni, TnlOfps(b.tnls), proto, f);
    PortListAre(e.vni, b.uplinks, proto, f);
  }

  ghost predicate IsDeny(mac: Mac, proto: Proto, f: Flow) {
    exists p :: p in Both(proto) && (f == DenyNew(mac, p) || f == DenyInvalid(mac, p))
  }

  lemma OriginateOnlyAre(mac: Mac, proto: Proto, f: Flow)
    ensures f in OriginateOnly(mac, proto) <==> IsDeny(mac, proto, f)
  {
    InFlatMap(Both(proto), DenyFlows(mac), f);
  }

  // The ACL of a host: the stateful table, with the deny flows on the protected endpoint's host.
  function HostAcl(b: BridgeView, proto: Proto, guard: Option<Mac>): seq<Flow> {
    AllowProto(b, proto) + (if guard.Some? then OriginateOnly(guard.value, proto) else [])
  }

  lemma AllowProtoShaped(b: BridgeView, proto: Proto, f: Flow)
    requires f in AllowProto(b, proto)
    ensures f.table == OF_TABLE_ACL && AclActions(f)
  {
    AllowProtoAre(b, proto, f);
    if IsTracked(b, proto, f) {
      var e, ofp :| Listed(b, e, ofp) && IsPortFlow(f, e.vni, ofp, proto);
      PortFlowShaped(e.vni, ofp, proto, f);
    }
  }

  lemma PortFlowShaped(vni: nat, ofp: nat, proto: Proto, f: Flow)
    requires IsPortFlow(f, vni, ofp, proto)
    ensures f.table == OF_TABLE_ACL && AclActions(f)
  {
  }

  lemma OriginateOnlyShaped(mac: Mac, proto: Proto, f: Flow)
    requires f in OriginateOnly(mac, proto)
    ensures f.table == OF_TABLE_ACL && AclActions(f)
  {
    OriginateOnlyAre(mac, proto, f);
  }

  // These tables are of the kind the isolation theorems allow.
  lemma HostAclShaped(b: BridgeView, proto: Proto, guard: Option<Mac>)
    ensures AclShaped(HostAcl(b, proto, guard))
  {
    forall f | f in HostAcl(b, proto, guard) ensures f.table == OF_TABLE_ACL && AclActions(f) {
      if f in AllowProto(b, proto) {
        AllowProtoShaped(b, proto, f);
      } else {
        OriginateOnlyShaped(guard.value, proto, f);
      }
    }
  }
}
