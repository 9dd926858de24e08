/** The flow tables flowutils.py compiles a bridge into, as functions of the
    bridge: which flow is generated for which interface, VNI and external port. */
module FlowTables {
  import opened Wrappers
  import opened Seqs
  import opened Constants
  import opened OpenFlow
  import opened Ports

  // The deployment argument; any other string is invalid for output flows.
  datatype Deploy = Tnl | Vlan | Qinq | Native | Unknown(name: string)

  const TUN_MD1: nat := 0x1234567890abcdef

  function Outputs(ofps: seq<nat>): seq<Action> {
    seq(|ofps|, i requires 0 <= i < |ofps| => Output(ofps[i]))
  }

  // ---- actions towards external ports ----

  function TnlActions(t: TunnelPort, md: bool, teps: seq<Ip>): seq<Action> {
    (if t.rip.FlowRip? then seq(|teps|, i requires 0 <= i < |teps| => SetTunDst(teps[i])) else [])
    + (if t.key.FlowKey? then [MoveReg0ToTunId] else [])
    + (if md then [MoveReg0ToMd0, SetMd1(TUN_MD1)] else [])
    + [Output(t.ofp)]
  }

  function UplinkActions(deploy: Deploy): seq<Action> {
    if deploy.Vlan? then
      [PushVlan(0x8100), MoveReg0ToVid(Low12), SetTagPresent]
    else
      [PushVlan(0x8100), MoveReg0ToVid(Low12), SetTagPresent,
       PushVlan(0x88a8), MoveReg0ToVid(Outer12), SetTagPresent]
  }

  function TnlFlood(vni: nat, md: bool, teps: seq<Ip>): TunnelPort -> seq<Action> {
    (t: TunnelPort) =>
      if t.key.FixedKey? && t.key.vni != vni then [] else TnlActions(t, md, teps)
  }

  function ExternalActions(b: BridgeView, deploy: Deploy, md: bool, teps: seq<Ip>, vni: nat): seq<Action> {
    if deploy.Tnl? then FlatMap(b.tnls, TnlFlood(vni, md, teps))
    else if deploy.Vlan? || deploy.Qinq? then UplinkActions(deploy) + Outputs(b.uplinks)
    else Outputs(b.uplinks)
  }

  function ExtPorts(b: BridgeView, deploy: Deploy): seq<nat> {
    if deploy.Tnl? then TnlOfps(b.tnls) else b.uplinks
  }

  // ---- flooding ----

  function Others(ofp: nat): nat -> seq<Action> {
    (q: nat) => if q == ofp then [] else [Output(q)]
  }

  // Flooding from a local interface: the other local interfaces first, then the external ports.
  function LocalFlood(b: BridgeView, deploy: Deploy, md: bool, teps: seq<Ip>, e: VniEntry<VifView>, ofp: nat): Flow {
    Flow(OF_TABLE_OUTPUT, 100, ANY.(inPort := Some(ofp), reg1 := Some(0)),
         FlatMap(Ofps(e.vifs), Others(ofp)) + ExternalActions(b, deploy, md, teps, e.vni))
  }

  function ExtFloodMatch(deploy: Deploy, md: bool, vni: nat, ofp: nat): Match {
    var m := ANY.(inPort := Some(ofp), reg1 := Some(0));
    if deploy.Tnl? then
      if md then m.(reg0 := Some((Whole32, vni)), md0 := Some(vni), md1 := Some(TUN_MD1))
      else m.(reg0 := Some((Whole32, vni)))
    else if deploy.Vlan? || deploy.Qinq? then m.(reg0 := Some((Low12, vni)))
    else m
  }

  // Flooding from an external port: to the local interfaces only.
  function ExtFlood(deploy: Deploy, md: bool, e: VniEntry<VifView>, ofp: nat): Flow {
    Flow(OF_TABLE_OUTPUT, 100, ExtFloodMatch(deploy, md, e.vni, ofp), Outputs(Ofps(e.vifs)))
  }

  function LocalFloods(b: BridgeView, deploy: Deploy, md: bool, teps: seq<Ip>, e: VniEntry<VifView>): nat -> seq<Flow> {
    (ofp: nat) => [LocalFlood(b, deploy, md, teps, e, ofp)]
  }

  function ExtFloods(deploy: Deploy, md: bool, e: VniEntry<VifView>): nat -> seq<Flow> {
    (ofp: nat) => [ExtFlood(deploy, md, e, ofp)]
  }

  function VniFloods(b: BridgeView, deploy: Deploy, md: bool, teps: seq<Ip>): VniEntry<VifView> -> seq<Flow> {
    (e: VniEntry<VifView>) =>
      FlatMap(Ofps(e.vifs), LocalFloods(b, deploy, md, teps, e))
      + FlatMap(ExtPorts(b, deploy), ExtFloods(deploy, md, e))
  }

  // ---- unicast ----

  function TnlUnicastFlow(md: bool, teps: seq<Ip>, t: TunnelPort): Flow {
    Flow(OF_TABLE_OUTPUT, 20, ANY.(reg1 := Some(t.ofp)), TnlActions(t, md, teps))
  }

  function UplinkUnicastFlow(deploy: Deploy, u: nat): Flow {
    Flow(OF_TABLE_OUTPUT, 20, ANY.(reg1 := Some(u)),
         (if deploy.Vlan? || deploy.Qinq? then UplinkActions(deploy) else []) + [Output(u)])
  }

  function MdCheckFlow(ofp: nat, e: VniEntry<VifView>): Flow {
    Flow(OF_TABLE_OUTPUT, 15, ANY.(inPort := Some(ofp), md0 := Some(e.vni), md1 := Some(TUN_MD1)), [OutputReg1])
  }

  function VifUnicastFlow(w: VifView): Flow {
    Flow(OF_TABLE_OUTPUT, 10, ANY.(reg1 := Some(w.ofp)), [Output(w.ofp)])
  }

  function TnlUnicast(md: bool, teps: seq<Ip>): TunnelPort -> seq<Flow> {
    (t: TunnelPort) => [TnlUnicastFlow(md, teps, t)]
  }

  function UplinkUnicast(deploy: Deploy): nat -> seq<Flow> {
    (u: nat) => [UplinkUnicastFlow(deploy, u)]
  }

  function MdCheck(ofp: nat): VniEntry<VifView> -> seq<Flow> {
    (e: VniEntry<VifView>) => [MdCheckFlow(ofp, e)]
  }

  function MdChecks(b: BridgeView): nat -> seq<Flow> {
    (ofp: nat) => FlatMap(b.vnis, MdCheck(ofp))
  }

  function VifUnicast(): VifView -> seq<Flow> {
    (w: VifView) => [VifUnicastFlow(w)]
  }

  function ExtUnicasts(b: BridgeView, deploy: Deploy, md: bool, teps: seq<Ip>): seq<Flow> {
    if deploy.Tnl? then FlatMap(b.tnls, TnlUnicast(md, teps)) else FlatMap(b.uplinks, UplinkUnicast(deploy))
  }

  function OutputFlows(b: BridgeView, deploy: Deploy, md: bool, teps: seq<Ip>): seq<Flow> {
    FlatMap(b.vnis, VniFloods(b, deploy, md, teps))
    + ExtUnicasts(b, deploy, md, teps)
    + (if md then FlatMap(TnlOfps(b.tnls), MdChecks(b)) else [])
    + FlatMap(b.vifs, VifUnicast())
  }

  // ---- the INPUT table ----

  function InputLoads(deploy: Deploy, vni: nat): seq<Action> {
    if deploy.Qinq? then [LoadReg0(Low12, vni), LoadReg0(Outer12, vni + 100), Goto(OF_TABLE_ACL)]
    else [LoadReg0(Whole32, vni), Goto(OF_TABLE_ACL)]
  }

  function VifInputFlow(deploy: Deploy, w: VifView): Flow {
    Flow(OF_TABLE_INPUT, 100, ANY.(inPort := Some(w.ofp)), InputLoads(deploy, w.vni))
  }

  function VifInput(deploy: Deploy): VifView -> seq<Flow> {
    (w: VifView) => [VifInputFlow(deploy, w)]
  }

  function ExtMoves(deploy: Deploy): seq<Action> {
    match deploy
    case Tnl => [MoveTunIdToReg0, Goto(OF_TABLE_ACL)]
    case Vlan => [MoveVidToReg0(Low12), PopVlan, Goto(OF_TABLE_ACL)]
    case _ => [MoveVidToReg0(Outer12), PopVlan, MoveVidToReg0(Low12), PopVlan, Goto(OF_TABLE_ACL)]
  }

  function ExtInputFlow(deploy: Deploy, ofp: nat): Flow {
    Flow(OF_TABLE_INPUT, 100, ANY.(inPort := Some(ofp)), ExtMoves(deploy))
  }

  function ExtInput(deploy: Deploy): nat -> seq<Flow> {
    (ofp: nat) => [ExtInputFlow(deploy, ofp)]
  }

  function InputFlows(b: BridgeView, deploy: Deploy): seq<Flow> {
    if deploy.Native? then [Flow(OF_TABLE_INPUT, 100, ANY, [Goto(OF_TABLE_ACL)])]
    else
      FlatMap(b.vifs, VifInput(deploy))
      + (if deploy.Unknown? then [] else FlatMap(ExtPorts(b, deploy), ExtInput(deploy)))
  }

  // ---- the rest of the pipeline ----

  const ADMISS_FLOW := Flow(OF_TABLE_ADMISS, 100, ANY, [Goto(OF_TABLE_INPUT)])
  const ACL_DROP := Flow(OF_TABLE_ACL, 1, ANY, [])
  const ACL_PASS := Flow(OF_TABLE_ACL, 100, ANY, [Goto(OF_TABLE_CORE)])
  const CORE_FLOW := Flow(OF_TABLE_CORE, DEFAULT_PRIORITY, ANY, [Learn, Goto(OF_TABLE_NAT)])
  const NAT_FLOW := Flow(OF_TABLE_NAT, DEFAULT_PRIORITY, ANY, [Goto(OF_TABLE_L2_MATCH)])
  const L2_FLOW := Flow(OF_TABLE_L2_MATCH, DEFAULT_PRIORITY, ANY, [Resubmit(OF_TABLE_FIB), Resubmit(OF_TABLE_OUTPUT)])

  const DEFAULT_ACL := [ACL_DROP, ACL_PASS]

  // What setup_default_pipeline_on_all_suts installs on one host.
  function DefaultPipeline(b: BridgeView, teps: seq<Ip>): seq<Flow> {
    [ADMISS_FLOW] + InputFlows(b, Native) + DEFAULT_ACL + [CORE_FLOW, NAT_FLOW, L2_FLOW]
    + OutputFlows(b, Native, false, teps)
  }

  const FIXED_STAGES := [ADMISS_FLOW, CORE_FLOW, NAT_FLOW, L2_FLOW]

  // The flows on a deployed bridge, in whatever order they were added: the fixed stages,
  // an ACL table, and the INPUT and OUTPUT tables of the deployment.
  ghost predicate Installed(flows: seq<Flow>, b: BridgeView, deploy: Deploy, md: bool, teps: seq<Ip>, acl: seq<Flow>) {
    forall f :: f in flows <==>
      f in FIXED_STAGES || f in acl || f in InputFlows(b, deploy) || f in OutputFlows(b, deploy, md, teps)
  }
}
