/** Which flow each kind of packet selects on a deployed bridge. */
module Lookups {
  import opened Wrappers
  import opened Seqs
  import opened Constants
  import opened OpenFlow
  import opened Ports
  import opened FlowTables
  import opened FlowTableProps

  // An ACL table of the kind the suite installs: a flow drops, passes on to CORE,
  // tracks an untracked packet and starts over, or commits and passes on.
  predicate AclActions(f: Flow) {
    || f.actions == []
    || f.actions == [Goto(OF_TABLE_CORE)]
    || (f.actions == [CtTrack(OF_TABLE_ACL)] && f.cond.ct.trk == Some(false))
    || (|f.actions| == 2 && f.actions[0].CtCommit? && f.actions[1] == Goto(OF_TABLE_CORE))
  }

  ghost predicate AclShaped(acl: seq<Flow>) {
    forall f :: f in acl ==> f.table == OF_TABLE_ACL && AclActions(f)
  }

  predicate Plain(a: Action) {
    !a.Goto? && !a.Resubmit? && !a.Learn? && !a.CtTrack? && !a.CtCommit?
  }

  predicate AllPlain(acts: seq<Action>) {
    forall a :: a in acts ==> Plain(a)
  }

  lemma TnlActionsPlain(t: TunnelPort, md: bool, teps: seq<Ip>)
    ensures AllPlain(TnlActions(t, md, teps))
  {
  }

  lemma ExternalActionsPlain(b: BridgeView, deploy: Deploy, md: bool, teps: seq<Ip>, vni: nat)
    ensures AllPlain(ExternalActions(b, deploy, md, teps, vni))
  {
    if deploy.Tnl? {
      forall a | a in FlatMap(b.tnls, TnlFlood(vni, md, teps)) ensures Plain(a) {
        InFlatMap(b.tnls, TnlFlood(vni, md, teps), a);
        var i :| 0 <= i < |b.tnls| && a in TnlFlood(vni, md, teps)(b.tnls[i]);
        TnlActionsPlain(b.tnls[i], md, teps);
      }
    }
  }

  lemma LocalFloodPlain(b: BridgeView, deploy: Deploy, md: bool, teps: seq<Ip>, e: VniEntry<VifView>, ofp: nat)
    ensures AllPlain(LocalFlood(b, deploy, md, teps, e, ofp).actions)
  {
    ExternalActionsPlain(b, deploy, md, teps, e.vni);
    forall a | a in FlatMap(Ofps(e.vifs), Others(ofp)) ensures Plain(a) {
      InFlatMap(Ofps(e.vifs), Others(ofp), a);
    }
  }

  lemma OutputActionsPlain(b: BridgeView, deploy: Deploy, md: bool, teps: seq<Ip>, f: Flow)
    requires f in OutputFlows(b, deploy, md, teps)
    ensures f.table == OF_TABLE_OUTPUT && AllPlain(f.actions)
  {
    OutputFlowsAre(b, deploy, md, teps, f);
    if IsLocalFlood(b, deploy, md, teps, f) {
      var e, w :| e in b.vnis && w in e.vifs && f == LocalFlood(b, deploy, md, teps, e, w.ofp);
      LocalFloodPlain(b, deploy, md, teps, e, w.ofp);
    } else if IsExtUnicast(b, deploy, md, teps, f) {
      ExtUnicastPlain(b, deploy, md, teps, f);
    }
  }

  lemma ExtUnicastPlain(b: BridgeView, deploy: Deploy, md: bool, teps: seq<Ip>, f: Flow)
    requires IsExtUnicast(b, deploy, md, teps, f)
    ensures f.table == OF_TABLE_OUTPUT && AllPlain(f.actions)
  {
    if deploy.Tnl? {
      var t :| t in b.tnls && f == TnlUnicastFlow(md, teps, t);
      TnlActionsPlain(t, md, teps);
    }
  }

  lemma InputActionsStaged(b: BridgeView, deploy: Deploy, f: Flow)
    requires !deploy.Unknown? && f in InputFlows(b, deploy)
    ensures f.table == OF_TABLE_INPUT && FlowStaged(f)
  {
    InputFlowsAre(b, deploy, f);
  }

  // Every walk through a deployed bridge ends: each flow jumps to a later stage,
  // and only untracked packets are sent back into the ACL table.
  lemma PipelineWellStaged(flows: seq<Flow>, b: BridgeView, deploy: Deploy, md: bool, teps: seq<Ip>, acl: seq<Flow>)
    requires !deploy.Unknown? && AclShaped(acl)
    requires Installed(flows, b, deploy, md, teps, acl)
    ensures WellStaged(flows)
  {
    forall f | f in flows ensures FlowStaged(f) {
      StagedInstalled(b, deploy, md, teps, acl, f);
    }
  }

  lemma StagedInstalled(b: BridgeView, deploy: Deploy, md: bool, teps: seq<Ip>, acl: seq<Flow>, f: Flow)
    requires !deploy.Unknown? && AclShaped(acl)
    requires f in FIXED_STAGES || f in acl || f in InputFlows(b, deploy) || f in OutputFlows(b, deploy, md, teps)
    ensures FlowStaged(f)
  {
    if f in InputFlows(b, deploy) {
      InputActionsStaged(b, deploy, f);
    } else if f in OutputFlows(b, deploy, md, teps) {
      OutputActionsPlain(b, deploy, md, teps, f);
      PlainStaged(f);
    } else {
      FixedStaged(acl, f);
    }
  }

  lemma PlainStaged(f: Flow)
    requires AllPlain(f.actions)
    ensures FlowStaged(f)
  {
    forall a | a in f.actions ensures Staged(a, Rank(f.table), false) && !a.CtTrack? { assert Plain(a); }
  }

  lemma FixedStaged(acl: seq<Flow>, f: Flow)
    requires AclShaped(acl) && (f in FIXED_STAGES || f in acl)
    ensures FlowStaged(f)
  {
  }

  lemma InEntry(b: BridgeView, e: VniEntry<VifView>, w: VifView)
    requires IndexOk(b) && e in b.vnis && w in e.vifs
    ensures w in b.vifs && w.vni == e.vni
  {
    var j :| 0 <= j < |b.vnis| && b.vnis[j] == e;
  }

  lemma SameEntry(b: BridgeView, deploy: Deploy, e: VniEntry<VifView>, w: VifView, e': VniEntry<VifView>, w': VifView)
    requires IndexOk(b) && PortsOk(b, deploy)
    requires e in b.vnis && w in e.vifs && e' in b.vnis && w' in e'.vifs && w.ofp == w'.ofp
    ensures e == e' && w == w'
  {
    InEntry(b, e, w);
    InEntry(b, e', w');
    VifByOfp(b, deploy, w, w');
    var i :| 0 <= i < |b.vnis| && b.vnis[i] == e;
    var j :| 0 <= j < |b.vnis| && b.vnis[j] == e';
  }

  // The context every statement about a deployed bridge is made in.
  ghost predicate Deployed(flows: seq<Flow>, b: BridgeView, deploy: Deploy, md: bool, teps: seq<Ip>, acl: seq<Flow>) {
    BridgeOk(b, deploy, md) && AclShaped(acl) && Installed(flows, b, deploy, md, teps, acl) && WellStaged(flows)
  }

  lemma OnlyTable(flows: seq<Flow>, b: BridgeView, deploy: Deploy, md: bool, teps: seq<Ip>, acl: seq<Flow>, f: Flow)
    requires Deployed(flows, b, deploy, md, teps, acl) && f in flows
    ensures f.table == OF_TABLE_OUTPUT ==>
              || IsLocalFlood(b, deploy, md, teps, f) || IsExtFlood(b, deploy, md, f)
              || IsExtUnicast(b, deploy, md, teps, f) || IsMdCheck(b, md, f) || IsVifUnicast(b, f)
    ensures f.table == OF_TABLE_INPUT ==> f in InputFlows(b, deploy)
    ensures f.table == OF_TABLE_ACL ==> f in acl
    ensures f.table != OF_TABLE_OUTPUT && f.table != OF_TABLE_INPUT && f.table != OF_TABLE_ACL ==> f in FIXED_STAGES
  {
    if f in InputFlows(b, deploy) {
      InputActionsStaged(b, deploy, f);
    } else if f in OutputFlows(b, deploy, md, teps) {
      OutputActionsPlain(b, deploy, md, teps, f);
      OutputFlowsAre(b, deploy, md, teps, f);
    }
  }

  // ---- the OUTPUT table ----

  lemma SelectLocalFlood(flows: seq<Flow>, b: BridgeView, deploy: Deploy, md: bool, teps: seq<Ip>, acl: seq<Flow>,
                         i: nat, w: VifView, k: Pkt)
    requires Deployed(flows, b, deploy, md, teps, acl)
    requires i < |b.vnis| && w in b.vnis[i].vifs && k.inPort == w.ofp && k.reg1 == 0
    ensures var r := Lookup(flows, OF_TABLE_OUTPUT, k);
      r.Some? && r.value.actions == LocalFlood(b, deploy, md, teps, b.vnis[i], w.ofp).actions
  {
    IndexIsOk(b);
    var f := LocalFlood(b, deploy, md, teps, b.vnis[i], w.ofp);
    assert f in flows by {
      assert IsLocalFlood(b, deploy, md, teps, f);
      OutputFlowsAre(b, deploy, md, teps, f);
    }
    forall g | g in flows && Hits(g, OF_TABLE_OUTPUT, k)
      ensures g.priority < f.priority || (g.priority == f.priority && g.actions == f.actions)
    {
      OnlyTable(flows, b, deploy, md, teps, acl, g);
      if IsLocalFlood(b, deploy, md, teps, g) { LocalFloodAgrees(b, deploy, md, teps, i, w, g, k); }
    }
    LookupIs(flows, OF_TABLE_OUTPUT, k, f);
  }

  lemma LocalFloodAgrees(b: BridgeView, deploy: Deploy, md: bool, teps: seq<Ip>, i: nat, w: VifView, g: Flow, k: Pkt)
    requires IndexOk(b) && PortsOk(b, deploy) && i < |b.vnis| && w in b.vnis[i].vifs && k.inPort == w.ofp
    requires IsLocalFlood(b, deploy, md, teps, g) && Hits(g, OF_TABLE_OUTPUT, k)
    ensures g == LocalFlood(b, deploy, md, teps, b.vnis[i], w.ofp)
  {
    var e, w' :| e in b.vnis && w' in e.vifs && g == LocalFlood(b, deploy, md, teps, e, w'.ofp);
    SameEntry(b, deploy, b.vnis[i], w, e, w');
  }

  // A packet from an external port matches no flow flooding from a local interface.
  lemma LocalNotFromExt(b: BridgeView, deploy: Deploy, md: bool, teps: seq<Ip>, g: Flow, k: Pkt)
    requires IndexOk(b) && PortsOk(b, deploy)
    requires IsLocalFlood(b, deploy, md, teps, g) && k.inPort in ExtPorts(b, deploy)
    ensures !Hits(g, OF_TABLE_OUTPUT, k)
  {
    var e, w :| e in b.vnis && w in e.vifs && g == LocalFlood(b, deploy, md, teps, e, w.ofp);
    InEntry(b, e, w);
    assert g.cond.inPort == Some(w.ofp) && w.ofp != k.inPort;
  }

  lemma ExtFloodAgrees(b: BridgeView, deploy: Deploy, md: bool, i: nat, g: Flow, k: Pkt)
    requires UniqueKeys(b.vnis) && !deploy.Unknown? && (deploy.Native? ==> |b.vnis| <= 1) && i < |b.vnis|
    requires IsExtFlood(b, deploy, md, g) && Hits(g, OF_TABLE_OUTPUT, k)
    requires Hits(ExtFlood(deploy, md, b.vnis[i], k.inPort), OF_TABLE_OUTPUT, k)
    ensures g.priority == 100 && g.actions == Outputs(Ofps(b.vnis[i].vifs))
  {
    var e, x :| e in b.vnis && x in ExtPorts(b, deploy) && g == ExtFlood(deploy, md, e, x);
    var j :| 0 <= j < |b.vnis| && b.vnis[j] == e;
  }

  lemma SelectExtFlood(flows: seq<Flow>, b: BridgeView, deploy: Deploy, md: bool, teps: seq<Ip>, acl: seq<Flow>,
                       i: nat, k: Pkt)
    requires Deployed(flows, b, deploy, md, teps, acl)
    requires i < |b.vnis| && k.inPort in ExtPorts(b, deploy) && k.reg1 == 0
    requires Hits(ExtFlood(deploy, md, b.vnis[i], k.inPort), OF_TABLE_OUTPUT, k)
    ensures var r := Lookup(flows, OF_TABLE_OUTPUT, k);
      r.Some? && r.value.actions == Outputs(Ofps(b.vnis[i].vifs))
  {
    IndexIsOk(b);
    var f := ExtFlood(deploy, md, b.vnis[i], k.inPort);
    assert f in flows by {
      assert IsExtFlood(b, deploy, md, f);
      OutputFlowsAre(b, deploy, md, teps, f);
    }
    forall g | g in flows && Hits(g, OF_TABLE_OUTPUT, k)
      ensures g.priority < f.priority || (g.priority == f.priority && g.actions == f.actions)
    {
      OnlyTable(flows, b, deploy, md, teps, acl, g);
      if IsLocalFlood(b, deploy, md, teps, g) {
        LocalNotFromExt(b, deploy, md, teps, g, k);
      } else if IsExtFlood(b, deploy, md, g) {
        ExtFloodAgrees(b, deploy, md, i, g, k);
      }
    }
    LookupIs(flows, OF_TABLE_OUTPUT, k, f);
  }

  lemma SelectTnlUnicast(flows: seq<Flow>, b: BridgeView, md: bool, teps: seq<Ip>, acl: seq<Flow>, t: TunnelPort,
                         k: Pkt)
    requires Deployed(flows, b, Tnl, md, teps, acl)
    requires t in b.tnls && k.reg1 == t.ofp
    ensures var r := Lookup(flows, OF_TABLE_OUTPUT, k);
      r.Some? && r.value.actions == TnlActions(t, md, teps)
  {
    var f := TnlUnicastFlow(md, teps, t);
    TnlOfpIn(b.tnls, t);
    assert f in flows by {
      assert IsExtUnicast(b, Tnl, md, teps, f);
      OutputFlowsAre(b, Tnl, md, teps, f);
    }
    forall g | g in flows && Hits(g, OF_TABLE_OUTPUT, k)
      ensures g.priority < f.priority || (g.priority == f.priority && g.actions == f.actions)
    {
      OnlyTable(flows, b, Tnl, md, teps, acl, g);
      if IsExtUnicast(b, Tnl, md, teps, g) {
        var t' :| t' in b.tnls && g == TnlUnicastFlow(md, teps, t');
        TnlByOfp(b, t, t');
      }
    }
    LookupIs(flows, OF_TABLE_OUTPUT, k, f);
  }

  lemma TnlOfpIn(tnls: seq<TunnelPort>, t: TunnelPort)
    requires t in tnls
    ensures t.ofp in TnlOfps(tnls)
  {
    var i :| 0 <= i < |tnls| && tnls[i] == t;
    assert TnlOfps(tnls)[i] == t.ofp;
  }

  lemma TnlByOfp(b: BridgeView, t: TunnelPort, t': TunnelPort)
    requires PortsOk(b, Tnl) && t in b.tnls && t' in b.tnls && t.ofp == t'.ofp
    ensures t == t'
  {
    var i :| 0 <= i < |b.tnls| && b.tnls[i] == t;
    var j :| 0 <= j < |b.tnls| && b.tnls[j] == t';
    assert TnlOfps(b.tnls)[i] == TnlOfps(b.tnls)[j];
  }

  lemma SelectUplinkUnicast(flows: seq<Flow>, b: BridgeView, deploy: Deploy, md: bool, teps: seq<Ip>, acl: seq<Flow>,
                            k: Pkt)
    requires Deployed(flows, b, deploy, md, teps, acl)
    requires !deploy.Tnl? && k.reg1 in b.uplinks
    ensures var r := Lookup(flows, OF_TABLE_OUTPUT, k);
      r.Some? && r.value.actions == UplinkUnicastFlow(deploy, k.reg1).actions
  {
    var f := UplinkUnicastFlow(deploy, k.reg1);
    assert f in flows by {
      assert IsExtUnicast(b, deploy, md, teps, f);
      OutputFlowsAre(b, deploy, md, teps, f);
    }
    forall g | g in flows && Hits(g, OF_TABLE_OUTPUT, k)
      ensures g.priority < f.priority || (g.priority == f.priority && g.actions == f.actions)
    {
      OnlyTable(flows, b, deploy, md, teps, acl, g);
    }
    LookupIs(flows, OF_TABLE_OUTPUT, k, f);
  }

  // Towards a local interface the metadata check and the plain flow output to the same port.
  lemma SelectVifUnicast(flows: seq<Flow>, b: BridgeView, deploy: Deploy, md: bool, teps: seq<Ip>, acl: seq<Flow>,
                         w: VifView, k: Pkt)
    requires Deployed(flows, b, deploy, md, teps, acl)
    requires w in b.vifs && k.reg1 == w.ofp != 0
    ensures var r := Lookup(flows, OF_TABLE_OUTPUT, k);
      r.Some? && (r.value.actions == [Output(w.ofp)] || r.value.actions == [OutputReg1])
  {
    var f := VifUnicastFlow(w);
    assert f in flows by {
      assert IsVifUnicast(b, f);
      OutputFlowsAre(b, deploy, md, teps, f);
    }
    var g := Lookup(flows, OF_TABLE_OUTPUT, k).value;
    OnlyTable(flows, b, deploy, md, teps, acl, g);
    if IsExtUnicast(b, deploy, md, teps, g) {
      if deploy.Tnl? {
        var t :| t in b.tnls && g == TnlUnicastFlow(md, teps, t);
        TnlOfpIn(b.tnls, t);
      }
    }
  }

  // The check flow is chosen exactly for packets from a tunnel port that carry the marker and one of
  // the bridge's VNIs as metadata; all others fall to the plain flow.
  lemma MetadataChecked(flows: seq<Flow>, b: BridgeView, md: bool, teps: seq<Ip>, acl: seq<Flow>, w: VifView, k: Pkt)
    requires Deployed(flows, b, Tnl, md, teps, acl)
    requires w in b.vifs && k.reg1 == w.ofp != 0
    ensures var r := Lookup(flows, OF_TABLE_OUTPUT, k);
      && r.Some?
      && r.value.priority ==
           if md && k.inPort in TnlOfps(b.tnls) && k.md1 == 0x1234567890abcdef && k.md0 in KeysOf(b.vnis)
           then 15 else 10
  {
    SelectVifUnicast(flows, b, Tnl, md, teps, acl, w, k);
    var g := Lookup(flows, OF_TABLE_OUTPUT, k).value;
    VifFlowPriority(flows, b, md, teps, acl, w, k, g);
    if md && k.inPort in TnlOfps(b.tnls) && k.md1 == 0x1234567890abcdef && k.md0 in KeysOf(b.vnis) {
      var f := CheckFlowHits(flows, b, md, teps, acl, k);
    }
  }

  lemma CheckFlowHits(flows: seq<Flow>, b: BridgeView, md: bool, teps: seq<Ip>, acl: seq<Flow>, k: Pkt)
    returns (f: Flow)
    requires Deployed(flows, b, Tnl, md, teps, acl)
    requires md && k.inPort in TnlOfps(b.tnls) && k.md1 == 0x1234567890abcdef && k.md0 in KeysOf(b.vnis)
    ensures f in flows && Hits(f, OF_TABLE_OUTPUT, k) && f.priority == 15
  {
    var i :| 0 <= i < |b.tnls| && TnlOfps(b.tnls)[i] == k.inPort;
    var j :| 0 <= j < |b.vnis| && KeysOf(b.vnis)[j] == k.md0;
    f := MdCheckFlow(b.tnls[i].ofp, b.vnis[j]);
    CheckFlowIn(flows, b, md, teps, acl, b.tnls[i], b.vnis[j]);
  }

  lemma CheckFlowIn(flows: seq<Flow>, b: BridgeView, md: bool, teps: seq<Ip>, acl: seq<Flow>, t: TunnelPort,
                    e: VniEntry<VifView>)
    requires Deployed(flows, b, Tnl, md, teps, acl) && md && t in b.tnls && e in b.vnis
    ensures MdCheckFlow(t.ofp, e) in flows
  {
    assert IsMdCheck(b, md, MdCheckFlow(t.ofp, e));
    OutputFlowsAre(b, Tnl, md, teps, MdCheckFlow(t.ofp, e));
  }

  // What can be chosen for a packet resolved to a guest's port.
  lemma VifFlowPriority(flows: seq<Flow>, b: BridgeView, md: bool, teps: seq<Ip>, acl: seq<Flow>, w: VifView, k: Pkt,
                        g: Flow)
    requires Deployed(flows, b, Tnl, md, teps, acl) && g in flows && Hits(g, OF_TABLE_OUTPUT, k)
    requires w in b.vifs && k.reg1 == w.ofp != 0
    ensures g.priority == 10 || (g.priority == 15 && md && k.inPort in TnlOfps(b.tnls)
                                 && k.md1 == 0x1234567890abcdef && k.md0 in KeysOf(b.vnis))
  {
    OnlyTable(flows, b, Tnl, md, teps, acl, g);
    if IsExtUnicast(b, Tnl, md, teps, g) {
      var t :| t in b.tnls && g == TnlUnicastFlow(md, teps, t);
      TnlOfpIn(b.tnls, t);
    } else if IsMdCheck(b, md, g) {
      var t, e :| t in b.tnls && e in b.vnis && g == MdCheckFlow(t.ofp, e);
      TnlOfpIn(b.tnls, t);
      var j :| 0 <= j < |b.vnis| && b.vnis[j] == e;
      assert KeysOf(b.vnis)[j] == k.md0;
    }
  }

  // From an external port whose VNI has no local interface, only port 0 can be chosen.
  lemma SelectUnknownVni(flows: seq<Flow>, b: BridgeView, deploy: Deploy, md: bool, teps: seq<Ip>, acl: seq<Flow>,
                         k: Pkt)
    requires Deployed(flows, b, deploy, md, teps, acl)
    requires k.inPort in ExtPorts(b, deploy) && k.reg1 == 0
    requires forall e :: e in b.vnis ==> !Hits(ExtFlood(deploy, md, e, k.inPort), OF_TABLE_OUTPUT, k)
    ensures var r := Lookup(flows, OF_TABLE_OUTPUT, k);
      r.Some? ==> r.value.actions == [Output(0)] || r.value.actions == [OutputReg1]
  {
    IndexIsOk(b);
    var r := Lookup(flows, OF_TABLE_OUTPUT, k);
    if r.Some? {
      var g := r.value;
      OnlyTable(flows, b, deploy, md, teps, acl, g);
      if IsLocalFlood(b, deploy, md, teps, g) {
        LocalNotFromExt(b, deploy, md, teps, g, k);
      } else if IsExtUnicast(b, deploy, md, teps, g) {
        if deploy.Tnl? {
          var t :| t in b.tnls && g == TnlUnicastFlow(md, teps, t);
          TnlOfpIn(b.tnls, t);
        }
      }
    }
  }

  // ---- the INPUT table and the fixed stages ----

  lemma SelectVifInput(flows: seq<Flow>, b: BridgeView, deploy: Deploy, md: bool, teps: seq<Ip>, acl: seq<Flow>,
                       w: VifView, k: Pkt)
    requires Deployed(flows, b, deploy, md, teps, acl)
    requires w in b.vifs && k.inPort == w.ofp
    ensures var r := Lookup(flows, OF_TABLE_INPUT, k);
      r.Some? && r.value.actions == if deploy.Native? then [Goto(OF_TABLE_ACL)] else InputLoads(deploy, w.vni)
  {
    var f := if deploy.Native? then Flow(OF_TABLE_INPUT, 100, ANY, [Goto(OF_TABLE_ACL)]) else VifInputFlow(deploy, w);
    InputFlowsAre(b, deploy, f);
    forall g | g in flows && Hits(g, OF_TABLE_INPUT, k)
      ensures g.priority < f.priority || (g.priority == f.priority && g.actions == f.actions)
    {
      OnlyTable(flows, b, deploy, md, teps, acl, g);
      InputFlowsAre(b, deploy, g);
      if !deploy.Native? && exists w' :: w' in b.vifs && g == VifInputFlow(deploy, w') {
        var w' :| w' in b.vifs && g == VifInputFlow(deploy, w');
        VifByOfp(b, deploy, w, w');
      }
    }
    LookupIs(flows, OF_TABLE_INPUT, k, f);
  }

  lemma SelectExtInput(flows: seq<Flow>, b: BridgeView, deploy: Deploy, md: bool, teps: seq<Ip>, acl: seq<Flow>, k: Pkt)
    requires Deployed(flows, b, deploy, md, teps, acl)
    requires k.inPort in ExtPorts(b, deploy)
    ensures var r := Lookup(flows, OF_TABLE_INPUT, k);
      r.Some? && r.value.actions == if deploy.Native? then [Goto(OF_TABLE_ACL)] else ExtMoves(deploy)
  {
    var f := if deploy.Native? then Flow(OF_TABLE_INPUT, 100, ANY, [Goto(OF_TABLE_ACL)])
      else ExtInputFlow(deploy, k.inPort);
    InputFlowsAre(b, deploy, f);
    forall g | g in flows && Hits(g, OF_TABLE_INPUT, k)
      ensures g.priority < f.priority || (g.priority == f.priority && g.actions == f.actions)
    {
      OnlyTable(flows, b, deploy, md, teps, acl, g);
      InputFlowsAre(b, deploy, g);
    }
    LookupIs(flows, OF_TABLE_INPUT, k, f);
  }

  lemma SelectFixed(flows: seq<Flow>, b: BridgeView, deploy: Deploy, md: bool, teps: seq<Ip>, acl: seq<Flow>, f: Flow,
                    k: Pkt)
    requires Deployed(flows, b, deploy, md, teps, acl)
    requires f in FIXED_STAGES
    ensures var r := Lookup(flows, f.table, k);
      r.Some? && r.value.actions == f.actions
  {
    forall g | g in flows && Hits(g, f.table, k)
      ensures g.priority < f.priority || (g.priority == f.priority && g.actions == f.actions)
    {
      OnlyTable(flows, b, deploy, md, teps, acl, g);
    }
    LookupIs(flows, f.table, k, f);
  }
}
