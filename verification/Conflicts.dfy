/** Conflict freedom: no packet is matched by two different flows of equal priority, so what a
    switch does never depends on the order its flows were added in. */
module Conflicts {
  import opened Wrappers
  import opened Constants
  import opened OpenFlow
  import opened Ports
  import opened FlowTables
  import opened FlowTableProps
  import opened Lookups

  ghost predicate Clash(f: Flow, g: Flow, table: nat, k: Pkt) {
    f != g && f.priority == g.priority && Hits(f, table, k) && Hits(g, table, k)
  }

  ghost predicate ConflictFree(flows: seq<Flow>) {
    forall f, g, t, k :: f in flows && g in flows ==> !Clash(f, g, t, k)
  }

  // On conflict-free tables lookup is a function of the set of flows: neither their order
  // nor repeated additions matter.
  lemma LookupOrderFree(flows: seq<Flow>, flows': seq<Flow>, table: nat, k: Pkt)
    requires ConflictFree(flows) && forall f :: f in flows <==> f in flows'
    ensures Lookup(flows, table, k) == Lookup(flows', table, k)
  {
    var r, r' := Lookup(flows, table, k), Lookup(flows', table, k);
    if r.Some? && r'.Some? { assert !Clash(r.value, r'.value, table, k); }
  }

  lemma InPortsApart(f: Flow, x: nat, g: Flow, y: nat, t: nat, k: Pkt)
    requires f.cond.inPort == Some(x) && g.cond.inPort == Some(y) && x != y
    ensures !Clash(f, g, t, k) && !Clash(g, f, t, k)
  {
  }

  lemma LocalFloodsAgree(b: BridgeView, deploy: Deploy, md: bool, teps: seq<Ip>, f: Flow, g: Flow, t: nat, k: Pkt)
    requires IndexOk(b) && PortsOk(b, deploy)
    requires IsLocalFlood(b, deploy, md, teps, f) && IsLocalFlood(b, deploy, md, teps, g)
    ensures !Clash(f, g, t, k)
  {
    var e, w :| e in b.vnis && w in e.vifs && f == LocalFlood(b, deploy, md, teps, e, w.ofp);
    var e', w' :| e' in b.vnis && w' in e'.vifs && g == LocalFlood(b, deploy, md, teps, e', w'.ofp);
    if w.ofp == w'.ofp {
      SameEntry(b, deploy, e, w, e', w');
    } else {
      InPortsApart(f, w.ofp, g, w'.ofp, t, k);
    }
  }

  lemma LocalExtFloodsAgree(b: BridgeView, deploy: Deploy, md: bool, teps: seq<Ip>, f: Flow, g: Flow, t: nat, k: Pkt)
    requires IndexOk(b) && PortsOk(b, deploy)
    requires IsLocalFlood(b, deploy, md, teps, f) && IsExtFlood(b, deploy, md, g)
    ensures !Clash(f, g, t, k) && !Clash(g, f, t, k)
  {
    var e, w :| e in b.vnis && w in e.vifs && f == LocalFlood(b, deploy, md, teps, e, w.ofp);
    var e', x :| e' in b.vnis && x in ExtPorts(b, deploy) && g == ExtFlood(deploy, md, e', x);
    InEntry(b, e, w);
    InPortsApart(f, w.ofp, g, x, t, k);
  }

  lemma VnisApart(deploy: Deploy, md: bool, e: VniEntry<VifView>, e': VniEntry<VifView>, x: nat, t: nat, k: Pkt)
    requires (deploy.Tnl? || deploy.Vlan? || deploy.Qinq?) && e.vni != e'.vni
    ensures !Clash(ExtFlood(deploy, md, e, x), ExtFlood(deploy, md, e', x), t, k)
  {
  }

  lemma ExtFloodsAgree(b: BridgeView, deploy: Deploy, md: bool, f: Flow, g: Flow, t: nat, k: Pkt)
    requires IndexOk(b) && !deploy.Unknown? && (deploy.Native? ==> |b.vnis| <= 1)
    requires IsExtFlood(b, deploy, md, f) && IsExtFlood(b, deploy, md, g)
    ensures !Clash(f, g, t, k)
  {
    var e, x :| e in b.vnis && x in ExtPorts(b, deploy) && f == ExtFlood(deploy, md, e, x);
    var e', x' :| e' in b.vnis && x' in ExtPorts(b, deploy) && g == ExtFlood(deploy, md, e', x');
    var i :| 0 <= i < |b.vnis| && b.vnis[i] == e;
    var j :| 0 <= j < |b.vnis| && b.vnis[j] == e';
    if x != x' {
      InPortsApart(f, x, g, x', t, k);
    } else if i != j {
      VnisApart(deploy, md, e, e', x, t, k);
    }
  }

  lemma UnicastsAgree(b: BridgeView, deploy: Deploy, md: bool, teps: seq<Ip>, f: Flow, g: Flow, t: nat, k: Pkt)
    requires PortsOk(b, deploy)
    requires (IsExtUnicast(b, deploy, md, teps, f) && IsExtUnicast(b, deploy, md, teps, g))
             || (IsVifUnicast(b, f) && IsVifUnicast(b, g))
    ensures !Clash(f, g, t, k)
  {
    if IsVifUnicast(b, f) && IsVifUnicast(b, g) {
      var w :| w in b.vifs && f == VifUnicastFlow(w);
    } else if deploy.Tnl? {
      var x :| x in b.tnls && f == TnlUnicastFlow(md, teps, x);
      var y :| y in b.tnls && g == TnlUnicastFlow(md, teps, y);
      if Hits(f, t, k) && Hits(g, t, k) { TnlByOfp(b, x, y); }
    }
  }

  lemma MdChecksAgree(b: BridgeView, f: Flow, g: Flow, t: nat, k: Pkt)
    requires UniqueKeys(b.vnis) && IsMdCheck(b, true, f) && IsMdCheck(b, true, g)
    ensures !Clash(f, g, t, k)
  {
    var x, e :| x in b.tnls && e in b.vnis && f == MdCheckFlow(x.ofp, e);
    var y, e' :| y in b.tnls && e' in b.vnis && g == MdCheckFlow(y.ofp, e');
  }

  lemma FloodsAgree(b: BridgeView, deploy: Deploy, md: bool, teps: seq<Ip>, f: Flow, g: Flow, t: nat, k: Pkt)
    requires !deploy.Unknown? && IndexOk(b) && PortsOk(b, deploy) && (deploy.Native? ==> |b.vnis| <= 1)
    requires IsLocalFlood(b, deploy, md, teps, f) || IsExtFlood(b, deploy, md, f)
    requires IsLocalFlood(b, deploy, md, teps, g) || IsExtFlood(b, deploy, md, g)
    ensures !Clash(f, g, t, k)
  {
    if IsLocalFlood(b, deploy, md, teps, f) && IsLocalFlood(b, deploy, md, teps, g) {
      LocalFloodsAgree(b, deploy, md, teps, f, g, t, k);
    } else if IsLocalFlood(b, deploy, md, teps, f) {
      LocalExtFloodsAgree(b, deploy, md, teps, f, g, t, k);
    } else if IsLocalFlood(b, deploy, md, teps, g) {
      LocalExtFloodsAgree(b, deploy, md, teps, g, f, t, k);
    } else {
      ExtFloodsAgree(b, deploy, md, f, g, t, k);
    }
  }

  lemma OutputAgrees(b: BridgeView, deploy: Deploy, md: bool, teps: seq<Ip>, f: Flow, g: Flow, t: nat, k: Pkt)
    requires !deploy.Unknown? && IndexOk(b) && PortsOk(b, deploy) && (deploy.Native? ==> |b.vnis| <= 1)
    requires f in OutputFlows(b, deploy, md, teps) && g in OutputFlows(b, deploy, md, teps)
    ensures !Clash(f, g, t, k)
  {
    if f.priority == g.priority {
      OutputKind(b, deploy, md, teps, f);
      OutputKind(b, deploy, md, teps, g);
      if f.priority == 100 {
        FloodsAgree(b, deploy, md, teps, f, g, t, k);
      } else if f.priority == 15 {
        MdChecksAgree(b, f, g, t, k);
      } else {
        UnicastsAgree(b, deploy, md, teps, f, g, t, k);
      }
    }
  }

  // The priority tells which kind of OUTPUT flow it is.
  lemma OutputKind(b: BridgeView, deploy: Deploy, md: bool, teps: seq<Ip>, f: Flow)
    requires f in OutputFlows(b, deploy, md, teps)
    ensures f.priority == 100 ==> IsLocalFlood(b, deploy, md, teps, f) || IsExtFlood(b, deploy, md, f)
    ensures f.priority == 20 ==> IsExtUnicast(b, deploy, md, teps, f)
    ensures f.priority == 15 ==> IsMdCheck(b, true, f)
    ensures f.priority == 10 ==> IsVifUnicast(b, f)
    ensures f.priority in {100, 20, 15, 10}
  {
    OutputFlowsAre(b, deploy, md, teps, f);
  }

  lemma InputAgrees(b: BridgeView, deploy: Deploy, f: Flow, g: Flow, t: nat, k: Pkt)
    requires !deploy.Unknown? && PortsOk(b, deploy)
    requires f in InputFlows(b, deploy) && g in InputFlows(b, deploy)
    ensures !Clash(f, g, t, k)
  {
    InputFlowsAre(b, deploy, f);
    InputFlowsAre(b, deploy, g);
    if !deploy.Native? {
      var x, y := f.cond.inPort.value, g.cond.inPort.value;
      if x != y {
        InPortsApart(f, x, g, y, t, k);
      } else if w, w' :| w in b.vifs && f == VifInputFlow(deploy, w) && w' in b.vifs && g == VifInputFlow(deploy, w') {
        VifByOfp(b, deploy, w, w');
      }
    }
  }

  // Outside the ACL table a deployed switch is conflict free.
  lemma DeployedAgrees(flows: seq<Flow>, b: BridgeView, deploy: Deploy, md: bool, teps: seq<Ip>, acl: seq<Flow>,
                       f: Flow, g: Flow, t: nat, k: Pkt)
    requires Deployed(flows, b, deploy, md, teps, acl) && f in flows && g in flows && t != OF_TABLE_ACL
    ensures !Clash(f, g, t, k)
  {
    IndexIsOk(b);
    if Clash(f, g, t, k) {
      OnlyTable(flows, b, deploy, md, teps, acl, f);
      OnlyTable(flows, b, deploy, md, teps, acl, g);
      if t == OF_TABLE_OUTPUT {
        OutputFlowsAre(b, deploy, md, teps, f);
        OutputFlowsAre(b, deploy, md, teps, g);
        OutputAgrees(b, deploy, md, teps, f, g, t, k);
      } else if t == OF_TABLE_INPUT {
        InputAgrees(b, deploy, f, g, t, k);
      }
    }
  }

  // Every deployed switch is conflict free whenever its ACL table is.
  lemma DeployedConflictFree(flows: seq<Flow>, b: BridgeView, deploy: Deploy, md: bool, teps: seq<Ip>, acl: seq<Flow>)
    requires Deployed(flows, b, deploy, md, teps, acl) && ConflictFree(acl)
    ensures ConflictFree(flows)
  {
    forall f, g, t, k | f in flows && g in flows ensures !Clash(f, g, t, k) {
      if t != OF_TABLE_ACL {
        DeployedAgrees(flows, b, deploy, md, teps, acl, f, g, t, k);
      } else if Clash(f, g, t, k) {
        OnlyTable(flows, b, deploy, md, teps, acl, f);
        OnlyTable(flows, b, deploy, md, teps, acl, g);
      }
    }
  }

  // What a deployed switch does outside its ACL table is fixed by what was installed, not by the
  // order it was installed in, whichever ACL table it has.
  lemma OrderIrrelevant(flows: seq<Flow>, flows': seq<Flow>, b: BridgeView, deploy: Deploy, md: bool, teps: seq<Ip>,
                        acl: seq<Flow>, table: nat, k: Pkt)
    requires Deployed(flows, b, deploy, md, teps, acl) && Installed(flows', b, deploy, md, teps, acl)
    requires table != OF_TABLE_ACL
    ensures Lookup(flows, table, k) == Lookup(flows', table, k)
  {
    var r, r' := Lookup(flows, table, k), Lookup(flows', table, k);
    if r.Some? && r'.Some? {
      DeployedAgrees(flows, b, deploy, md, teps, acl, r.value, r'.value, table, k);
    }
  }

  // With the default ACL that holds of every table.
  lemma DefaultOrderIrrelevant(flows: seq<Flow>, flows': seq<Flow>, b: BridgeView, deploy: Deploy, md: bool,
                               teps: seq<Ip>, table: nat, k: Pkt)
    requires Deployed(flows, b, deploy, md, teps, DEFAULT_ACL)
    requires Installed(flows', b, deploy, md, teps, DEFAULT_ACL)
    ensures Lookup(flows, table, k) == Lookup(flows', table, k)
  {
    assert ConflictFree(DEFAULT_ACL);
    DeployedConflictFree(flows, b, deploy, md, teps, DEFAULT_ACL);
    LookupOrderFree(flows, flows', table, k);
  }

  // The OUTPUT table is ambiguous in native mode with two VNIs and an uplink, and only then:
  // there the flows flooding what the uplink brings in differ per VNI but match alike.
  lemma OutputConflictFreeIff(b: BridgeView, deploy: Deploy, md: bool, teps: seq<Ip>)
    requires !deploy.Unknown? && IndexOk(b) && PortsOk(b, deploy) && (forall e :: e in b.vnis ==> e.vifs != [])
    ensures ConflictFree(OutputFlows(b, deploy, md, teps)) <==>
              !(deploy.Native? && |b.vnis| > 1 && b.uplinks != [])
  {
    var flows := OutputFlows(b, deploy, md, teps);
    if deploy.Native? && |b.vnis| > 1 && b.uplinks != [] {
      NativeAmbiguous(b, md, teps);
    } else if !deploy.Native? || |b.vnis| <= 1 {
      forall f, g, t, k | f in flows && g in flows ensures !Clash(f, g, t, k) {
        OutputAgrees(b, deploy, md, teps, f, g, t, k);
      }
    } else {
      forall f, g, t, k | f in flows && g in flows ensures !Clash(f, g, t, k) {
        NoUplinkAgrees(b, md, teps, f, g, t, k);
      }
    }
  }

  lemma NoUplinkAgrees(b: BridgeView, md: bool, teps: seq<Ip>, f: Flow, g: Flow, t: nat, k: Pkt)
    requires IndexOk(b) && PortsOk(b, Native) && b.uplinks == []
    requires f in OutputFlows(b, Native, md, teps) && g in OutputFlows(b, Native, md, teps)
    ensures !Clash(f, g, t, k)
  {
    OutputFlowsAre(b, Native, md, teps, f);
    OutputFlowsAre(b, Native, md, teps, g);
    if Clash(f, g, t, k) {
      if IsLocalFlood(b, Native, md, teps, f) {
        LocalFloodsAgree(b, Native, md, teps, f, g, t, k);
      } else if IsMdCheck(b, md, f) {
        MdChecksAgree(b, f, g, t, k);
      } else {
        UnicastsAgree(b, Native, md, teps, f, g, t, k);
      }
    }
  }

  lemma NativeAmbiguous(b: BridgeView, md: bool, teps: seq<Ip>)
    requires IndexOk(b) && PortsOk(b, Native) && (forall e :: e in b.vnis ==> e.vifs != [])
    requires |b.vnis| > 1 && b.uplinks != []
    ensures !ConflictFree(OutputFlows(b, Native, md, teps))
  {
    var e, e', u := b.vnis[0], b.vnis[1], b.uplinks[0];
    NativeFloodIn(b, md, teps, e, u);
    NativeFloodIn(b, md, teps, e', u);
    assert e.vni != e'.vni;
    OtherOutputs(b, e, e');
    var k := NativeFloodsClash(md, e, e', u);
  }

  lemma NativeFloodIn(b: BridgeView, md: bool, teps: seq<Ip>, e: VniEntry<VifView>, u: nat)
    requires e in b.vnis && u in b.uplinks
    ensures ExtFlood(Native, md, e, u) in OutputFlows(b, Native, md, teps)
  {
    assert IsExtFlood(b, Native, md, ExtFlood(Native, md, e, u));
    OutputFlowsAre(b, Native, md, teps, ExtFlood(Native, md, e, u));
  }

  lemma NativeFloodsClash(md: bool, e: VniEntry<VifView>, e': VniEntry<VifView>, u: nat) returns (k: Pkt)
    requires Outputs(Ofps(e.vifs)) != Outputs(Ofps(e'.vifs))
    ensures Clash(ExtFlood(Native, md, e, u), ExtFlood(Native, md, e', u), OF_TABLE_OUTPUT, k)
  {
    k := Pkt(u, 0, 0, [], Header(Arp, OtherProto, 0, false, Tuple(0, 0, 0, 0)), 0, 0, 0, 0, 0, 0, false, UNTRACKED);
  }

  lemma OtherOutputs(b: BridgeView, e: VniEntry<VifView>, e': VniEntry<VifView>)
    requires IndexOk(b) && PortsOk(b, Native) && e in b.vnis && e' in b.vnis && e != e' && e.vifs != [] && e'.vifs != []
    ensures Outputs(Ofps(e.vifs)) != Outputs(Ofps(e'.vifs))
  {
    assert e.vifs[0] in e.vifs && e'.vifs[0] in e'.vifs;
    if e.vifs[0].ofp == e'.vifs[0].ofp { SameEntry(b, Native, e, e.vifs[0], e', e'.vifs[0]); }
    assert Outputs(Ofps(e.vifs))[0] == Output(e.vifs[0].ofp) && Outputs(Ofps(e'.vifs))[0] == Output(e'.vifs[0].ofp);
  }
}
