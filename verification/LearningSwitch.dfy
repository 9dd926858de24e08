/** The compiled tables refine a learning switch with one broadcast domain per VNI. */
module LearningSwitch {
  import opened Seqs
  import opened Constants
  import opened OpenFlow
  import opened Ports
  import opened FlowTables
  import opened FlowTableProps
  import opened Lookups
  import opened Pipeline
  import opened Walk
  import opened Switching

  // ---- what may be learned ----

  ghost predicate ExtCarries(b: BridgeView, deploy: Deploy, port: nat, r: nat) {
    && port in ExtPorts(b, deploy)
    && (deploy.Tnl? ==> forall t :: t in b.tnls && t.ofp == port ==> t.key == FlowKey || Reg0Of(Tnl, t.key.vni) == r)
  }

  ghost predicate LocalEntry(b: BridgeView, deploy: Deploy, r: nat, port: nat) {
    exists w :: w in b.vifs && w.ofp == port && Reg0Of(deploy, w.vni) == r
  }

  // Every entry leads to an interface of its own VNI or to an external port that carries that VNI.
  ghost predicate FibOk(b: BridgeView, deploy: Deploy, fib: map<(nat, Mac), nat>) {
    forall e :: e in fib ==>
      fib[e] != OFP_LOCAL && (LocalEntry(b, deploy, e.0, fib[e]) || ExtCarries(b, deploy, fib[e], e.0))
  }

  // ---- the abstract switch ----

  datatype Plan = Plan(ports: seq<nat>, toWire: bool)

  // Unknown destinations are flooded in the domain; only frames of local origin go out to the wire.
  function SwitchPlan(b: BridgeView, deploy: Deploy, fib: map<(nat, Mac), nat>, local: bool,
                      domain: seq<VifView>, inPort: nat, r: nat, dst: Mac): Plan {
    if (r, dst) !in fib then Plan(Targets(domain, inPort), local)
    else
      var p := fib[(r, dst)];
      if p == inPort then Plan([], false)
      else if p in ExtPorts(b, deploy) then Plan([], local)
      else Plan([p], false)
  }

  function PlanEffects(deploy: Deploy, md: bool, vni: nat, p: Plan, f: Frame): seq<Effect> {
    Deliveries(p.ports, f) + (if p.toWire then [Send(WireFor(deploy, md, vni, f))] else [])
  }

  // ---- sending out of a host ----

  lemma ExternalSends(b: BridgeView, deploy: Deploy, md: bool, peer: Ip, i: nat, k: Pkt)
    requires HostOk(b, deploy, md, peer)
    requires i < |b.vnis| && VniFits(deploy, b.vnis[i].vni)
    requires k.reg0 == Reg0Of(deploy, b.vnis[i].vni) && k.md0 == k.md1 == 0 && k.inPort !in ExtPorts(b, deploy)
    ensures Effects(b, deploy, peer, PlainRun(ExternalActions(b, deploy, md, [peer], b.vnis[i].vni), k).1)
         == [Send(WireFor(deploy, md, b.vnis[i].vni, FrameOf(k)))]
  {
    if deploy.Tnl? {
      TnlFloodIs(b, md, peer, i);
      TnlOfpIn(b.tnls, TnlAt(b, i));
      PlainTnl(TnlAt(b, i), md, [peer], k);
      TunnelSends(b, md, peer, i, k);
    } else {
      UplinkOuts(b, deploy, k);
      UplinkFloodIs(b, deploy, md, [peer], b.vnis[i].vni);
      UplinkSends(b, deploy, md, peer, b.vnis[i].vni, k);
    }
  }

  // Flooding to the one uplink and unicast to it are the same actions.
  lemma UplinkFloodIs(b: BridgeView, deploy: Deploy, md: bool, teps: seq<Ip>, vni: nat)
    requires !deploy.Tnl? && |b.uplinks| == 1
    ensures ExternalActions(b, deploy, md, teps, vni) == UplinkUnicastFlow(deploy, b.uplinks[0]).actions
  {
    assert Outputs(b.uplinks) == [Output(b.uplinks[0])];
  }

  lemma UplinkOuts(b: BridgeView, deploy: Deploy, k: Pkt)
    requires !deploy.Tnl? && !deploy.Unknown? && |b.uplinks| == 1
    ensures PlainRun(UplinkUnicastFlow(deploy, b.uplinks[0]).actions, k).1 == Emit(b.uplinks[0], TaggedPkt(deploy, k))
  {
    var u := b.uplinks[0];
    if deploy.Native? {
      assert [] + [Output(u)] == [Output(u)];
      PlainOne(Output(u), k);
    } else {
      PlainUplink(deploy, k);
      PlainAppend(UplinkActions(deploy), [Output(u)], k);
      PlainOne(Output(u), TaggedPkt(deploy, k));
      assert [] + Emit(u, TaggedPkt(deploy, k)) == Emit(u, TaggedPkt(deploy, k));
    }
  }

  // ---- frames of local origin ----

  lemma LocalFlooded(flows: seq<Flow>, b: BridgeView, deploy: Deploy, md: bool, peer: Ip, acl: seq<Flow>,
                    i: nat, w: VifView, k: Pkt)
    requires Ready(flows, b, deploy, md, peer, acl)
    requires i < |b.vnis| && w in b.vnis[i].vifs && k.inPort == w.ofp && k.reg1 == 0
    requires k.reg0 == Reg0Of(deploy, b.vnis[i].vni) && k.md0 == k.md1 == 0
    ensures Effects(b, deploy, peer, OutputOuts(flows, k))
         == PlanEffects(deploy, md, b.vnis[i].vni, Plan(Targets(b.vnis[i].vifs, k.inPort), true), FrameOf(k))
  {
    var e := b.vnis[i];
    IndexIsOk(b);
    InEntry(b, e, w);
    SelectLocalFlood(flows, b, deploy, md, [peer], acl, i, w, k);
    var xs := FlatMap(Ofps(e.vifs), Others(k.inPort));
    var ys := ExternalActions(b, deploy, md, [peer], e.vni);
    PlainOthers(Ofps(e.vifs), k);
    PlainAppend(xs, ys, k);
    var o1 := FlatMap(Ofps(e.vifs), EmitAt(k));
    FlatMapAppend(o1, PlainRun(ys, k).1, EffectOf(b, deploy, peer));
    FloodEffects(b, deploy, peer, e.vifs, k);
    ExternalSends(b, deploy, md, peer, i, k);
  }

  lemma VifUnicastEffects(flows: seq<Flow>, b: BridgeView, deploy: Deploy, md: bool, peer: Ip, acl: seq<Flow>,
                          w: VifView, k: Pkt)
    requires Ready(flows, b, deploy, md, peer, acl)
    requires w in b.vifs && k.reg1 == w.ofp != OFP_LOCAL
    ensures Effects(b, deploy, peer, OutputOuts(flows, k))
         == Deliveries(if w.ofp == k.inPort then [] else [w.ofp], FrameOf(k))
  {
    SelectVifUnicast(flows, b, deploy, md, [peer], acl, w, k);
    PlainOne(Output(w.ofp), k);
    PlainOne(OutputReg1, k);
    InOfps(b.vifs, w.ofp);
    EmitEffect(b, deploy, peer, w.ofp, k);
  }

  // A port that carries the i-th VNI is the port that serves it.
  lemma CarrierServes(b: BridgeView, md: bool, peer: Ip, i: nat, t: TunnelPort)
    requires HostOk(b, Tnl, md, peer) && i < |b.vnis| && VniFits(Tnl, b.vnis[i].vni)
    requires t in b.tnls && ExtCarries(b, Tnl, t.ofp, Reg0Of(Tnl, b.vnis[i].vni))
    ensures t == TnlAt(b, i)
  {
    var j :| 0 <= j < |b.tnls| && b.tnls[j] == t;
    if b.tnls[0].key != FlowKey { SameVni(b, md, peer, i, j); }
  }

  lemma SameVni(b: BridgeView, md: bool, peer: Ip, i: nat, j: nat)
    requires HostOk(b, Tnl, md, peer) && i < |b.vnis| && j < |b.vnis| && VniFits(Tnl, b.vnis[i].vni)
    requires Reg0Of(Tnl, b.vnis[i].vni) == Reg0Of(Tnl, b.vnis[j].vni)
    ensures i == j
  {
    IndexIsOk(b);
    VniOfEntryFits(b, Tnl, md, peer, j);
    Reg0Injective(Tnl, b.vnis[i].vni, b.vnis[j].vni);
  }

  lemma ExtUnicastEffects(flows: seq<Flow>, b: BridgeView, deploy: Deploy, md: bool, peer: Ip, acl: seq<Flow>,
                          i: nat, k: Pkt)
    requires Ready(flows, b, deploy, md, peer, acl)
    requires i < |b.vnis| && VniFits(deploy, b.vnis[i].vni)
    requires k.reg0 == Reg0Of(deploy, b.vnis[i].vni) && k.md0 == k.md1 == 0 && k.inPort !in ExtPorts(b, deploy)
    requires ExtCarries(b, deploy, k.reg1, k.reg0)
    ensures Effects(b, deploy, peer, OutputOuts(flows, k)) == [Send(WireFor(deploy, md, b.vnis[i].vni, FrameOf(k)))]
  {
    if deploy.Tnl? {
      var j :| 0 <= j < |b.tnls| && TnlOfps(b.tnls)[j] == k.reg1;
      CarrierServes(b, md, peer, i, b.tnls[j]);
      TunnelUnicastSends(flows, b, md, peer, acl, i, b.tnls[j], k);
    } else {
      UplinkUnicastSends(flows, b, deploy, md, peer, acl, b.vnis[i].vni, k);
    }
  }

  lemma TunnelOuts(flows: seq<Flow>, b: BridgeView, md: bool, peer: Ip, acl: seq<Flow>, t: TunnelPort, k: Pkt)
    requires Deployed(flows, b, Tnl, md, [peer], acl) && t in b.tnls && k.reg1 == t.ofp
    ensures OutputOuts(flows, k) == Emit(t.ofp, TunnelPkt(t, md, [peer], k))
  {
    SelectTnlUnicast(flows, b, md, [peer], acl, t, k);
    PlainTnl(t, md, [peer], k);
  }

  lemma TunnelUnicastSends(flows: seq<Flow>, b: BridgeView, md: bool, peer: Ip, acl: seq<Flow>, i: nat, t: TunnelPort,
                           k: Pkt)
    requires Ready(flows, b, Tnl, md, peer, acl) && t in b.tnls
    requires i < |b.vnis| && VniFits(Tnl, b.vnis[i].vni) && t == TnlAt(b, i) && k.reg1 == t.ofp
    requires k.reg0 == Reg0Of(Tnl, b.vnis[i].vni) && k.md0 == k.md1 == 0 && k.inPort !in ExtPorts(b, Tnl)
    ensures Effects(b, Tnl, peer, OutputOuts(flows, k)) == [Send(WireFor(Tnl, md, b.vnis[i].vni, FrameOf(k)))]
  {
    TunnelOuts(flows, b, md, peer, acl, t, k);
    EmittedSends(b, md, peer, i, k);
  }

  lemma EmittedSends(b: BridgeView, md: bool, peer: Ip, i: nat, k: Pkt)
    requires HostOk(b, Tnl, md, peer) && i < |b.vnis| && VniFits(Tnl, b.vnis[i].vni)
    requires k.reg0 == Reg0Of(Tnl, b.vnis[i].vni) && k.md0 == k.md1 == 0 && k.inPort !in ExtPorts(b, Tnl)
    ensures Effects(b, Tnl, peer, Emit(TnlAt(b, i).ofp, TunnelPkt(TnlAt(b, i), md, [peer], k)))
         == [Send(WireFor(Tnl, md, b.vnis[i].vni, FrameOf(k)))]
  {
    TnlFloodIs(b, md, peer, i);
    TnlOfpIn(b.tnls, TnlAt(b, i));
    TunnelSends(b, md, peer, i, k);
  }

  lemma UplinkUnicastSends(flows: seq<Flow>, b: BridgeView, deploy: Deploy, md: bool, peer: Ip, acl: seq<Flow>,
                           vni: nat, k: Pkt)
    requires Ready(flows, b, deploy, md, peer, acl) && !deploy.Tnl? && VniFits(deploy, vni)
    requires k.reg0 == Reg0Of(deploy, vni) && k.md0 == k.md1 == 0 && k.inPort !in ExtPorts(b, deploy)
    requires k.reg1 in b.uplinks
    ensures Effects(b, deploy, peer, OutputOuts(flows, k)) == [Send(WireFor(deploy, md, vni, FrameOf(k)))]
  {
    SelectUplinkUnicast(flows, b, deploy, md, [peer], acl, k);
    UplinkOuts(b, deploy, k);
    UplinkSends(b, deploy, md, peer, vni, k);
  }

  // A frame of local origin is treated as the abstract switch treats it.
  lemma LocalEgress(flows: seq<Flow>, b: BridgeView, deploy: Deploy, md: bool, peer: Ip, acl: seq<Flow>,
                    i: nat, w: VifView, s: Switch, k: Pkt)
    requires Ready(flows, b, deploy, md, peer, acl) && FibOk(b, deploy, s.fib)
    requires i < |b.vnis| && w in b.vnis[i].vifs && k.inPort == w.ofp != OFP_LOCAL && k.reg1 == 0
    requires k.reg0 == Reg0Of(deploy, b.vnis[i].vni) && k.md0 == k.md1 == 0
    ensures Effects(b, deploy, peer, OutputOuts(flows, Resolve(s, k)))
         == PlanEffects(deploy, md, b.vnis[i].vni,
                        SwitchPlan(b, deploy, s.fib, true, b.vnis[i].vifs, k.inPort, k.reg0, k.dst), FrameOf(k))
  {
    var e := b.vnis[i];
    IndexIsOk(b);
    InEntry(b, e, w);
    if (k.reg0, k.dst) !in s.fib {
      LocalFlooded(flows, b, deploy, md, peer, acl, i, w, k);
    } else {
      var p := s.fib[(k.reg0, k.dst)];
      var k' := Resolve(s, k);
      InOfps(b.vifs, k.inPort);
      if LocalEntry(b, deploy, k.reg0, p) {
        var w' :| w' in b.vifs && w'.ofp == p && Reg0Of(deploy, w'.vni) == k.reg0;
        VifUnicastEffects(flows, b, deploy, md, peer, acl, w', k');
      } else {
        ExtUnicastEffects(flows, b, deploy, md, peer, acl, i, k');
      }
    }
  }

  // ---- frames from the wire ----

  // The interfaces on a VNI, none when the VNI is not present.
  function Domain(b: BridgeView, vni: nat): seq<VifView> {
    var i := FindKey(b.vnis, vni);
    if i < |b.vnis| then b.vnis[i].vifs else []
  }

  lemma DomainIs(b: BridgeView, deploy: Deploy, vni: nat)
    requires IndexOk(b)
    ensures forall w :: w in Domain(b, vni) <==> w in b.vifs && w.vni == vni
  {
    var i := FindKey(b.vnis, vni);
    if i == |b.vnis| {
      forall w | w in b.vifs ensures w.vni != vni {
        var j :| 0 <= j < |b.vnis| && KeysOf(b.vnis)[j] == w.vni;
      }
    }
  }

  // External ports that carry one VNI coincide.
  lemma CarrierUnique(b: BridgeView, deploy: Deploy, md: bool, peer: Ip, r: nat, p: nat, q: nat)
    requires HostOk(b, deploy, md, peer) && ExtCarries(b, deploy, p, r) && ExtCarries(b, deploy, q, r)
    ensures p == q
  {
    if deploy.Tnl? {
      IndexIsOk(b);
      var i :| 0 <= i < |b.tnls| && TnlOfps(b.tnls)[i] == p;
      var j :| 0 <= j < |b.tnls| && TnlOfps(b.tnls)[j] == q;
      assert b.tnls[i] in b.tnls && b.tnls[j] in b.tnls;
      if b.tnls[0].key != FlowKey {
        VniOfEntryFits(b, Tnl, md, peer, i);
        VniOfEntryFits(b, Tnl, md, peer, j);
        Reg0Injective(Tnl, b.vnis[i].vni, b.vnis[j].vni);
      }
    }
  }

  // Within the deployable VNIs, a flood flow for the wire matches exactly its own VNI's packets.
  lemma ExtFloodHits(deploy: Deploy, md: bool, e: VniEntry<VifView>, vni: nat, k: Pkt)
    requires VniFits(deploy, vni) && VniFits(deploy, e.vni)
    requires k.reg1 == 0 && k.reg0 == Reg0Of(deploy, vni)
    requires md ==> k.md0 == vni && k.md1 == TUN_MD1
    ensures Hits(ExtFlood(deploy, md, e, k.inPort), OF_TABLE_OUTPUT, k) <==> e.vni == vni
  {
    ReadsVni(deploy, vni);
    var f := ExtFlood(deploy, md, e, k.inPort);
    assert f.cond.reg0.Some? ==> f.cond.reg0.value == (if deploy.Tnl? then Whole32 else Low12, e.vni);
  }

  // The bits a flood flow for the wire matches hold the VNI.
  lemma ReadsVni(deploy: Deploy, vni: nat)
    requires VniFits(deploy, vni) && !deploy.Unknown?
    ensures Get(Reg0Of(deploy, vni), if deploy.Tnl? then Whole32 else Low12) == vni
  {
    if deploy.Qinq? { LowBits(vni, vni + 100); }
  }

  lemma LowBits(lo: nat, hi: nat)
    requires lo < 0x1000 && hi < 0x1000
    ensures (lo + hi * 0x1_0000) % 0x1000 == lo
  {
    assert lo + hi * 0x1_0000 == lo + hi * 16 * 0x1000;
  }

  lemma VniOfEntryFits(b: BridgeView, deploy: Deploy, md: bool, peer: Ip, j: nat)
    requires HostOk(b, deploy, md, peer) && j < |b.vnis|
    ensures VniFits(deploy, b.vnis[j].vni)
  {
    IndexIsOk(b);
    VniIndexGroups(b.vifs, Vnis(b.vifs));
    InEntry(b, b.vnis[j], b.vnis[j].vifs[0]);
  }

  lemma RemoteFloods(flows: seq<Flow>, b: BridgeView, deploy: Deploy, md: bool, peer: Ip, acl: seq<Flow>, vni: nat,
                     k: Pkt)
    requires Ready(flows, b, deploy, md, peer, acl) && VniFits(deploy, vni)
    requires k.inPort in ExtPorts(b, deploy) && k.reg1 == 0 && k.reg0 == Reg0Of(deploy, vni)
    requires md ==> k.md0 == vni && k.md1 == TUN_MD1
    ensures Effects(b, deploy, peer, OutputOuts(flows, k)) == Deliveries(Targets(Domain(b, vni), k.inPort), FrameOf(k))
  {
    IndexIsOk(b);
    var i := FindKey(b.vnis, vni);
    if i < |b.vnis| {
      ExtFloodHits(deploy, md, b.vnis[i], vni, k);
      SelectExtFlood(flows, b, deploy, md, [peer], acl, i, k);
      PlainOutputs(Ofps(b.vnis[i].vifs), k);
      forall w | w in b.vnis[i].vifs ensures w in b.vifs { InEntry(b, b.vnis[i], w); }
      FloodEffects(b, deploy, peer, b.vnis[i].vifs, k);
    } else {
      UnknownVniDropped(flows, b, deploy, md, peer, acl, vni, k);
    }
  }

  // A VNI with no local interface: at most a copy for port 0, which is nobody's.
  lemma UnknownVniDropped(flows: seq<Flow>, b: BridgeView, deploy: Deploy, md: bool, peer: Ip, acl: seq<Flow>,
                          vni: nat, k: Pkt)
    requires Ready(flows, b, deploy, md, peer, acl) && VniFits(deploy, vni)
    requires k.inPort in ExtPorts(b, deploy) && k.reg1 == 0 && k.reg0 == Reg0Of(deploy, vni)
    requires md ==> k.md0 == vni && k.md1 == TUN_MD1
    requires FindKey(b.vnis, vni) == |b.vnis|
    ensures Effects(b, deploy, peer, OutputOuts(flows, k)) == []
  {
    forall e | e in b.vnis ensures !Hits(ExtFlood(deploy, md, e, k.inPort), OF_TABLE_OUTPUT, k) {
      var j :| 0 <= j < |b.vnis| && b.vnis[j] == e;
      VniOfEntryFits(b, deploy, md, peer, j);
      ExtFloodHits(deploy, md, e, vni, k);
    }
    SelectUnknownVni(flows, b, deploy, md, [peer], acl, k);
    PortZeroOnly(b, deploy, peer, k);
  }

  lemma PortZeroOnly(b: BridgeView, deploy: Deploy, peer: Ip, k: Pkt)
    requires OFP_LOCAL !in ExtPorts(b, deploy) && k.reg1 == OFP_LOCAL
    ensures Effects(b, deploy, peer, PlainRun([Output(0)], k).1) == []
    ensures Effects(b, deploy, peer, PlainRun([OutputReg1], k).1) == []
  {
    PlainOne(Output(0), k);
    PlainOne(OutputReg1, k);
    LocalNotSent(b, deploy, peer, k);
    FlatMapOne([Out(0, k)], EffectOf(b, deploy, peer));
  }

  // A frame from the wire never goes back to the wire.
  lemma RemoteEgress(flows: seq<Flow>, b: BridgeView, deploy: Deploy, md: bool, peer: Ip, acl: seq<Flow>,
                     vni: nat, s: Switch, k: Pkt)
    requires Ready(flows, b, deploy, md, peer, acl) && FibOk(b, deploy, s.fib) && VniFits(deploy, vni)
    requires ExtCarries(b, deploy, k.inPort, k.reg0) && k.reg1 == 0 && k.reg0 == Reg0Of(deploy, vni)
    requires md ==> k.md0 == vni && k.md1 == TUN_MD1
    ensures Effects(b, deploy, peer, OutputOuts(flows, Resolve(s, k)))
         == PlanEffects(deploy, md, vni,
                        SwitchPlan(b, deploy, s.fib, false, Domain(b, vni), k.inPort, k.reg0, k.dst), FrameOf(k))
  {
    if (k.reg0, k.dst) !in s.fib {
      RemoteFloods(flows, b, deploy, md, peer, acl, vni, k);
    } else {
      var p := s.fib[(k.reg0, k.dst)];
      var k' := Resolve(s, k);
      if LocalEntry(b, deploy, k.reg0, p) {
        var w :| w in b.vifs && w.ofp == p && Reg0Of(deploy, w.vni) == k.reg0;
        VifUnicastEffects(flows, b, deploy, md, peer, acl, w, k');
        assert p !in ExtPorts(b, deploy);
      } else {
        CarrierUnique(b, deploy, md, peer, k.reg0, p, k.inPort);
        Suppressed(flows, b, deploy, md, peer, acl, k');
      }
    }
  }

  // Output to the external port a packet came from is suppressed.
  lemma Suppressed(flows: seq<Flow>, b: BridgeView, deploy: Deploy, md: bool, peer: Ip, acl: seq<Flow>, k: Pkt)
    requires Ready(flows, b, deploy, md, peer, acl)
    requires k.inPort in ExtPorts(b, deploy) && k.reg1 == k.inPort
    ensures OutputOuts(flows, k) == []
  {
    if deploy.Tnl? {
      SuppressedTunnel(flows, b, md, peer, acl, k);
    } else {
      SuppressedUplink(flows, b, deploy, md, peer, acl, k);
    }
  }

  lemma SuppressedTunnel(flows: seq<Flow>, b: BridgeView, md: bool, peer: Ip, acl: seq<Flow>, k: Pkt)
    requires Ready(flows, b, Tnl, md, peer, acl)
    requires k.inPort in ExtPorts(b, Tnl) && k.reg1 == k.inPort
    ensures OutputOuts(flows, k) == []
  {
    var j :| 0 <= j < |b.tnls| && TnlOfps(b.tnls)[j] == k.reg1;
    SelectTnlUnicast(flows, b, md, [peer], acl, b.tnls[j], k);
    PlainTnl(b.tnls[j], md, [peer], k);
  }

  lemma SuppressedUplink(flows: seq<Flow>, b: BridgeView, deploy: Deploy, md: bool, peer: Ip, acl: seq<Flow>, k: Pkt)
    requires Ready(flows, b, deploy, md, peer, acl) && !deploy.Tnl?
    requires k.inPort in ExtPorts(b, deploy) && k.reg1 == k.inPort
    ensures OutputOuts(flows, k) == []
  {
    SelectUplinkUnicast(flows, b, deploy, md, [peer], acl, k);
    UplinkOuts(b, deploy, k);
  }
}
