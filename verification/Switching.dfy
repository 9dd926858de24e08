/** One host as its neighbours see it: frames in, frames delivered to local
    interfaces, and encapsulated frames sent to the other host.  The compiled
    tables are shown to behave like a learning switch per VNI. */
module Switching {
  import opened Wrappers
  import opened Seqs
  import opened Constants
  import opened OpenFlow
  import opened Ports
  import opened FlowTables
  import opened FlowTableProps
  import opened Lookups
  import opened Pipeline
  import opened Walk

  datatype Frame = Frame(src: Mac, dst: Mac, tags: seq<Tag>, hdr: Header, invalid: bool)

  // What travels between the hosts: the tunnel key and metadata (0 on a plain uplink) and the frame.
  datatype Wire = Wire(key: nat, md0: nat, md1: nat, frame: Frame)

  function FrameOf(k: Pkt): Frame {
    Frame(k.src, k.dst, k.tags, k.hdr, k.invalid)
  }

  function Fresh(port: nat, f: Frame): Pkt {
    Pkt(port, f.src, f.dst, f.tags, f.hdr, 0, 0, 0, 0, 0, 0, f.invalid, UNTRACKED)
  }

  // ---- the deployments the isolation promise covers ----

  // VXLAN and GENEVE keys have 24 bits, VLAN ids 12; without encapsulation there is one VNI.
  predicate VniFits(deploy: Deploy, vni: nat) {
    match deploy
    case Tnl => vni < 0x100_0000
    case Vlan => vni < 0x1000
    case Qinq => vni + 100 < 0x1000
    case Native => vni == VNI_NONE
    case Unknown(_) => false
  }

  // One tunnel port for all VNIs, or one per VNI of the index, towards the other host.
  ghost predicate TunnelsOk(b: BridgeView, peer: Ip) {
    && (forall t :: t in b.tnls ==> t.rip == FlowRip || t.rip == FixedRip(peer))
    && (|| (|b.tnls| == 1 && b.tnls[0].key == FlowKey)
        || (|b.tnls| == |b.vnis| && forall i :: 0 <= i < |b.tnls| ==> b.tnls[i].key == FixedKey(b.vnis[i].vni)))
  }

  ghost predicate HostOk(b: BridgeView, deploy: Deploy, md: bool, peer: Ip) {
    && BridgeOk(b, deploy, md)
    && (forall w :: w in b.vifs ==> VniFits(deploy, w.vni))
    && (if deploy.Tnl? then TunnelsOk(b, peer) else |b.uplinks| == 1)
  }

  ghost predicate Ready(flows: seq<Flow>, b: BridgeView, deploy: Deploy, md: bool, peer: Ip, acl: seq<Flow>) {
    Deployed(flows, b, deploy, md, [peer], acl) && HostOk(b, deploy, md, peer)
  }

  lemma Reg0Injective(deploy: Deploy, v: nat, v': nat)
    requires VniFits(deploy, v) && VniFits(deploy, v') && Reg0Of(deploy, v) == Reg0Of(deploy, v')
    ensures v == v'
  {
  }

  // ---- encapsulation on the wire ----

  function WireFor(deploy: Deploy, md: bool, vni: nat, f: Frame): Wire {
    match deploy
    case Tnl => Wire(vni, if md then vni else 0, if md then TUN_MD1 else 0, f)
    case Vlan => Wire(0, 0, 0, f.(tags := [Tag(0x8100, Pcp(f.tags), true, vni)] + f.tags))
    case Qinq =>
      Wire(0, 0, 0, f.(tags := [Tag(0x88a8, Pcp(f.tags), true, vni + 100), Tag(0x8100, Pcp(f.tags), true, vni)]
                             + f.tags))
    case _ => Wire(0, 0, 0, f)
  }

  function PortWithOfp(tnls: seq<TunnelPort>, ofp: nat): (r: Option<TunnelPort>)
    ensures r.Some? ==> r.value in tnls && r.value.ofp == ofp
    ensures r.None? ==> forall t :: t in tnls ==> t.ofp != ofp
  {
    if tnls == [] then None
    else if tnls[0].ofp == ofp then Some(tnls[0])
    else PortWithOfp(tnls[1..], ofp)
  }

  // The tunnel port that takes in a key from a remote address.
  function PortForKey(tnls: seq<TunnelPort>, peer: Ip, key: nat): (r: Option<TunnelPort>)
    ensures r.Some? ==> r.value in tnls && (r.value.key == FlowKey || r.value.key == FixedKey(key))
    ensures r.None? ==> forall t :: t in tnls ==>
              !((t.key == FlowKey || t.key == FixedKey(key)) && (t.rip == FlowRip || t.rip == FixedRip(peer)))
  {
    if tnls == [] then None
    else if (tnls[0].key == FlowKey || tnls[0].key == FixedKey(key))
         && (tnls[0].rip == FlowRip || tnls[0].rip == FixedRip(peer)) then Some(tnls[0])
    else PortForKey(tnls[1..], peer, key)
  }

  // A packet leaving through an external port; a tunnel packet reaches the peer only
  // when it is addressed to the peer's tunnel endpoint.
  function Transmit(b: BridgeView, deploy: Deploy, peer: Ip, port: nat, k: Pkt): Option<Wire> {
    if deploy.Tnl? then
      match PortWithOfp(b.tnls, port)
      case None => None
      case Some(t) =>
        var ip := if t.rip.FlowRip? then k.tunDst else t.rip.ip;
        var key := if t.key.FlowKey? then k.tunId else t.key.vni;
        if ip == peer then Some(Wire(key % 0x100_0000, k.md0, k.md1, FrameOf(k))) else None
    else if port in b.uplinks then Some(Wire(0, 0, 0, FrameOf(k)))
    else None
  }

  function Arrive(b: BridgeView, deploy: Deploy, peer: Ip, w: Wire): Option<Pkt> {
    if deploy.Tnl? then
      match PortForKey(b.tnls, peer, w.key)
      case None => None
      case Some(t) => Some(Fresh(t.ofp, w.frame).(tunId := w.key, md0 := w.md0, md1 := w.md1))
    else if b.uplinks == [] then None
    else Some(Fresh(b.uplinks[0], w.frame))
  }

  // ---- what leaves a host ----

  datatype Effect = Deliver(port: nat, frame: Frame) | Send(wire: Wire)

  // Port 0 is the bridge's own interface, not a virtual machine's.
  predicate IsVm(b: BridgeView, port: nat) {
    port != OFP_LOCAL && port in Ofps(b.vifs)
  }

  function EffectOf(b: BridgeView, deploy: Deploy, peer: Ip): Out -> seq<Effect> {
    (o: Out) =>
      if IsVm(b, o.port) then [Deliver(o.port, FrameOf(o.pkt))]
      else
        match Transmit(b, deploy, peer, o.port, o.pkt)
        case None => []
        case Some(w) => [Send(w)]
  }

  function Effects(b: BridgeView, deploy: Deploy, peer: Ip, outs: seq<Out>): seq<Effect> {
    FlatMap(outs, EffectOf(b, deploy, peer))
  }

  // The virtual machine ports of an interface list that a frame entering at inPort is copied to.
  function TargetOf(inPort: nat): VifView -> seq<nat> {
    (w: VifView) => if w.ofp == OFP_LOCAL || w.ofp == inPort then [] else [w.ofp]
  }

  function Targets(vifs: seq<VifView>, inPort: nat): seq<nat> {
    FlatMap(vifs, TargetOf(inPort))
  }

  function Deliveries(ports: seq<nat>, f: Frame): seq<Effect> {
    seq(|ports|, i requires 0 <= i < |ports| => Deliver(ports[i], f))
  }

  // Copying a packet to an interface list delivers it to each listed virtual machine but the sender.
  lemma {:induction false} FloodEffects(b: BridgeView, deploy: Deploy, peer: Ip, vifs: seq<VifView>, k: Pkt)
    requires forall w :: w in vifs ==> w in b.vifs
    requires OFP_LOCAL !in ExtPorts(b, deploy)
    ensures Effects(b, deploy, peer, FlatMap(Ofps(vifs), EmitAt(k))) == Deliveries(Targets(vifs, k.inPort), FrameOf(k))
  {
    if vifs == [] {
    } else {
      var n := |vifs| - 1;
      var w := vifs[n];
      assert vifs == vifs[..n] + [w];
      assert w in b.vifs && forall x :: x in vifs[..n] ==> x in b.vifs;
      FloodEffects(b, deploy, peer, vifs[..n], k);
      InOfps(b.vifs, w.ofp);
      EmitEffect(b, deploy, peer, w.ofp, k);
      assert Ofps(vifs)[..n] == Ofps(vifs[..n]);
      var o1 := FlatMap(Ofps(vifs[..n]), EmitAt(k));
      assert FlatMap(Ofps(vifs), EmitAt(k)) == o1 + Emit(w.ofp, k);
      FlatMapAppend(o1, Emit(w.ofp, k), EffectOf(b, deploy, peer));
      DeliveriesAppend(Targets(vifs[..n], k.inPort), TargetOf(k.inPort)(w), FrameOf(k));
    }
  }

  lemma DeliveriesAppend(ps: seq<nat>, qs: seq<nat>, f: Frame)
    ensures Deliveries(ps + qs, f) == Deliveries(ps, f) + Deliveries(qs, f)
  {
  }

  lemma EmitEffect(b: BridgeView, deploy: Deploy, peer: Ip, port: nat, k: Pkt)
    requires port in Ofps(b.vifs) && OFP_LOCAL !in ExtPorts(b, deploy)
    ensures Effects(b, deploy, peer, Emit(port, k)) ==
              Deliveries(if port == OFP_LOCAL || port == k.inPort then [] else [port], FrameOf(k))
  {
    FlatMapOne([Out(port, k)], EffectOf(b, deploy, peer));
    if port == OFP_LOCAL { LocalNotSent(b, deploy, peer, k); }
  }

  lemma FlatMapOne<T, R>(xs: seq<T>, f: T -> seq<R>)
    requires |xs| == 1
    ensures FlatMap(xs, f) == f(xs[0])
  {
    assert xs[..0] == [];
  }

  lemma LocalNotSent(b: BridgeView, deploy: Deploy, peer: Ip, k: Pkt)
    requires OFP_LOCAL !in ExtPorts(b, deploy)
    ensures Transmit(b, deploy, peer, OFP_LOCAL, k).None?
  {
    if deploy.Tnl? && PortWithOfp(b.tnls, OFP_LOCAL).Some? {
      TnlOfpIn(b.tnls, PortWithOfp(b.tnls, OFP_LOCAL).value);
    }
  }

  // ---- towards the other host ----

  // The tunnel port that serves the i-th VNI of the index.
  ghost function TnlAt(b: BridgeView, i: nat): TunnelPort
    requires |b.tnls| == 1 || i < |b.tnls|
  {
    if b.tnls[0].key == FlowKey then b.tnls[0] else b.tnls[if i < |b.tnls| then i else 0]
  }

  ghost predicate ExtServes(b: BridgeView, deploy: Deploy, port: nat, i: nat)
  {
    if deploy.Tnl? then
      (|b.tnls| == 1 || i < |b.tnls|) && port == TnlAt(b, i).ofp
    else |b.uplinks| == 1 && port == b.uplinks[0]
  }

  lemma {:induction false} FlatMapNone<T, R>(xs: seq<T>, f: T -> seq<R>)
    requires forall j :: 0 <= j < |xs| ==> f(xs[j]) == []
    ensures FlatMap(xs, f) == []
  {
    if xs == [] {
    } else {
      FlatMapNone(xs[..|xs| - 1], f);
    }
  }

  lemma {:induction false} FlatMapSingle<T, R>(xs: seq<T>, i: nat, f: T -> seq<R>)
    requires i < |xs| && forall j :: 0 <= j < |xs| && j != i ==> f(xs[j]) == []
    ensures FlatMap(xs, f) == f(xs[i])
  {
    var n := |xs| - 1;
    if i == n {
      FlatMapNone(xs[..n], f);
    } else {
      FlatMapSingle(xs[..n], i, f);
    }
  }

  lemma TnlFloodIs(b: BridgeView, md: bool, peer: Ip, i: nat)
    requires HostOk(b, Tnl, md, peer) && i < |b.vnis|
    ensures ExtServes(b, Tnl, TnlAt(b, i).ofp, i) && TnlAt(b, i) in b.tnls
    ensures FlatMap(b.tnls, TnlFlood(b.vnis[i].vni, md, [peer])) == TnlActions(TnlAt(b, i), md, [peer])
  {
    IndexIsOk(b);
    var f := TnlFlood(b.vnis[i].vni, md, [peer]);
    if b.tnls[0].key == FlowKey {
      FlatMapOne(b.tnls, f);
    } else {
      forall j | 0 <= j < |b.tnls| && j != i ensures f(b.tnls[j]) == [] {
        assert b.vnis[j].vni != b.vnis[i].vni;
      }
      FlatMapSingle(b.tnls, i, f);
    }
  }

  lemma ExtNotVm(b: BridgeView, deploy: Deploy, x: nat)
    requires PortsOk(b, deploy) && x in ExtPorts(b, deploy)
    ensures !IsVm(b, x)
  {
    InOfps(b.vifs, x);
  }

  lemma SentOnce(b: BridgeView, deploy: Deploy, peer: Ip, x: nat, k: Pkt)
    requires PortsOk(b, deploy) && x in ExtPorts(b, deploy) && k.inPort != x
    requires Transmit(b, deploy, peer, x, k).Some?
    ensures Effects(b, deploy, peer, Emit(x, k)) == [Send(Transmit(b, deploy, peer, x, k).value)]
  {
    ExtNotVm(b, deploy, x);
    FlatMapOne([Out(x, k)], EffectOf(b, deploy, peer));
  }

  lemma TunnelTransmit(b: BridgeView, md: bool, peer: Ip, i: nat, k: Pkt)
    requires HostOk(b, Tnl, md, peer) && i < |b.vnis| && VniFits(Tnl, b.vnis[i].vni)
    requires ExtServes(b, Tnl, TnlAt(b, i).ofp, i) && TnlAt(b, i) in b.tnls
    requires k.reg0 == Reg0Of(Tnl, b.vnis[i].vni) && k.md0 == k.md1 == 0
    ensures Transmit(b, Tnl, peer, TnlAt(b, i).ofp, TunnelPkt(TnlAt(b, i), md, [peer], k))
         == Some(WireFor(Tnl, md, b.vnis[i].vni, FrameOf(k)))
  {
    var t := TnlAt(b, i);
    var t' := PortWithOfp(b.tnls, t.ofp);
    assert t'.Some?;
    TnlByOfp(b, t, t'.value);
    assert t.key == FlowKey || t.key == FixedKey(b.vnis[i].vni);
  }

  // What leaves a host for a packet of the i-th VNI: the canonical encapsulation of its frame.
  lemma TunnelSends(b: BridgeView, md: bool, peer: Ip, i: nat, k: Pkt)
    requires HostOk(b, Tnl, md, peer) && i < |b.vnis| && VniFits(Tnl, b.vnis[i].vni)
    requires k.reg0 == Reg0Of(Tnl, b.vnis[i].vni) && k.md0 == k.md1 == 0
    requires ExtServes(b, Tnl, TnlAt(b, i).ofp, i) && k.inPort != TnlAt(b, i).ofp
    ensures Effects(b, Tnl, peer, Emit(TnlAt(b, i).ofp, TunnelPkt(TnlAt(b, i), md, [peer], k)))
         == [Send(WireFor(Tnl, md, b.vnis[i].vni, FrameOf(k)))]
  {
    TnlFloodIs(b, md, peer, i);
    TnlOfpIn(b.tnls, TnlAt(b, i));
    TunnelTransmit(b, md, peer, i, k);
    SentOnce(b, Tnl, peer, TnlAt(b, i).ofp, TunnelPkt(TnlAt(b, i), md, [peer], k));
  }

  lemma UplinkSends(b: BridgeView, deploy: Deploy, md: bool, peer: Ip, vni: nat, k: Pkt)
    requires HostOk(b, deploy, md, peer) && !deploy.Tnl? && VniFits(deploy, vni)
    requires k.reg0 == Reg0Of(deploy, vni) && k.inPort != b.uplinks[0]
    ensures Effects(b, deploy, peer, Emit(b.uplinks[0], TaggedPkt(deploy, k)))
         == [Send(WireFor(deploy, md, vni, FrameOf(k)))]
  {
    TagBits(deploy, vni);
    assert FrameOf(TaggedPkt(deploy, k)).tags == WireFor(deploy, md, vni, FrameOf(k)).frame.tags;
    SentOnce(b, deploy, peer, b.uplinks[0], TaggedPkt(deploy, k));
  }

  // The register bits that become VLAN ids.
  lemma TagBits(deploy: Deploy, vni: nat)
    requires VniFits(deploy, vni)
    ensures deploy.Vlan? || deploy.Qinq? ==> Get(Reg0Of(deploy, vni), Low12) == vni
    ensures deploy.Qinq? ==> Get(Reg0Of(deploy, vni), Outer12) == vni + 100
  {
    if deploy.Qinq? { TwelveAndTwelve(vni, vni + 100); }
  }

  lemma TwelveAndTwelve(lo: nat, hi: nat)
    requires lo < 0x1000 && hi < 0x1000
    ensures (lo + hi * 0x1_0000) % 0x1000 == lo && (lo + hi * 0x1_0000) / 0x1_0000 == hi
  {
    assert lo + hi * 0x1_0000 == lo + hi * 16 * 0x1000;
  }

  // The other side undoes it: the same register 0, the original tags, the same frame.
  lemma WireRoundTrip(b: BridgeView, deploy: Deploy, md: bool, peer: Ip, vni: nat, f: Frame)
    requires HostOk(b, deploy, md, peer) && VniFits(deploy, vni)
    ensures var a := Arrive(b, deploy, peer, WireFor(deploy, md, vni, f));
      && (vni in KeysOf(b.vnis) ==> a.Some?)
      && (a.Some? ==>
            && a.value.inPort in ExtPorts(b, deploy)
            && a.value.reg0 == 0 && a.value.reg1 == 0
            && FrameOf(Decap(deploy, a.value)) == f
            && Decap(deploy, a.value).reg0 == Reg0Of(deploy, vni)
            && (md ==> a.value.md0 == vni && a.value.md1 == TUN_MD1))
  {
    var w := WireFor(deploy, md, vni, f);
    match deploy
    case Tnl =>
      if vni in KeysOf(b.vnis) {
        var i :| 0 <= i < |b.vnis| && KeysOf(b.vnis)[i] == vni;
        assert b.tnls[if |b.tnls| == 1 && b.tnls[0].key == FlowKey then 0 else i] in b.tnls;
      }
      var p := PortForKey(b.tnls, peer, w.key);
      if p.Some? { TnlOfpIn(b.tnls, p.value); }
    case Vlan =>
      assert Tail(w.frame.tags) == f.tags;
    case Qinq =>
      assert Tail(Tail(w.frame.tags)) == f.tags;
      assert Vid(w.frame.tags) == vni + 100 && Vid(Tail(w.frame.tags)) == vni;
    case _ =>
  }
}
