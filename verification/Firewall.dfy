/** The stateful ACL over whole runs of the two-host network: connections never
    leave their VNI, and a protected endpoint is reached only on connections it opened. */
module Firewall {
  import opened Wrappers
  import opened Constants
  import opened OpenFlow
  import opened Ports
  import opened FlowTables
  import opened Walk
  import opened Switching
  import opened LearningSwitch
  import opened Network
  import opened Isolation
  import opened Conntrack
  import opened AclVerdicts

  function GuardAt(guard: Option<(Host, Mac)>, h: Host): Option<Mac> {
    if guard.Some? && guard.value.0 == h then Some(guard.value.1) else None
  }

  // Both hosts run the stateful ACL for one protocol, and zones are wide enough for the VNIs in use.
  ghost predicate FirewallOk(c: Config, proto: Proto, guard: Option<(Host, Mac)>) {
    && ConfigOk(c)
    && (forall h :: At(c, h).acl == HostAcl(Br(c, h), proto, GuardAt(guard, h)))
    && (forall h, w :: w in Br(c, h).vifs ==> w.vni < 0x1_0000)
  }

  // ---- one step of one host ----

  // Host h ran its ACL on packet k, the tagged form of frame id.
  ghost predicate Handled(c: Config, n: Net, n': Net, h: Host, id: nat, k: Pkt) {
    && n'.sent == n.sent && Sw(n', Other(h)) == Sw(n, Other(h)) && id < |n.sent|
    && k.ct == UNTRACKED && k.reg0 == Reg0Of(c.deploy, n.sent[id].vif.vni) && FrameOf(k) == n.sent[id].frame
    && Sw(n', h).conns == AclVerdict(At(c, h).flows, Sw(n, h), k).0.conns
    && (AclVerdict(At(c, h).flows, Sw(n, h), k).1.None? ==> n'.log == n.log)
    && (forall d :: d in n'.log && d !in n.log ==> d.id == id && d.host == h && d.frame == n.sent[id].frame)
  }

  lemma ProcessFiltered(c: Config, n: Net, h: Host, k: Pkt, k1: Pkt, id: nat, hops: nat)
    requires ConfigOk(c)
    requires Run(At(c, h).flows, OF_TABLE_ADMISS, Sw(n, h), k) == Run(At(c, h).flows, OF_TABLE_ACL, Sw(n, h), k1)
    ensures var n' := Process(c, n, h, k, id, hops);
      var (s, v) := AclVerdict(At(c, h).flows, Sw(n, h), k1);
      && n'.sent == n.sent && Sw(n', Other(h)) == Sw(n, Other(h))
      && Sw(n', h).conns == s.conns && (v.None? ==> n'.log == n.log && n'.wire == n.wire)
  {
    assert SideOk(c, h);
    ForwardRun(At(c, h).flows, Br(c, h), c.deploy, c.md, [Peer(c, h)], At(c, h).acl, Sw(n, h), k1);
  }

  lemma InjectHandled(c: Config, n: Net, h: Host, w: VifView, f: Frame, id: nat) returns (k: Pkt)
    requires ConfigOk(c) && FibOk(Br(c, h), c.deploy, Sw(n, h).fib)
    requires w in Br(c, h).vifs && w.ofp != OFP_LOCAL
    requires id < |n.sent| && n.sent[id] == Sent(h, w, f)
    ensures Handled(c, n, Process(c, n, h, Fresh(w.ofp, f), id, 0), h, id, k)
  {
    assert SideOk(c, h);
    var k0 := Fresh(w.ofp, f);
    k := k0.(reg0 := Reg0Of(c.deploy, w.vni));
    Ingress(At(c, h).flows, Br(c, h), c.deploy, c.md, [Peer(c, h)], At(c, h).acl, w, Sw(n, h), k0);
    ProcessFiltered(c, n, h, k0, k, id, 0);
    InjectLogs(c, n, h, w, f, id);
  }

  lemma InjectLogs(c: Config, n: Net, h: Host, w: VifView, f: Frame, id: nat)
    requires ConfigOk(c) && FibOk(Br(c, h), c.deploy, Sw(n, h).fib)
    requires w in Br(c, h).vifs && w.ofp != OFP_LOCAL
    ensures forall d :: d in Process(c, n, h, Fresh(w.ofp, f), id, 0).log && d !in n.log ==>
              d.id == id && d.host == h && d.frame == f
  {
    InjectSwitched(c, n, h, w, f, id);
  }

  lemma ReceiveHandled(c: Config, n: Net, h: Host, id: nat, hops: nat, a: Pkt) returns (k: Pkt)
    requires ConfigOk(c) && FibOk(Br(c, h), c.deploy, Sw(n, h).fib)
    requires id < |n.sent| && VniFits(c.deploy, n.sent[id].vif.vni)
    requires var s := n.sent[id];
      Arrive(Br(c, h), c.deploy, Peer(c, h), WireFor(c.deploy, c.md, s.vif.vni, s.frame)) == Some(a)
    ensures Handled(c, n, Process(c, n, h, a, id, hops), h, id, k)
  {
    assert SideOk(c, h);
    var s := n.sent[id];
    k := Decap(c.deploy, a);
    WireRoundTrip(Br(c, h), c.deploy, c.md, Peer(c, h), s.vif.vni, s.frame);
    ExtIngress(At(c, h).flows, Br(c, h), c.deploy, c.md, [Peer(c, h)], At(c, h).acl, Sw(n, h), a);
    ProcessFiltered(c, n, h, a, k, id, hops);
    ReceiveLogs(c, n, h, s.vif.vni, s.frame, id, hops, a);
  }

  lemma ReceiveLogs(c: Config, n: Net, h: Host, vni: nat, f: Frame, id: nat, hops: nat, a: Pkt)
    requires ConfigOk(c) && FibOk(Br(c, h), c.deploy, Sw(n, h).fib) && VniFits(c.deploy, vni)
    requires Arrive(Br(c, h), c.deploy, Peer(c, h), WireFor(c.deploy, c.md, vni, f)) == Some(a)
    ensures forall d :: d in Process(c, n, h, a, id, hops).log && d !in n.log ==>
              d.id == id && d.host == h && d.frame == f
  {
    ReceiveSwitched(c, n, h, vni, f, id, hops, a);
  }

  // ---- zones ----

  // Every recorded connection was opened by a frame with its addresses sent from its zone's VNI.
  ghost predicate OwnedConns(n: Net, conns: map<ConnKey, bool>) {
    forall key :: key in conns ==>
      exists i :: 0 <= i < |n.sent| && key == KeyOf(n.sent[i].vif.vni, n.sent[i].frame.hdr)
  }

  // Zones are 16 bits wide: the zone of a VNI's packets is the VNI itself exactly below that.
  lemma ZoneOfReg0(deploy: Deploy, vni: nat)
    requires VniFits(deploy, vni)
    ensures Get(Reg0Of(deploy, vni), Zone16) == vni <==> vni < 0x1_0000
  {
    match deploy
    case Tnl => assert Reg0Of(deploy, vni) == vni;
    case Vlan => assert Reg0Of(deploy, vni) == vni;
    case Qinq => assert Reg0Of(deploy, vni) == vni + (vni + 100) * 0x1_0000;
    case Native => assert Reg0Of(deploy, vni) == 0;
  }

  lemma ZoneIsVni(c: Config, proto: Proto, guard: Option<(Host, Mac)>, h: Host, w: VifView)
    requires FirewallOk(c, proto, guard) && w in Br(c, h).vifs
    ensures Get(Reg0Of(c.deploy, w.vni), Zone16) == w.vni
  {
    VifFits(c, h, w);
    ZoneOfReg0(c.deploy, w.vni);
  }

  lemma HandledOwned(c: Config, proto: Proto, guard: Option<(Host, Mac)>, n: Net, n': Net, h: Host, id: nat, k: Pkt)
    requires FirewallOk(c, proto, guard) && Handled(c, n, n', h, id, k) && SentOk(c, n.sent[id])
    requires OwnedConns(n, Sw(n, h).conns)
    ensures OwnedConns(n', Sw(n', h).conns)
    ensures RecordsOwn(Sw(n, h).conns, Sw(n', h).conns, k) && ZoneOf(k) == n.sent[id].vif.vni
  {
    assert SideOk(c, h);
    ZoneIsVni(c, proto, guard, n.sent[id].host, n.sent[id].vif);
    VerdictRecords(At(c, h).flows, Br(c, h), c.deploy, c.md, [Peer(c, h)], proto, GuardAt(guard, h), Sw(n, h), k);
  }

  // ---- the protected endpoint ----

  // An endpoint has one address per IP version.
  datatype Endpoint = Endpoint(host: Host, vif: VifView, mac: Mac, ip4: Ip, ip6: Ip)

  function AddrFor(p: Endpoint, v6: bool): Ip {
    if v6 then p.ip6 else p.ip4
  }

  // Addresses in bijection: the protected MAC goes with the protected IP address of the frame's IP
  // version, and only the endpoint sends from that IP address.
  ghost predicate HonestSent(p: Endpoint, proto: Proto, s: Sent) {
    && (Guarded(proto, s.frame.hdr) ==>
          (s.frame.dst == p.mac <==> s.frame.hdr.tuple.dst == AddrFor(p, s.frame.hdr.eth.Ipv6?)))
    && (s.frame.hdr.proto == proto && s.frame.hdr.tuple.src == AddrFor(p, s.frame.hdr.eth.Ipv6?) ==>
          s.host == p.host && s.vif == p.vif)
  }

  ghost predicate HonestRun(c: Config, p: Endpoint, proto: Proto, evs: seq<Event>) {
    forall ev :: ev in evs && ev.Inject? && ev.vif < |Br(c, ev.host).vifs| ==>
      HonestSent(p, proto, Sent(ev.host, Br(c, ev.host).vifs[ev.vif], ev.frame))
  }

  ghost predicate NoInbound(p: Endpoint, proto: Proto, conns: map<ConnKey, bool>) {
    forall key :: key in conns && key.proto == proto ==> key.tuple.dst != AddrFor(p, key.v6)
  }

  // The other direction of the same conversation: the same protocol and IP version, with the
  // addresses and ports exchanged.
  ghost predicate Mirrors(reply: Header, h: Header) {
    reply.tuple == Rev(h.tuple) && reply.proto == h.proto && (reply.eth.Ipv6? <==> h.eth.Ipv6?)
  }

  // The frame answers one the endpoint sent, on the same VNI.
  ghost predicate Answered(p: Endpoint, n: Net, d: Delivery) {
    && d.id < |n.sent|
    && exists i :: 0 <= i < |n.sent| && n.sent[i].host == p.host && n.sent[i].vif == p.vif
                   && Mirrors(d.frame.hdr, n.sent[i].frame.hdr) && n.sent[i].vif.vni == n.sent[d.id].vif.vni
  }

  ghost predicate Inbound(p: Endpoint, proto: Proto, d: Delivery) {
    d.host == p.host && d.frame.dst == p.mac && Guarded(proto, d.frame.hdr)
  }

  ghost predicate Protected(p: Endpoint, proto: Proto, n: Net) {
    && (forall i :: 0 <= i < |n.sent| ==> HonestSent(p, proto, n.sent[i]))
    && NoInbound(p, proto, Sw(n, p.host).conns)
    && (forall d :: d in n.log && Inbound(p, proto, d) ==> Answered(p, n, d))
  }

  lemma HandledNoInbound(c: Config, proto: Proto, p: Endpoint, n: Net, n': Net, h: Host, id: nat, k: Pkt)
    requires FirewallOk(c, proto, Some((p.host, p.mac))) && Handled(c, n, n', h, id, k) && SentOk(c, n.sent[id])
    requires Protected(p, proto, n) && OwnedConns(n, Sw(n, h).conns)
    ensures NoInbound(p, proto, Sw(n', p.host).conns)
  {
    if h == p.host {
      HandledOwned(c, proto, Some((p.host, p.mac)), n, n', h, id, k);
      assert HonestSent(p, proto, n.sent[id]);
      if k.dst == p.mac && Guarded(proto, k.hdr) {
        assert SideOk(c, h);
        GuardedVerdict(At(c, h).flows, Br(c, h), c.deploy, c.md, [Peer(c, h)], proto, p.mac, Sw(n, h), k);
        assert Sw(n', h).conns.Keys == Sw(n, h).conns.Keys;
        assert forall key :: key in Sw(n', h).conns ==> key in Sw(n, h).conns.Keys;
      }
    }
  }

  lemma HandledAnswers(c: Config, proto: Proto, p: Endpoint, n: Net, n': Net, h: Host, id: nat, k: Pkt, d: Delivery)
    requires FirewallOk(c, proto, Some((p.host, p.mac))) && Handled(c, n, n', h, id, k) && SentOk(c, n.sent[id])
    requires Protected(p, proto, n) && OwnedConns(n, Sw(n, h).conns)
    requires d in n'.log && d !in n.log && Inbound(p, proto, d)
    ensures Answered(p, n', d)
  {
    InboundKnown(c, proto, p, n, n', h, id, k, d);
    KnownAnswers(proto, p, n, d);
  }

  // With no connection towards the protected address on record, it can only be a reply to one of its own.
  lemma KnownAnswers(proto: Proto, p: Endpoint, n: Net, d: Delivery)
    requires d.id < |n.sent| && d.frame == n.sent[d.id].frame && Inbound(p, proto, d)
    requires Protected(p, proto, n) && OwnedConns(n, Sw(n, p.host).conns)
    requires var s := n.sent[d.id];
      ReplyKeyOf(s.vif.vni, s.frame.hdr) in Sw(n, p.host).conns || KeyOf(s.vif.vni, s.frame.hdr) in Sw(n, p.host).conns
    ensures Answered(p, n, d)
  {
    assert HonestSent(p, proto, n.sent[d.id]);
    var key := ReplyKeyOf(n.sent[d.id].vif.vni, n.sent[d.id].frame.hdr);
    var i :| 0 <= i < |n.sent| && key == KeyOf(n.sent[i].vif.vni, n.sent[i].frame.hdr);
    assert HonestSent(p, proto, n.sent[i]);
  }

  // What reaches the protected address belongs to a recorded connection.
  lemma InboundKnown(c: Config, proto: Proto, p: Endpoint, n: Net, n': Net, h: Host, id: nat, k: Pkt, d: Delivery)
    requires FirewallOk(c, proto, Some((p.host, p.mac))) && Handled(c, n, n', h, id, k) && SentOk(c, n.sent[id])
    requires d in n'.log && d !in n.log && Inbound(p, proto, d)
    ensures h == p.host && d.id == id && d.frame == n.sent[id].frame && n'.sent == n.sent
    ensures var s := n.sent[id];
      ReplyKeyOf(s.vif.vni, s.frame.hdr) in Sw(n, h).conns || KeyOf(s.vif.vni, s.frame.hdr) in Sw(n, h).conns
  {
    assert SideOk(c, h);
    GuardedVerdict(At(c, h).flows, Br(c, h), c.deploy, c.md, [Peer(c, h)], proto, p.mac, Sw(n, h), k);
    ZoneIsVni(c, proto, Some((p.host, p.mac)), n.sent[id].host, n.sent[id].vif);
  }

  lemma HandledProtected(c: Config, proto: Proto, p: Endpoint, n: Net, n': Net, h: Host, id: nat, k: Pkt)
    requires FirewallOk(c, proto, Some((p.host, p.mac))) && Handled(c, n, n', h, id, k) && SentOk(c, n.sent[id])
    requires Protected(p, proto, n) && OwnedConns(n, Sw(n, h).conns)
    ensures Protected(p, proto, n')
  {
    HandledNoInbound(c, proto, p, n, n', h, id, k);
    forall d | d in n'.log && Inbound(p, proto, d) ensures Answered(p, n', d) {
      if d !in n.log { HandledAnswers(c, proto, p, n, n', h, id, k, d); }
    }
  }

  // ---- runs ----

  ghost predicate AllOwned(n: Net) {
    OwnedConns(n, n.a.conns) && OwnedConns(n, n.b.conns)
  }

  lemma SentGrows(n: Net, s: Sent, conns: map<ConnKey, bool>)
    requires OwnedConns(n, conns)
    ensures OwnedConns(n.(sent := n.sent + [s]), conns)
  {
    var n1 := n.(sent := n.sent + [s]);
    forall key | key in conns
      ensures exists i :: 0 <= i < |n1.sent| && key == KeyOf(n1.sent[i].vif.vni, n1.sent[i].frame.hdr)
    {
      var i :| 0 <= i < |n.sent| && key == KeyOf(n.sent[i].vif.vni, n.sent[i].frame.hdr);
      assert n1.sent[i] == n.sent[i];
    }
  }

  lemma AnswersGrows(p: Endpoint, proto: Proto, n: Net, s: Sent)
    requires Protected(p, proto, n) && HonestSent(p, proto, s)
    ensures Protected(p, proto, n.(sent := n.sent + [s]))
  {
    var n1 := n.(sent := n.sent + [s]);
    forall d | d in n1.log && Inbound(p, proto, d) ensures Answered(p, n1, d) {
      assert Answered(p, n, d);
      var i :| 0 <= i < |n.sent| && n.sent[i].host == p.host && n.sent[i].vif == p.vif
               && Mirrors(d.frame.hdr, n.sent[i].frame.hdr) && n.sent[i].vif.vni == n.sent[d.id].vif.vni;
      assert n1.sent[i] == n.sent[i] && n1.sent[d.id] == n.sent[d.id];
    }
  }

  // Recording that a frame was sent keeps the invariants.
  ghost predicate SentMore(n: Net, n1: Net) {
    && n1.a.conns == n.a.conns && n1.b.conns == n.b.conns && n1.log == n.log
    && (n1.sent == n.sent || (|n1.sent| == |n.sent| + 1 && n1.sent[..|n.sent|] == n.sent))
  }

  lemma OwnedBeforeHandling(n: Net, n1: Net)
    requires AllOwned(n) && SentMore(n, n1)
    ensures AllOwned(n1)
  {
    if n1.sent != n.sent {
      assert n1.sent == n.sent + [n1.sent[|n.sent|]];
      SentGrows(n, n1.sent[|n.sent|], n.a.conns);
      SentGrows(n, n1.sent[|n.sent|], n.b.conns);
    }
  }

  lemma BeforeHandling(p: Endpoint, proto: Proto, n: Net, n1: Net)
    requires Protected(p, proto, n) && AllOwned(n) && SentMore(n, n1)
    requires n1.sent != n.sent ==> HonestSent(p, proto, n1.sent[|n.sent|])
    ensures Protected(p, proto, n1) && AllOwned(n1)
  {
    OwnedBeforeHandling(n, n1);
    if n1.sent != n.sent {
      var s := n1.sent[|n.sent|];
      assert n1.sent == n.sent + [s];
      AnswersGrows(p, proto, n, s);
      AnswersSame(p, proto, n.(sent := n.sent + [s]), n1);
    } else {
      AnswersSame(p, proto, n, n1);
    }
  }

  lemma AnswersSame(p: Endpoint, proto: Proto, n: Net, n1: Net)
    requires Protected(p, proto, n)
    requires n1.sent == n.sent && n1.log == n.log && n1.a.conns == n.a.conns && n1.b.conns == n.b.conns
    ensures Protected(p, proto, n1)
  {
    forall d | d in n1.log && Inbound(p, proto, d) ensures Answered(p, n1, d) { assert Answered(p, n, d); }
  }

  // The packet a step runs the ACL on, after the state the step starts from.
  lemma StepHandled(c: Config, n: Net, ev: Event) returns (acted: bool, n1: Net, h: Host, id: nat, k: Pkt)
    requires ConfigOk(c) && Isolated(c, n) && Once(n)
    ensures SentMore(n, n1)
    ensures n1.sent == n.sent || (ev.Inject? && ev.vif < |Br(c, ev.host).vifs| &&
                                  n1.sent == n.sent + [Sent(ev.host, Br(c, ev.host).vifs[ev.vif], ev.frame)])
    ensures acted ==> Handled(c, n1, Step(c, n, ev), h, id, k) && SentOk(c, n1.sent[id])
    ensures !acted ==> Step(c, n, ev) == n1
  {
    acted, n1, h, id := false, Step(c, n, ev), HostA, 0;
    k := Fresh(0, Frame(0, 0, [], Header(Arp, OtherProto, 0, false, Tuple(0, 0, 0, 0)), false));
    match ev
    case Inject(eh, i, f) =>
      if i < |Br(c, eh).vifs| && Br(c, eh).vifs[i].ofp != OFP_LOCAL {
        acted, h, id := true, eh, |n.sent|;
        n1, k := InjectStepHandled(c, n, eh, i, f);
      }
    case Receive(i) =>
      if i < |n.wire| {
        h, id := n.wire[i].to, n.wire[i].id;
        acted, n1, k := ReceiveStepHandled(c, n, i);
      }
  }

  lemma InjectStepHandled(c: Config, n: Net, h: Host, v: nat, f: Frame) returns (n1: Net, k: Pkt)
    requires ConfigOk(c) && Isolated(c, n) && v < |Br(c, h).vifs| && Br(c, h).vifs[v].ofp != OFP_LOCAL
    ensures SentMore(n, n1) && n1.sent == n.sent + [Sent(h, Br(c, h).vifs[v], f)]
    ensures Handled(c, n1, Step(c, n, Inject(h, v, f)), h, |n.sent|, k) && SentOk(c, n1.sent[|n.sent|])
  {
    var w := Br(c, h).vifs[v];
    n1 := n.(sent := n.sent + [Sent(h, w, f)]);
    InjectStep(c, n, h, v, f);
    k := InjectHandled(c, n1, h, w, f, |n.sent|);
  }

  lemma ReceiveStepHandled(c: Config, n: Net, i: nat) returns (acted: bool, n1: Net, k: Pkt)
    requires ConfigOk(c) && Isolated(c, n) && Once(n) && i < |n.wire|
    ensures SentMore(n, n1) && n1.sent == n.sent
    ensures acted ==>
              Handled(c, n1, Step(c, n, Receive(i)), n.wire[i].to, n.wire[i].id, k) && SentOk(c, n1.sent[n.wire[i].id])
    ensures !acted ==> Step(c, n, Receive(i)) == n1
  {
    var fl := n.wire[i];
    assert FlightOk(c, n.sent, fl) && SentOk(c, n.sent[fl.id]);
    var a := Arrive(Br(c, fl.to), c.deploy, Peer(c, fl.to), fl.wire);
    acted, n1 := a.Some?, n.(wire := n.wire[..i] + n.wire[i + 1..]);
    if acted {
      VifFits(c, n.sent[fl.id].host, n.sent[fl.id].vif);
      ReceiveStep(c, n, i, a.value);
      k := ReceiveHandled(c, n1, fl.to, fl.id, fl.hops, a.value);
    } else {
      NoArrival(c, n, i);
      k := Fresh(0, n.sent[fl.id].frame);
    }
  }

  lemma StepOwned(c: Config, proto: Proto, guard: Option<(Host, Mac)>, n: Net, ev: Event)
    requires FirewallOk(c, proto, guard) && Isolated(c, n) && Once(n) && AllOwned(n)
    ensures AllOwned(Step(c, n, ev))
  {
    var acted, n1, h, id, k := StepHandled(c, n, ev);
    OwnedBeforeHandling(n, n1);
    if acted { HandledOwned(c, proto, guard, n1, Step(c, n, ev), h, id, k); }
  }

  lemma {:induction false} RunOwned(c: Config, proto: Proto, guard: Option<(Host, Mac)>, evs: seq<Event>)
    requires FirewallOk(c, proto, guard)
    ensures AllOwned(Execute(c, evs))
  {
    if evs == [] {
    } else {
      RunOwned(c, proto, guard, evs[..|evs| - 1]);
      RunKeeps(c, evs[..|evs| - 1]);
      StepOwned(c, proto, guard, Execute(c, evs[..|evs| - 1]), evs[|evs| - 1]);
    }
  }

  lemma StepProtected(c: Config, proto: Proto, p: Endpoint, n: Net, ev: Event)
    requires FirewallOk(c, proto, Some((p.host, p.mac))) && Isolated(c, n) && Once(n) && AllOwned(n)
    requires Protected(p, proto, n) && HonestRun(c, p, proto, [ev])
    ensures Protected(p, proto, Step(c, n, ev))
  {
    var acted, n1, h, id, k := StepHandled(c, n, ev);
    assert ev in [ev];
    BeforeHandling(p, proto, n, n1);
    if acted { HandledProtected(c, proto, p, n1, Step(c, n, ev), h, id, k); }
  }

  lemma {:induction false} RunProtected(c: Config, proto: Proto, p: Endpoint, evs: seq<Event>)
    requires FirewallOk(c, proto, Some((p.host, p.mac))) && HonestRun(c, p, proto, evs)
    ensures Protected(p, proto, Execute(c, evs))
  {
    if evs == [] {
    } else {
      var m := |evs| - 1;
      RunProtected(c, proto, p, evs[..m]);
      RunOwned(c, proto, Some((p.host, p.mac)), evs[..m]);
      RunKeeps(c, evs[..m]);
      assert forall ev :: ev in [evs[m]] ==> ev in evs;
      StepProtected(c, proto, p, Execute(c, evs[..m]), evs[m]);
    }
  }

  // ---- the theorems ----

  // Zone separation: a connection recorded in zone z was opened by a frame sent from an interface
  // of VNI z; equal 5-tuples on two VNIs never share state, not even through a trunk port.
  lemma ZoneSeparation(c: Config, proto: Proto, guard: Option<(Host, Mac)>, evs: seq<Event>, n: Net, h: Host,
                       key: ConnKey)
    requires FirewallOk(c, proto, guard) && Leads(c, evs, n) && key in Sw(n, h).conns
    ensures exists i :: 0 <= i < |n.sent| && n.sent[i].vif.vni == key.zone
                        && n.sent[i].frame.hdr.tuple == key.tuple && n.sent[i].frame.hdr.proto == key.proto
                        && (n.sent[i].frame.hdr.eth.Ipv6? <==> key.v6)
  {
    LeadsIs(c, evs, n);
    RunOwned(c, proto, guard, evs);
  }

  // Allow-originate: whatever of the protocol is delivered on the protected endpoint's host under
  // its address answers a frame the endpoint itself sent: the same protocol and IP version, with
  // addresses and ports exchanged, on the same VNI.
  lemma AllowOriginateSafe(c: Config, proto: Proto, p: Endpoint, evs: seq<Event>, n: Net, d: Delivery)
    requires FirewallOk(c, proto, Some((p.host, p.mac))) && HonestRun(c, p, proto, evs)
    requires Leads(c, evs, n) && d in n.log && d.host == p.host && d.frame.dst == p.mac && Guarded(proto, d.frame.hdr)
    ensures d.id < |n.sent|
    ensures exists i :: 0 <= i < |n.sent| && n.sent[i].host == p.host && n.sent[i].vif == p.vif
                        && Mirrors(d.frame.hdr, n.sent[i].frame.hdr) && n.sent[i].vif.vni == n.sent[d.id].vif.vni
  {
    LeadsIs(c, evs, n);
    RunProtected(c, proto, p, evs);
  }
}
