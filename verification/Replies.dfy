/** The stateful ACL in the network: every host handles every frame as the firewall rules, so what the
    rule lets through gets where it is addressed, answers and later frames of a connection included. */
module Replies {
  import opened Wrappers
  import opened Constants
  import opened OpenFlow
  import opened Ports
  import opened FlowTables
  import opened FlowTableProps
  import opened Walk
  import opened Switching
  import opened LearningSwitch
  import opened Network
  import opened Isolation
  import opened Honesty
  import opened Delivery
  import opened Conntrack
  import opened AclVerdicts
  import opened AclDecision
  import opened Firewall

  // What the firewall of host h says about a frame.
  function RuleAt(proto: Proto, guard: Option<(Host, Mac)>, n: Net, h: Host, s: Sent): Ruling {
    Rule(proto, GuardAt(guard, h), Sw(n, h).conns, s.vif.vni, s.frame)
  }

  lemma ExtListed(b: BridgeView, deploy: Deploy, w: VifView, port: nat) returns (e: VniEntry<VifView>)
    requires IndexOk(b) && w in b.vifs && port in ExtPorts(b, deploy)
    ensures e.vni == w.vni && Listed(b, e, port)
  {
    var i :| 0 <= i < |b.vnis| && KeysOf(b.vnis)[i] == w.vni;
    e := b.vnis[i];
  }

  // What a packet from the wire brings with it.
  lemma Carried(b: BridgeView, deploy: Deploy, md: bool, peer: Ip, vni: nat, f: Frame, a: Pkt)
    requires HostOk(b, deploy, md, peer) && VniFits(deploy, vni)
    requires Arrive(b, deploy, peer, WireFor(deploy, md, vni, f)) == Some(a)
    ensures var k := Decap(deploy, a);
      k.inPort in ExtPorts(b, deploy) && k.reg0 == Reg0Of(deploy, vni) && k.ct == UNTRACKED && FrameOf(k) == f
  {
    WireRoundTrip(b, deploy, md, peer, vni, f);
    assert FrameOf(Decap(deploy, a)) == f;
  }

  // The host decides about an arriving frame of one of its VNIs as the firewall rules.
  lemma ArrivedDecided(c: Config, proto: Proto, guard: Option<(Host, Mac)>, n: Net, h: Host, s: Sent, w: VifView,
                       a: Pkt)
    requires FirewallOk(c, proto, guard) && SentOk(c, s) && w in Br(c, h).vifs && w.vni == s.vif.vni
    requires Arrive(Br(c, h), c.deploy, Peer(c, h), WireFor(c.deploy, c.md, s.vif.vni, s.frame)) == Some(a)
    ensures Decided(AclVerdict(At(c, h).flows, Sw(n, h), Decap(c.deploy, a)), Sw(n, h), RuleAt(proto, guard, n, h, s))
  {
    VniPresent(c, h, w);
    Carried(Br(c, h), c.deploy, c.md, Peer(c, h), s.vif.vni, s.frame, a);
    ExtDecided(c, proto, guard, n, h, s, w, Decap(c.deploy, a));
  }

  lemma ExtDecided(c: Config, proto: Proto, guard: Option<(Host, Mac)>, n: Net, h: Host, s: Sent, w: VifView, k: Pkt)
    requires FirewallOk(c, proto, guard) && w in Br(c, h).vifs && w.vni == s.vif.vni
    requires k.inPort in ExtPorts(Br(c, h), c.deploy) && k.reg0 == Reg0Of(c.deploy, w.vni) && k.ct == UNTRACKED
    requires FrameOf(k) == s.frame
    ensures Decided(AclVerdict(At(c, h).flows, Sw(n, h), k), Sw(n, h), RuleAt(proto, guard, n, h, s))
  {
    assert SideOk(c, h);
    var b := Br(c, h);
    ZoneIsVni(c, proto, guard, h, w);
    IndexIsOk(b);
    var e := ExtListed(b, c.deploy, w, k.inPort);
    AclDecides(At(c, h).flows, b, c.deploy, c.md, [Peer(c, h)], proto, GuardAt(guard, h), Sw(n, h), e, k);
  }

  // The connections on record after a step, and that nothing moved when the frame was stopped.
  ghost predicate Ruled(n: Net, n': Net, h: Host, r: Ruling) {
    Sw(n', h).conns == r.conns && (!r.pass ==> n'.log == n.log && n'.wire == n.wire)
  }

  lemma ReceiveRuled(c: Config, proto: Proto, guard: Option<(Host, Mac)>, n: Net, i: nat, w: VifView)
    requires FirewallOk(c, proto, guard) && Isolated(c, n) && i < |n.wire| && n.wire[i].id < |n.sent|
    requires w in Br(c, n.wire[i].to).vifs && w.vni == n.sent[n.wire[i].id].vif.vni
    ensures Ruled(n.(wire := n.wire[..i] + n.wire[i + 1..]), Step(c, n, Receive(i)), n.wire[i].to,
                  RuleAt(proto, guard, n, n.wire[i].to, n.sent[n.wire[i].id]))
  {
    var fl := n.wire[i];
    var n1, s := n.(wire := n.wire[..i] + n.wire[i + 1..]), n.sent[fl.id];
    assert FlightOk(c, n.sent, fl) && SentOk(c, s);
    var a := Arrived(c, fl.to, s, w);
    ReceiveStep(c, n, i, a);
    assert RuleAt(proto, guard, n1, fl.to, s) == RuleAt(proto, guard, n, fl.to, s);
    ArrivalRuled(c, proto, guard, n1, fl.to, s, w, a, fl.id, fl.hops);
  }

  // What a frame from the wire looks like at the bridge.
  lemma Arrived(c: Config, h: Host, s: Sent, w: VifView) returns (a: Pkt)
    requires ConfigOk(c) && SentOk(c, s) && w in Br(c, h).vifs && w.vni == s.vif.vni
    ensures Arrive(Br(c, h), c.deploy, Peer(c, h), WireFor(c.deploy, c.md, s.vif.vni, s.frame)) == Some(a)
  {
    VniPresent(c, h, w);
    WireRoundTrip(Br(c, h), c.deploy, c.md, Peer(c, h), w.vni, s.frame);
    a := Arrive(Br(c, h), c.deploy, Peer(c, h), WireFor(c.deploy, c.md, s.vif.vni, s.frame)).value;
  }

  lemma ArrivalRuled(c: Config, proto: Proto, guard: Option<(Host, Mac)>, n: Net, h: Host, s: Sent, w: VifView, a: Pkt,
                     id: nat, hops: nat)
    requires FirewallOk(c, proto, guard) && SentOk(c, s) && w in Br(c, h).vifs && w.vni == s.vif.vni
    requires Arrive(Br(c, h), c.deploy, Peer(c, h), WireFor(c.deploy, c.md, s.vif.vni, s.frame)) == Some(a)
    ensures Ruled(n, Process(c, n, h, a, id, hops), h, RuleAt(proto, guard, n, h, s))
  {
    assert SideOk(c, h);
    VniPresent(c, h, w);
    WireRoundTrip(Br(c, h), c.deploy, c.md, Peer(c, h), w.vni, s.frame);
    ExtIngress(At(c, h).flows, Br(c, h), c.deploy, c.md, [Peer(c, h)], At(c, h).acl, Sw(n, h), a);
    ArrivedDecided(c, proto, guard, n, h, s, w, a);
    ProcessFiltered(c, n, h, a, Decap(c.deploy, a), id, hops);
  }

  // A frame on the wire is delivered to the interface it is addressed to exactly when the firewall
  // of its host lets it through: after any run of honest senders, protected or not.
  lemma FrameDelivered(c: Config, proto: Proto, guard: Option<(Host, Mac)>, evs: seq<Event>, n: Net, i: nat, w: VifView)
    requires FirewallOk(c, proto, guard) && MacsDistinct(c) && HonestEvents(c, evs)
    requires Leads(c, evs, n) && i < |n.wire| && n.wire[i].id < |n.sent|
    requires AddressedTo(c, n.wire[i].to, n.sent[n.wire[i].id], w)
    ensures Got(Step(c, n, Receive(i)), n.wire[i].id, n.wire[i].to, w.ofp) <==>
              RuleAt(proto, guard, n, n.wire[i].to, n.sent[n.wire[i].id]).pass
  {
    var fl := n.wire[i];
    SoundState(c, evs, n);
    assert FlightOk(c, n.sent, fl) && SentOk(c, n.sent[fl.id]);
    ReceiveRuled(c, proto, guard, n, i, w);
    if RuleAt(proto, guard, n, fl.to, n.sent[fl.id]).pass {
      NotLearnedElsewhere(c, n, fl.to, n.sent[fl.id], w);
      ArrivalStep(c, proto, guard, n, i, w);
    }
  }

  lemma ArrivalStep(c: Config, proto: Proto, guard: Option<(Host, Mac)>, n: Net, i: nat, w: VifView)
    requires FirewallOk(c, proto, guard) && Isolated(c, n) && i < |n.wire| && n.wire[i].id < |n.sent|
    requires RuleAt(proto, guard, n, n.wire[i].to, n.sent[n.wire[i].id]).pass
    requires AddressedTo(c, n.wire[i].to, n.sent[n.wire[i].id], w)
    requires n.sent[n.wire[i].id].frame.src != n.sent[n.wire[i].id].frame.dst
    requires var e := (Reg0Of(c.deploy, w.vni), n.sent[n.wire[i].id].frame.dst);
      e in Sw(n, n.wire[i].to).fib ==> Sw(n, n.wire[i].to).fib[e] == w.ofp
    ensures Got(Step(c, n, Receive(i)), n.wire[i].id, n.wire[i].to, w.ofp)
  {
    var fl := n.wire[i];
    assert FlightOk(c, n.sent, fl) && SentOk(c, n.sent[fl.id]);
    VniPresent(c, fl.to, w);
    WireRoundTrip(Br(c, fl.to), c.deploy, c.md, Peer(c, fl.to), w.vni, n.sent[fl.id].frame);
    var a := Arrive(Br(c, fl.to), c.deploy, Peer(c, fl.to), fl.wire);
    ReceiveStep(c, n, i, a.value);
    ReceivedFrame(c, proto, guard, n.(wire := n.wire[..i] + n.wire[i + 1..]), fl.to, fl.id, fl.hops, w);
  }

  // The frame goes to the address of interface w of host h, on the same VNI.
  ghost predicate AddressedTo(c: Config, h: Host, s: Sent, w: VifView) {
    w in Br(c, h).vifs && w.ofp != OFP_LOCAL && w.vni == s.vif.vni && w.mac == Some(s.frame.dst)
  }

  // Honest senders never taught host h a wrong port for it.
  lemma NotLearnedElsewhere(c: Config, n: Net, h: Host, s: Sent, w: VifView)
    requires ConfigOk(c) && MacsDistinct(c) && Honest(c, n) && s in n.sent && SentOk(c, s) && h == Other(s.host)
    requires AddressedTo(c, h, s, w)
    ensures s.frame.src != s.frame.dst
    ensures var e := (Reg0Of(c.deploy, w.vni), s.frame.dst); e in Sw(n, h).fib ==> Sw(n, h).fib[e] == w.ofp
  {
    var k :| 0 <= k < |n.sent| && n.sent[k] == s;
    KnownEntry(c, n, h, h, w, s.frame.dst);
  }

  lemma ReceivedFrame(c: Config, proto: Proto, guard: Option<(Host, Mac)>, n: Net, h: Host, id: nat, hops: nat,
                      w: VifView)
    requires FirewallOk(c, proto, guard) && FibOk(Br(c, h), c.deploy, Sw(n, h).fib)
    requires id < |n.sent| && SentOk(c, n.sent[id]) && RuleAt(proto, guard, n, h, n.sent[id]).pass
    requires n.sent[id].frame.src != n.sent[id].frame.dst
    requires w in Br(c, h).vifs && w.ofp != OFP_LOCAL && w.vni == n.sent[id].vif.vni
    requires var e := (Reg0Of(c.deploy, w.vni), n.sent[id].frame.dst); e in Sw(n, h).fib ==> Sw(n, h).fib[e] == w.ofp
    requires Arrive(Br(c, h), c.deploy, Peer(c, h), WireFor(c.deploy, c.md, w.vni, n.sent[id].frame)).Some?
    ensures var a := Arrive(Br(c, h), c.deploy, Peer(c, h), WireFor(c.deploy, c.md, w.vni, n.sent[id].frame)).value;
      Got(Process(c, n, h, a, id, hops), id, h, w.ofp)
  {
    var b, s := Br(c, h), n.sent[id];
    var a := Arrive(b, c.deploy, Peer(c, h), WireFor(c.deploy, c.md, w.vni, s.frame)).value;
    assert SideOk(c, h);
    VifFits(c, h, w);
    WireRoundTrip(b, c.deploy, c.md, Peer(c, h), w.vni, s.frame);
    ExtIngress(At(c, h).flows, b, c.deploy, c.md, [Peer(c, h)], At(c, h).acl, Sw(n, h), a);
    ArrivalCarries(c, h, w.vni, s.frame, a);
    ArrivedDecided(c, proto, guard, n, h, s, w, a);
    ProcessPassed(c, n, h, a, Decap(c.deploy, a), false, w.vni, s.frame, id, hops);
    PlannedReaches(c, n, Process(c, n, h, a, id, hops), h, id, hops, false, a.inPort, s.frame, h, w);
  }

  lemma PlannedReaches(c: Config, n: Net, n': Net, h: Host, id: nat, hops: nat, local: bool, inPort: nat, f: Frame,
                       o: Host, w: VifView)
    requires ConfigOk(c) && w in Br(c, o).vifs && w.ofp != OFP_LOCAL
    requires (local <==> inPort !in ExtPorts(Br(c, h), c.deploy)) && if o == h then inPort != w.ofp else local
    requires f.src != f.dst
    requires var e := (Reg0Of(c.deploy, w.vni), f.dst); e in Sw(n, h).fib ==> Towards(c, h, Sw(n, h).fib[e], o, w)
    requires var r := Reg0Of(c.deploy, w.vni);
      Planned(c, n, n', h, w.vni, f, id, hops,
              SwitchPlan(Br(c, h), c.deploy, Learnt(Sw(n, h).fib, r, f.src, inPort), local, Domain(Br(c, h), w.vni),
                         inPort, r, f.dst))
    requires id < |n.sent|
    ensures if o == h then Got(n', id, h, w.ofp) else OnWire(n', id)
  {
    assert SideOk(c, h);
    var r := Reg0Of(c.deploy, w.vni);
    var fib := Learnt(Sw(n, h).fib, r, f.src, inPort);
    PlanReaches(c, h, fib, local, w.vni, inPort, f.dst, o, w);
    var p := SwitchPlan(Br(c, h), c.deploy, fib, local, Domain(Br(c, h), w.vni), inPort, r, f.dst);
    PlannedSettles(c, n, n', h, w.vni, f, id, hops, p, o, w);
  }

  // ---- frames as they are sent ----

  lemma SentDecided(c: Config, proto: Proto, guard: Option<(Host, Mac)>, n: Net, h: Host, u: VifView, g: Frame)
    requires FirewallOk(c, proto, guard) && u in Br(c, h).vifs
    ensures Decided(AclVerdict(At(c, h).flows, Sw(n, h), Fresh(u.ofp, g).(reg0 := Reg0Of(c.deploy, u.vni))), Sw(n, h),
                    RuleAt(proto, guard, n, h, Sent(h, u, g)))
  {
    assert SideOk(c, h);
    var b, k := Br(c, h), Fresh(u.ofp, g).(reg0 := Reg0Of(c.deploy, u.vni));
    ZoneIsVni(c, proto, guard, h, u);
    IndexIsOk(b);
    var e := LocalListed(b, u);
    AclDecides(At(c, h).flows, b, c.deploy, c.md, [Peer(c, h)], proto, GuardAt(guard, h), Sw(n, h), e, k);
  }

  lemma InjectRuled(c: Config, proto: Proto, guard: Option<(Host, Mac)>, n: Net, h: Host, u: nat, g: Frame)
    requires FirewallOk(c, proto, guard) && u < |Br(c, h).vifs| && Br(c, h).vifs[u].ofp != OFP_LOCAL
    ensures Ruled(n, Step(c, n, Inject(h, u, g)), h, RuleAt(proto, guard, n, h, Sent(h, Br(c, h).vifs[u], g)))
  {
    var v := Br(c, h).vifs[u];
    var n1, k0 := n.(sent := n.sent + [Sent(h, v, g)]), Fresh(v.ofp, g);
    assert SideOk(c, h) && Sw(n1, h) == Sw(n, h);
    InjectStep(c, n, h, u, g);
    Ingress(At(c, h).flows, Br(c, h), c.deploy, c.md, [Peer(c, h)], At(c, h).acl, v, Sw(n1, h), k0);
    SentDecided(c, proto, guard, n1, h, v, g);
    ProcessFiltered(c, n1, h, k0, k0.(reg0 := Reg0Of(c.deploy, v.vni)), |n.sent|, 0);
  }

  // Every interface but the sender's own is reached by a frame it is addressed to: by a local copy
  // on the sender's host, by way of the wire on the other.
  lemma SentFrame(c: Config, proto: Proto, guard: Option<(Host, Mac)>, n: Net, h: Host, u: VifView, g: Frame, id: nat,
                  o: Host, w: VifView)
    requires FirewallOk(c, proto, guard) && FibOk(Br(c, h), c.deploy, Sw(n, h).fib)
    requires id < |n.sent| && u in Br(c, h).vifs && u.ofp != OFP_LOCAL
    requires RuleAt(proto, guard, n, h, Sent(h, u, g)).pass
    requires AddressedTo(c, o, Sent(h, u, g), w) && (o == h ==> u.ofp != w.ofp) && g.src != g.dst
    requires var e := (Reg0Of(c.deploy, w.vni), g.dst); e in Sw(n, h).fib ==> Towards(c, h, Sw(n, h).fib[e], o, w)
    ensures Arrives(Process(c, n, h, Fresh(u.ofp, g), id, 0), id, h, o, w)
  {
    var b, k0 := Br(c, h), Fresh(u.ofp, g);
    var k := k0.(reg0 := Reg0Of(c.deploy, u.vni));
    assert SideOk(c, h);
    VifFits(c, h, u);
    Ingress(At(c, h).flows, b, c.deploy, c.md, [Peer(c, h)], At(c, h).acl, u, Sw(n, h), k0);
    SentDecided(c, proto, guard, n, h, u, g);
    ProcessPassed(c, n, h, k0, k, true, u.vni, g, id, 0);
    PlannedReaches(c, n, Process(c, n, h, k0, id, 0), h, id, 0, true, u.ofp, g, o, w);
  }

  // Frame id, sent from host h, has been delivered to the interface, or is on the wire to its host.
  ghost predicate Arrives(n: Net, id: nat, h: Host, o: Host, w: VifView) {
    if o == h then Got(n, id, h, w.ofp) else OnWire(n, id)
  }

  // A frame is on its way as soon as it is sent exactly when the firewall lets it through: delivered
  // to the interface it is addressed to when that is on the sender's host, and on the wire to it
  // otherwise.
  lemma FrameSent(c: Config, proto: Proto, guard: Option<(Host, Mac)>, evs: seq<Event>, n: Net,
                  h: Host, u: nat, g: Frame, o: Host, w: VifView)
    requires FirewallOk(c, proto, guard) && MacsDistinct(c) && HonestEvents(c, evs) && HonestEvent(c, Inject(h, u, g))
    requires Leads(c, evs, n) && u < |Br(c, h).vifs| && Br(c, h).vifs[u].ofp != OFP_LOCAL
    requires AddressedTo(c, o, Sent(h, Br(c, h).vifs[u], g), w) && !(o == h && w == Br(c, h).vifs[u])
    ensures Arrives(Step(c, n, Inject(h, u, g)), |n.sent|, h, o, w) <==>
              RuleAt(proto, guard, n, h, Sent(h, Br(c, h).vifs[u], g)).pass
  {
    SoundState(c, evs, n);
    InjectRuled(c, proto, guard, n, h, u, g);
    NewId(c, n);
    if RuleAt(proto, guard, n, h, Sent(h, Br(c, h).vifs[u], g)).pass {
      KnownEntry(c, n, h, o, w, g.dst);
      OtherPort(c, h, Br(c, h).vifs[u], o, w);
      FrameStep(c, proto, guard, n, h, u, g, o, w);
    }
  }

  lemma FrameStep(c: Config, proto: Proto, guard: Option<(Host, Mac)>, n: Net, h: Host, u: nat, g: Frame, o: Host,
                  w: VifView)
    requires FirewallOk(c, proto, guard) && Isolated(c, n) && u < |Br(c, h).vifs| && Br(c, h).vifs[u].ofp != OFP_LOCAL
    requires AddressedTo(c, o, Sent(h, Br(c, h).vifs[u], g), w) && (o == h ==> Br(c, h).vifs[u].ofp != w.ofp)
    requires g.src != g.dst && RuleAt(proto, guard, n, h, Sent(h, Br(c, h).vifs[u], g)).pass
    requires var e := (Reg0Of(c.deploy, w.vni), g.dst); e in Sw(n, h).fib ==> Towards(c, h, Sw(n, h).fib[e], o, w)
    ensures Arrives(Step(c, n, Inject(h, u, g)), |n.sent|, h, o, w)
  {
    var v := Br(c, h).vifs[u];
    var n1 := n.(sent := n.sent + [Sent(h, v, g)]);
    InjectStep(c, n, h, u, g);
    assert Sw(n1, h) == Sw(n, h);
    SentFrame(c, proto, guard, n1, h, v, g, |n.sent|, o, w);
  }

  // What every run of honest senders keeps.
  lemma SoundState(c: Config, evs: seq<Event>, n: Net)
    requires ConfigOk(c) && HonestEvents(c, evs) && Leads(c, evs, n)
    ensures Isolated(c, n) && Once(n) && Honest(c, n)
  {
    LeadsIs(c, evs, n);
    RunKeeps(c, evs);
    RunHonest(c, evs);
  }

  // An entry for the address of an interface leads towards it.
  lemma KnownEntry(c: Config, n: Net, h: Host, o: Host, w: VifView, mac: Mac)
    requires ConfigOk(c) && MacsDistinct(c) && Honest(c, n) && w in Br(c, o).vifs && w.ofp != OFP_LOCAL
    requires w.mac == Some(mac)
    ensures var e := (Reg0Of(c.deploy, w.vni), mac); e in Sw(n, h).fib ==> Towards(c, h, Sw(n, h).fib[e], o, w)
  {
    if (Reg0Of(c.deploy, w.vni), mac) in Sw(n, h).fib { HonestTowards(c, h, Sw(n, h).fib, o, w, mac); }
  }

  lemma OtherPort(c: Config, h: Host, v: VifView, o: Host, w: VifView)
    requires ConfigOk(c) && MacsDistinct(c) && v in Br(c, h).vifs && w in Br(c, o).vifs && !(o == h && v == w)
    requires v.ofp != OFP_LOCAL && w.ofp != OFP_LOCAL && v.mac.Some? && w.mac.Some?
    ensures v.mac != w.mac && (o == h ==> v.ofp != w.ofp)
  {
    assert SideOk(c, h);
    if o == h && v.ofp == w.ofp { VifByOfp(Br(c, h), c.deploy, v, w); }
  }

  // ---- from opening to answer ----

  // Connections on record stay on record.
  lemma StepGrows(c: Config, proto: Proto, guard: Option<(Host, Mac)>, n: Net, ev: Event, h: Host, key: ConnKey)
    requires FirewallOk(c, proto, guard) && Isolated(c, n) && Once(n) && key in Sw(n, h).conns
    ensures key in Sw(Step(c, n, ev), h).conns
  {
    var acted, n1, h', id, k := StepHandled(c, n, ev);
    if acted { HandledGrows(c, proto, guard, n1, Step(c, n, ev), h', id, k, h, key); }
  }

  lemma HandledGrows(c: Config, proto: Proto, guard: Option<(Host, Mac)>, n: Net, n': Net, h': Host, id: nat, k: Pkt,
                     h: Host, key: ConnKey)
    requires FirewallOk(c, proto, guard) && Handled(c, n, n', h', id, k) && key in Sw(n, h).conns
    ensures key in Sw(n', h).conns
  {
    if h == h' {
      assert SideOk(c, h);
      VerdictRecords(At(c, h).flows, Br(c, h), c.deploy, c.md, [Peer(c, h)], proto, GuardAt(guard, h), Sw(n, h), k);
    }
  }

  lemma {:induction false} RunGrows(c: Config, proto: Proto, guard: Option<(Host, Mac)>, evs: seq<Event>,
                                    more: seq<Event>, h: Host, key: ConnKey)
    requires FirewallOk(c, proto, guard) && key in Sw(Execute(c, evs), h).conns
    ensures key in Sw(Execute(c, evs + more), h).conns
    decreases |more|
  {
    if more == [] {
      assert evs + more == evs;
    } else {
      Regroup(evs, more);
      EventGrows(c, proto, guard, evs, more[0], h, key);
      RunGrows(c, proto, guard, evs + [more[0]], more[1..], h, key);
    }
  }

  lemma EventGrows(c: Config, proto: Proto, guard: Option<(Host, Mac)>, evs: seq<Event>, ev: Event, h: Host,
                   key: ConnKey)
    requires FirewallOk(c, proto, guard) && key in Sw(Execute(c, evs), h).conns
    ensures key in Sw(Execute(c, evs + [ev]), h).conns
  {
    RunKeeps(c, evs);
    ExecuteLast(c, evs, ev);
    StepGrows(c, proto, guard, Execute(c, evs), ev, h, key);
  }

  // The frame opens a connection of an admitted protocol: nothing is on record in either
  // direction, and it does not go to the protected endpoint of its own host.
  ghost predicate Opens(c: Config, proto: Proto, guard: Option<(Host, Mac)>, n: Net, h: Host, w: VifView, f: Frame) {
    && ReplyKeyOf(w.vni, f.hdr) !in Sw(n, h).conns && KeyOf(w.vni, f.hdr) !in Sw(n, h).conns && !f.invalid
    && IsCarried(proto, f.hdr) && !IsAddressResolution(f.hdr)
    && !(GuardAt(guard, h) == Some(f.dst) && f.hdr.proto == proto)
  }

  // A tracked packet of the other direction of the same conversation.
  ghost predicate Against(reply: Header, h: Header) {
    Mirrors(reply, h) && IsTrackable(reply)
  }

  // Neither address resolution nor a later fragment.
  predicate IsTrackable(h: Header) {
    !IsAddressResolution(h) && (h.eth.Ipv4? || (h.eth.Ipv6? && !h.fragLater))
  }

  lemma LocalListed(b: BridgeView, w: VifView) returns (e: VniEntry<VifView>)
    requires IndexOk(b) && w in b.vifs
    ensures e.vni == w.vni && Listed(b, e, w.ofp)
  {
    var i :| 0 <= i < |b.vnis| && KeysOf(b.vnis)[i] == w.vni;
    e := b.vnis[i];
    InOfps(e.vifs, w.ofp);
  }

  lemma OpeningRecorded(c: Config, proto: Proto, guard: Option<(Host, Mac)>, n: Net, h: Host, v: nat, f: Frame)
    requires FirewallOk(c, proto, guard) && v < |Br(c, h).vifs| && Br(c, h).vifs[v].ofp != OFP_LOCAL
    requires Opens(c, proto, guard, n, h, Br(c, h).vifs[v], f)
    ensures KeyOf(Br(c, h).vifs[v].vni, f.hdr) in Sw(Step(c, n, Inject(h, v, f)), h).conns
  {
    InjectRuled(c, proto, guard, n, h, v, f);
    OpeningRule(proto, GuardAt(guard, h), Sw(n, h).conns, Br(c, h).vifs[v].vni, f);
  }

  lemma OpeningRule(proto: Proto, guard: Option<Mac>, conns: map<ConnKey, bool>, zone: nat, f: Frame)
    requires ReplyKeyOf(zone, f.hdr) !in conns && KeyOf(zone, f.hdr) !in conns && !f.invalid
    requires IsCarried(proto, f.hdr) && !IsAddressResolution(f.hdr) && !(guard == Some(f.dst) && f.hdr.proto == proto)
    ensures Rule(proto, guard, conns, zone, f) == Ruling(true, conns[KeyOf(zone, f.hdr) := false])
  {
  }

  // Frames against a connection on record pass and mark it answered; frames along it pass once it is.
  lemma RecordedRule(proto: Proto, guard: Option<Mac>, conns: map<ConnKey, bool>, zone: nat, f: Frame)
    requires IsCarried(proto, f.hdr) && !IsAddressResolution(f.hdr) && !f.invalid
    ensures ReplyKeyOf(zone, f.hdr) in conns ==>
              Rule(proto, guard, conns, zone, f) == Ruling(true, conns[ReplyKeyOf(zone, f.hdr) := true])
    ensures IsAnswered(conns, KeyOf(zone, f.hdr)) ==> Rule(proto, guard, conns, zone, f).pass
  {
  }

  predicate IsAnswered(conns: map<ConnKey, bool>, key: ConnKey) {
    key in conns && conns[key]
  }

  // The connection an interface opened stays on record.
  lemma OpeningKept(c: Config, proto: Proto, guard: Option<(Host, Mac)>, before: seq<Event>, m: Net, h: Host, v: nat,
                    f: Frame, after: seq<Event>, n: Net)
    requires FirewallOk(c, proto, guard) && v < |Br(c, h).vifs| && Br(c, h).vifs[v].ofp != OFP_LOCAL
    requires Leads(c, before, m) && Opens(c, proto, guard, m, h, Br(c, h).vifs[v], f)
    requires Leads(c, before + [Inject(h, v, f)] + after, n)
    ensures KeyOf(Br(c, h).vifs[v].vni, f.hdr) in Sw(n, h).conns
  {
    LeadsIs(c, before, m);
    LeadsIs(c, before + [Inject(h, v, f)] + after, n);
    RunKeeps(c, before);
    OpeningRecorded(c, proto, guard, m, h, v, f);
    ExecuteLast(c, before, Inject(h, v, f));
    RunGrows(c, proto, guard, before + [Inject(h, v, f)], after, h, KeyOf(Br(c, h).vifs[v].vni, f.hdr));
  }

  // Whoever opens a connection gets its answers: once an interface has sent an opening frame, a
  // frame against it that reaches its host, however much later, is delivered to it.
  lemma AnswersDelivered(c: Config, proto: Proto, guard: Option<(Host, Mac)>, before: seq<Event>, m: Net, h: Host,
                         v: nat, f: Frame, after: seq<Event>, n: Net, i: nat)
    requires FirewallOk(c, proto, guard) && v < |Br(c, h).vifs| && Br(c, h).vifs[v].ofp != OFP_LOCAL
    requires MacsDistinct(c) && HonestEvents(c, before + [Inject(h, v, f)] + after)
    requires Leads(c, before, m) && Opens(c, proto, guard, m, h, Br(c, h).vifs[v], f)
    requires Leads(c, before + [Inject(h, v, f)] + after, n) && i < |n.wire| && n.wire[i].to == h
    requires n.wire[i].id < |n.sent|
    requires AddressedTo(c, h, n.sent[n.wire[i].id], Br(c, h).vifs[v])
    requires Against(n.sent[n.wire[i].id].frame.hdr, f.hdr) && !n.sent[n.wire[i].id].frame.invalid
    ensures Got(Step(c, n, Receive(i)), n.wire[i].id, h, Br(c, h).vifs[v].ofp)
  {
    OpeningKept(c, proto, guard, before, m, h, v, f, after, n);
    FrameDelivered(c, proto, guard, before + [Inject(h, v, f)] + after, n, i, Br(c, h).vifs[v]);
    var s := n.sent[n.wire[i].id];
    RecordedRule(proto, GuardAt(guard, h), Sw(n, h).conns, s.vif.vni, s.frame);
  }

  // The same for an answer sent by another guest of its host.
  lemma LocalAnswersDelivered(c: Config, proto: Proto, guard: Option<(Host, Mac)>, before: seq<Event>, m: Net,
                              h: Host, v: nat, f: Frame, after: seq<Event>, n: Net, u: nat, g: Frame)
    requires FirewallOk(c, proto, guard) && v < |Br(c, h).vifs| && Br(c, h).vifs[v].ofp != OFP_LOCAL
    requires MacsDistinct(c) && HonestEvents(c, before + [Inject(h, v, f)] + after) && HonestEvent(c, Inject(h, u, g))
    requires Leads(c, before, m) && Opens(c, proto, guard, m, h, Br(c, h).vifs[v], f)
    requires Leads(c, before + [Inject(h, v, f)] + after, n)
    requires u < |Br(c, h).vifs| && Br(c, h).vifs[u].ofp != OFP_LOCAL && Br(c, h).vifs[u] != Br(c, h).vifs[v]
    requires AddressedTo(c, h, Sent(h, Br(c, h).vifs[u], g), Br(c, h).vifs[v]) && Against(g.hdr, f.hdr) && !g.invalid
    ensures Got(Step(c, n, Inject(h, u, g)), |n.sent|, h, Br(c, h).vifs[v].ofp)
  {
    OpeningKept(c, proto, guard, before, m, h, v, f, after, n);
    FrameSent(c, proto, guard, before + [Inject(h, v, f)] + after, n, h, u, g, h, Br(c, h).vifs[v]);
    RecordedRule(proto, GuardAt(guard, h), Sw(n, h).conns, Br(c, h).vifs[u].vni, g);
  }

  // ---- after the answer ----

  // A connection that was answered stays so.
  lemma VerdictKeepsAnswered(flows: seq<Flow>, s: Switch, k: Pkt, key: ConnKey)
    requires IsAnswered(s.conns, key)
    ensures IsAnswered(AclVerdict(flows, s, k).0.conns, key)
    decreases if k.ct.trk then 0 else 1
  {
    var l := Lookup(flows, OF_TABLE_ACL, k);
    if l.Some? && l.value.actions != [] && l.value.actions[0].CtTrack? && !k.ct.trk {
      var (conns, ct) := Track(s.conns, ZoneOf(k), k);
      VerdictKeepsAnswered(flows, s.(conns := conns), k.(ct := ct), key);
    }
  }

  lemma EventKeepsAnswered(c: Config, evs: seq<Event>, ev: Event, h: Host, key: ConnKey)
    requires ConfigOk(c) && IsAnswered(Sw(Execute(c, evs), h).conns, key)
    ensures IsAnswered(Sw(Execute(c, evs + [ev]), h).conns, key)
  {
    var n := Execute(c, evs);
    RunKeeps(c, evs);
    ExecuteLast(c, evs, ev);
    var acted, n1, h', id, k := StepHandled(c, n, ev);
    if acted && h == h' { VerdictKeepsAnswered(At(c, h).flows, Sw(n1, h), k, key); }
  }

  lemma {:induction false} RunKeepsAnswered(c: Config, evs: seq<Event>, more: seq<Event>, h: Host, key: ConnKey)
    requires ConfigOk(c) && IsAnswered(Sw(Execute(c, evs), h).conns, key)
    ensures IsAnswered(Sw(Execute(c, evs + more), h).conns, key)
    decreases |more|
  {
    if more == [] {
      assert evs + more == evs;
    } else {
      Regroup(evs, more);
      EventKeepsAnswered(c, evs, more[0], h, key);
      RunKeepsAnswered(c, evs + [more[0]], more[1..], h, key);
    }
  }

  // An answer that arrives, or is sent, marks its connection answered on the host.
  lemma AnswerMarks(c: Config, proto: Proto, guard: Option<(Host, Mac)>, evs: seq<Event>, n: Net, i: nat, w: VifView)
    requires FirewallOk(c, proto, guard) && Leads(c, evs, n) && i < |n.wire| && n.wire[i].id < |n.sent|
    requires var (h, s) := (n.wire[i].to, n.sent[n.wire[i].id]);
      && w in Br(c, h).vifs && w.vni == s.vif.vni && !s.frame.invalid
      && ReplyKeyOf(w.vni, s.frame.hdr) in Sw(n, h).conns
      && IsCarried(proto, s.frame.hdr) && IsTrackable(s.frame.hdr)
    ensures IsAnswered(Sw(Step(c, n, Receive(i)), n.wire[i].to).conns,
                       ReplyKeyOf(w.vni, n.sent[n.wire[i].id].frame.hdr))
  {
    LeadsIs(c, evs, n);
    RunKeeps(c, evs);
    ReceiveRuled(c, proto, guard, n, i, w);
    var (h, s) := (n.wire[i].to, n.sent[n.wire[i].id]);
    RecordedRule(proto, GuardAt(guard, h), Sw(n, h).conns, w.vni, s.frame);
  }

  lemma SentAnswerMarks(c: Config, proto: Proto, guard: Option<(Host, Mac)>, n: Net, h: Host, u: nat, g: Frame)
    requires FirewallOk(c, proto, guard) && u < |Br(c, h).vifs| && Br(c, h).vifs[u].ofp != OFP_LOCAL
    requires IsCarried(proto, g.hdr) && IsTrackable(g.hdr) && !g.invalid
    requires ReplyKeyOf(Br(c, h).vifs[u].vni, g.hdr) in Sw(n, h).conns
    ensures IsAnswered(Sw(Step(c, n, Inject(h, u, g)), h).conns, ReplyKeyOf(Br(c, h).vifs[u].vni, g.hdr))
  {
    InjectRuled(c, proto, guard, n, h, u, g);
    RecordedRule(proto, GuardAt(guard, h), Sw(n, h).conns, Br(c, h).vifs[u].vni, g);
  }

  // Once a connection was answered on a host, all its further frames get through there: those that a
  // guest sends are on their way at once,
  lemma ContinuationSent(c: Config, proto: Proto, guard: Option<(Host, Mac)>, before: seq<Event>, m: Net,
                         after: seq<Event>, n: Net, h: Host, u: nat, g: Frame, o: Host, w: VifView)
    requires FirewallOk(c, proto, guard) && MacsDistinct(c) && HonestEvents(c, before + after)
    requires Leads(c, before, m) && Leads(c, before + after, n) && HonestEvent(c, Inject(h, u, g))
    requires u < |Br(c, h).vifs| && Br(c, h).vifs[u].ofp != OFP_LOCAL
    requires IsAnswered(Sw(m, h).conns, KeyOf(Br(c, h).vifs[u].vni, g.hdr))
    requires IsCarried(proto, g.hdr) && IsTrackable(g.hdr) && !g.invalid
    requires AddressedTo(c, o, Sent(h, Br(c, h).vifs[u], g), w) && !(o == h && w == Br(c, h).vifs[u])
    ensures Arrives(Step(c, n, Inject(h, u, g)), |n.sent|, h, o, w)
  {
    LeadsIs(c, before, m);
    LeadsIs(c, before + after, n);
    RunKeepsAnswered(c, before, after, h, KeyOf(Br(c, h).vifs[u].vni, g.hdr));
    RecordedRule(proto, GuardAt(guard, h), Sw(n, h).conns, Br(c, h).vifs[u].vni, g);
    FrameSent(c, proto, guard, before + after, n, h, u, g, o, w);
  }

  // and those that arrive are delivered to the interface they are addressed to.
  lemma ContinuationDelivered(c: Config, proto: Proto, guard: Option<(Host, Mac)>, before: seq<Event>, m: Net,
                              after: seq<Event>, n: Net, i: nat, w: VifView)
    requires FirewallOk(c, proto, guard) && MacsDistinct(c) && HonestEvents(c, before + after)
    requires Leads(c, before, m) && Leads(c, before + after, n) && i < |n.wire| && n.wire[i].id < |n.sent|
    requires var s := n.sent[n.wire[i].id];
      && IsAnswered(Sw(m, n.wire[i].to).conns, KeyOf(s.vif.vni, s.frame.hdr))
      && IsCarried(proto, s.frame.hdr) && IsTrackable(s.frame.hdr) && !s.frame.invalid
    requires AddressedTo(c, n.wire[i].to, n.sent[n.wire[i].id], w)
    ensures Got(Step(c, n, Receive(i)), n.wire[i].id, n.wire[i].to, w.ofp)
  {
    var (h, s) := (n.wire[i].to, n.sent[n.wire[i].id]);
    LeadsIs(c, before, m);
    LeadsIs(c, before + after, n);
    RunKeepsAnswered(c, before, after, h, KeyOf(s.vif.vni, s.frame.hdr));
    RecordedRule(proto, GuardAt(guard, h), Sw(n, h).conns, s.vif.vni, s.frame);
    FrameDelivered(c, proto, guard, before + after, n, i, w);
  }
}
