/** Two deployed hosts and the wire between them, as an asynchronous network:
    virtual machines send at any time, and encapsulated frames wait on the wire
    until the other host takes one, in any order. */
module Network {
  import opened Wrappers
  import opened Seqs
  import opened Constants
  import opened OpenFlow
  import opened Ports
  import opened FlowTables
  import opened FlowTableProps
  import opened Lookups
  import opened Walk
  import opened Switching
  import opened LearningSwitch

  datatype Host = HostA | HostB

  function Other(h: Host): Host {
    if h.HostA? then HostB else HostA
  }

  datatype Side = Side(br: BridgeView, tep: Ip, acl: seq<Flow>, flows: seq<Flow>)
  datatype Config = Config(deploy: Deploy, md: bool, a: Side, b: Side)

  function At(c: Config, h: Host): Side {
    if h.HostA? then c.a else c.b
  }

  function Br(c: Config, h: Host): BridgeView { At(c, h).br }

  function Peer(c: Config, h: Host): Ip { At(c, Other(h)).tep }

  ghost predicate Programmed(c: Config) {
    WellStaged(c.a.flows) && WellStaged(c.b.flows)
  }

  ghost predicate SideOk(c: Config, h: Host) {
    Ready(At(c, h).flows, Br(c, h), c.deploy, c.md, Peer(c, h), At(c, h).acl)
  }

  ghost predicate ConfigOk(c: Config) {
    Programmed(c) && SideOk(c, HostA) && SideOk(c, HostB)
  }

  // ---- states and steps ----

  datatype Sent = Sent(host: Host, vif: VifView, frame: Frame)
  datatype Flight = Flight(to: Host, wire: Wire, id: nat, hops: nat)
  datatype Delivery = Delivery(id: nat, host: Host, port: nat, frame: Frame)

  // sent records every frame a virtual machine sent; its position is the frame's id.
  datatype Net = Net(a: Switch, b: Switch, sent: seq<Sent>, wire: seq<Flight>, log: seq<Delivery>)

  datatype Event = Inject(host: Host, vif: nat, frame: Frame) | Receive(index: nat)

  function Sw(n: Net, h: Host): Switch {
    if h.HostA? then n.a else n.b
  }

  function WithSw(n: Net, h: Host, s: Switch): Net {
    if h.HostA? then n.(a := s) else n.(b := s)
  }

  function ToFlight(to: Host, id: nat, hops: nat): Effect -> seq<Flight> {
    (e: Effect) => if e.Send? then [Flight(to, e.wire, id, hops)] else []
  }

  function ToLog(id: nat, h: Host): Effect -> seq<Delivery> {
    (e: Effect) => if e.Deliver? then [Delivery(id, h, e.port, e.frame)] else []
  }

  // Lets host h run its tables on a packet of frame id and spreads what comes out.
  function Process(c: Config, n: Net, h: Host, k: Pkt, id: nat, hops: nat): Net
    requires Programmed(c)
  {
    var r := Run(At(c, h).flows, OF_TABLE_ADMISS, Sw(n, h), k);
    var effs := Effects(Br(c, h), c.deploy, Peer(c, h), r.outs);
    WithSw(n, h, r.sw).(
      wire := n.wire + FlatMap(effs, ToFlight(Other(h), id, hops + 1)),
      log := n.log + FlatMap(effs, ToLog(id, h)))
  }

  function Step(c: Config, n: Net, ev: Event): Net
    requires Programmed(c)
  {
    match ev
    case Inject(h, i, f) =>
      if i < |Br(c, h).vifs| && Br(c, h).vifs[i].ofp != OFP_LOCAL then
        var w := Br(c, h).vifs[i];
        Process(c, n.(sent := n.sent + [Sent(h, w, f)]), h, Fresh(w.ofp, f), |n.sent|, 0)
      else n
    case Receive(i) =>
      if i < |n.wire| then
        var fl := n.wire[i];
        var n1 := n.(wire := n.wire[..i] + n.wire[i + 1..]);
        match Arrive(Br(c, fl.to), c.deploy, Peer(c, fl.to), fl.wire)
        case None => n1
        case Some(k) => Process(c, n1, fl.to, k, fl.id, fl.hops)
      else n
  }

  lemma InjectStep(c: Config, n: Net, h: Host, v: nat, f: Frame)
    requires Programmed(c) && v < |Br(c, h).vifs| && Br(c, h).vifs[v].ofp != OFP_LOCAL
    ensures var w := Br(c, h).vifs[v];
      Step(c, n, Inject(h, v, f)) == Process(c, n.(sent := n.sent + [Sent(h, w, f)]), h, Fresh(w.ofp, f), |n.sent|, 0)
  {
  }

  lemma ReceiveStep(c: Config, n: Net, i: nat, a: Pkt)
    requires Programmed(c) && i < |n.wire|
    requires Arrive(Br(c, n.wire[i].to), c.deploy, Peer(c, n.wire[i].to), n.wire[i].wire) == Some(a)
    ensures Step(c, n, Receive(i)) ==
              Process(c, n.(wire := n.wire[..i] + n.wire[i + 1..]), n.wire[i].to, a, n.wire[i].id, n.wire[i].hops)
  {
  }

  const NO_STATE := Switch(map[], map[])
  const START := Net(NO_STATE, NO_STATE, [], [], [])

  function Execute(c: Config, evs: seq<Event>): Net
    requires Programmed(c)
  {
    if evs == [] then START else Step(c, Execute(c, evs[..|evs| - 1]), evs[|evs| - 1])
  }

  // A run as the sequence of states it goes through, and what the theorems are about: the events
  // lead from the empty network to state n.
  ghost predicate StepsAt(c: Config, evs: seq<Event>, states: seq<Net>, i: nat)
    requires Programmed(c) && |states| == |evs| + 1 && i < |evs|
  {
    states[i + 1] == Step(c, states[i], evs[i])
  }

  ghost predicate IsRun(c: Config, evs: seq<Event>, states: seq<Net>)
    requires Programmed(c)
  {
    && |states| == |evs| + 1 && states[0] == START
    && forall i: nat {:trigger StepsAt(c, evs, states, i)} :: i < |evs| ==> StepsAt(c, evs, states, i)
  }

  ghost predicate Leads(c: Config, evs: seq<Event>, n: Net)
    requires Programmed(c)
  {
    exists states :: IsRun(c, evs, states) && states[|evs|] == n
  }

  lemma {:induction false} RunIs(c: Config, evs: seq<Event>, states: seq<Net>, i: nat)
    requires Programmed(c) && IsRun(c, evs, states) && i <= |evs|
    ensures states[i] == Execute(c, evs[..i])
  {
    if i == 0 {
    } else {
      RunIs(c, evs, states, i - 1);
      assert StepsAt(c, evs, states, i - 1);
      assert evs[..i][..i - 1] == evs[..i - 1];
    }
  }

  // Running the events one after the other is the only way they lead anywhere.
  lemma LeadsIs(c: Config, evs: seq<Event>, n: Net)
    requires Programmed(c)
    ensures Leads(c, evs, n) <==> n == Execute(c, evs)
  {
    assert evs[..|evs|] == evs;
    if Leads(c, evs, n) {
      var states :| IsRun(c, evs, states) && states[|evs|] == n;
      RunIs(c, evs, states, |evs|);
    }
    ExecuteLeads(c, evs);
  }

  lemma {:induction false} ExecuteLeads(c: Config, evs: seq<Event>)
    requires Programmed(c)
    ensures Leads(c, evs, Execute(c, evs))
  {
    if evs == [] {
      assert IsRun(c, evs, [START]);
    } else {
      var m := |evs| - 1;
      ExecuteLeads(c, evs[..m]);
      var states :| IsRun(c, evs[..m], states) && states[m] == Execute(c, evs[..m]);
      LongerRun(c, evs, states);
    }
  }

  lemma LongerRun(c: Config, evs: seq<Event>, states: seq<Net>)
    requires Programmed(c) && evs != [] && IsRun(c, evs[..|evs| - 1], states)
    ensures IsRun(c, evs, states + [Step(c, states[|evs| - 1], evs[|evs| - 1])])
  {
    var m := |evs| - 1;
    var longer := states + [Step(c, states[m], evs[m])];
    forall i: nat | i < |evs| ensures StepsAt(c, evs, longer, i) {
      if i < m { assert StepsAt(c, evs[..m], states, i); }
    }
  }

  // ---- one host's step, through the learning switch ----

  function Learnt(fib: map<(nat, Mac), nat>, r: nat, src: Mac, port: nat): map<(nat, Mac), nat> {
    fib[(r, src) := port]
  }

  // A step with the given plan: the state it leaves behind.
  ghost predicate Planned(c: Config, n: Net, n': Net, h: Host, vni: nat, f: Frame, id: nat, hops: nat, p: Plan) {
    && n'.sent == n.sent
    && Sw(n', Other(h)) == Sw(n, Other(h))
    && n'.log == n.log + seq(|p.ports|, i requires 0 <= i < |p.ports| => Delivery(id, h, p.ports[i], f))
    && n'.wire == n.wire + if p.toWire then [Flight(Other(h), WireFor(c.deploy, c.md, vni, f), id, hops + 1)] else []
  }

  const NOTHING := Plan([], false)

  lemma {:induction false} DeliveriesSpread(ports: seq<nat>, f: Frame, id: nat, h: Host, to: Host, hops: nat)
    ensures FlatMap(Deliveries(ports, f), ToFlight(to, id, hops)) == []
    ensures FlatMap(Deliveries(ports, f), ToLog(id, h))
         == seq(|ports|, i requires 0 <= i < |ports| => Delivery(id, h, ports[i], f))
  {
    if ports == [] {
    } else {
      var n := |ports| - 1;
      DeliveriesSpread(ports[..n], f, id, h, to, hops);
      LastSpread(ports, f, ToFlight(to, id, hops));
      LastSpread(ports, f, ToLog(id, h));
      LastLogged(ports, f, id, h);
    }
  }

  lemma LastLogged(ports: seq<nat>, f: Frame, id: nat, h: Host)
    requires ports != []
    ensures var init := ports[..|ports| - 1];
      seq(|ports|, i requires 0 <= i < |ports| => Delivery(id, h, ports[i], f))
      == seq(|init|, i requires 0 <= i < |init| => Delivery(id, h, init[i], f))
         + [Delivery(id, h, ports[|ports| - 1], f)]
  {
  }

  lemma LastSpread<R>(ports: seq<nat>, f: Frame, gen: Effect -> seq<R>)
    requires ports != []
    ensures var n := |ports| - 1;
      FlatMap(Deliveries(ports, f), gen) == FlatMap(Deliveries(ports[..n], f), gen) + gen(Deliveries(ports, f)[n])
  {
    assert Deliveries(ports, f)[..|ports| - 1] == Deliveries(ports[..|ports| - 1], f);
  }

  lemma PlanSpread(deploy: Deploy, md: bool, vni: nat, p: Plan, f: Frame, id: nat, h: Host, to: Host, hops: nat)
    ensures FlatMap(PlanEffects(deploy, md, vni, p, f), ToLog(id, h))
         == seq(|p.ports|, i requires 0 <= i < |p.ports| => Delivery(id, h, p.ports[i], f))
    ensures FlatMap(PlanEffects(deploy, md, vni, p, f), ToFlight(to, id, hops))
         == if p.toWire then [Flight(to, WireFor(deploy, md, vni, f), id, hops)] else []
  {
    var tail := if p.toWire then [Send(WireFor(deploy, md, vni, f))] else [];
    DeliveriesSpread(p.ports, f, id, h, to, hops);
    FlatMapAppend(Deliveries(p.ports, f), tail, ToLog(id, h));
    FlatMapAppend(Deliveries(p.ports, f), tail, ToFlight(to, id, hops));
    if p.toWire {
      FlatMapOne(tail, ToLog(id, h));
      FlatMapOne(tail, ToFlight(to, id, hops));
    }
  }

  // The ACL either lets the packet through or stops it; the rest is the abstract switch.
  ghost predicate Switched(c: Config, n: Net, n': Net, h: Host, local: bool, vni: nat, inPort: nat, f: Frame, id: nat,
                           hops: nat) {
    var r := Reg0Of(c.deploy, vni);
    var fib' := Learnt(Sw(n, h).fib, r, f.src, inPort);
    var plan := SwitchPlan(Br(c, h), c.deploy, fib', local, Domain(Br(c, h), vni), inPort, r, f.dst);
    || (Planned(c, n, n', h, vni, f, id, hops, plan) && Sw(n', h).fib == fib')
    || (At(c, h).acl != DEFAULT_ACL && Planned(c, n, n', h, vni, f, id, hops, NOTHING) && Sw(n', h).fib == Sw(n, h).fib)
  }

  lemma FibStays(b: BridgeView, deploy: Deploy, fib: map<(nat, Mac), nat>, r: nat, src: Mac, port: nat)
    requires FibOk(b, deploy, fib) && port != OFP_LOCAL
    requires LocalEntry(b, deploy, r, port) || ExtCarries(b, deploy, port, r)
    ensures FibOk(b, deploy, Learnt(fib, r, src, port))
  {
  }

  lemma ProcessPlanned(c: Config, n: Net, h: Host, k: Pkt, id: nat, hops: nat, vni: nat, f: Frame, p: Plan)
    requires Programmed(c)
    requires Effects(Br(c, h), c.deploy, Peer(c, h), Run(At(c, h).flows, OF_TABLE_ADMISS, Sw(n, h), k).outs)
          == PlanEffects(c.deploy, c.md, vni, p, f)
    ensures var n' := Process(c, n, h, k, id, hops);
      Planned(c, n, n', h, vni, f, id, hops, p) && Sw(n', h) == Run(At(c, h).flows, OF_TABLE_ADMISS, Sw(n, h), k).sw
  {
    PlanSpread(c.deploy, c.md, vni, p, f, id, h, Other(h), hops + 1);
    ProcessSpreads(c, n, h, k, id, hops, PlanEffects(c.deploy, c.md, vni, p, f));
  }

  lemma ProcessSpreads(c: Config, n: Net, h: Host, k: Pkt, id: nat, hops: nat, effs: seq<Effect>)
    requires Programmed(c)
    requires effs == Effects(Br(c, h), c.deploy, Peer(c, h), Run(At(c, h).flows, OF_TABLE_ADMISS, Sw(n, h), k).outs)
    ensures var n' := Process(c, n, h, k, id, hops);
      && Sw(n', h) == Run(At(c, h).flows, OF_TABLE_ADMISS, Sw(n, h), k).sw && Sw(n', Other(h)) == Sw(n, Other(h))
      && n'.sent == n.sent
      && n'.wire == n.wire + FlatMap(effs, ToFlight(Other(h), id, hops + 1))
      && n'.log == n.log + FlatMap(effs, ToLog(id, h))
  {
  }

  // From the ACL on, a tagged packet of local origin or from the wire is switched.
  lemma ProcessSwitched(c: Config, n: Net, h: Host, k: Pkt, k1: Pkt, local: bool, vni: nat, f: Frame, id: nat,
                        hops: nat)
    requires ConfigOk(c) && FibOk(Br(c, h), c.deploy, Sw(n, h).fib) && VniFits(c.deploy, vni)
    requires Run(At(c, h).flows, OF_TABLE_ADMISS, Sw(n, h), k) == Run(At(c, h).flows, OF_TABLE_ACL, Sw(n, h), k1)
    requires k1.reg0 == Reg0Of(c.deploy, vni) && k1.reg1 == 0 && FrameOf(k1) == f
    requires k1.inPort != OFP_LOCAL
    requires local ==> k1.md0 == k1.md1 == 0 &&
                       exists w :: w in Br(c, h).vifs && w.ofp == k1.inPort && w.vni == vni
    requires !local ==> ExtCarries(Br(c, h), c.deploy, k1.inPort, k1.reg0) &&
                        (c.md ==> k1.md0 == vni && k1.md1 == TUN_MD1)
    ensures Switched(c, n, Process(c, n, h, k, id, hops), h, local, vni, k1.inPort, f, id, hops)
  {
    var b, flows, acl, s := Br(c, h), At(c, h).flows, At(c, h).acl, Sw(n, h);
    assert SideOk(c, h);
    ForwardRun(flows, b, c.deploy, c.md, [Peer(c, h)], acl, s, k1);
    if acl == DEFAULT_ACL { DefaultAclPasses(flows, b, c.deploy, c.md, [Peer(c, h)], s, k1); }
    if AclVerdict(flows, s, k1).1.None? {
      ProcessStopped(c, n, h, k, vni, f, id, hops);
    } else {
      ProcessPassed(c, n, h, k, k1, local, vni, f, id, hops);
    }
  }

  lemma ProcessStopped(c: Config, n: Net, h: Host, k: Pkt, vni: nat, f: Frame, id: nat, hops: nat)
    requires Programmed(c) && Run(At(c, h).flows, OF_TABLE_ADMISS, Sw(n, h), k).outs == []
    ensures var n' := Process(c, n, h, k, id, hops);
      Planned(c, n, n', h, vni, f, id, hops, NOTHING)
        && Sw(n', h) == Run(At(c, h).flows, OF_TABLE_ADMISS, Sw(n, h), k).sw
  {
    assert Effects(Br(c, h), c.deploy, Peer(c, h), []) == PlanEffects(c.deploy, c.md, vni, NOTHING, f);
    ProcessPlanned(c, n, h, k, id, hops, vni, f, NOTHING);
  }

  // The same, for a packet the ACL is known to let through.
  lemma ProcessPassed(c: Config, n: Net, h: Host, k: Pkt, k1: Pkt, local: bool, vni: nat, f: Frame, id: nat, hops: nat)
    requires ConfigOk(c) && FibOk(Br(c, h), c.deploy, Sw(n, h).fib) && VniFits(c.deploy, vni)
    requires Run(At(c, h).flows, OF_TABLE_ADMISS, Sw(n, h), k) == Run(At(c, h).flows, OF_TABLE_ACL, Sw(n, h), k1)
    requires AclVerdict(At(c, h).flows, Sw(n, h), k1).1.Some?
    requires k1.reg0 == Reg0Of(c.deploy, vni) && k1.reg1 == 0 && FrameOf(k1) == f
    requires k1.inPort != OFP_LOCAL
    requires local ==> k1.md0 == k1.md1 == 0 &&
                       exists w :: w in Br(c, h).vifs && w.ofp == k1.inPort && w.vni == vni
    requires !local ==> ExtCarries(Br(c, h), c.deploy, k1.inPort, k1.reg0) &&
                        (c.md ==> k1.md0 == vni && k1.md1 == TUN_MD1)
    ensures var n' := Process(c, n, h, k, id, hops);
      var fib' := Learnt(Sw(n, h).fib, Reg0Of(c.deploy, vni), f.src, k1.inPort);
      && Sw(n', h).fib == fib'
      && Planned(c, n, n', h, vni, f, id, hops,
                 SwitchPlan(Br(c, h), c.deploy, fib', local, Domain(Br(c, h), vni), k1.inPort, Reg0Of(c.deploy, vni),
                            f.dst))
  {
    var b, flows, s := Br(c, h), At(c, h).flows, Sw(n, h);
    assert SideOk(c, h);
    ForwardRun(flows, b, c.deploy, c.md, [Peer(c, h)], At(c, h).acl, s, k1);
    var (s1, v) := AclVerdict(flows, s, k1);
    var k2 := v.value;
    var s2 := Learned(s1, k2);
    var plan := SwitchPlan(b, c.deploy, s2.fib, local, Domain(b, vni), k2.inPort, k2.reg0, k2.dst);
    PassedEffects(c, h, s2, k2, local, vni, s.fib);
    ProcessPlanned(c, n, h, k, id, hops, vni, f, plan);
  }

  lemma PassedEffects(c: Config, h: Host, s: Switch, k: Pkt, local: bool, vni: nat, was: map<(nat, Mac), nat>)
    requires ConfigOk(c) && FibOk(Br(c, h), c.deploy, was) && VniFits(c.deploy, vni)
    requires s.fib == Learnt(was, k.reg0, k.src, k.inPort)
    requires k.reg0 == Reg0Of(c.deploy, vni) && k.reg1 == 0 && k.inPort != OFP_LOCAL
    requires local ==> k.md0 == k.md1 == 0 &&
                       exists w :: w in Br(c, h).vifs && w.ofp == k.inPort && w.vni == vni
    requires !local ==> ExtCarries(Br(c, h), c.deploy, k.inPort, k.reg0) &&
                        (c.md ==> k.md0 == vni && k.md1 == TUN_MD1)
    ensures Effects(Br(c, h), c.deploy, Peer(c, h), OutputOuts(At(c, h).flows, Resolve(s, k)))
         == PlanEffects(c.deploy, c.md, vni,
                        SwitchPlan(Br(c, h), c.deploy, s.fib, local, Domain(Br(c, h), vni), k.inPort, k.reg0, k.dst),
                        FrameOf(k))
  {
    var b, flows, acl := Br(c, h), At(c, h).flows, At(c, h).acl;
    assert SideOk(c, h);
    FibStays(b, c.deploy, was, k.reg0, k.src, k.inPort);
    if local {
      var w :| w in b.vifs && w.ofp == k.inPort && w.vni == vni;
      IndexIsOk(b);
      DomainIs(b, c.deploy, vni);
      LocalEgress(flows, b, c.deploy, c.md, Peer(c, h), acl, FindKey(b.vnis, vni), w, s, k);
    } else {
      RemoteEgress(flows, b, c.deploy, c.md, Peer(c, h), acl, vni, s, k);
    }
  }

  lemma InjectSwitched(c: Config, n: Net, h: Host, w: VifView, f: Frame, id: nat)
    requires ConfigOk(c) && FibOk(Br(c, h), c.deploy, Sw(n, h).fib)
    requires w in Br(c, h).vifs && w.ofp != OFP_LOCAL
    ensures Switched(c, n, Process(c, n, h, Fresh(w.ofp, f), id, 0), h, true, w.vni, w.ofp, f, id, 0)
  {
    assert SideOk(c, h);
    var k := Fresh(w.ofp, f);
    Ingress(At(c, h).flows, Br(c, h), c.deploy, c.md, [Peer(c, h)], At(c, h).acl, w, Sw(n, h), k);
    ProcessSwitched(c, n, h, k, k.(reg0 := Reg0Of(c.deploy, w.vni)), true, w.vni, f, id, 0);
  }

  lemma ReceiveSwitched(c: Config, n: Net, h: Host, vni: nat, f: Frame, id: nat, hops: nat, k: Pkt)
    requires ConfigOk(c) && FibOk(Br(c, h), c.deploy, Sw(n, h).fib) && VniFits(c.deploy, vni)
    requires Arrive(Br(c, h), c.deploy, Peer(c, h), WireFor(c.deploy, c.md, vni, f)) == Some(k)
    ensures k.inPort in ExtPorts(Br(c, h), c.deploy)
    ensures Switched(c, n, Process(c, n, h, k, id, hops), h, false, vni, k.inPort, f, id, hops)
  {
    var b := Br(c, h);
    assert SideOk(c, h);
    WireRoundTrip(b, c.deploy, c.md, Peer(c, h), vni, f);
    ExtIngress(At(c, h).flows, b, c.deploy, c.md, [Peer(c, h)], At(c, h).acl, Sw(n, h), k);
    ArrivalCarries(c, h, vni, f, k);
    ProcessSwitched(c, n, h, k, Decap(c.deploy, k), false, vni, f, id, hops);
  }

  lemma ArrivalCarries(c: Config, h: Host, vni: nat, f: Frame, k: Pkt)
    requires ConfigOk(c) && VniFits(c.deploy, vni)
    requires Arrive(Br(c, h), c.deploy, Peer(c, h), WireFor(c.deploy, c.md, vni, f)) == Some(k)
    ensures ExtCarries(Br(c, h), c.deploy, k.inPort, Reg0Of(c.deploy, vni))
  {
    var b := Br(c, h);
    assert SideOk(c, h);
    WireRoundTrip(b, c.deploy, c.md, Peer(c, h), vni, f);
    if c.deploy.Tnl? {
      var t := PortForKey(b.tnls, Peer(c, h), vni).value;
      forall t' | t' in b.tnls && t'.ofp == k.inPort ensures t' == t { TnlByOfp(b, t, t'); }
    }
  }
}
