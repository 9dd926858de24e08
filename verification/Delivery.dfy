/** Frames get where they should: flooding reaches every interface of the VNI,
    and with honest senders the learned entries deliver exactly as flooding would. */
module Delivery {
  import opened Wrappers
  import opened Constants
  import opened OpenFlow
  import opened Ports
  import opened FlowTables
  import opened FlowTableProps
  import opened Walk
  import opened Switching
  import opened LearningSwitch
  import opened Network
  import opened Isolation
  import opened Honesty

  // Nothing is filtered: both hosts run the default ACL table.
  ghost predicate Open(c: Config) {
    c.a.acl == DEFAULT_ACL && c.b.acl == DEFAULT_ACL
  }

  // ---- what is owed to an interface ----

  ghost predicate Got(n: Net, id: nat, h: Host, port: nat) {
    exists d :: d in n.log && d.id == id && d.host == h && d.port == port
  }

  ghost predicate OnWire(n: Net, id: nat) {
    exists fl :: fl in n.wire && fl.id == id
  }

  ghost predicate Settled(n: Net, id: nat, h: Host, port: nat)
    requires id < |n.sent|
  {
    Got(n, id, h, port) || (h == Other(n.sent[id].host) && OnWire(n, id))
  }

  ghost predicate Peers(c: Config, s: Sent, h: Host, w: VifView) {
    && w in Br(c, h).vifs && w.ofp != OFP_LOCAL && w.vni == s.vif.vni
    && !(h == s.host && w.ofp == s.vif.ofp)
  }

  ghost predicate Unknown(c: Config, n: Net, s: Sent) {
    var e := (Reg0Of(c.deploy, s.vif.vni), s.frame.dst);
    e !in n.a.fib && e !in n.b.fib
  }

  ghost predicate Owed(c: Config, n: Net, s: Sent, h: Host, w: VifView, honest: bool) {
    Peers(c, s, h, w) && (Unknown(c, n, s) || (honest && w.mac == Some(s.frame.dst)))
  }

  ghost predicate Served(c: Config, n: Net, honest: bool) {
    forall id, h, w :: 0 <= id < |n.sent| && Owed(c, n, n.sent[id], h, w, honest) ==> Settled(n, id, h, w.ofp)
  }

  // ---- one step ----

  // A plan reaches an interface: by a local copy, or by way of the wire.
  ghost predicate Reaches(p: Plan, h: Host, o: Host, w: VifView) {
    if o == h then w.ofp in p.ports else p.toWire
  }

  lemma PlanReaches(c: Config, h: Host, fib: map<(nat, Mac), nat>, local: bool, vni: nat, inPort: nat, dst: Mac,
                    o: Host, w: VifView)
    requires ConfigOk(c) && w in Br(c, o).vifs && w.ofp != OFP_LOCAL && w.vni == vni
    requires if o == h then w.ofp != inPort else local
    requires local ==> inPort !in ExtPorts(Br(c, h), c.deploy)
    requires (Reg0Of(c.deploy, vni), dst) in fib ==> Towards(c, h, fib[(Reg0Of(c.deploy, vni), dst)], o, w)
    ensures var r := Reg0Of(c.deploy, vni);
      Reaches(SwitchPlan(Br(c, h), c.deploy, fib, local, Domain(Br(c, h), vni), inPort, r, dst), h, o, w)
  {
    assert SideOk(c, h);
    if o == h {
      IndexIsOk(Br(c, h));
      DomainIs(Br(c, h), c.deploy, vni);
      InTargets(Domain(Br(c, h), vni), inPort, w.ofp);
    }
  }

  // With nothing filtered, a step of host h on frame id follows the abstract switch's plan.
  ghost predicate Followed(c: Config, n: Net, n': Net, h: Host, id: nat, hops: nat, local: bool, inPort: nat)
    requires id < |n.sent|
  {
    var s := n.sent[id];
    var r := Reg0Of(c.deploy, s.vif.vni);
    && Sw(n', h).fib == Learnt(Sw(n, h).fib, r, s.frame.src, inPort)
    && Planned(c, n, n', h, s.vif.vni, s.frame, id, hops,
               SwitchPlan(Br(c, h), c.deploy, Sw(n', h).fib, local, Domain(Br(c, h), s.vif.vni), inPort, r,
                          s.frame.dst))
    && (if local then h == s.host && inPort == s.vif.ofp
        else h == Other(s.host) && inPort in ExtPorts(Br(c, h), c.deploy))
  }

  // The step settles what frame id is owed at host h and, for local frames, at the other host.
  lemma FollowedReaches(c: Config, n: Net, n': Net, h: Host, id: nat, hops: nat, local: bool, inPort: nat,
                        honest: bool, o: Host, w: VifView)
    requires ConfigOk(c) && Isolated(c, n) && id < |n.sent| && (honest ==> MacsDistinct(c) && Honest(c, n'))
    requires Followed(c, n, n', h, id, hops, local, inPort)
    requires Owed(c, n', n.sent[id], o, w, honest) && (local || o == h)
    ensures Settled(n', id, o, w.ofp)
  {
    var s := n.sent[id];
    var r, v := Reg0Of(c.deploy, s.vif.vni), s.vif.vni;
    var fib := Sw(n', h).fib;
    assert SideOk(c, h) && SentOk(c, s);
    var p := SwitchPlan(Br(c, h), c.deploy, fib, local, Domain(Br(c, h), v), inPort, r, s.frame.dst);
    if (r, s.frame.dst) in fib { HonestTowards(c, h, fib, o, w, s.frame.dst); }
    PlanReaches(c, h, fib, local, v, inPort, s.frame.dst, o, w);
    PlannedSettles(c, n, n', h, v, s.frame, id, hops, p, o, w);
  }

  // What a plan reaches is delivered here, or on the wire to the other host.
  lemma PlannedSettles(c: Config, n: Net, n': Net, h: Host, vni: nat, f: Frame, id: nat, hops: nat, p: Plan, o: Host,
                       w: VifView)
    requires Planned(c, n, n', h, vni, f, id, hops, p) && Reaches(p, h, o, w) && id < |n'.sent|
    ensures if o == h then Got(n', id, h, w.ofp) else OnWire(n', id)
  {
    if o == h {
      var more := seq(|p.ports|, i requires 0 <= i < |p.ports| => Delivery(id, h, p.ports[i], f));
      var i :| 0 <= i < |p.ports| && p.ports[i] == w.ofp;
      assert more[i] in n'.log;
    } else {
      assert Flight(Other(h), WireFor(c.deploy, c.md, vni, f), id, hops + 1) in n'.wire;
    }
  }

  // A step only adds entries, and touches the copies of at most one frame.
  ghost predicate Extends(n: Net, n': Net, id: nat) {
    && n.sent <= n'.sent
    && (forall e :: e in n.a.fib ==> e in n'.a.fib)
    && (forall e :: e in n.b.fib ==> e in n'.b.fib)
    && (forall d :: d in n.log ==> d in n'.log)
    && (forall fl :: fl in n.wire && fl.id != id ==> fl in n'.wire)
  }

  // Everything settled earlier stays settled.
  lemma SettledStays(n: Net, n': Net, id: nat, h: Host, port: nat, gone: nat)
    requires Extends(n, n', gone)
    requires id < |n.sent| && Settled(n, id, h, port) && (id != gone || Got(n, id, h, port))
    ensures Settled(n', id, h, port)
  {
  }

  lemma OwedBefore(c: Config, n: Net, n': Net, id: nat, gone: nat, h: Host, w: VifView, honest: bool)
    requires Extends(n, n', gone) && id < |n.sent| && Owed(c, n', n'.sent[id], h, w, honest)
    ensures Owed(c, n, n.sent[id], h, w, honest)
  {
  }

  lemma OthersServed(c: Config, n: Net, n': Net, id: nat, gone: nat, h: Host, w: VifView, honest: bool)
    requires Served(c, n, honest) && Extends(n, n', gone)
    requires id < |n.sent| && id != gone && Owed(c, n', n'.sent[id], h, w, honest)
    ensures Settled(n', id, h, w.ofp)
  {
    OwedBefore(c, n, n', id, gone, h, w, honest);
    SettledStays(n, n', id, h, w.ofp, gone);
  }

  lemma FollowedExtends(c: Config, n: Net, n': Net, h: Host, id: nat, hops: nat, local: bool, inPort: nat)
    requires id < |n.sent| && Followed(c, n, n', h, id, hops, local, inPort)
    ensures Extends(n, n', id)
  {
  }

  lemma InjectFollowed(c: Config, n: Net, h: Host, v: VifView, f: Frame)
    requires ConfigOk(c) && Open(c) && Isolated(c, n) && v in Br(c, h).vifs && v.ofp != OFP_LOCAL
    ensures var n1 := n.(sent := n.sent + [Sent(h, v, f)]);
      var n' := Process(c, n1, h, Fresh(v.ofp, f), |n.sent|, 0);
      && Followed(c, n1, n', h, |n.sent|, 0, true, v.ofp)
      && Extends(n, n', |n.sent|) && |n'.sent| == |n.sent| + 1
  {
    var n1 := n.(sent := n.sent + [Sent(h, v, f)]);
    InjectSwitched(c, n1, h, v, f, |n.sent|);
    FollowedExtends(c, n1, Process(c, n1, h, Fresh(v.ofp, f), |n.sent|, 0), h, |n.sent|, 0, true, v.ofp);
  }

  lemma InjectServes(c: Config, n: Net, h: Host, v: VifView, f: Frame, honest: bool)
    requires ConfigOk(c) && Open(c) && Isolated(c, n) && Once(n) && Served(c, n, honest)
    requires v in Br(c, h).vifs && v.ofp != OFP_LOCAL
    requires var n' := Process(c, n.(sent := n.sent + [Sent(h, v, f)]), h, Fresh(v.ofp, f), |n.sent|, 0);
      honest ==> MacsDistinct(c) && Honest(c, n')
    ensures var n' := Process(c, n.(sent := n.sent + [Sent(h, v, f)]), h, Fresh(v.ofp, f), |n.sent|, 0);
      Served(c, n', honest)
  {
    var id := |n.sent|;
    var n1 := n.(sent := n.sent + [Sent(h, v, f)]);
    var n' := Process(c, n1, h, Fresh(v.ofp, f), id, 0);
    SentKeeps(c, n, Sent(h, v, f));
    InjectFollowed(c, n, h, v, f);
    NewServed(c, n, n1, n', h, v.ofp, honest);
  }

  // Serving the newest frame, on top of a state that served the others.
  lemma NewServed(c: Config, n: Net, n1: Net, n': Net, h: Host, inPort: nat, honest: bool)
    requires ConfigOk(c) && Isolated(c, n1) && Served(c, n, honest) && (honest ==> MacsDistinct(c) && Honest(c, n'))
    requires |n1.sent| == |n.sent| + 1 && n'.sent == n1.sent && Extends(n, n', |n.sent|)
    requires Followed(c, n1, n', h, |n.sent|, 0, true, inPort)
    ensures Served(c, n', honest)
  {
    forall j, o, w | 0 <= j < |n'.sent| && Owed(c, n', n'.sent[j], o, w, honest) ensures Settled(n', j, o, w.ofp) {
      if j == |n.sent| {
        FollowedReaches(c, n1, n', h, |n.sent|, 0, true, inPort, honest, o, w);
      } else {
        OthersServed(c, n, n', j, |n.sent|, o, w, honest);
      }
    }
  }

  lemma ReceiveFollowed(c: Config, n: Net, i: nat, k: Pkt)
    requires ConfigOk(c) && Open(c) && Isolated(c, n) && Once(n) && i < |n.wire|
    requires Arrive(Br(c, n.wire[i].to), c.deploy, Peer(c, n.wire[i].to), n.wire[i].wire) == Some(k)
    ensures var fl := n.wire[i];
      var n1 := n.(wire := n.wire[..i] + n.wire[i + 1..]);
      && fl.id < |n.sent|
      && Followed(c, n1, Process(c, n1, fl.to, k, fl.id, fl.hops), fl.to, fl.id, fl.hops, false, k.inPort)
  {
    var fl := n.wire[i];
    assert FlightOk(c, n.sent, fl);
    var s := n.sent[fl.id];
    assert SentOk(c, s);
    VifFits(c, s.host, s.vif);
    ReceiveSwitched(c, n.(wire := n.wire[..i] + n.wire[i + 1..]), fl.to, s.vif.vni, s.frame, fl.id, fl.hops, k);
  }

  lemma ReceiveExtends(c: Config, n: Net, i: nat)
    requires ConfigOk(c) && Open(c) && Isolated(c, n) && Once(n) && i < |n.wire|
    ensures Extends(n, Step(c, n, Receive(i)), n.wire[i].id) && Step(c, n, Receive(i)).sent == n.sent
  {
    var fl := n.wire[i];
    var n1 := n.(wire := n.wire[..i] + n.wire[i + 1..]);
    var n' := Step(c, n, Receive(i));
    Removed(n, i);
    var a := Arrive(Br(c, fl.to), c.deploy, Peer(c, fl.to), fl.wire);
    if a.Some? {
      ReceiveStep(c, n, i, a.value);
      ReceiveFollowed(c, n, i, a.value);
      FollowedExtends(c, n1, n', fl.to, fl.id, fl.hops, false, a.value.inPort);
    }
  }

  // The wire frame that arrives: everything it is owed at this host is settled by local copies.
  lemma ReceiveSettles(c: Config, n: Net, i: nat, honest: bool, w: VifView)
    requires ConfigOk(c) && Open(c) && Isolated(c, n) && Once(n)
    requires honest ==> MacsDistinct(c) && Honest(c, Step(c, n, Receive(i)))
    requires i < |n.wire| && n.wire[i].id < |n.sent|
    requires Owed(c, Step(c, n, Receive(i)), n.sent[n.wire[i].id], n.wire[i].to, w, honest)
    requires Step(c, n, Receive(i)).sent == n.sent
    ensures Settled(Step(c, n, Receive(i)), n.wire[i].id, n.wire[i].to, w.ofp)
  {
    var fl := n.wire[i];
    var n1 := n.(wire := n.wire[..i] + n.wire[i + 1..]);
    var n' := Step(c, n, Receive(i));
    Removed(n, i);
    assert FlightOk(c, n.sent, fl);
    var a := Arrive(Br(c, fl.to), c.deploy, Peer(c, fl.to), fl.wire);
    VniPresent(c, fl.to, w);
    WireRoundTrip(Br(c, fl.to), c.deploy, c.md, Peer(c, fl.to), w.vni, n.sent[fl.id].frame);
    ReceiveStep(c, n, i, a.value);
    ReceiveFollowed(c, n, i, a.value);
    FollowedReaches(c, n1, n', fl.to, fl.id, fl.hops, false, a.value.inPort, honest, fl.to, w);
  }

  lemma ReceiveServes(c: Config, n: Net, i: nat, honest: bool)
    requires ConfigOk(c) && Open(c) && Isolated(c, n) && Once(n) && Served(c, n, honest)
    requires i < |n.wire| && (honest ==> MacsDistinct(c) && Honest(c, Step(c, n, Receive(i))))
    ensures Served(c, Step(c, n, Receive(i)), honest)
  {
    var fl := n.wire[i];
    var n' := Step(c, n, Receive(i));
    assert FlightOk(c, n.sent, fl);
    ReceiveExtends(c, n, i);
    forall j, o, w | 0 <= j < |n'.sent| && Owed(c, n', n'.sent[j], o, w, honest) ensures Settled(n', j, o, w.ofp) {
      if j != fl.id {
        OthersServed(c, n, n', j, fl.id, o, w, honest);
      } else if o == fl.to {
        ReceiveSettles(c, n, i, honest, w);
      } else {
        OwedBefore(c, n, n', j, fl.id, o, w, honest);
        SettledStays(n, n', j, o, w.ofp, fl.id);
      }
    }
  }

  lemma VniPresent(c: Config, h: Host, w: VifView)
    requires ConfigOk(c) && w in Br(c, h).vifs
    ensures w.vni in KeysOf(Br(c, h).vnis) && VniFits(c.deploy, w.vni)
    ensures HostOk(Br(c, h), c.deploy, c.md, Peer(c, h))
  {
    assert SideOk(c, h);
    IndexIsOk(Br(c, h));
  }

  lemma {:induction false} RunServes(c: Config, evs: seq<Event>, honest: bool)
    requires ConfigOk(c) && Open(c)
    requires honest ==> MacsDistinct(c) && HonestEvents(c, evs)
    ensures Served(c, Execute(c, evs), honest)
  {
    if evs == [] {
    } else {
      var m := |evs| - 1;
      var n := Execute(c, evs[..m]);
      RunServes(c, evs[..m], honest);
      RunKeeps(c, evs[..m]);
      if honest { RunHonest(c, evs); }
      match evs[m]
      case Inject(h, i, f) =>
        if i < |Br(c, h).vifs| && Br(c, h).vifs[i].ofp != OFP_LOCAL {
          InjectServes(c, n, h, Br(c, h).vifs[i], f, honest);
        }
      case Receive(i) =>
        if i < |n.wire| { ReceiveServes(c, n, i, honest); }
    }
  }

  // ---- the theorems ----

  // Flooding is complete: when nobody has been learned under the destination, every other
  // interface of the VNI has the frame or will get it from the wire; DeliveredAtMostOnce adds
  // that none gets it twice, TenantIsolation that nobody else gets it.
  lemma FloodReachesAll(c: Config, evs: seq<Event>, n: Net, id: nat, h: Host, w: VifView)
    requires ConfigOk(c) && Open(c) && Leads(c, evs, n) && id < |n.sent|
    requires Peers(c, n.sent[id], h, w) && Unknown(c, n, n.sent[id])
    ensures Got(n, id, h, w.ofp) || (h == Other(n.sent[id].host) && OnWire(n, id))
  {
    LeadsIs(c, evs, n);
    RunServes(c, evs, false);
    assert Owed(c, n, n.sent[id], h, w, false);
  }

  // The learned tables refine flooding: with honest senders, once the wire is empty, the
  // interface a frame is addressed to has received it exactly when flooding would reach it,
  // that is when it is another interface of the sender's VNI.
  lemma FibRefinesFlooding(c: Config, evs: seq<Event>, n: Net, id: nat, h: Host, w: VifView)
    requires ConfigOk(c) && Open(c) && MacsDistinct(c) && HonestEvents(c, evs)
    requires Leads(c, evs, n) && n.wire == [] && id < |n.sent|
    requires w in Br(c, h).vifs && w.ofp != OFP_LOCAL && w.mac == Some(n.sent[id].frame.dst)
    ensures Got(n, id, h, w.ofp) <==> Peers(c, n.sent[id], h, w)
  {
    LeadsIs(c, evs, n);
    RunServes(c, evs, true);
    RunKeeps(c, evs);
    if Peers(c, n.sent[id], h, w) {
      assert Owed(c, n, n.sent[id], h, w, true);
    }
    if Got(n, id, h, w.ofp) {
      var d :| d in n.log && d.id == id && d.host == h && d.port == w.ofp;
      assert DeliveryOk(c, n.sent, d) && SideOk(c, h);
      var w' :| w' in Br(c, h).vifs && w'.ofp == w.ofp && w'.vni == n.sent[id].vif.vni;
      VifByOfp(Br(c, h), c.deploy, w, w');
    }
  }

  // The next frame's number is new.
  lemma NewId(c: Config, n: Net)
    requires Isolated(c, n)
    ensures !OnWire(n, |n.sent|) && forall d :: d in n.log ==> d.id != |n.sent|
  {
    forall d | d in n.log ensures d.id != |n.sent| { assert DeliveryOk(c, n.sent, d); }
    forall fl | fl in n.wire ensures fl.id != |n.sent| { assert FlightOk(c, n.sent, fl); }
  }
}
