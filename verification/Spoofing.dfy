/** Why exact delivery needs honest senders: whoever was the last to send from an address takes over
    what its host delivers under that address. */
module Spoofing {
  import opened Constants
  import opened OpenFlow
  import opened Ports
  import opened Walk
  import opened Switching
  import opened LearningSwitch
  import opened Network
  import opened Isolation
  import opened Delivery

  // The frame was sent from an address on a VNI.
  ghost predicate Under(s: Sent, vni: nat, mac: Mac) {
    s.vif.vni == vni && s.frame.src == mac
  }

  // Nothing is on the wire to a host that was sent from the address.
  ghost predicate NoneComing(n: Net, h: Host, vni: nat, mac: Mac) {
    forall fl :: fl in n.wire && fl.to == h ==> fl.id < |n.sent| && !Under(n.sent[fl.id], vni, mac)
  }

  // Host h takes interface v for the owner of the address, and nothing is coming to change that.
  ghost predicate Captured(c: Config, n: Net, h: Host, v: VifView, mac: Mac) {
    && (var e := (Reg0Of(c.deploy, v.vni), mac); e in Sw(n, h).fib && Sw(n, h).fib[e] == v.ofp)
    && NoneComing(n, h, v.vni, mac)
  }

  // Nobody but interface v of host h sends from the address on v's VNI.
  ghost predicate OnlyFrom(c: Config, evs: seq<Event>, h: Host, v: VifView, mac: Mac) {
    forall ev :: ev in evs && ev.Inject? && ev.vif < |Br(c, ev.host).vifs|
      && Under(Sent(ev.host, Br(c, ev.host).vifs[ev.vif], ev.frame), v.vni, mac)
      ==> ev.host == h && Br(c, h).vifs[ev.vif] == v
  }

  // ---- the capture lasts ----

  // A step on frame id changes the entry only when it learns from that address.
  lemma FollowedCaptured(c: Config, n: Net, n': Net, x: Host, id: nat, hops: nat, local: bool, inPort: nat,
                         h: Host, v: VifView, mac: Mac)
    requires ConfigOk(c) && v in Br(c, h).vifs && Captured(c, n, h, v, mac)
    requires id < |n.sent| && SentOk(c, n.sent[id]) && Followed(c, n, n', x, id, hops, local, inPort)
    requires Under(n.sent[id], v.vni, mac) ==> if local then x == h && inPort == v.ofp else x != h
    ensures Captured(c, n', h, v, mac)
  {
    var s := n.sent[id];
    VifFits(c, h, v);
    VifFits(c, s.host, s.vif);
    if Reg0Of(c.deploy, s.vif.vni) == Reg0Of(c.deploy, v.vni) { Reg0Injective(c.deploy, s.vif.vni, v.vni); }
  }

  // The step by which an interface takes the address over.
  lemma FollowedCaptures(c: Config, n: Net, n': Net, h: Host, id: nat, v: VifView)
    requires id < |n.sent| && n.sent[id].vif == v && Followed(c, n, n', h, id, 0, true, v.ofp)
    requires NoneComing(n, h, v.vni, n.sent[id].frame.src)
    ensures Captured(c, n', h, v, n.sent[id].frame.src)
  {
  }

  lemma SentNoneComing(n: Net, s: Sent, h: Host, vni: nat, mac: Mac)
    requires NoneComing(n, h, vni, mac)
    ensures NoneComing(n.(sent := n.sent + [s]), h, vni, mac)
  {
    var n1 := n.(sent := n.sent + [s]);
    forall fl | fl in n1.wire && fl.to == h ensures fl.id < |n1.sent| && !Under(n1.sent[fl.id], vni, mac) {
      assert n1.sent[fl.id] == n.sent[fl.id];
    }
  }

  lemma RemovedNoneComing(n: Net, i: nat, h: Host, vni: nat, mac: Mac)
    requires NoneComing(n, h, vni, mac) && i < |n.wire|
    ensures NoneComing(n.(wire := n.wire[..i] + n.wire[i + 1..]), h, vni, mac)
  {
  }

  lemma InjectCaptured(c: Config, n: Net, x: Host, i: nat, f: Frame, h: Host, v: VifView, mac: Mac)
    requires ConfigOk(c) && Open(c) && Isolated(c, n) && v in Br(c, h).vifs && Captured(c, n, h, v, mac)
    requires i < |Br(c, x).vifs| && Br(c, x).vifs[i].ofp != OFP_LOCAL && OnlyFrom(c, [Inject(x, i, f)], h, v, mac)
    ensures Captured(c, Step(c, n, Inject(x, i, f)), h, v, mac)
  {
    var w := Br(c, x).vifs[i];
    var n1 := n.(sent := n.sent + [Sent(x, w, f)]);
    assert Inject(x, i, f) in [Inject(x, i, f)];
    InjectStep(c, n, x, i, f);
    InjectFollowed(c, n, x, w, f);
    SentNoneComing(n, Sent(x, w, f), h, v.vni, mac);
    assert n1.sent[|n.sent|] == Sent(x, w, f) && SentOk(c, Sent(x, w, f));
    FollowedCaptured(c, n1, Step(c, n, Inject(x, i, f)), x, |n.sent|, 0, true, w.ofp, h, v, mac);
  }

  lemma ReceiveCaptured(c: Config, n: Net, i: nat, h: Host, v: VifView, mac: Mac)
    requires ConfigOk(c) && Open(c) && Isolated(c, n) && Once(n) && v in Br(c, h).vifs && Captured(c, n, h, v, mac)
    requires i < |n.wire|
    ensures Captured(c, Step(c, n, Receive(i)), h, v, mac)
  {
    var fl := n.wire[i];
    var n1 := n.(wire := n.wire[..i] + n.wire[i + 1..]);
    assert FlightOk(c, n.sent, fl) && SentOk(c, n.sent[fl.id]);
    RemovedNoneComing(n, i, h, v.vni, mac);
    var a := Arrive(Br(c, fl.to), c.deploy, Peer(c, fl.to), fl.wire);
    if a.Some? {
      ReceiveStep(c, n, i, a.value);
      ReceiveFollowed(c, n, i, a.value);
      FollowedCaptured(c, n1, Step(c, n, Receive(i)), fl.to, fl.id, fl.hops, false, a.value.inPort, h, v, mac);
    } else {
      NoArrival(c, n, i);
    }
  }

  lemma StepCaptured(c: Config, n: Net, ev: Event, h: Host, v: VifView, mac: Mac)
    requires ConfigOk(c) && Open(c) && Isolated(c, n) && Once(n) && v in Br(c, h).vifs && Captured(c, n, h, v, mac)
    requires OnlyFrom(c, [ev], h, v, mac)
    ensures Captured(c, Step(c, n, ev), h, v, mac)
  {
    match ev
    case Inject(x, i, f) =>
      if i < |Br(c, x).vifs| && Br(c, x).vifs[i].ofp != OFP_LOCAL { InjectCaptured(c, n, x, i, f, h, v, mac); }
    case Receive(i) =>
      if i < |n.wire| { ReceiveCaptured(c, n, i, h, v, mac); }
  }

  lemma {:induction false} RunCaptured(c: Config, evs: seq<Event>, more: seq<Event>, h: Host, v: VifView, mac: Mac)
    requires ConfigOk(c) && Open(c) && v in Br(c, h).vifs && Captured(c, Execute(c, evs), h, v, mac)
    requires OnlyFrom(c, more, h, v, mac)
    ensures Captured(c, Execute(c, evs + more), h, v, mac)
    decreases |more|
  {
    if more == [] {
      assert evs + more == evs;
    } else {
      Regroup(evs, more);
      OnlyFromParts(c, more, h, v, mac);
      EventCaptured(c, evs, more[0], h, v, mac);
      RunCaptured(c, evs + [more[0]], more[1..], h, v, mac);
    }
  }

  lemma OnlyFromParts(c: Config, evs: seq<Event>, h: Host, v: VifView, mac: Mac)
    requires evs != [] && OnlyFrom(c, evs, h, v, mac)
    ensures OnlyFrom(c, [evs[0]], h, v, mac) && OnlyFrom(c, evs[1..], h, v, mac)
  {
    assert forall ev :: ev in [evs[0]] || ev in evs[1..] ==> ev in evs;
  }

  lemma EventCaptured(c: Config, evs: seq<Event>, ev: Event, h: Host, v: VifView, mac: Mac)
    requires ConfigOk(c) && Open(c) && v in Br(c, h).vifs && Captured(c, Execute(c, evs), h, v, mac)
    requires OnlyFrom(c, [ev], h, v, mac)
    ensures Captured(c, Execute(c, evs + [ev]), h, v, mac)
  {
    RunKeeps(c, evs);
    ExecuteLast(c, evs, ev);
    StepCaptured(c, Execute(c, evs), ev, h, v, mac);
  }

  // After any run, the frame of an interface under some address and whatever else, as long as nobody
  // else sends from that address and nothing sent from it is left on the wire to that host.
  lemma Takeover(c: Config, before: seq<Event>, m: Net, h: Host, v: nat, f: Frame, after: seq<Event>, n: Net)
    requires ConfigOk(c) && Open(c) && v < |Br(c, h).vifs| && Br(c, h).vifs[v].ofp != OFP_LOCAL
    requires Leads(c, before, m) && NoneComing(m, h, Br(c, h).vifs[v].vni, f.src)
    requires OnlyFrom(c, after, h, Br(c, h).vifs[v], f.src) && Leads(c, before + [Inject(h, v, f)] + after, n)
    ensures Captured(c, n, h, Br(c, h).vifs[v], f.src) && Isolated(c, n) && Once(n)
  {
    var w := Br(c, h).vifs[v];
    LeadsIs(c, before, m);
    LeadsIs(c, before + [Inject(h, v, f)] + after, n);
    RunKeeps(c, before);
    ExecuteLast(c, before, Inject(h, v, f));
    InjectStep(c, m, h, v, f);
    InjectFollowed(c, m, h, w, f);
    SentNoneComing(m, Sent(h, w, f), h, w.vni, f.src);
    FollowedCaptures(c, m.(sent := m.sent + [Sent(h, w, f)]), Step(c, m, Inject(h, v, f)), h, |m.sent|, w);
    RunCaptured(c, before + [Inject(h, v, f)], after, h, w, f.src);
    RunKeeps(c, before + [Inject(h, v, f)] + after);
  }

  // ---- what it captures ----

  // The frame was delivered to one interface of the host, once, and to no other there.
  ghost predicate GotAlone(n: Net, id: nat, h: Host, port: nat) {
    Got(n, id, h, port) && forall d :: d in n.log && d.id == id && d.host == h ==> d.port == port
  }

  lemma CapturedPlan(c: Config, h: Host, fib: map<(nat, Mac), nat>, local: bool, v: VifView, inPort: nat, dst: Mac)
    requires ConfigOk(c) && v in Br(c, h).vifs && v.ofp != inPort
    requires (Reg0Of(c.deploy, v.vni), dst) in fib && fib[(Reg0Of(c.deploy, v.vni), dst)] == v.ofp
    ensures SwitchPlan(Br(c, h), c.deploy, fib, local, Domain(Br(c, h), v.vni), inPort, Reg0Of(c.deploy, v.vni), dst)
         == Plan([v.ofp], false)
  {
    assert SideOk(c, h);
  }

  lemma FollowedAlone(c: Config, n: Net, n': Net, h: Host, id: nat, hops: nat, local: bool, inPort: nat, v: VifView)
    requires ConfigOk(c) && v in Br(c, h).vifs && id < |n.sent| && Followed(c, n, n', h, id, hops, local, inPort)
    requires n.sent[id].vif.vni == v.vni && n.sent[id].frame.src != n.sent[id].frame.dst && v.ofp != inPort
    requires Captured(c, n, h, v, n.sent[id].frame.dst) && forall d :: d in n.log && d.id == id ==> d.host != h
    ensures GotAlone(n', id, h, v.ofp) && n'.wire == n.wire
  {
    var s := n.sent[id];
    CapturedPlan(c, h, Sw(n', h).fib, local, v, inPort, s.frame.dst);
    assert n'.log == n.log + [Delivery(id, h, v.ofp, s.frame)];
    assert n'.log[|n.log|] == Delivery(id, h, v.ofp, s.frame);
  }

  // A frame another guest of the host sends to the address goes to the capturing interface alone,
  // and not out to the wire, whoever owns the address.
  lemma SpoofCaptures(c: Config, before: seq<Event>, m: Net, h: Host, v: nat, f: Frame, after: seq<Event>, n: Net,
                      u: nat, g: Frame)
    requires ConfigOk(c) && Open(c) && v < |Br(c, h).vifs| && Br(c, h).vifs[v].ofp != OFP_LOCAL
    requires Leads(c, before, m) && NoneComing(m, h, Br(c, h).vifs[v].vni, f.src)
    requires OnlyFrom(c, after, h, Br(c, h).vifs[v], f.src) && Leads(c, before + [Inject(h, v, f)] + after, n)
    requires u < |Br(c, h).vifs| && Br(c, h).vifs[u].ofp != OFP_LOCAL && Br(c, h).vifs[u].ofp != Br(c, h).vifs[v].ofp
    requires Br(c, h).vifs[u].vni == Br(c, h).vifs[v].vni && g.dst == f.src && g.src != g.dst
    ensures var n' := Step(c, n, Inject(h, u, g));
      GotAlone(n', |n.sent|, h, Br(c, h).vifs[v].ofp) && !OnWire(n', |n.sent|)
      && forall d :: d in n'.log && d.id == |n.sent| ==> d.host == h
  {
    Takeover(c, before, m, h, v, f, after, n);
    SendCaptured(c, n, h, Br(c, h).vifs[v], u, g);
  }

  lemma SendCaptured(c: Config, n: Net, h: Host, w: VifView, u: nat, g: Frame)
    requires ConfigOk(c) && Open(c) && Isolated(c, n) && w in Br(c, h).vifs && Captured(c, n, h, w, g.dst)
    requires u < |Br(c, h).vifs| && Br(c, h).vifs[u].ofp != OFP_LOCAL && Br(c, h).vifs[u].ofp != w.ofp
    requires Br(c, h).vifs[u].vni == w.vni && g.src != g.dst
    ensures var n' := Step(c, n, Inject(h, u, g));
      && GotAlone(n', |n.sent|, h, w.ofp) && !OnWire(n', |n.sent|)
      && forall d :: d in n'.log && d.id == |n.sent| ==> d.host == h
  {
    var x := Br(c, h).vifs[u];
    var n1 := n.(sent := n.sent + [Sent(h, x, g)]);
    NewId(c, n);
    InjectStep(c, n, h, u, g);
    InjectFollowed(c, n, h, x, g);
    SentNoneComing(n, Sent(h, x, g), h, w.vni, g.dst);
    FollowedAlone(c, n1, Step(c, n, Inject(h, u, g)), h, |n.sent|, 0, true, x.ofp, w);
    FollowedAtHome(c, n1, Step(c, n, Inject(h, u, g)), h, |n.sent|, x.ofp);
  }

  // The host adds no delivery but its own.
  lemma FollowedAtHome(c: Config, n: Net, n': Net, h: Host, id: nat, inPort: nat)
    requires id < |n.sent| && Followed(c, n, n', h, id, 0, true, inPort) && forall d :: d in n.log ==> d.id != id
    ensures forall d :: d in n'.log && d.id == id ==> d.host == h
  {
  }

  // So does, on that host, a frame that comes in from the wire.
  lemma SpoofCapturesArriving(c: Config, before: seq<Event>, m: Net, h: Host, v: nat, f: Frame, after: seq<Event>,
                              n: Net, i: nat)
    requires ConfigOk(c) && Open(c) && v < |Br(c, h).vifs| && Br(c, h).vifs[v].ofp != OFP_LOCAL
    requires Leads(c, before, m) && NoneComing(m, h, Br(c, h).vifs[v].vni, f.src)
    requires OnlyFrom(c, after, h, Br(c, h).vifs[v], f.src) && Leads(c, before + [Inject(h, v, f)] + after, n)
    requires i < |n.wire| && n.wire[i].to == h && n.wire[i].id < |n.sent|
    requires var s := n.sent[n.wire[i].id];
      s.vif.vni == Br(c, h).vifs[v].vni && s.frame.dst == f.src && s.frame.src != s.frame.dst
    ensures GotAlone(Step(c, n, Receive(i)), n.wire[i].id, h, Br(c, h).vifs[v].ofp)
  {
    Takeover(c, before, m, h, v, f, after, n);
    ArrivalCaptured(c, n, h, Br(c, h).vifs[v], i);
  }

  lemma ArrivalCaptured(c: Config, n: Net, h: Host, w: VifView, i: nat)
    requires ConfigOk(c) && Open(c) && Isolated(c, n) && Once(n) && w in Br(c, h).vifs
    requires i < |n.wire| && n.wire[i].to == h && n.wire[i].id < |n.sent| && n.sent[n.wire[i].id].vif.vni == w.vni
    requires var f := n.sent[n.wire[i].id].frame; Captured(c, n, h, w, f.dst) && f.src != f.dst
    ensures GotAlone(Step(c, n, Receive(i)), n.wire[i].id, h, w.ofp)
  {
    var fl := n.wire[i];
    var s := n.sent[fl.id];
    var n1 := n.(wire := n.wire[..i] + n.wire[i + 1..]);
    assert FlightOk(c, n.sent, fl);
    VniPresent(c, h, w);
    WireRoundTrip(Br(c, h), c.deploy, c.md, Peer(c, h), w.vni, s.frame);
    var a := Arrive(Br(c, h), c.deploy, Peer(c, h), fl.wire);
    RemovedNoneComing(n, i, h, w.vni, s.frame.dst);
    ReceiveStep(c, n, i, a.value);
    ReceiveFollowed(c, n, i, a.value);
    assert SideOk(c, h);
    FollowedAlone(c, n1, Step(c, n, Receive(i)), h, fl.id, fl.hops, false, a.value.inPort, w);
  }
}
