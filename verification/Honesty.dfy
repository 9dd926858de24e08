/** Learned entries over whole runs: with honest senders every entry leads to the owner of its
    address, whatever the ACL lets through. */
module Honesty {
  import opened Wrappers
  import opened Constants
  import opened OpenFlow
  import opened Ports
  import opened Walk
  import opened Switching
  import opened LearningSwitch
  import opened Network
  import opened Isolation

  // ---- honest senders ----

  ghost predicate MacsDistinct(c: Config) {
    forall h, w, h', w' ::
      (w in Br(c, h).vifs && w' in Br(c, h').vifs && w.ofp != OFP_LOCAL && w'.ofp != OFP_LOCAL
       && w.mac.Some? && w.mac == w'.mac) ==> h == h' && w == w'
  }

  ghost predicate HonestEvent(c: Config, ev: Event) {
    ev.Inject? && ev.vif < |Br(c, ev.host).vifs| ==> Br(c, ev.host).vifs[ev.vif].mac == Some(ev.frame.src)
  }

  ghost predicate HonestEvents(c: Config, evs: seq<Event>) {
    forall ev :: ev in evs ==> HonestEvent(c, ev)
  }

  // An entry names the owner of its address: its port, or an external port that carries its VNI.
  ghost predicate Towards(c: Config, h: Host, port: nat, o: Host, w: VifView) {
    if o == h then port == w.ofp else ExtCarries(Br(c, h), c.deploy, port, Reg0Of(c.deploy, w.vni))
  }

  ghost predicate OwnedEntry(c: Config, h: Host, e: (nat, Mac), port: nat) {
    exists o, w :: w in Br(c, o).vifs && w.ofp != OFP_LOCAL && w.mac == Some(e.1)
                   && Reg0Of(c.deploy, w.vni) == e.0 && Towards(c, h, port, o, w)
  }

  ghost predicate HonestFib(c: Config, h: Host, fib: map<(nat, Mac), nat>) {
    forall e :: e in fib ==> OwnedEntry(c, h, e, fib[e])
  }

  ghost predicate Honest(c: Config, n: Net) {
    && HonestFib(c, HostA, n.a.fib) && HonestFib(c, HostB, n.b.fib)
    && forall i :: 0 <= i < |n.sent| ==> n.sent[i].vif.mac == Some(n.sent[i].frame.src)
  }

  lemma HonestTowards(c: Config, h: Host, fib: map<(nat, Mac), nat>, o: Host, w: VifView, mac: Mac)
    requires ConfigOk(c) && MacsDistinct(c) && HonestFib(c, h, fib)
    requires w in Br(c, o).vifs && w.ofp != OFP_LOCAL && w.mac == Some(mac)
    requires (Reg0Of(c.deploy, w.vni), mac) in fib
    ensures Towards(c, h, fib[(Reg0Of(c.deploy, w.vni), mac)], o, w)
  {
    var e := (Reg0Of(c.deploy, w.vni), mac);
    assert OwnedEntry(c, h, e, fib[e]);
  }

  lemma LearntHonest(c: Config, h: Host, fib: map<(nat, Mac), nat>, r: nat, src: Mac, port: nat, o: Host, w: VifView)
    requires HonestFib(c, h, fib)
    requires w in Br(c, o).vifs && w.ofp != OFP_LOCAL && w.mac == Some(src)
    requires Reg0Of(c.deploy, w.vni) == r && Towards(c, h, port, o, w)
    ensures HonestFib(c, h, Learnt(fib, r, src, port))
  {
    assert OwnedEntry(c, h, (r, src), port);
  }

  // A host's step either learns where the sender is or leaves its entries alone.
  lemma SwitchedHonest(c: Config, n: Net, n': Net, h: Host, local: bool, inPort: nat, id: nat, hops: nat)
    requires ConfigOk(c) && Honest(c, n) && id < |n.sent| && SentOk(c, n.sent[id])
    requires Switched(c, n, n', h, local, n.sent[id].vif.vni, inPort, n.sent[id].frame, id, hops)
    requires Towards(c, h, inPort, n.sent[id].host, n.sent[id].vif)
    ensures Honest(c, n')
  {
    var s := n.sent[id];
    LearntHonest(c, h, Sw(n, h).fib, Reg0Of(c.deploy, s.vif.vni), s.frame.src, inPort, s.host, s.vif);
    assert Sw(n', Other(h)) == Sw(n, Other(h));
    assert h == HostA || h == HostB;
  }

  lemma InjectHonest(c: Config, n: Net, h: Host, v: nat, f: Frame)
    requires ConfigOk(c) && Isolated(c, n) && Honest(c, n) && v < |Br(c, h).vifs| && Br(c, h).vifs[v].ofp != OFP_LOCAL
    requires Br(c, h).vifs[v].mac == Some(f.src)
    ensures Honest(c, Step(c, n, Inject(h, v, f)))
  {
    InjectStep(c, n, h, v, f);
    SentHonest(c, n, h, Br(c, h).vifs[v], f);
  }

  lemma SentHonest(c: Config, n: Net, h: Host, w: VifView, f: Frame)
    requires ConfigOk(c) && Isolated(c, n) && Honest(c, n) && w in Br(c, h).vifs && w.ofp != OFP_LOCAL
    requires w.mac == Some(f.src)
    ensures Honest(c, Process(c, n.(sent := n.sent + [Sent(h, w, f)]), h, Fresh(w.ofp, f), |n.sent|, 0))
  {
    var n1 := n.(sent := n.sent + [Sent(h, w, f)]);
    assert SentOk(c, n1.sent[|n.sent|]);
    InjectSwitched(c, n1, h, w, f, |n.sent|);
    SwitchedHonest(c, n1, Process(c, n1, h, Fresh(w.ofp, f), |n.sent|, 0), h, true, w.ofp, |n.sent|, 0);
  }

  lemma ReceiveHonest(c: Config, n: Net, i: nat)
    requires ConfigOk(c) && Isolated(c, n) && Honest(c, n) && i < |n.wire|
    ensures Honest(c, Step(c, n, Receive(i)))
  {
    var fl := n.wire[i];
    var n1 := n.(wire := n.wire[..i] + n.wire[i + 1..]);
    assert FlightOk(c, n.sent, fl);
    var s := n.sent[fl.id];
    assert SentOk(c, s);
    var a := Arrive(Br(c, fl.to), c.deploy, Peer(c, fl.to), fl.wire);
    if a.Some? {
      VifFits(c, s.host, s.vif);
      ReceiveStep(c, n, i, a.value);
      ArrivalCarries(c, fl.to, s.vif.vni, s.frame, a.value);
      ReceiveSwitched(c, n1, fl.to, s.vif.vni, s.frame, fl.id, fl.hops, a.value);
      SwitchedHonest(c, n1, Step(c, n, Receive(i)), fl.to, false, a.value.inPort, fl.id, fl.hops);
    } else {
      NoArrival(c, n, i);
    }
  }

  lemma {:induction false} RunHonest(c: Config, evs: seq<Event>)
    requires ConfigOk(c) && HonestEvents(c, evs)
    ensures Honest(c, Execute(c, evs))
  {
    if evs == [] {
    } else {
      var m := |evs| - 1;
      var n := Execute(c, evs[..m]);
      RunHonest(c, evs[..m]);
      RunKeeps(c, evs[..m]);
      assert HonestEvent(c, evs[m]);
      match evs[m]
      case Inject(h, i, f) =>
        if i < |Br(c, h).vifs| && Br(c, h).vifs[i].ofp != OFP_LOCAL { InjectHonest(c, n, h, i, f); }
      case Receive(i) =>
        if i < |n.wire| { ReceiveHonest(c, n, i); }
    }
  }

  // Every reachable entry names the owner's port, or an external port towards the owner's host that
  // carries the entry's VNI.
  lemma EntriesNameOwners(c: Config, evs: seq<Event>, n: Net, h: Host, e: (nat, Mac))
    requires ConfigOk(c) && HonestEvents(c, evs) && Leads(c, evs, n) && e in Sw(n, h).fib
    ensures OwnedEntry(c, h, e, Sw(n, h).fib[e])
  {
    LeadsIs(c, evs, n);
    RunHonest(c, evs);
  }
}
