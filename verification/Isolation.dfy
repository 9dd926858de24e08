/** What holds in every reachable state of the network: frames stay in their
    VNI, cross the wire at most once and reach an interface at most once. */
module Isolation {
  import opened Wrappers
  import opened Seqs
  import opened Constants
  import opened OpenFlow
  import opened Ports
  import opened FlowTables
  import opened FlowTableProps
  import opened Walk
  import opened Switching
  import opened LearningSwitch
  import opened Network

  // ---- the ports a plan names ----

  ghost predicate Member(c: Config, h: Host, port: nat, vni: nat) {
    port != OFP_LOCAL && exists w :: w in Br(c, h).vifs && w.ofp == port && w.vni == vni
  }

  ghost predicate DistinctOfps(vifs: seq<VifView>) {
    forall i, j :: 0 <= i < j < |vifs| ==> vifs[i].ofp != vifs[j].ofp
  }

  lemma {:induction false} SublistDistinct(vifs: seq<VifView>, keys: seq<nat>, vni: nat)
    requires |vifs| == |keys| && DistinctOfps(vifs)
    ensures DistinctOfps(Sublist(vifs, keys, vni))
  {
    if vifs == [] {
    } else {
      var n := |vifs| - 1;
      SublistDistinct(vifs[..n], keys[..n], vni);
      forall w | w in Sublist(vifs[..n], keys[..n], vni) ensures w.ofp != vifs[n].ofp {
        InSublist(vifs[..n], keys[..n], vni, w);
      }
    }
  }

  lemma DomainDistinct(b: BridgeView, deploy: Deploy, md: bool, vni: nat)
    requires BridgeOk(b, deploy, md)
    ensures DistinctOfps(Domain(b, vni))
  {
    VniIndexGroups(b.vifs, Vnis(b.vifs));
    SublistDistinct(b.vifs, Vnis(b.vifs), vni);
  }

  lemma InTargets(vifs: seq<VifView>, inPort: nat, q: nat)
    ensures q in Targets(vifs, inPort) <==>
              q != OFP_LOCAL && q != inPort && exists w :: w in vifs && w.ofp == q
  {
    InFlatMap(vifs, TargetOf(inPort), q);
    if w :| w in vifs && w.ofp == q && q != OFP_LOCAL && q != inPort {
      var i :| 0 <= i < |vifs| && vifs[i] == w;
      assert q in TargetOf(inPort)(vifs[i]);
    }
  }

  lemma {:induction false} TargetsDistinct(vifs: seq<VifView>, inPort: nat)
    requires DistinctOfps(vifs)
    ensures Distinct(Targets(vifs, inPort))
  {
    if vifs == [] {
    } else {
      var n := |vifs| - 1;
      TargetsDistinct(vifs[..n], inPort);
      InTargets(vifs[..n], inPort, vifs[n].ofp);
    }
  }

  // A plan sends to interfaces of the frame's own VNI only, to each at most once, never back
  // to where the frame came from, and to the wire only when the frame started here.
  ghost predicate GoodPlan(c: Config, h: Host, vni: nat, inPort: nat, local: bool, p: Plan) {
    && Distinct(p.ports)
    && (forall q :: q in p.ports ==> Member(c, h, q, vni) && q != inPort)
    && (p.toWire ==> local)
  }

  lemma PlanIsGood(c: Config, h: Host, fib: map<(nat, Mac), nat>, local: bool, vni: nat, inPort: nat, dst: Mac)
    requires ConfigOk(c) && FibOk(Br(c, h), c.deploy, fib) && VniFits(c.deploy, vni)
    ensures GoodPlan(c, h, vni, inPort, local,
              SwitchPlan(Br(c, h), c.deploy, fib, local, Domain(Br(c, h), vni), inPort, Reg0Of(c.deploy, vni), dst))
  {
    assert SideOk(c, h);
    var b, r := Br(c, h), Reg0Of(c.deploy, vni);
    if (r, dst) !in fib {
      FloodIsGood(c, h, local, vni, inPort);
    } else {
      var p := fib[(r, dst)];
      if p != inPort && p !in ExtPorts(b, c.deploy) {
        assert LocalEntry(b, c.deploy, (r, dst).0, p);
        var w :| w in b.vifs && w.ofp == p && Reg0Of(c.deploy, w.vni) == r;
        Reg0Injective(c.deploy, w.vni, vni);
      }
    }
  }

  lemma FloodIsGood(c: Config, h: Host, local: bool, vni: nat, inPort: nat)
    requires ConfigOk(c) && VniFits(c.deploy, vni)
    ensures GoodPlan(c, h, vni, inPort, local, Plan(Targets(Domain(Br(c, h), vni), inPort), local))
  {
    assert SideOk(c, h);
    var b := Br(c, h);
    IndexIsOk(b);
    DomainIs(b, c.deploy, vni);
    DomainDistinct(b, c.deploy, c.md, vni);
    TargetsDistinct(Domain(b, vni), inPort);
    forall q | q in Targets(Domain(b, vni), inPort) ensures Member(c, h, q, vni) && q != inPort {
      InTargets(Domain(b, vni), inPort, q);
    }
  }

  // ---- the invariants ----

  ghost predicate SentOk(c: Config, s: Sent) {
    s.vif in Br(c, s.host).vifs && s.vif.ofp != OFP_LOCAL
  }

  ghost predicate FlightOk(c: Config, sent: seq<Sent>, fl: Flight) {
    && fl.id < |sent|
    && fl.to == Other(sent[fl.id].host) && fl.hops == 1
    && fl.wire == WireFor(c.deploy, c.md, sent[fl.id].vif.vni, sent[fl.id].frame)
  }

  ghost predicate DeliveryOk(c: Config, sent: seq<Sent>, d: Delivery) {
    && d.id < |sent|
    && Member(c, d.host, d.port, sent[d.id].vif.vni)
    && !(d.host == sent[d.id].host && d.port == sent[d.id].vif.ofp)
    && d.frame == sent[d.id].frame
  }

  ghost predicate Isolated(c: Config, n: Net) {
    && FibOk(c.a.br, c.deploy, n.a.fib) && FibOk(c.b.br, c.deploy, n.b.fib)
    && (forall i :: 0 <= i < |n.sent| ==> SentOk(c, n.sent[i]))
    && (forall fl :: fl in n.wire ==> FlightOk(c, n.sent, fl))
    && (forall d :: d in n.log ==> DeliveryOk(c, n.sent, d))
  }

  ghost predicate DistinctIds(wire: seq<Flight>) {
    forall i, j :: 0 <= i < j < |wire| ==> wire[i].id != wire[j].id
  }

  ghost predicate NoRepeats(log: seq<Delivery>) {
    forall i, j :: 0 <= i < j < |log| ==>
      !(log[i].id == log[j].id && log[i].host == log[j].host && log[i].port == log[j].port)
  }

  ghost predicate Once(n: Net) {
    && DistinctIds(n.wire) && NoRepeats(n.log)
    && forall fl, d :: fl in n.wire && d in n.log && d.id == fl.id ==> d.host != fl.to
  }

  // What a host may do on behalf of frame id before it acts on it.
  ghost predicate Untouched(n: Net, h: Host, id: nat) {
    && (forall fl :: fl in n.wire ==> fl.id != id)
    && (forall d :: d in n.log && d.id == id ==> d.host != h)
  }

  lemma PlannedIsolated(c: Config, n: Net, n': Net, h: Host, id: nat, hops: nat, inPort: nat, local: bool, p: Plan)
    requires ConfigOk(c) && Isolated(c, n) && id < |n.sent|
    requires Planned(c, n, n', h, n.sent[id].vif.vni, n.sent[id].frame, id, hops, p)
    requires GoodPlan(c, h, n.sent[id].vif.vni, inPort, local, p)
    requires FibOk(Br(c, h), c.deploy, Sw(n', h).fib)
    requires local <==> h == n.sent[id].host
    requires local ==> hops == 0 && inPort == n.sent[id].vif.ofp
    ensures Isolated(c, n')
  {
    var s := n.sent[id];
    forall d | d in n'.log ensures DeliveryOk(c, n'.sent, d) {
      if d !in n.log {
        assert d.port in p.ports && d == Delivery(id, h, d.port, s.frame);
      }
    }
    forall fl | fl in n'.wire ensures FlightOk(c, n'.sent, fl) {
      if fl !in n.wire {
        assert p.toWire && fl == Flight(Other(h), WireFor(c.deploy, c.md, s.vif.vni, s.frame), id, 1);
      }
    }
  }

  lemma PlannedOnce(c: Config, n: Net, n': Net, h: Host, vni: nat, f: Frame, id: nat, hops: nat, p: Plan)
    requires Once(n) && Planned(c, n, n', h, vni, f, id, hops, p)
    requires Distinct(p.ports) && Untouched(n, h, id)
    requires p.toWire ==> forall d :: d in n.log ==> d.id != id
    ensures Once(n')
  {
    var more := seq(|p.ports|, i requires 0 <= i < |p.ports| => Delivery(id, h, p.ports[i], f));
    assert n'.log == n.log + more;
    forall i, j | 0 <= i < j < |n'.log|
      ensures !(n'.log[i].id == n'.log[j].id && n'.log[i].host == n'.log[j].host && n'.log[i].port == n'.log[j].port)
    {
      if i < |n.log| <= j {
        assert n'.log[i] in n.log && n'.log[j] == more[j - |n.log|];
      }
    }
    forall fl, d | fl in n'.wire && d in n'.log && d.id == fl.id ensures d.host != fl.to {
      if d !in n.log { assert d in more && d.host == h && d.id == id; }
    }
  }

  // ---- steps ----

  lemma SwitchedPlan(c: Config, n: Net, n': Net, h: Host, local: bool, vni: nat, inPort: nat, f: Frame, id: nat,
                     hops: nat)
    returns (p: Plan)
    requires ConfigOk(c) && FibOk(Br(c, h), c.deploy, Sw(n, h).fib) && VniFits(c.deploy, vni)
    requires Switched(c, n, n', h, local, vni, inPort, f, id, hops)
    requires inPort != OFP_LOCAL
    requires LocalEntry(Br(c, h), c.deploy, Reg0Of(c.deploy, vni), inPort)
          || ExtCarries(Br(c, h), c.deploy, inPort, Reg0Of(c.deploy, vni))
    ensures Planned(c, n, n', h, vni, f, id, hops, p) && GoodPlan(c, h, vni, inPort, local, p)
    ensures FibOk(Br(c, h), c.deploy, Sw(n', h).fib)
  {
    var b, r := Br(c, h), Reg0Of(c.deploy, vni);
    var fib' := Learnt(Sw(n, h).fib, r, f.src, inPort);
    var plan := SwitchPlan(b, c.deploy, fib', local, Domain(b, vni), inPort, r, f.dst);
    FibStays(b, c.deploy, Sw(n, h).fib, r, f.src, inPort);
    PlanIsGood(c, h, fib', local, vni, inPort, f.dst);
    p := if Planned(c, n, n', h, vni, f, id, hops, plan) && Sw(n', h).fib == fib' then plan else NOTHING;
  }

  lemma VifFits(c: Config, h: Host, w: VifView)
    requires ConfigOk(c) && w in Br(c, h).vifs
    ensures VniFits(c.deploy, w.vni)
  {
    assert SideOk(c, h);
  }

  lemma InjectKeeps(c: Config, n: Net, h: Host, w: VifView, f: Frame)
    requires ConfigOk(c) && Isolated(c, n) && Once(n)
    requires w in Br(c, h).vifs && w.ofp != OFP_LOCAL
    ensures var n' := Process(c, n.(sent := n.sent + [Sent(h, w, f)]), h, Fresh(w.ofp, f), |n.sent|, 0);
      Isolated(c, n') && Once(n')
  {
    var id := |n.sent|;
    var n1 := n.(sent := n.sent + [Sent(h, w, f)]);
    SentKeeps(c, n, Sent(h, w, f));
    var p := InjectPlan(c, n1, h, w, f, id);
    var n' := Process(c, n1, h, Fresh(w.ofp, f), id, 0);
    PlannedIsolated(c, n1, n', h, id, 0, w.ofp, true, p);
    PlannedOnce(c, n1, n', h, w.vni, f, id, 0, p);
  }

  lemma SentKeeps(c: Config, n: Net, s: Sent)
    requires Isolated(c, n) && Once(n) && SentOk(c, s)
    ensures var n1 := n.(sent := n.sent + [s]);
      && Isolated(c, n1) && Once(n1) && Untouched(n1, s.host, |n.sent|)
      && forall d :: d in n1.log ==> d.id != |n.sent|
  {
    var n1 := n.(sent := n.sent + [s]);
    forall d | d in n1.log ensures DeliveryOk(c, n1.sent, d) && d.id != |n.sent| {
      assert DeliveryOk(c, n.sent, d);
    }
    forall fl | fl in n1.wire ensures FlightOk(c, n1.sent, fl) && fl.id != |n.sent| {
      assert FlightOk(c, n.sent, fl);
    }
  }

  lemma InjectPlan(c: Config, n: Net, h: Host, w: VifView, f: Frame, id: nat) returns (p: Plan)
    requires ConfigOk(c) && FibOk(Br(c, h), c.deploy, Sw(n, h).fib)
    requires w in Br(c, h).vifs && w.ofp != OFP_LOCAL
    ensures var n' := Process(c, n, h, Fresh(w.ofp, f), id, 0);
      && Planned(c, n, n', h, w.vni, f, id, 0, p) && GoodPlan(c, h, w.vni, w.ofp, true, p)
      && FibOk(Br(c, h), c.deploy, Sw(n', h).fib)
  {
    VifFits(c, h, w);
    InjectSwitched(c, n, h, w, f, id);
    assert LocalEntry(Br(c, h), c.deploy, Reg0Of(c.deploy, w.vni), w.ofp);
    p := SwitchedPlan(c, n, Process(c, n, h, Fresh(w.ofp, f), id, 0), h, true, w.vni, w.ofp, f, id, 0);
  }

  lemma Removed(n: Net, i: nat)
    requires Once(n) && i < |n.wire|
    ensures var n1 := n.(wire := n.wire[..i] + n.wire[i + 1..]);
      && Once(n1) && Untouched(n1, n.wire[i].to, n.wire[i].id)
      && (forall fl :: fl in n1.wire ==> fl in n.wire)
      && (forall fl :: fl in n.wire ==> fl == n.wire[i] || fl in n1.wire)
  {
    RemovedFrom(n.wire, i);
  }

  lemma RemovedFrom(wire: seq<Flight>, i: nat)
    requires DistinctIds(wire) && i < |wire|
    ensures var rest := wire[..i] + wire[i + 1..];
      && DistinctIds(rest) && (forall fl :: fl in rest ==> fl in wire && fl.id != wire[i].id)
      && (forall fl :: fl in wire ==> fl == wire[i] || fl in rest)
  {
    var rest := wire[..i] + wire[i + 1..];
    assert forall j :: 0 <= j < |rest| ==> rest[j] == wire[if j < i then j else j + 1];
    forall x | x in wire ensures x == wire[i] || x in rest {
      var j :| 0 <= j < |wire| && wire[j] == x;
      if j < i { assert rest[j] == x; } else if j > i { assert rest[j - 1] == x; }
    }
  }

  lemma ReceiveKeeps(c: Config, n: Net, i: nat, k: Pkt)
    requires ConfigOk(c) && Isolated(c, n) && Once(n) && i < |n.wire|
    requires Arrive(Br(c, n.wire[i].to), c.deploy, Peer(c, n.wire[i].to), n.wire[i].wire) == Some(k)
    ensures var fl := n.wire[i];
      var n1 := n.(wire := n.wire[..i] + n.wire[i + 1..]);
      var n' := Process(c, n1, fl.to, k, fl.id, fl.hops);
      Isolated(c, n') && Once(n') && n'.wire == n1.wire && n'.sent == n.sent
  {
    var fl := n.wire[i];
    var n1 := n.(wire := n.wire[..i] + n.wire[i + 1..]);
    Removed(n, i);
    assert FlightOk(c, n.sent, fl);
    var s := n.sent[fl.id];
    var n' := Process(c, n1, fl.to, k, fl.id, fl.hops);
    assert SentOk(c, s);
    VifFits(c, s.host, s.vif);
    ReceiveSwitched(c, n1, fl.to, s.vif.vni, s.frame, fl.id, fl.hops, k);
    ArrivalCarries(c, fl.to, s.vif.vni, s.frame, k);
    assert SideOk(c, fl.to);
    var p := SwitchedPlan(c, n1, n', fl.to, false, s.vif.vni, k.inPort, s.frame, fl.id, fl.hops);
    PlannedIsolated(c, n1, n', fl.to, fl.id, fl.hops, k.inPort, false, p);
    PlannedOnce(c, n1, n', fl.to, s.vif.vni, s.frame, fl.id, fl.hops, p);
  }

  lemma StepKeeps(c: Config, n: Net, ev: Event)
    requires ConfigOk(c) && Isolated(c, n) && Once(n)
    ensures Isolated(c, Step(c, n, ev)) && Once(Step(c, n, ev))
  {
    match ev
    case Inject(h, i, f) =>
      if i < |Br(c, h).vifs| && Br(c, h).vifs[i].ofp != OFP_LOCAL { InjectKeeps(c, n, h, Br(c, h).vifs[i], f); }
    case Receive(i) =>
      if i < |n.wire| {
        Removed(n, i);
        var fl := n.wire[i];
        var a := Arrive(Br(c, fl.to), c.deploy, Peer(c, fl.to), fl.wire);
        if a.Some? { ReceiveKeeps(c, n, i, a.value); }
      }
  }

  lemma {:induction false} RunKeeps(c: Config, evs: seq<Event>)
    requires ConfigOk(c)
    ensures Isolated(c, Execute(c, evs)) && Once(Execute(c, evs))
  {
    if evs == [] {
    } else {
      RunKeeps(c, evs[..|evs| - 1]);
      StepKeeps(c, Execute(c, evs[..|evs| - 1]), evs[|evs| - 1]);
    }
  }

  // ---- the theorems ----

  // Tenant isolation: whatever is sent and learned, with whatever addresses, and whatever an
  // ACL of this kind lets through, a frame reaches only other interfaces of its sender's VNI, unchanged.
  lemma TenantIsolation(c: Config, evs: seq<Event>, n: Net, d: Delivery)
    requires ConfigOk(c) && Leads(c, evs, n) && d in n.log
    ensures d.id < |n.sent| && d.frame == n.sent[d.id].frame
    ensures exists w :: w in Br(c, d.host).vifs && w.ofp == d.port && w.vni == n.sent[d.id].vif.vni
    ensures !(d.host == n.sent[d.id].host && d.port == n.sent[d.id].vif.ofp)
  {
    LeadsIs(c, evs, n);
    RunKeeps(c, evs);
    assert DeliveryOk(c, n.sent, d);
  }

  // No forwarding loop: a frame is on the wire at most once, in one direction, and never again
  // after the other host has delivered it.
  lemma NoLoop(c: Config, evs: seq<Event>, n: Net, i: nat)
    requires ConfigOk(c) && Leads(c, evs, n) && i < |n.wire|
    ensures n.wire[i].hops == 1 && n.wire[i].id < |n.sent|
    ensures n.wire[i].to == Other(n.sent[n.wire[i].id].host)
    ensures forall j :: 0 <= j < |n.wire| && j != i ==> n.wire[j].id != n.wire[i].id
    ensures forall d :: d in n.log && d.id == n.wire[i].id ==> d.host != n.wire[i].to
  {
    LeadsIs(c, evs, n);
    RunKeeps(c, evs);
    assert FlightOk(c, n.sent, n.wire[i]);
  }

  // Every receive takes one frame off the wire and puts none on: a run with no further
  // sends empties the wire after as many receives as frames are on it.
  lemma ShrinksWire(c: Config, n: Net, i: nat)
    requires ConfigOk(c) && Isolated(c, n) && Once(n) && i < |n.wire|
    ensures var n' := Step(c, n, Receive(i));
      n'.wire == n.wire[..i] + n.wire[i + 1..] && n'.sent == n.sent
  {
    var fl := n.wire[i];
    var a := Arrive(Br(c, fl.to), c.deploy, Peer(c, fl.to), fl.wire);
    if a.Some? {
      ReceiveStep(c, n, i, a.value);
      ReceiveKeeps(c, n, i, a.value);
    } else {
      NoArrival(c, n, i);
    }
  }

  lemma NoArrival(c: Config, n: Net, i: nat)
    requires Programmed(c) && i < |n.wire|
    requires Arrive(Br(c, n.wire[i].to), c.deploy, Peer(c, n.wire[i].to), n.wire[i].wire) == None
    ensures Step(c, n, Receive(i)) == n.(wire := n.wire[..i] + n.wire[i + 1..])
  {
  }

  lemma ReceiveShrinksWire(c: Config, evs: seq<Event>, i: nat)
    requires ConfigOk(c) && i < |Execute(c, evs).wire|
    ensures var n := Execute(c, evs);
      var n' := Step(c, n, Receive(i));
      n'.wire == n.wire[..i] + n.wire[i + 1..] && n'.sent == n.sent
  {
    RunKeeps(c, evs);
    ShrinksWire(c, Execute(c, evs), i);
  }

  function Receives(k: nat): seq<Event> {
    seq(k, i => Receive(0))
  }

  lemma Regroup(evs: seq<Event>, more: seq<Event>)
    requires more != []
    ensures evs + more == evs + [more[0]] + more[1..]
  {
  }

  lemma ExecuteLast(c: Config, evs: seq<Event>, ev: Event)
    requires Programmed(c)
    ensures Execute(c, evs + [ev]) == Step(c, Execute(c, evs), ev)
  {
    assert (evs + [ev])[..|evs + [ev]| - 1] == evs;
  }

  lemma WireDrains(c: Config, evs: seq<Event>, n: Net, k: nat, n': Net)
    requires ConfigOk(c) && Leads(c, evs, n) && k <= |n.wire| && Leads(c, evs + Receives(k), n')
    ensures n'.wire == n.wire[k..]
  {
    LeadsIs(c, evs, n);
    LeadsIs(c, evs + Receives(k), n');
    Drains(c, evs, k);
  }

  lemma {:induction false} Drains(c: Config, evs: seq<Event>, k: nat)
    requires ConfigOk(c) && k <= |Execute(c, evs).wire|
    ensures Execute(c, evs + Receives(k)).wire == Execute(c, evs).wire[k..]
  {
    if k == 0 {
      assert evs + Receives(0) == evs;
    } else {
      var before := evs + Receives(k - 1);
      Drains(c, evs, k - 1);
      ReceiveShrinksWire(c, before, 0);
      OneMoreReceive(evs, k);
      ExecuteLast(c, before, Receive(0));
      OneLess(Execute(c, evs).wire, k);
    }
  }

  lemma OneMoreReceive(evs: seq<Event>, k: nat)
    requires k > 0
    ensures evs + Receives(k) == evs + Receives(k - 1) + [Receive(0)]
  {
  }

  lemma OneLess(wire: seq<Flight>, k: nat)
    requires 0 < k <= |wire|
    ensures wire[k - 1..][..0] + wire[k - 1..][1..] == wire[k..]
  {
  }

  // No duplication: an interface receives a given frame at most once.
  lemma DeliveredAtMostOnce(c: Config, evs: seq<Event>, n: Net, i: nat, j: nat)
    requires ConfigOk(c) && Leads(c, evs, n) && i < j < |n.log|
    ensures !(n.log[i].id == n.log[j].id && n.log[i].host == n.log[j].host && n.log[i].port == n.log[j].port)
  {
    LeadsIs(c, evs, n);
    RunKeeps(c, evs);
  }
}
