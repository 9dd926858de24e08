/** The life of tunnel ports: which port numbers are free, which are in use,
    over any sequence of deployments and removals. */
module TunnelIds {
  import opened Seqs
  import opened Constants
  import opened OpenFlow
  import opened Ports
  import opened Vswitch

  datatype Tunnels = Tunnels(ids: seq<nat>, ports: seq<TunnelPort>)

  datatype Spec = Spec(rip: Rip, key: TunnelKey)

  // ---- creating ----

  // Creates the ports in order; allocation fails, and stops the creation, when no number is free.
  function CreateAll(s: Tunnels, want: seq<Spec>): (Tunnels, bool)
    decreases |want|
  {
    if want == [] then (s, true)
    else if s.ids == [] then (s, false)
    else CreateAll(Tunnels(s.ids[1..], s.ports + [TunnelPort(want[0].rip, want[0].key, s.ids[0])]), want[1..])
  }

  function PerVni(rip: Rip, vnis: seq<nat>): seq<Spec> {
    seq(|vnis|, i requires 0 <= i < |vnis| => Spec(rip, FixedKey(vnis[i])))
  }

  function PerPeer(vniFlow: bool, vnis: seq<nat>): Ip -> seq<Spec> {
    (ip: Ip) => if vniFlow then [Spec(FixedRip(ip), FlowKey)] else PerVni(FixedRip(ip), vnis)
  }

  // The ports of one deployment: per remote address unless flows set it, per VNI unless flows set it.
  function Wanted(vnis: seq<nat>, peers: seq<Ip>, ripFlow: bool, vniFlow: bool): seq<Spec> {
    if !ripFlow then FlatMap(peers, PerPeer(vniFlow, vnis))
    else if !vniFlow then PerVni(FlowRip, vnis)
    else [Spec(FlowRip, FlowKey)]
  }

  // Which port is wanted where: peer by peer and within a peer VNI by VNI, peer by peer, VNI by VNI,
  // or a single one.
  lemma WantedAt(vnis: seq<nat>, peers: seq<Ip>, ripFlow: bool, vniFlow: bool, p: nat, v: nat)
    requires p < |peers| && v < |vnis|
    ensures var want := Wanted(vnis, peers, ripFlow, vniFlow);
      if ripFlow && vniFlow then want == [Spec(FlowRip, FlowKey)]
      else if ripFlow then |want| == |vnis| && want[v] == Spec(FlowRip, FixedKey(vnis[v]))
      else if vniFlow then |want| == |peers| && want[p] == Spec(FixedRip(peers[p]), FlowKey)
      else |want| == |peers| * |vnis| && p * |vnis| + v < |want|
           && want[p * |vnis| + v] == Spec(FixedRip(peers[p]), FixedKey(vnis[v]))
  {
    if !ripFlow && vniFlow { OnePerPeer(vnis, peers); }
    if !ripFlow && !vniFlow {
      AllPerPeer(vnis, peers);
      PerPeerAt(vnis, peers, p, v);
    }
  }

  lemma {:induction false} OnePerPeer(vnis: seq<nat>, peers: seq<Ip>)
    ensures var want := FlatMap(peers, PerPeer(true, vnis));
      |want| == |peers| && forall p :: 0 <= p < |peers| ==> want[p] == Spec(FixedRip(peers[p]), FlowKey)
  {
    if peers == [] {
    } else {
      OnePerPeer(vnis, peers[..|peers| - 1]);
    }
  }

  lemma {:induction false} AllPerPeer(vnis: seq<nat>, peers: seq<Ip>)
    ensures |FlatMap(peers, PerPeer(false, vnis))| == |peers| * |vnis|
  {
    if peers == [] {
    } else {
      AllPerPeer(vnis, peers[..|peers| - 1]);
      assert |peers| * |vnis| == (|peers| - 1) * |vnis| + |vnis|;
    }
  }

  lemma {:induction false} PerPeerAt(vnis: seq<nat>, peers: seq<Ip>, p: nat, v: nat)
    requires p < |peers| && v < |vnis|
    ensures var want := FlatMap(peers, PerPeer(false, vnis));
      p * |vnis| + v < |want| && want[p * |vnis| + v] == Spec(FixedRip(peers[p]), FixedKey(vnis[v]))
  {
    var n := |peers| - 1;
    AllPerPeer(vnis, peers[..n]);
    if p == n {
      assert FlatMap(peers, PerPeer(false, vnis))
          == FlatMap(peers[..n], PerPeer(false, vnis)) + PerVni(FixedRip(peers[n]), vnis);
    } else {
      PerPeerAt(vnis, peers[..n], p, v);
    }
  }

  // ---- deleting ----

  function Delete(s: Tunnels, t: TunnelPort): Tunnels {
    Tunnels(s.ids + [t.ofp], RemoveFirst(s.ports, t))
  }

  lemma {:induction false} RemoveFirstAt(ports: seq<TunnelPort>, i: nat)
    requires i < |ports| && Distinct(TnlOfps(ports))
    ensures RemoveFirst(ports, ports[i]) == ports[..i] + ports[i + 1..]
  {
    if i == 0 {
    } else {
      assert TnlOfps(ports)[0] != TnlOfps(ports)[i];
      assert TnlOfps(ports[1..]) == TnlOfps(ports)[1..];
      RemoveFirstAt(ports[1..], i - 1);
      assert ports[1..][i - 1] == ports[i];
    }
  }

  // The removal loop walks the list it removes from: after a removal the next port has moved
  // into the place just visited and is skipped.
  function DeleteFrom(s: Tunnels, i: nat): Tunnels
    decreases |s.ports| - i
  {
    if i >= |s.ports| then s
    else
      RemoveFirstShorter(s.ports, s.ports[i]);
      DeleteFrom(Delete(s, s.ports[i]), i + 1)
  }

  function DeletePass(s: Tunnels): Tunnels {
    DeleteFrom(s, 0)
  }

  function Odds<T>(xs: seq<T>): seq<T> {
    if |xs| < 2 then [] else [xs[1]] + Odds(xs[2..])
  }

  lemma {:induction false} DeleteFromLeaves(s: Tunnels, i: nat)
    requires i <= |s.ports| && Distinct(TnlOfps(s.ports))
    ensures DeleteFrom(s, i).ports == s.ports[..i] + Odds(s.ports[i..])
    decreases |s.ports| - i
  {
    if i >= |s.ports| {
    } else {
      var t := s.ports[i];
      RemoveFirstAt(s.ports, i);
      var rest := s.ports[..i] + s.ports[i + 1..];
      DistinctCut(s.ports, i);
      if i + 1 <= |rest| {
        DeleteFromLeaves(Delete(s, t), i + 1);
        SkipsOne(s.ports, i);
      } else {
        assert rest == s.ports[..i];
      }
    }
  }

  lemma SkipsOne<T>(xs: seq<T>, i: nat)
    requires i + 1 < |xs|
    ensures var rest := xs[..i] + xs[i + 1..]; rest[..i + 1] + Odds(rest[i + 1..]) == xs[..i] + Odds(xs[i..])
  {
    var rest := xs[..i] + xs[i + 1..];
    CutParts(xs, i);
    assert Odds(xs[i..]) == [xs[i + 1]] + Odds(xs[i + 2..]);
    assert xs[..i] + [xs[i + 1]] + Odds(xs[i + 2..]) == xs[..i] + ([xs[i + 1]] + Odds(xs[i + 2..]));
  }

  lemma CutParts<T>(xs: seq<T>, i: nat)
    requires i + 1 < |xs|
    ensures var rest := xs[..i] + xs[i + 1..]; rest[..i + 1] == xs[..i] + [xs[i + 1]] && rest[i + 1..] == xs[i + 2..]
    ensures |xs[i..]| >= 2 && xs[i..][1] == xs[i + 1] && xs[i..][2..] == xs[i + 2..]
  {
  }

  lemma DistinctCut(ports: seq<TunnelPort>, i: nat)
    requires i < |ports| && Distinct(TnlOfps(ports))
    ensures Distinct(TnlOfps(ports[..i] + ports[i + 1..]))
  {
    var rest := ports[..i] + ports[i + 1..];
    forall x, y | 0 <= x < y < |rest| ensures TnlOfps(rest)[x] != TnlOfps(rest)[y] {
      assert TnlOfps(ports)[if x < i then x else x + 1] != TnlOfps(ports)[if y < i then y else y + 1];
    }
  }

  lemma {:induction false} OddsLength<T>(xs: seq<T>)
    ensures |Odds(xs)| == |xs| / 2
  {
    if |xs| < 2 {
    } else {
      OddsLength(xs[2..]);
    }
  }

  // ---- conservation ----

  function AllIds(): seq<nat> {
    IdRange(OFP_TUNNEL_BASE, OFP_TUNNEL_BASE + 100)
  }

  // Every port number is either free or in use, once.
  ghost predicate Conserved(s: Tunnels) {
    multiset(s.ids) + multiset(TnlOfps(s.ports)) == multiset(AllIds())
  }

  lemma {:induction false} CreateAllConserves(s: Tunnels, want: seq<Spec>)
    requires Conserved(s)
    ensures Conserved(CreateAll(s, want).0)
    decreases |want|
  {
    if want == [] || s.ids == [] {
    } else {
      var t := TunnelPort(want[0].rip, want[0].key, s.ids[0]);
      assert s.ids == [s.ids[0]] + s.ids[1..];
      assert TnlOfps(s.ports + [t]) == TnlOfps(s.ports) + [s.ids[0]];
      CreateAllConserves(Tunnels(s.ids[1..], s.ports + [t]), want[1..]);
    }
  }

  lemma {:induction false} RemoveFirstOfps(ports: seq<TunnelPort>, t: TunnelPort)
    requires t in ports
    ensures multiset(TnlOfps(RemoveFirst(ports, t))) + multiset{t.ofp} == multiset(TnlOfps(ports))
  {
    assert TnlOfps(ports) == [ports[0].ofp] + TnlOfps(ports[1..]);
    if ports[0] == t {
    } else {
      RemoveFirstOfps(ports[1..], t);
      assert TnlOfps([ports[0]] + RemoveFirst(ports[1..], t)) == [ports[0].ofp] + TnlOfps(RemoveFirst(ports[1..], t));
    }
  }

  lemma {:induction false} DeleteFromConserves(s: Tunnels, i: nat)
    requires Conserved(s)
    ensures Conserved(DeleteFrom(s, i))
    decreases |s.ports| - i
  {
    if i >= |s.ports| {
    } else {
      RemoveFirstOfps(s.ports, s.ports[i]);
      RemoveFirstShorter(s.ports, s.ports[i]);
      DeleteFromConserves(Delete(s, s.ports[i]), i + 1);
    }
  }

  // ---- runs ----

  datatype Op = CreateOp(vnis: seq<nat>, peers: seq<Ip>, ripFlow: bool, vniFlow: bool) | DeleteOp

  const FRESH := Tunnels(AllIds(), [])

  function Apply(s: Tunnels, op: Op): Tunnels {
    match op
    case CreateOp(vnis, peers, ripFlow, vniFlow) => CreateAll(s, Wanted(vnis, peers, ripFlow, vniFlow)).0
    case DeleteOp => DeletePass(s)
  }

  function ApplyAll(ops: seq<Op>): Tunnels {
    if ops == [] then FRESH else Apply(ApplyAll(ops[..|ops| - 1]), ops[|ops| - 1])
  }

  lemma {:induction false} RunConserves(ops: seq<Op>)
    ensures Conserved(ApplyAll(ops))
  {
    if ops == [] {
      assert TnlOfps([]) == [];
    } else {
      var s := ApplyAll(ops[..|ops| - 1]);
      RunConserves(ops[..|ops| - 1]);
      match ops[|ops| - 1]
      case CreateOp(vnis, peers, ripFlow, vniFlow) => CreateAllConserves(s, Wanted(vnis, peers, ripFlow, vniFlow));
      case DeleteOp => DeleteFromConserves(s, 0);
    }
  }

  lemma {:induction false} RangeCount(lo: nat, hi: nat, x: nat)
    requires lo <= hi + 1
    ensures multiset(IdRange(lo, hi))[x] == if lo <= x <= hi then 1 else 0
    decreases hi + 1 - lo
  {
    if lo > hi {
    } else {
      RangeCount(lo + 1, hi, x);
      assert IdRange(lo, hi) == [lo] + IdRange(lo + 1, hi);
    }
  }

  lemma SeqRepeats<T>(xs: seq<T>, i: nat, j: nat)
    requires i < j < |xs| && xs[i] == xs[j]
    ensures multiset(xs)[xs[i]] >= 2
  {
    assert xs == xs[..j] + [xs[j]] + xs[j + 1..];
    assert xs[..j][i] == xs[i];
    assert xs[i] in multiset(xs[..j]);
  }

  // Over any run of deployments and removals: the port numbers in use are distinct and between
  // 100 and 200, every other number is free, and a further port can be created unless all 101 are in use.
  lemma TunnelIdConservation(ops: seq<Op>)
    ensures var s := ApplyAll(ops);
      && multiset(s.ids) + multiset(TnlOfps(s.ports)) == multiset(AllIds())
      && Distinct(TnlOfps(s.ports))
      && (forall t :: t in s.ports ==> OFP_TUNNEL_BASE <= t.ofp <= OFP_TUNNEL_BASE + 100 && t.ofp !in s.ids)
      && (s.ids == [] <==> |s.ports| == 101)
  {
    var s := ApplyAll(ops);
    RunConserves(ops);
    assert |multiset(s.ids)| + |multiset(TnlOfps(s.ports))| == |multiset(AllIds())|;
    forall x ensures multiset(s.ids)[x] + multiset(TnlOfps(s.ports))[x] <= 1 {
      RangeCount(OFP_TUNNEL_BASE, OFP_TUNNEL_BASE + 100, x);
    }
    forall i, j | 0 <= i < j < |s.ports| ensures TnlOfps(s.ports)[i] != TnlOfps(s.ports)[j] {
      if TnlOfps(s.ports)[i] == TnlOfps(s.ports)[j] { SeqRepeats(TnlOfps(s.ports), i, j); }
    }
    forall t | t in s.ports ensures OFP_TUNNEL_BASE <= t.ofp <= OFP_TUNNEL_BASE + 100 && t.ofp !in s.ids {
      var i :| 0 <= i < |s.ports| && s.ports[i] == t;
      assert t.ofp == TnlOfps(s.ports)[i] && t.ofp in multiset(TnlOfps(s.ports));
      RangeCount(OFP_TUNNEL_BASE, OFP_TUNNEL_BASE + 100, t.ofp);
      assert t.ofp !in multiset(s.ids);
    }
  }

  // Removal is incomplete: of n ports n / 2 stay behind, namely every second one.
  lemma UndeployLeavesHalf(ops: seq<Op>)
    ensures var s := ApplyAll(ops);
      && DeletePass(s).ports == Odds(s.ports) && |DeletePass(s).ports| == |s.ports| / 2
      && (DeletePass(s).ports == [] <==> |s.ports| <= 1)
  {
    TunnelIdConservation(ops);
    DeleteFromLeaves(ApplyAll(ops), 0);
    OddsLength(ApplyAll(ops).ports);
    assert ApplyAll(ops).ports[0..] == ApplyAll(ops).ports;
  }

  // ---- what a clean deployment leaves ----

  lemma {:induction false} CreateAllPorts(s: Tunnels, want: seq<Spec>)
    requires CreateAll(s, want).1
    ensures |want| <= |s.ids|
    ensures CreateAll(s, want).0.ports == s.ports +
              seq(|want|, i requires 0 <= i < |want| <= |s.ids| => TunnelPort(want[i].rip, want[i].key, s.ids[i]))
    decreases |want|
  {
    if want == [] {
    } else {
      var t := TunnelPort(want[0].rip, want[0].key, s.ids[0]);
      CreateAllPorts(Tunnels(s.ids[1..], s.ports + [t]), want[1..]);
    }
  }

  lemma {:induction false} CreateAllFails(s: Tunnels, want: seq<Spec>)
    ensures CreateAll(s, want).1 <==> |want| <= |s.ids|
    decreases |want|
  {
    if want == [] || s.ids == [] {
    } else {
      var t := TunnelPort(want[0].rip, want[0].key, s.ids[0]);
      CreateAllFails(Tunnels(s.ids[1..], s.ports + [t]), want[1..]);
    }
  }
}
