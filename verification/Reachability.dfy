/** What the oracle's lists are worth: they sort every other interface of the subnet exactly once,
    and the deployed network delivers exactly where they say. */
module Reachability {
  import opened Wrappers
  import opened Seqs
  import opened Constants
  import opened OpenFlow
  import opened Ports
  import opened FlowTableProps
  import opened Network
  import opened Isolation
  import opened Honesty
  import opened Delivery
  import opened Vswitch
  import opened Pal
  import Conntrack

  // ---- each interface once ----

  function Times(xs: seq<EndPoint>, e: EndPoint): nat {
    multiset(xs)[e]
  }

  lemma {:induction false} FilterTimes(xs: seq<EndPoint>, p: EndPoint -> bool, e: EndPoint)
    ensures Times(Filter(xs, p), e) == if p(e) then Times(xs, e) else 0
  {
    if xs == [] {
    } else {
      var n := |xs| - 1;
      FilterTimes(xs[..n], p, e);
      assert xs == xs[..n] + [xs[n]];
    }
  }

  lemma {:induction false} DistinctTimes(xs: seq<EndPoint>, e: EndPoint)
    requires Distinct(xs)
    ensures Times(xs, e) == Count(e in xs)
  {
    if xs == [] {
    } else {
      var n := |xs| - 1;
      assert xs == xs[..n] + [xs[n]];
      DistinctTimes(xs[..n], e);
    }
  }

  function ListOf(v: Vte, loc: Locality): seq<EndPoint> {
    match loc
    case Numa => v.numa
    case XNuma => v.xnuma
    case XHost => v.xhost
  }

  // How often an interface is listed under a locality, over all entries.
  function TimesListed(list: seq<Vte>, loc: Locality, e: EndPoint): nat {
    if list == [] then 0 else TimesListed(list[..|list| - 1], loc, e) + Times(ListOf(list[|list| - 1], loc), e)
  }

  lemma EntriesTimes(facts: map<Vif, Fact>, eps: seq<EndPoint>, sep: EndPoint, allowed: bool, loc: Locality,
                     e: EndPoint)
    ensures TimesListed(EntriesFor(facts, eps, sep, allowed), loc, e) ==
              if Matching(facts, sep, allowed, loc)(e) then Times(eps, e) else 0
  {
    var v := EntryFor(facts, eps, sep, allowed);
    FilterTimes(eps, Matching(facts, sep, allowed, loc), e);
    var list := EntriesFor(facts, eps, sep, allowed);
    if list != [] { assert list[..0] == []; }
  }

  // Both interfaces are known, and on one subnet.
  predicate OneSubnet(facts: map<Vif, Fact>, sep: EndPoint, e: EndPoint) {
    e.vif in facts && sep.vif in facts && facts[e.vif].net == facts[sep.vif].net
  }

  // Where an interface is as seen from the source.
  predicate IsAt(loc: Locality, sep: EndPoint, e: EndPoint) {
    match loc
    case Numa => e.host == sep.host && e.numa == sep.numa
    case XNuma => e.host == sep.host && e.numa != sep.numa
    case XHost => e.host != sep.host
  }

  // The oracle lists every interface once, under its verdict and its locality: allowed when it is
  // on the source's VNI, denied otherwise; the source and other subnets are not listed at all.
  lemma OracleSortsOnce(facts: map<Vif, Fact>, eps: seq<EndPoint>, sep: EndPoint, e: EndPoint, loc: Locality)
    requires Distinct(eps)
    ensures var r := Oracle(facts, eps, sep);
      var listed := e in eps && e != sep && OneSubnet(facts, sep, e) && IsAt(loc, sep, e);
      && TimesListed(r.allow, loc, e) == Count(listed && facts[e.vif].vni == facts[sep.vif].vni)
      && TimesListed(r.deny, loc, e) == Count(listed && facts[e.vif].vni != facts[sep.vif].vni)
  {
    EntriesTimes(facts, eps, sep, true, loc, e);
    EntriesTimes(facts, eps, sep, false, loc, e);
    DistinctTimes(eps, e);
  }

  // ---- the reversed pairs of an originate-only check ----

  function Flipped(sep: EndPoint, loc: Locality): EndPoint -> seq<Vte> {
    (dep: EndPoint) =>
      [match loc
       case Numa => Vte(dep, [sep], [], [])
       case XNuma => Vte(dep, [], [sep], [])
       case XHost => Vte(dep, [], [], [sep])]
  }

  function FlippedAll(v: Vte): seq<Vte> {
    FlatMap(v.numa, Flipped(v.sep, Numa)) + FlatMap(v.xnuma, Flipped(v.sep, XNuma))
      + FlatMap(v.xhost, Flipped(v.sep, XHost))
  }

  method FlipDeps(deps: seq<EndPoint>, sep: EndPoint, loc: Locality) returns (list: seq<Entry>)
    ensures fresh(list) && EntryViews(list) == FlatMap(deps, Flipped(sep, loc))
  {
    list := [];
    var i := 0;
    while i < |deps|
      invariant i <= |deps| && fresh(list) && EntryViews(list) == FlatMap(deps[..i], Flipped(sep, loc))
    {
      FlatMapStep(deps, i, Flipped(sep, loc));
      ghost var was := EntryViews(list);
      var vte := new Entry(deps[i]);
      match loc {
        case Numa => vte.depNuma := vte.depNuma + [sep];
        case XNuma => vte.depXnuma := vte.depXnuma + [sep];
        case XHost => vte.depXhost := vte.depXhost + [sep];
      }
      assert [] + [sep] == [sep];
      assert [vte.View()] == Flipped(sep, loc)(deps[i]);
      list := list + [vte];
      assert EntryViews(list) == was + [vte.View()];
      i := i + 1;
    }
    assert deps[..i] == deps;
  }

  // Keeps the first allowed entry and denies every destination of it the way back.
  method AllowOriginate(vt: VerifyTopology) returns (r: Result<(EndPoint, VerifyTopology), PalError>)
    ensures r.Failure? <==> vt.allow == []
    ensures r.Success? ==>
              && fresh(r.value.1) && r.value.0 == vt.allow[0].sep
              && r.value.1.allow == [vt.allow[0]] && EntryViews(r.value.1.deny) == FlippedAll(vt.allow[0].View())
  {
    if vt.allow == [] { return Failure(RuntimeError); }
    var vte := vt.allow[0];
    var numa := FlipDeps(vte.depNuma, vte.sep, Numa);
    var xnuma := FlipDeps(vte.depXnuma, vte.sep, XNuma);
    var xhost := FlipDeps(vte.depXhost, vte.sep, XHost);
    var newVt := new VerifyTopology();
    newVt.allow := newVt.allow + [vte];
    newVt.deny := numa + xnuma + xhost;
    ViewsConcat(numa, xnuma);
    ViewsConcat(numa + xnuma, xhost);
    return Success((vte.sep, newVt));
  }

  lemma ViewsConcat(a: seq<Entry>, b: seq<Entry>)
    ensures EntryViews(a + b) == EntryViews(a) + EntryViews(b)
  {
  }

  // The whole set-up of an originate-only check on the source's host: the first allowed entry's
  // source is the endpoint that may only originate.
  method AclSetupAllowOriginate(vt: VerifyTopology, br: Bridge, proto: Proto)
    returns (r: Result<(EndPoint, VerifyTopology), PalError>)
    requires vt.allow != [] ==> vt.allow[0].sep.vif.mac.Some?
    modifies br`flows
    ensures r.Failure? <==> old(vt.allow) == []
    ensures r.Failure? ==> br.flows == old(br.flows)
    ensures r.Success? ==>
              && r.value.0 == old(vt.allow[0].sep) && r.value.1.allow == [old(vt.allow)[0]]
              && EntryViews(r.value.1.deny) == FlippedAll(old(vt.allow[0].View()))
              && br.flows == old(br.flows) + Conntrack.OriginateOnly(r.value.0.vif.mac.value, proto)
  {
    r := AllowOriginate(vt);
    if r.Success? { Conntrack.DropInbound(br, r.value.0.vif.mac.value, proto); }
  }

  ghost predicate Pairs(list: seq<Vte>, loc: Locality, s: EndPoint, d: EndPoint) {
    exists v :: v in list && v.sep == s && d in ListOf(v, loc)
  }

  lemma FlippedPairs(deps: seq<EndPoint>, sep: EndPoint, loc: Locality, l: Locality, s: EndPoint, d: EndPoint)
    ensures Pairs(FlatMap(deps, Flipped(sep, loc)), l, s, d) <==> l == loc && s in deps && d == sep
  {
    var gen := Flipped(sep, loc);
    if Pairs(FlatMap(deps, gen), l, s, d) {
      var v: Vte :| v in FlatMap(deps, gen) && v.sep == s && d in ListOf(v, l);
      InFlatMap(deps, gen, v);
    }
    if l == loc && s in deps && d == sep {
      var i :| 0 <= i < |deps| && deps[i] == s;
      InFlatMap(deps, gen, gen(s)[0]);
      assert gen(s)[0] in gen(deps[i]);
    }
  }

  // The denied pairs are exactly the allowed ones turned around, at the same locality.
  lemma OriginateFlips(v: Vte, loc: Locality, s: EndPoint, d: EndPoint)
    ensures Pairs(FlippedAll(v), loc, s, d) <==> Pairs([v], loc, d, s)
  {
    FlippedPairs(v.numa, v.sep, Numa, loc, s, d);
    FlippedPairs(v.xnuma, v.sep, XNuma, loc, s, d);
    FlippedPairs(v.xhost, v.sep, XHost, loc, s, d);
    var a := FlatMap(v.numa, Flipped(v.sep, Numa));
    var b := FlatMap(v.xnuma, Flipped(v.sep, XNuma));
    var c := FlatMap(v.xhost, Flipped(v.sep, XHost));
    PairsConcat(a, b, loc, s, d);
    PairsConcat(a + b, c, loc, s, d);
    assert v in [v];
  }

  lemma PairsConcat(a: seq<Vte>, b: seq<Vte>, loc: Locality, s: EndPoint, d: EndPoint)
    ensures Pairs(a + b, loc, s, d) <==> Pairs(a, loc, s, d) || Pairs(b, loc, s, d)
  {
  }

  // ---- agreement with the network ----

  function HostOf(h: nat): Host {
    if h == 0 then HostA else HostB
  }

  function ViewOf(facts: map<Vif, Fact>, e: EndPoint): VifView
    requires e.vif in facts
  {
    VifView(e.vif.ofp, facts[e.vif].vni, e.vif.mac)
  }

  // The interfaces are attached to the bridges of two hosts, on ports of their own.
  ghost predicate Attached(c: Config, facts: map<Vif, Fact>, eps: seq<EndPoint>) {
    && (forall e :: e in eps ==>
         && e.host < 2 && e.vif in facts && e.vif.mac.Some?
         && e.vif.ofp != OFP_LOCAL && ViewOf(facts, e) in Br(c, HostOf(e.host)).vifs)
    && (forall e, e' :: e in eps && e' in eps && e.host == e'.host && e.vif.ofp == e'.vif.ofp ==> e == e')
  }

  // Frame id was sent by the source.
  ghost predicate SentBy(n: Net, id: nat, sep: EndPoint) {
    id < |n.sent| && n.sent[id].host == HostOf(sep.host) && n.sent[id].vif.ofp == sep.vif.ofp
  }

  lemma SenderIs(c: Config, evs: seq<Event>, n: Net, facts: map<Vif, Fact>, eps: seq<EndPoint>, id: nat, sep: EndPoint)
    requires ConfigOk(c) && Leads(c, evs, n) && Attached(c, facts, eps) && sep in eps && SentBy(n, id, sep)
    ensures n.sent[id].vif == ViewOf(facts, sep)
  {
    LeadsIs(c, evs, n);
    RunKeeps(c, evs);
    var s := n.sent[id];
    assert SentOk(c, s) && SideOk(c, s.host);
    VifByOfp(Br(c, s.host), c.deploy, s.vif, ViewOf(facts, sep));
  }

  // A pair is listed exactly when its interface is another one of the source's subnet, at that
  // locality: as allowed on the source's VNI, as denied on another.
  lemma InOracle(facts: map<Vif, Fact>, eps: seq<EndPoint>, sep: EndPoint, e: EndPoint, loc: Locality, allowed: bool)
    ensures var r := Oracle(facts, eps, sep);
      Pairs(if allowed then r.allow else r.deny, loc, sep, e) <==>
        && e in eps && e != sep && OneSubnet(facts, sep, e) && IsAt(loc, sep, e)
        && (facts[e.vif].vni == facts[sep.vif].vni) == allowed
  {
    var v := EntryFor(facts, eps, sep, allowed);
    InFilter(eps, Matching(facts, sep, allowed, loc), e);
    assert ListOf(v, loc) == Filter(eps, Matching(facts, sep, allowed, loc));
    if e in ListOf(v, loc) { assert e in FullDeps(v); }
    if FullDeps(v) != [] { assert v in EntriesFor(facts, eps, sep, allowed); }
  }

  // Interfaces with addresses on one IPv4 network.
  predicate ShareNet(v: Vif, w: Vif)
    reads v, w
  {
    v.ifAddr.Some? && w.ifAddr.Some? && v.ifAddr.value.ipv4Net == w.ifAddr.value.ipv4Net
  }

  // A guest's place as seen from the source is of the asked locality.
  predicate InScope(tc: Criteria, sep: EndPoint, h: nat, numa: nat) {
    match tc.loc
    case None => true
    case Some(Numa) => h == sep.host && numa == sep.numa
    case Some(XNuma) => h == sep.host && numa != sep.numa
    case Some(XHost) => h != sep.host
  }

  // When there is no source: no host, no guest on the first one, a source asked for by the place of a
  // card, or no interface on the first guest, in this order.
  lemma NoSource(suts: seq<seq<Guest>>, tc: Criteria)
    ensures SourceOf(suts, tc).Failure? ==>
              SourceOf(suts, tc).error ==
                if |suts| == 0 then IndexError
                else if |suts[0]| == 0 then RuntimeError
                else if tc.sepNic == Some(Numa) || tc.sepNic == Some(XNuma) then AttributeError
                else IndexError
    ensures SourceOf(suts, tc).Failure? <==>
              || |suts| == 0 || |suts[0]| == 0 || |suts[0][0].vifs| == 0
              || tc.sepNic == Some(Numa) || tc.sepNic == Some(XNuma)
  {
  }

  // A guest of the asked locality has to be compared with the place of a card, which no host has.
  ghost predicate NeedsCard(suts: seq<seq<Guest>>, tc: Criteria, sep: EndPoint) {
    && (tc.depNic == Some(Numa) || tc.depNic == Some(XNuma))
    && exists h, g :: 0 <= h < |suts| && 0 <= g < |suts[h]| && InScope(tc, sep, h, suts[h][g].numa)
  }

  // An interface of the asked locality has to be compared with the source, and one has no address.
  ghost predicate LacksAddress(suts: seq<seq<Guest>>, tc: Criteria, sep: EndPoint, e: EndPoint)
    reads e.vif, sep.vif
  {
    && e in All(suts) && InScope(tc, sep, e.host, e.numa) && e != sep
    && (e.vif.ifAddr == None || sep.vif.ifAddr == None)
  }

  // The search fails exactly for one of these two reasons.
  lemma SearchFailsIff(suts: seq<seq<Guest>>, tc: Criteria, sep: EndPoint)
    requires sep in All(suts)
    ensures SearchFails(tc, Facts(All(suts)), sep, suts) <==>
              NeedsCard(suts, tc, sep) || exists e :: LacksAddress(suts, tc, sep, e)
  {
    if SearchFails(tc, Facts(All(suts)), sep, suts) { FailsFor(suts, tc, sep); }
    if NeedsCard(suts, tc, sep) { CardFails(suts, tc, sep); }
    if e :| LacksAddress(suts, tc, sep, e) { AddressFails(suts, tc, sep, e); }
  }

  lemma FailsFor(suts: seq<seq<Guest>>, tc: Criteria, sep: EndPoint)
    requires sep in All(suts) && SearchFails(tc, Facts(All(suts)), sep, suts)
    ensures NeedsCard(suts, tc, sep) || exists e :: LacksAddress(suts, tc, sep, e)
  {
    var facts := Facts(All(suts));
    var h :| 0 <= h < |suts| && HostFails(tc, facts, sep, h, suts[h]);
    var g :| 0 <= g < |suts[h]| && GuestFails(tc, facts, sep, h, g, suts[h][g]);
    ScopeIs(tc, sep, h, suts[h][g].numa);
    if !AsksNode(tc.depNic) {
      var e :| e in GuestEps(h, g, suts[h][g]) && e != sep && !Comparable(facts, sep, e);
      var i :| 0 <= i < |suts[h][g].vifs| && GuestEps(h, g, suts[h][g])[i] == e;
      InAll(suts, h, g, i);
      assert LacksAddress(suts, tc, sep, e);
    }
  }

  lemma CardFails(suts: seq<seq<Guest>>, tc: Criteria, sep: EndPoint)
    requires NeedsCard(suts, tc, sep)
    ensures SearchFails(tc, Facts(All(suts)), sep, suts)
  {
    var h, g :| 0 <= h < |suts| && 0 <= g < |suts[h]| && InScope(tc, sep, h, suts[h][g].numa);
    ScopeIs(tc, sep, h, suts[h][g].numa);
    GuestEnds(tc, Facts(All(suts)), sep, suts, h, g);
  }

  lemma AddressFails(suts: seq<seq<Guest>>, tc: Criteria, sep: EndPoint, e: EndPoint)
    requires sep in All(suts) && LacksAddress(suts, tc, sep, e)
    ensures SearchFails(tc, Facts(All(suts)), sep, suts)
  {
    var i := PlaceOf(suts, e);
    ScopeIs(tc, sep, e.host, e.numa);
    assert GuestEps(e.host, e.guest, suts[e.host][e.guest])[i] == e;
    assert !Comparable(Facts(All(suts)), sep, e);
    GuestEnds(tc, Facts(All(suts)), sep, suts, e.host, e.guest);
  }

  lemma ScopeIs(tc: Criteria, sep: EndPoint, h: nat, numa: nat)
    ensures HostTaken(tc, sep, h) && GuestTaken(tc, sep, numa) <==> InScope(tc, sep, h, numa)
  {
    match tc.loc
    case None =>
    case Some(loc) =>
      match loc
      case Numa =>
      case XNuma =>
      case XHost =>
  }

  lemma GuestEnds(tc: Criteria, facts: map<Vif, Fact>, sep: EndPoint, suts: seq<seq<Guest>>, h: nat, g: nat)
    requires h < |suts| && g < |suts[h]| && GuestFails(tc, facts, sep, h, g, suts[h][g])
    ensures SearchFails(tc, facts, sep, suts)
  {
    assert HostFails(tc, facts, sep, h, suts[h]);
  }

  // What the lists of the search say, read off the interfaces themselves.
  lemma SearchLists(suts: seq<seq<Guest>>, tc: Criteria, sep: EndPoint, e: EndPoint, loc: Locality, allowed: bool)
    requires sep in All(suts) && sep.vif.ifAddr.Some? && (e in All(suts) ==> e.vif.ifAddr.Some?)
    ensures var r := Oracle(Facts(All(suts)), Visited(tc, sep, All(suts)), sep);
      Pairs(if allowed then r.allow else r.deny, loc, sep, e) <==>
        && e in All(suts) && e != sep && ShareNet(e.vif, sep.vif) && (e.vif.vni == sep.vif.vni) == allowed
        && IsAt(loc, sep, e) && (tc.loc == None || tc.loc == Some(loc))
  {
    var eps := All(suts);
    InOracle(Facts(eps), Visited(tc, sep, eps), sep, e, loc, allowed);
    InFilter(eps, AtLocality(tc, sep), e);
  }

  // The oracle agrees with the tables: after any run of honest senders, with nothing left on the
  // wire, a frame the source sent to an interface's address has arrived there exactly when the
  // oracle allows the pair.
  lemma OracleAgrees(c: Config, evs: seq<Event>, n: Net, facts: map<Vif, Fact>, eps: seq<EndPoint>,
                     id: nat, sep: EndPoint, e: EndPoint)
    requires ConfigOk(c) && Open(c) && MacsDistinct(c) && HonestEvents(c, evs) && Leads(c, evs, n) && n.wire == []
    requires Distinct(eps) && Attached(c, facts, eps) && sep in eps && e in eps
    requires e != sep && facts[e.vif].net == facts[sep.vif].net
    requires SentBy(n, id, sep) && e.vif.mac == Some(n.sent[id].frame.dst)
    ensures Got(n, id, HostOf(e.host), e.vif.ofp) <==> Pairs(Oracle(facts, eps, sep).allow, LocalityOf(sep, e), sep, e)
    ensures !Got(n, id, HostOf(e.host), e.vif.ofp) <==> Pairs(Oracle(facts, eps, sep).deny, LocalityOf(sep, e), sep, e)
  {
    SenderIs(c, evs, n, facts, eps, id, sep);
    FibRefinesFlooding(c, evs, n, id, HostOf(e.host), ViewOf(facts, e));
    InOracle(facts, eps, sep, e, LocalityOf(sep, e), true);
    InOracle(facts, eps, sep, e, LocalityOf(sep, e), false);
  }

  // A denied pair never communicates, whoever lies about addresses and wherever a frame is sent.
  lemma DeniedNeverReached(c: Config, evs: seq<Event>, n: Net, facts: map<Vif, Fact>, eps: seq<EndPoint>,
                           id: nat, sep: EndPoint, e: EndPoint)
    requires ConfigOk(c) && Leads(c, evs, n) && Distinct(eps) && Attached(c, facts, eps) && sep in eps && e in eps
    requires SentBy(n, id, sep) && Pairs(Oracle(facts, eps, sep).deny, LocalityOf(sep, e), sep, e)
    ensures !Got(n, id, HostOf(e.host), e.vif.ofp)
  {
    SenderIs(c, evs, n, facts, eps, id, sep);
    InOracle(facts, eps, sep, e, LocalityOf(sep, e), false);
    if d :| d in n.log && d.id == id && d.host == HostOf(e.host) && d.port == e.vif.ofp {
      TenantIsolation(c, evs, n, d);
      var w :| w in Br(c, d.host).vifs && w.ofp == d.port && w.vni == n.sent[d.id].vif.vni;
      assert SideOk(c, d.host);
      VifByOfp(Br(c, d.host), c.deploy, w, ViewOf(facts, e));
    }
  }
}
