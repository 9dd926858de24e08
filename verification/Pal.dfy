/** The reachability oracle of pal.py: from one source interface, which other interfaces of its
    subnet should be reached and which should not, sorted by where they are. */
module Pal {
  import opened Wrappers
  import opened Seqs
  import opened Vswitch

  datatype Guest = Guest(numa: nat, vifs: seq<Vif>)

  // An interface of a guest of a host; hosts and guests are known by their positions.
  datatype EndPoint = EndPoint(host: nat, guest: nat, numa: nat, vif: Vif)

  datatype Locality = Numa | XNuma | XHost

  datatype PalError = IndexError | RuntimeError | AttributeError

  // Where the source has to be with respect to the host's uplink card, where the destinations have
  // to be, and where they have to be with respect to the source; None asks for nothing.
  datatype Criteria = Criteria(sepNic: Option<Locality>, depNic: Option<Locality>, loc: Option<Locality>)

  const NO_CRITERIA := Criteria(None, None, None)

  // ---- all interfaces, in the order the oracle visits them ----

  function GuestEps(h: nat, g: nat, guest: Guest): seq<EndPoint> {
    seq(|guest.vifs|, i requires 0 <= i < |guest.vifs| => EndPoint(h, g, guest.numa, guest.vifs[i]))
  }

  function HostEps(h: nat, guests: seq<Guest>): seq<EndPoint> {
    if guests == [] then []
    else HostEps(h, guests[..|guests| - 1]) + GuestEps(h, |guests| - 1, guests[|guests| - 1])
  }

  function All(suts: seq<seq<Guest>>): seq<EndPoint> {
    if suts == [] then [] else All(suts[..|suts| - 1]) + HostEps(|suts| - 1, suts[|suts| - 1])
  }

  function VifsOf(eps: seq<EndPoint>): set<Vif> {
    set e | e in eps :: e.vif
  }

  // What the oracle reads off the interfaces.
  datatype Fact = Fact(vni: nat, net: Option<nat>)

  function FactOf(v: Vif): Fact
    reads v
  {
    Fact(v.vni, if v.ifAddr.Some? then Some(v.ifAddr.value.ipv4Net) else None)
  }

  ghost function Facts(eps: seq<EndPoint>): map<Vif, Fact>
    reads VifsOf(eps)
  {
    map v | v in VifsOf(eps) :: FactOf(v)
  }

  // ---- what the oracle says ----

  datatype Vte = Vte(sep: EndPoint, numa: seq<EndPoint>, xnuma: seq<EndPoint>, xhost: seq<EndPoint>)
  datatype Verdicts = Verdicts(allow: seq<Vte>, deny: seq<Vte>)

  function LocalityOf(sep: EndPoint, dep: EndPoint): Locality {
    if sep.host != dep.host then XHost else if sep.numa != dep.numa then XNuma else Numa
  }

  predicate Relevant(facts: map<Vif, Fact>, sep: EndPoint, e: EndPoint) {
    e != sep && e.vif in facts && sep.vif in facts && facts[e.vif].net == facts[sep.vif].net
  }

  function Matching(facts: map<Vif, Fact>, sep: EndPoint, allowed: bool, loc: Locality): EndPoint -> bool {
    (e: EndPoint) => Relevant(facts, sep, e) && (facts[e.vif].vni == facts[sep.vif].vni) == allowed
      && LocalityOf(sep, e) == loc
  }

  function EntryFor(facts: map<Vif, Fact>, eps: seq<EndPoint>, sep: EndPoint, allowed: bool): Vte {
    Vte(sep, Filter(eps, Matching(facts, sep, allowed, Numa)), Filter(eps, Matching(facts, sep, allowed, XNuma)),
        Filter(eps, Matching(facts, sep, allowed, XHost)))
  }

  function FullDeps(v: Vte): seq<EndPoint> {
    v.numa + v.xnuma + v.xhost
  }

  // One entry for the source, unless nothing was found.
  function EntriesFor(facts: map<Vif, Fact>, eps: seq<EndPoint>, sep: EndPoint, allowed: bool): seq<Vte> {
    var v := EntryFor(facts, eps, sep, allowed);
    if FullDeps(v) == [] then [] else [v]
  }

  function Oracle(facts: map<Vif, Fact>, eps: seq<EndPoint>, sep: EndPoint): Verdicts {
    Verdicts(EntriesFor(facts, eps, sep, true), EntriesFor(facts, eps, sep, false))
  }

  // ---- criteria ----

  predicate AsksNode(loc: Option<Locality>) {
    loc == Some(Numa) || loc == Some(XNuma)
  }

  // The hosts and the guests the loops do not pass over.
  predicate HostTaken(tc: Criteria, sep: EndPoint, h: nat) {
    !(tc.loc == Some(XHost) && h == sep.host) && !(AsksNode(tc.loc) && h != sep.host)
  }

  predicate GuestTaken(tc: Criteria, sep: EndPoint, numa: nat) {
    !(tc.loc == Some(Numa) && numa != sep.numa) && !(tc.loc == Some(XNuma) && numa == sep.numa)
  }

  // The interfaces of the asked locality.
  function AtLocality(tc: Criteria, sep: EndPoint): EndPoint -> bool {
    (e: EndPoint) => tc.loc == None || tc.loc == Some(LocalityOf(sep, e))
  }

  function Visited(tc: Criteria, sep: EndPoint, eps: seq<EndPoint>): seq<EndPoint> {
    Filter(eps, AtLocality(tc, sep))
  }

  // The loops visit exactly the interfaces of the asked locality.
  lemma TakenAre(tc: Criteria, sep: EndPoint, e: EndPoint)
    ensures HostTaken(tc, sep, e.host) && GuestTaken(tc, sep, e.numa) <==> AtLocality(tc, sep)(e)
  {
    match tc.loc
    case None =>
    case Some(loc) =>
      match loc
      case Numa =>
      case XNuma =>
      case XHost =>
  }

  lemma {:induction false} VisitedNone(tc: Criteria, sep: EndPoint, seen: seq<EndPoint>, more: seq<EndPoint>)
    requires forall e :: e in more ==> !AtLocality(tc, sep)(e)
    ensures Visited(tc, sep, seen + more) == Visited(tc, sep, seen)
    decreases |more|
  {
    if more == [] {
      assert seen + more == seen;
    } else {
      var n := |more| - 1;
      assert (seen + more)[..|seen + more| - 1] == seen + more[..n];
      VisitedNone(tc, sep, seen, more[..n]);
    }
  }

  lemma VisitedOne(tc: Criteria, sep: EndPoint, seen: seq<EndPoint>, e: EndPoint)
    requires AtLocality(tc, sep)(e)
    ensures Visited(tc, sep, seen + [e]) == Visited(tc, sep, seen) + [e]
  {
    assert (seen + [e])[..|seen|] == seen;
  }

  // An interface whose subnet can be compared with the source's.
  predicate Comparable(facts: map<Vif, Fact>, sep: EndPoint, e: EndPoint) {
    e.vif in facts && sep.vif in facts && facts[e.vif].net.Some? && facts[sep.vif].net.Some?
  }

  // All interfaces but the source have subnets to compare.
  ghost predicate AllComparable(facts: map<Vif, Fact>, sep: EndPoint, eps: seq<EndPoint>) {
    forall e :: e in eps ==> e == sep || Comparable(facts, sep, e)
  }

  // A guest that ends the search with an error: its host has no such thing as an uplink card, or
  // one of its interfaces has no address to compare.
  ghost predicate GuestFails(tc: Criteria, facts: map<Vif, Fact>, sep: EndPoint, h: nat, g: nat, guest: Guest) {
    && HostTaken(tc, sep, h) && GuestTaken(tc, sep, guest.numa)
    && (AsksNode(tc.depNic) || !AllComparable(facts, sep, GuestEps(h, g, guest)))
  }

  ghost predicate HostFails(tc: Criteria, facts: map<Vif, Fact>, sep: EndPoint, h: nat, guests: seq<Guest>) {
    exists g :: 0 <= g < |guests| && GuestFails(tc, facts, sep, h, g, guests[g])
  }

  ghost predicate SearchFails(tc: Criteria, facts: map<Vif, Fact>, sep: EndPoint, suts: seq<seq<Guest>>) {
    exists h :: 0 <= h < |suts| && HostFails(tc, facts, sep, h, suts[h])
  }

  // ---- the lists as they grow ----

  function FindVte(list: seq<Vte>, sep: EndPoint): (i: nat)
    ensures i <= |list| && (i < |list| ==> list[i].sep == sep)
    ensures forall j :: 0 <= j < i ==> list[j].sep != sep
  {
    if list == [] then 0
    else
      var n := |list| - 1;
      var i := FindVte(list[..n], sep);
      if i == n && list[n].sep != sep then n + 1 else i
  }

  function WithDep(v: Vte, dep: EndPoint): Vte {
    match LocalityOf(v.sep, dep)
    case XHost => v.(xhost := v.xhost + [dep])
    case XNuma => v.(xnuma := v.xnuma + [dep])
    case Numa => v.(numa := v.numa + [dep])
  }

  // Files a destination under the source's entry, which is opened at the end when it is missing.
  function Filed(list: seq<Vte>, sep: EndPoint, dep: EndPoint): seq<Vte> {
    var i := FindVte(list, sep);
    if i < |list| then list[i := WithDep(list[i], dep)] else list + [WithDep(Vte(sep, [], [], []), dep)]
  }

  function Considered(facts: map<Vif, Fact>, sep: EndPoint, r: Verdicts, e: EndPoint): Verdicts {
    if !Relevant(facts, sep, e) then r
    else if facts[e.vif].vni == facts[sep.vif].vni then r.(allow := Filed(r.allow, sep, e))
    else r.(deny := Filed(r.deny, sep, e))
  }

  lemma FiledFor(facts: map<Vif, Fact>, eps: seq<EndPoint>, e: EndPoint, sep: EndPoint, allowed: bool)
    ensures EntriesFor(facts, eps + [e], sep, allowed) ==
              if Relevant(facts, sep, e) && (facts[e.vif].vni == facts[sep.vif].vni) == allowed
              then Filed(EntriesFor(facts, eps, sep, allowed), sep, e) else EntriesFor(facts, eps, sep, allowed)
  {
    assert (eps + [e])[..|eps|] == eps;
    var v := EntryFor(facts, eps, sep, allowed);
    if Relevant(facts, sep, e) && (facts[e.vif].vni == facts[sep.vif].vni) == allowed {
      assert EntryFor(facts, eps + [e], sep, allowed) == WithDep(v, e);
      if FullDeps(v) == [] { assert v == Vte(sep, [], [], []); }
    } else {
      assert EntryFor(facts, eps + [e], sep, allowed) == v;
    }
  }

  // Considering one more interface extends the oracle's answer.
  lemma OracleStep(facts: map<Vif, Fact>, eps: seq<EndPoint>, e: EndPoint, sep: EndPoint)
    ensures Oracle(facts, eps + [e], sep) == Considered(facts, sep, Oracle(facts, eps, sep), e)
  {
    FiledFor(facts, eps, e, sep, true);
    FiledFor(facts, eps, e, sep, false);
  }

  // ---- the objects ----

  class Entry {
    const sep: EndPoint
    var depNuma: seq<EndPoint>
    var depXnuma: seq<EndPoint>
    var depXhost: seq<EndPoint>

    constructor (sep: EndPoint)
      ensures View() == Vte(sep, [], [], [])
    {
      this.sep := sep;
      depNuma, depXnuma, depXhost := [], [], [];
    }

    function View(): Vte
      reads this
    {
      Vte(sep, depNuma, depXnuma, depXhost)
    }

    method GetFullDeps() returns (deps: seq<EndPoint>)
      ensures deps == FullDeps(View())
    {
      deps := [];
      deps := deps + depNuma;
      deps := deps + depXnuma;
      deps := deps + depXhost;
    }

    method AddDep(dep: EndPoint)
      modifies this
      ensures View() == WithDep(old(View()), dep)
    {
      if sep.host != dep.host {
        depXhost := depXhost + [dep];
      } else if sep.numa != dep.numa {
        depXnuma := depXnuma + [dep];
      } else {
        depNuma := depNuma + [dep];
      }
    }
  }

  function EntryViews(list: seq<Entry>): seq<Vte>
    reads list
  {
    seq(|list|, i requires 0 <= i < |list| reads list => list[i].View())
  }

  // Files a destination in a list of entries.
  method FileDep(list: seq<Entry>, sep: EndPoint, dep: EndPoint) returns (r: seq<Entry>)
    requires Distinct(list)
    modifies list
    ensures Distinct(r) && EntryViews(r) == Filed(old(EntryViews(list)), sep, dep)
    ensures forall x :: x in r && x !in list ==> fresh(x)
    ensures forall x :: x in list ==> x in r
  {
    ghost var was := EntryViews(list);
    var i := 0;
    while i < |list| && list[i].sep != sep
      invariant i <= |list| && forall j :: 0 <= j < i ==> was[j].sep != sep
    {
      i := i + 1;
    }
    assert i < |list| ==> was[i] == list[i].View();
    r := list;
    if i == |list| {
      var vte := new Entry(sep);
      vte.AddDep(dep);
      r := r + [vte];
      assert EntryViews(r) == was + [vte.View()];
    } else {
      list[i].AddDep(dep);
      assert EntryViews(r) == was[i := list[i].View()];
    }
  }

  class VerifyTopology {
    var allow: seq<Entry>
    var deny: seq<Entry>

    constructor ()
      ensures allow == [] && deny == []
    {
      allow, deny := [], [];
    }

    ghost predicate Valid()
      reads this
    {
      Distinct(allow) && Distinct(deny) && forall x :: x in allow ==> x !in deny
    }

    ghost function Entries(): set<Entry>
      reads this
    {
      (set x | x in allow) + (set x | x in deny)
    }

    function View(): Verdicts
      reads this, allow, deny
    {
      Verdicts(EntryViews(allow), EntryViews(deny))
    }

    // Moves all allowed entries to the denied ones; false when there is none.
    method ChangeAllowToDeny() returns (ok: bool)
      modifies this
      ensures ok <==> old(allow) != []
      ensures if ok then deny == old(allow) && allow == [] else allow == old(allow) && deny == old(deny)
    {
      if allow == [] { return false; }
      deny := allow;
      allow := [];
      ok := true;
    }

    method ChangeDenyToAllow() returns (ok: bool)
      modifies this
      ensures ok <==> old(deny) != []
      ensures if ok then allow == old(deny) && deny == [] else allow == old(allow) && deny == old(deny)
    {
      if deny == [] { return false; }
      allow := deny;
      deny := [];
      ok := true;
    }
  }

  ghost predicate Known(facts: map<Vif, Fact>, v: Vif)
    reads v
  {
    v in facts && facts[v] == FactOf(v)
  }

  ghost predicate AllKnown(facts: map<Vif, Fact>, vifs: seq<Vif>)
    reads vifs
  {
    forall v :: v in vifs ==> Known(facts, v)
  }

  ghost predicate HostKnown(facts: map<Vif, Fact>, guests: seq<Guest>)
    reads set g, i | 0 <= g < |guests| && 0 <= i < |guests[g].vifs| :: guests[g].vifs[i]
  {
    forall g :: 0 <= g < |guests| ==> AllKnown(facts, guests[g].vifs)
  }

  // Sorts one interface into the lists; false when a subnet is missing.
  method Consider(vt: VerifyTopology, sep: EndPoint, e: EndPoint, ghost facts: map<Vif, Fact>) returns (ok: bool)
    requires vt.Valid() && Known(facts, sep.vif) && Known(facts, e.vif)
    modifies vt, vt.Entries()
    ensures ok <==> e == sep || Comparable(facts, sep, e)
    ensures vt.Valid() && (ok ==> vt.View() == Considered(facts, sep, old(vt.View()), e))
    ensures fresh(vt.Entries() - old(vt.Entries()))
  {
    if e == sep { return true; }
    if e.vif.ifAddr == None || sep.vif.ifAddr == None { return false; }
    ok := true;
    if e.vif.ifAddr.value.ipv4Net != sep.vif.ifAddr.value.ipv4Net { return; }
    ghost var allow, deny := EntryViews(vt.allow), EntryViews(vt.deny);
    if e.vif.vni == sep.vif.vni {
      vt.allow := FileDep(vt.allow, sep, e);
      forall i | 0 <= i < |vt.deny| ensures vt.deny[i].View() == deny[i] { assert vt.deny[i] in vt.deny; }
      assert EntryViews(vt.deny) == deny;
    } else {
      vt.deny := FileDep(vt.deny, sep, e);
      forall i | 0 <= i < |vt.allow| ensures vt.allow[i].View() == allow[i] { assert vt.allow[i] in vt.allow; }
      assert EntryViews(vt.allow) == allow;
    }
  }

  // What the three loops keep: the lists hold the oracle's answer about the interfaces passed so far.
  ghost predicate Holds(vt: VerifyTopology, tc: Criteria, facts: map<Vif, Fact>, seen: seq<EndPoint>, sep: EndPoint)
    reads vt, vt.Entries()
  {
    vt.Valid() && vt.View() == Oracle(facts, Visited(tc, sep, seen), sep)
  }

  method ConsiderNext(vt: VerifyTopology, tc: Criteria, sep: EndPoint, e: EndPoint,
                      ghost facts: map<Vif, Fact>, ghost seen: seq<EndPoint>)
    returns (ok: bool)
    requires Holds(vt, tc, facts, seen, sep) && Known(facts, sep.vif) && Known(facts, e.vif) && AtLocality(tc, sep)(e)
    modifies vt, vt.Entries()
    ensures ok <==> e == sep || Comparable(facts, sep, e)
    ensures ok ==> Holds(vt, tc, facts, seen + [e], sep)
    ensures fresh(vt.Entries() - old(vt.Entries()))
  {
    VisitedOne(tc, sep, seen, e);
    OracleStep(facts, Visited(tc, sep, seen), e, sep);
    ok := Consider(vt, sep, e, facts);
  }

  method ConsiderVifs(vt: VerifyTopology, tc: Criteria, sep: EndPoint, h: nat, g: nat, guest: Guest,
                      ghost facts: map<Vif, Fact>, ghost seen: seq<EndPoint>)
    returns (ok: bool)
    requires Holds(vt, tc, facts, seen, sep) && Known(facts, sep.vif) && AllKnown(facts, guest.vifs)
    requires HostTaken(tc, sep, h) && GuestTaken(tc, sep, guest.numa)
    modifies vt, vt.Entries()
    ensures ok <==> AllComparable(facts, sep, GuestEps(h, g, guest))
    ensures ok ==> Holds(vt, tc, facts, seen + GuestEps(h, g, guest), sep)
    ensures fresh(vt.Entries() - old(vt.Entries()))
  {
    ghost var eps := GuestEps(h, g, guest);
    assert seen + eps[..0] == seen;
    var i := 0;
    ok := true;
    while ok && i < |guest.vifs|
      invariant i <= |guest.vifs| && (ok ==> Holds(vt, tc, facts, seen + eps[..i], sep))
      invariant ok <==> AllComparable(facts, sep, eps[..i])
      invariant fresh(vt.Entries() - old(vt.Entries()))
    {
      ok := ConsiderVif(vt, tc, sep, h, g, guest, i, facts, seen);
      i := i + 1;
    }
    if !ok { assert !AllComparable(facts, sep, eps); }
    assert ok ==> eps[..i] == eps;
  }

  method ConsiderVif(vt: VerifyTopology, tc: Criteria, sep: EndPoint, h: nat, g: nat, guest: Guest, i: nat,
                     ghost facts: map<Vif, Fact>, ghost seen: seq<EndPoint>)
    returns (ok: bool)
    requires i < |guest.vifs| && Known(facts, sep.vif) && AllKnown(facts, guest.vifs)
    requires HostTaken(tc, sep, h) && GuestTaken(tc, sep, guest.numa)
    requires Holds(vt, tc, facts, seen + GuestEps(h, g, guest)[..i], sep)
    requires AllComparable(facts, sep, GuestEps(h, g, guest)[..i])
    modifies vt, vt.Entries()
    ensures ok <==> AllComparable(facts, sep, GuestEps(h, g, guest)[..i + 1])
    ensures ok ==> Holds(vt, tc, facts, seen + GuestEps(h, g, guest)[..i + 1], sep)
    ensures fresh(vt.Entries() - old(vt.Entries()))
  {
    EpStep(tc, facts, sep, h, g, guest, seen, i);
    ok := ConsiderNext(vt, tc, sep, EndPoint(h, g, guest.numa, guest.vifs[i]), facts,
                       seen + GuestEps(h, g, guest)[..i]);
  }

  lemma EpStep(tc: Criteria, facts: map<Vif, Fact>, sep: EndPoint, h: nat, g: nat, guest: Guest, seen: seq<EndPoint>,
               i: nat)
    requires i < |guest.vifs| && HostTaken(tc, sep, h) && GuestTaken(tc, sep, guest.numa)
    requires AllKnown(facts, guest.vifs)
    ensures var eps := GuestEps(h, g, guest);
      && Known(facts, guest.vifs[i]) && AtLocality(tc, sep)(eps[i])
      && seen + eps[..i + 1] == seen + eps[..i] + [eps[i]]
      && (AllComparable(facts, sep, eps[..i + 1]) <==>
            AllComparable(facts, sep, eps[..i]) && (eps[i] == sep || Comparable(facts, sep, eps[i])))
  {
    var eps := GuestEps(h, g, guest);
    assert guest.vifs[i] in guest.vifs;
    TakenAre(tc, sep, eps[i]);
    assert eps[..i + 1] == eps[..i] + [eps[i]];
  }

  // One guest: passed over, an error, or its interfaces in order.
  method ConsiderGuest(vt: VerifyTopology, tc: Criteria, sep: EndPoint, h: nat, g: nat, guest: Guest,
                       ghost facts: map<Vif, Fact>, ghost seen: seq<EndPoint>)
    returns (ok: bool)
    requires Holds(vt, tc, facts, seen, sep) && Known(facts, sep.vif) && AllKnown(facts, guest.vifs)
    requires HostTaken(tc, sep, h)
    modifies vt, vt.Entries()
    ensures ok <==> !GuestFails(tc, facts, sep, h, g, guest)
    ensures ok ==> Holds(vt, tc, facts, seen + GuestEps(h, g, guest), sep)
    ensures fresh(vt.Entries() - old(vt.Entries()))
  {
    if !GuestTaken(tc, sep, guest.numa) {
      GuestPassedOver(tc, sep, h, g, guest, seen);
      return true;
    }
    if AsksNode(tc.depNic) { return false; }
    ok := ConsiderVifs(vt, tc, sep, h, g, guest, facts, seen);
  }

  lemma GuestPassedOver(tc: Criteria, sep: EndPoint, h: nat, g: nat, guest: Guest, seen: seq<EndPoint>)
    requires !(HostTaken(tc, sep, h) && GuestTaken(tc, sep, guest.numa))
    ensures Visited(tc, sep, seen + GuestEps(h, g, guest)) == Visited(tc, sep, seen)
  {
    forall e | e in GuestEps(h, g, guest) ensures !AtLocality(tc, sep)(e) { TakenAre(tc, sep, e); }
    VisitedNone(tc, sep, seen, GuestEps(h, g, guest));
  }

  method ConsiderHost(vt: VerifyTopology, tc: Criteria, sep: EndPoint, h: nat, guests: seq<Guest>,
                      ghost facts: map<Vif, Fact>, ghost seen: seq<EndPoint>)
    returns (ok: bool)
    requires Holds(vt, tc, facts, seen, sep) && Known(facts, sep.vif) && HostKnown(facts, guests)
    requires HostTaken(tc, sep, h)
    modifies vt, vt.Entries()
    ensures ok <==> !HostFails(tc, facts, sep, h, guests)
    ensures ok ==> Holds(vt, tc, facts, seen + HostEps(h, guests), sep)
    ensures fresh(vt.Entries() - old(vt.Entries()))
  {
    assert seen + [] == seen;
    var g := 0;
    ok := true;
    while ok && g < |guests|
      invariant g <= |guests| && (ok ==> Holds(vt, tc, facts, seen + HostEps(h, guests[..g]), sep))
      invariant ok <==> !HostFails(tc, facts, sep, h, guests[..g])
      invariant fresh(vt.Entries() - old(vt.Entries()))
    {
      ok := ConsiderGuestAt(vt, tc, sep, h, guests, g, facts, seen);
      g := g + 1;
    }
    if ok { assert guests[..g] == guests; } else { FailedBy(tc, facts, sep, h, guests, g); }
  }

  method ConsiderGuestAt(vt: VerifyTopology, tc: Criteria, sep: EndPoint, h: nat, guests: seq<Guest>, g: nat,
                         ghost facts: map<Vif, Fact>, ghost seen: seq<EndPoint>)
    returns (ok: bool)
    requires g < |guests| && Known(facts, sep.vif) && HostKnown(facts, guests) && HostTaken(tc, sep, h)
    requires Holds(vt, tc, facts, seen + HostEps(h, guests[..g]), sep) && !HostFails(tc, facts, sep, h, guests[..g])
    modifies vt, vt.Entries()
    ensures ok <==> !HostFails(tc, facts, sep, h, guests[..g + 1])
    ensures ok ==> Holds(vt, tc, facts, seen + HostEps(h, guests[..g + 1]), sep)
    ensures fresh(vt.Entries() - old(vt.Entries()))
  {
    GuestStep(tc, facts, sep, h, guests, seen, g);
    ok := ConsiderGuest(vt, tc, sep, h, g, guests[g], facts, seen + HostEps(h, guests[..g]));
  }

  lemma GuestStep(tc: Criteria, facts: map<Vif, Fact>, sep: EndPoint, h: nat, guests: seq<Guest>, seen: seq<EndPoint>,
                  g: nat)
    requires g < |guests|
    ensures HostFails(tc, facts, sep, h, guests[..g + 1]) <==>
              HostFails(tc, facts, sep, h, guests[..g]) || GuestFails(tc, facts, sep, h, g, guests[g])
    ensures seen + HostEps(h, guests[..g + 1]) == seen + HostEps(h, guests[..g]) + GuestEps(h, g, guests[g])
  {
    assert guests[..g + 1][..g] == guests[..g];
    if HostFails(tc, facts, sep, h, guests[..g + 1]) && !GuestFails(tc, facts, sep, h, g, guests[g]) {
      var k :| 0 <= k < g + 1 && GuestFails(tc, facts, sep, h, k, guests[..g + 1][k]);
      assert guests[..g][k] == guests[..g + 1][k];
    }
    if HostFails(tc, facts, sep, h, guests[..g]) {
      var k :| 0 <= k < g && GuestFails(tc, facts, sep, h, k, guests[..g][k]);
      assert guests[..g + 1][k] == guests[..g][k];
    }
    assert guests[..g + 1][g] == guests[g];
  }

  lemma FailedBy(tc: Criteria, facts: map<Vif, Fact>, sep: EndPoint, h: nat, guests: seq<Guest>, g: nat)
    requires g <= |guests| && HostFails(tc, facts, sep, h, guests[..g])
    ensures HostFails(tc, facts, sep, h, guests)
  {
    var k :| 0 <= k < g && GuestFails(tc, facts, sep, h, k, guests[..g][k]);
    assert guests[k] == guests[..g][k];
  }

  lemma {:induction false} HostPassedOver(tc: Criteria, sep: EndPoint, h: nat, guests: seq<Guest>, seen: seq<EndPoint>)
    requires !HostTaken(tc, sep, h)
    ensures Visited(tc, sep, seen + HostEps(h, guests)) == Visited(tc, sep, seen)
  {
    if guests == [] {
      assert seen + HostEps(h, guests) == seen;
    } else {
      var n := |guests| - 1;
      HostPassedOver(tc, sep, h, guests[..n], seen);
      GuestPassedOver(tc, sep, h, n, guests[n], seen + HostEps(h, guests[..n]));
      assert seen + HostEps(h, guests) == seen + HostEps(h, guests[..n]) + GuestEps(h, n, guests[n]);
    }
  }

  lemma GuestsKnown(facts: map<Vif, Fact>, suts: seq<seq<Guest>>, h: nat)
    requires h < |suts|
    requires forall e :: e in All(suts) ==> Known(facts, e.vif)
    ensures HostKnown(facts, suts[h])
  {
    forall g, v | 0 <= g < |suts[h]| && v in suts[h][g].vifs ensures Known(facts, v) {
      var i :| 0 <= i < |suts[h][g].vifs| && suts[h][g].vifs[i] == v;
      InAll(suts, h, g, i);
    }
  }

  lemma InAll(suts: seq<seq<Guest>>, h: nat, g: nat, i: nat)
    requires h < |suts| && g < |suts[h]| && i < |suts[h][g].vifs|
    ensures EndPoint(h, g, suts[h][g].numa, suts[h][g].vifs[i]) in All(suts)
  {
    var guests := suts[h];
    var e := EndPoint(h, g, guests[g].numa, guests[g].vifs[i]);
    assert GuestEps(h, g, guests[g])[i] == e;
    assert guests[..g + 1][..g] == guests[..g];
    assert e in HostEps(h, guests[..g + 1]);
    HostPrefix(h, guests, g + 1);
    assert suts[..h + 1][..h] == suts[..h];
    assert e in All(suts[..h + 1]);
    AllPrefix(suts, h + 1);
  }

  // The source is the first interface of the first guest of the first host.
  function SourceOf(suts: seq<seq<Guest>>, tc: Criteria): Result<EndPoint, PalError> {
    if suts == [] then Failure(IndexError)
    else if suts[0] == [] then Failure(RuntimeError)
    else if AsksNode(tc.sepNic) then Failure(AttributeError)
    else if suts[0][0].vifs == [] then Failure(IndexError)
    else Success(EndPoint(0, 0, suts[0][0].numa, suts[0][0].vifs[0]))
  }

  method VerifyTopologyGet(suts: seq<seq<Guest>>, tc: Criteria) returns (r: Result<VerifyTopology, PalError>)
    ensures Facts(All(suts)) == old(Facts(All(suts)))
    ensures r.Failure? <==>
              SourceOf(suts, tc).Failure? || SearchFails(tc, Facts(All(suts)), SourceOf(suts, tc).value, suts)
    ensures r.Failure? ==> r.error == if SourceOf(suts, tc).Failure? then SourceOf(suts, tc).error else AttributeError
    ensures r.Success? ==>
              && fresh(r.value) && fresh(r.value.Entries()) && r.value.Valid()
              && var sep := SourceOf(suts, tc).value;
                 r.value.View() == Oracle(Facts(All(suts)), Visited(tc, sep, All(suts)), sep)
  {
    if suts == [] { return Failure(IndexError); }
    if suts[0] == [] { return Failure(RuntimeError); }
    if AsksNode(tc.sepNic) { return Failure(AttributeError); }
    if suts[0][0].vifs == [] { return Failure(IndexError); }
    var sep := EndPoint(0, 0, suts[0][0].numa, suts[0][0].vifs[0]);
    InAll(suts, 0, 0, 0);
    KnownFacts(suts);
    ghost var facts := Facts(All(suts));
    var vt, ok := ConsiderAll(tc, sep, suts, facts);
    assert Facts(All(suts)) == facts;
    r := if ok then Success(vt) else Failure(AttributeError);
  }

  method ConsiderAll(tc: Criteria, sep: EndPoint, suts: seq<seq<Guest>>, ghost facts: map<Vif, Fact>)
    returns (vt: VerifyTopology, ok: bool)
    requires Known(facts, sep.vif)
    requires forall h :: 0 <= h < |suts| ==> HostKnown(facts, suts[h])
    ensures fresh(vt) && fresh(vt.Entries())
    ensures ok <==> !SearchFails(tc, facts, sep, suts)
    ensures ok ==> Holds(vt, tc, facts, All(suts), sep)
  {
    vt := new VerifyTopology();
    ok := ConsiderHosts(vt, tc, sep, suts, facts);
  }

  lemma KnownFacts(suts: seq<seq<Guest>>)
    ensures forall e :: e in All(suts) ==> Known(Facts(All(suts)), e.vif)
    ensures forall h :: 0 <= h < |suts| ==> HostKnown(Facts(All(suts)), suts[h])
  {
    forall h | 0 <= h < |suts| ensures HostKnown(Facts(All(suts)), suts[h]) {
      GuestsKnown(Facts(All(suts)), suts, h);
    }
  }

  method ConsiderHosts(vt: VerifyTopology, tc: Criteria, sep: EndPoint, suts: seq<seq<Guest>>,
                       ghost facts: map<Vif, Fact>)
    returns (ok: bool)
    requires Holds(vt, tc, facts, [], sep) && Known(facts, sep.vif)
    requires forall h :: 0 <= h < |suts| ==> HostKnown(facts, suts[h])
    modifies vt, vt.Entries()
    ensures ok <==> !SearchFails(tc, facts, sep, suts)
    ensures ok ==> Holds(vt, tc, facts, All(suts), sep)
    ensures fresh(vt.Entries() - old(vt.Entries()))
  {
    var h := 0;
    ok := true;
    while ok && h < |suts|
      invariant h <= |suts| && (ok ==> Holds(vt, tc, facts, All(suts[..h]), sep))
      invariant ok <==> !SearchFails(tc, facts, sep, suts[..h])
      invariant fresh(vt.Entries() - old(vt.Entries()))
    {
      ok := ConsiderHostAt(vt, tc, sep, suts, h, facts);
      h := h + 1;
    }
    if ok { assert suts[..h] == suts; } else { SearchFailedBy(tc, facts, sep, suts, h); }
  }

  method ConsiderHostAt(vt: VerifyTopology, tc: Criteria, sep: EndPoint, suts: seq<seq<Guest>>, h: nat,
                        ghost facts: map<Vif, Fact>)
    returns (ok: bool)
    requires h < |suts| && Known(facts, sep.vif) && HostKnown(facts, suts[h])
    requires Holds(vt, tc, facts, All(suts[..h]), sep) && !SearchFails(tc, facts, sep, suts[..h])
    modifies vt, vt.Entries()
    ensures ok <==> !SearchFails(tc, facts, sep, suts[..h + 1])
    ensures ok ==> Holds(vt, tc, facts, All(suts[..h + 1]), sep)
    ensures fresh(vt.Entries() - old(vt.Entries()))
  {
    HostStep(tc, facts, sep, suts, h);
    if HostTaken(tc, sep, h) {
      ok := ConsiderHost(vt, tc, sep, h, suts[h], facts, All(suts[..h]));
    } else {
      HostPassedOver(tc, sep, h, suts[h], All(suts[..h]));
      ok := true;
    }
  }

  lemma HostStep(tc: Criteria, facts: map<Vif, Fact>, sep: EndPoint, suts: seq<seq<Guest>>, h: nat)
    requires h < |suts|
    ensures SearchFails(tc, facts, sep, suts[..h + 1]) <==>
              SearchFails(tc, facts, sep, suts[..h]) || HostFails(tc, facts, sep, h, suts[h])
    ensures All(suts[..h + 1]) == All(suts[..h]) + HostEps(h, suts[h])
    ensures !HostTaken(tc, sep, h) ==> !HostFails(tc, facts, sep, h, suts[h])
  {
    assert suts[..h + 1][..h] == suts[..h];
    if SearchFails(tc, facts, sep, suts[..h + 1]) && !HostFails(tc, facts, sep, h, suts[h]) {
      var k :| 0 <= k < h + 1 && HostFails(tc, facts, sep, k, suts[..h + 1][k]);
      assert suts[..h][k] == suts[..h + 1][k];
    }
    if SearchFails(tc, facts, sep, suts[..h]) {
      var k :| 0 <= k < h && HostFails(tc, facts, sep, k, suts[..h][k]);
      assert suts[..h + 1][k] == suts[..h][k];
    }
    assert suts[..h + 1][h] == suts[h];
  }

  lemma SearchFailedBy(tc: Criteria, facts: map<Vif, Fact>, sep: EndPoint, suts: seq<seq<Guest>>, h: nat)
    requires h <= |suts| && SearchFails(tc, facts, sep, suts[..h])
    ensures SearchFails(tc, facts, sep, suts)
  {
    var k :| 0 <= k < h && HostFails(tc, facts, sep, k, suts[..h][k]);
    assert suts[k] == suts[..h][k];
  }

  lemma {:induction false} HostPrefix(h: nat, guests: seq<Guest>, g: nat)
    requires g <= |guests|
    ensures HostEps(h, guests[..g]) <= HostEps(h, guests)
    decreases |guests| - g
  {
    if g < |guests| {
      assert guests[..g + 1][..g] == guests[..g];
      HostPrefix(h, guests, g + 1);
    } else {
      assert guests[..g] == guests;
    }
  }

  lemma {:induction false} AllPrefix(suts: seq<seq<Guest>>, h: nat)
    requires h <= |suts|
    ensures All(suts[..h]) <= All(suts)
    decreases |suts| - h
  {
    if h < |suts| {
      assert suts[..h + 1][..h] == suts[..h];
      AllPrefix(suts, h + 1);
    } else {
      assert suts[..h] == suts;
    }
  }

  // ---- every interface once ----

  // The parts of an interface's place.
  ghost predicate Situated(suts: seq<seq<Guest>>, e: EndPoint, i: nat) {
    && e.host < |suts| && e.guest < |suts[e.host]|
    && e.numa == suts[e.host][e.guest].numa && i < |suts[e.host][e.guest].vifs|
      && suts[e.host][e.guest].vifs[i] == e.vif
  }

  lemma {:induction false} InHostEps(h: nat, guests: seq<Guest>, e: EndPoint) returns (i: nat)
    requires e in HostEps(h, guests)
    ensures e.host == h && e.guest < |guests| && e.numa == guests[e.guest].numa
    ensures i < |guests[e.guest].vifs| && guests[e.guest].vifs[i] == e.vif
  {
    var n := |guests| - 1;
    if e in HostEps(h, guests[..n]) {
      i := InHostEps(h, guests[..n], e);
    } else {
      i :| 0 <= i < |guests[n].vifs| && GuestEps(h, n, guests[n])[i] == e;
    }
  }

  lemma {:induction false} PlaceOf(suts: seq<seq<Guest>>, e: EndPoint) returns (i: nat)
    requires e in All(suts)
    ensures Situated(suts, e, i)
  {
    var n := |suts| - 1;
    if e in All(suts[..n]) {
      i := PlaceOf(suts[..n], e);
    } else {
      i := InHostEps(n, suts[n], e);
    }
  }

  lemma {:induction false} HostEpsDistinct(h: nat, guests: seq<Guest>)
    requires forall g :: 0 <= g < |guests| ==> Distinct(guests[g].vifs)
    ensures Distinct(HostEps(h, guests))
  {
    if guests == [] {
    } else {
      var n := |guests| - 1;
      HostEpsDistinct(h, guests[..n]);
      forall e | e in HostEps(h, guests[..n]) ensures e !in GuestEps(h, n, guests[n]) {
        var i := InHostEps(h, guests[..n], e);
      }
      DistinctConcat(HostEps(h, guests[..n]), GuestEps(h, n, guests[n]));
    }
  }

  lemma {:induction false} AllDistinct(suts: seq<seq<Guest>>)
    requires forall h, g :: 0 <= h < |suts| && 0 <= g < |suts[h]| ==> Distinct(suts[h][g].vifs)
    ensures Distinct(All(suts))
  {
    if suts == [] {
    } else {
      var n := |suts| - 1;
      AllDistinct(suts[..n]);
      HostEpsDistinct(n, suts[n]);
      forall e | e in All(suts[..n]) ensures e !in HostEps(n, suts[n]) {
        var i := PlaceOf(suts[..n], e);
        if e in HostEps(n, suts[n]) { var j := InHostEps(n, suts[n], e); }
      }
      DistinctConcat(All(suts[..n]), HostEps(n, suts[n]));
    }
  }

  lemma DistinctConcat(a: seq<EndPoint>, b: seq<EndPoint>)
    requires Distinct(a) && Distinct(b) && forall x :: x in a ==> x !in b
    ensures Distinct(a + b)
  {
    forall i, j | 0 <= i < j < |a + b| ensures (a + b)[i] != (a + b)[j] {
      if i < |a| <= j { assert a[i] in a && b[j - |a|] in b; }
    }
  }

  // Without criteria every interface is visited.
  lemma {:induction false} VisitedAll(sep: EndPoint, eps: seq<EndPoint>)
    ensures Visited(NO_CRITERIA, sep, eps) == eps
  {
    if eps == [] {
    } else {
      var n := |eps| - 1;
      VisitedAll(sep, eps[..n]);
      assert eps == eps[..n] + [eps[n]];
    }
  }

  // The source is the very first interface there is.
  lemma SourceFirst(suts: seq<seq<Guest>>, tc: Criteria)
    requires SourceOf(suts, tc).Success?
    ensures All(suts) != [] && SourceOf(suts, tc).value == All(suts)[0]
  {
    assert suts[0][..1][..0] == [] && HostEps(0, suts[0][..1]) == GuestEps(0, 0, suts[0][0]);
    HostPrefix(0, suts[0], 1);
    assert suts[..1][..0] == [] && All(suts[..1]) == HostEps(0, suts[0]);
    AllPrefix(suts, 1);
    assert GuestEps(0, 0, suts[0][0])[0] == All(suts)[0];
  }

  // With addresses on all interfaces and no criteria, the search does not fail.
  lemma SearchSucceeds(suts: seq<seq<Guest>>, sep: EndPoint)
    requires sep in All(suts) && forall e :: e in All(suts) ==> e.vif.ifAddr.Some?
    ensures !SearchFails(NO_CRITERIA, Facts(All(suts)), sep, suts)
  {
    var facts := Facts(All(suts));
    forall h, g | 0 <= h < |suts| && 0 <= g < |suts[h]| ensures !GuestFails(NO_CRITERIA, facts, sep, h, g, suts[h][g]) {
      forall e | e in GuestEps(h, g, suts[h][g]) ensures Comparable(facts, sep, e) {
        var i :| 0 <= i < |suts[h][g].vifs| && GuestEps(h, g, suts[h][g])[i] == e;
        InAll(suts, h, g, i);
      }
    }
  }
}
