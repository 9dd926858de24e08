/** How nat.py lends the endpoints of one verification entry other addresses and gives them
    their own back. */
module NatVms {
  import opened Wrappers
  import opened Seqs
  import opened Vswitch
  import opened Pal

  // ---- the addresses ----

  const CLIENT_NET4: nat := (172 * 256 + 10) * 0x1_0000
  const SERVER_NET4: nat := (192 * 256 + 200) * 0x1_0000
  const CLIENT_NET6: nat := 0x2001_1000_1000_1000_0000_0000_ac0a_0000
  const SERVER_NET6: nat := 0x2001_1000_1000_1000_0000_0000_c0c8_0000
  const NET_SIZE: nat := 0x1_0000

  const SNAT_ADDR_IDX_START: nat := 10
  const SNAT_ADDR_NUM: nat := 10
  const ENDPOINT_ADDR_IDX_START: nat := 100

  // The address lent to the endpoint at a position: the source is on the client network, the
  // destinations are on the server network.
  function LentTo(i: nat): InterfaceAddress {
    if i == 0 then
      InterfaceAddress(CLIENT_NET4 + ENDPOINT_ADDR_IDX_START, CLIENT_NET4,
                       CLIENT_NET6 + ENDPOINT_ADDR_IDX_START, CLIENT_NET6)
    else
      InterfaceAddress(SERVER_NET4 + ENDPOINT_ADDR_IDX_START + i - 1, SERVER_NET4,
                       SERVER_NET6 + ENDPOINT_ADDR_IDX_START + i - 1, SERVER_NET6)
  }

  // The server network has an address for each of n endpoints (the first is the source).
  predicate EnoughAddresses(n: nat) {
    n <= NET_SIZE - ENDPOINT_ADDR_IDX_START + 1
  }

  function PoolAddr(k: nat): (nat, nat) {
    (SERVER_NET4 + SNAT_ADDR_IDX_START + k, SERVER_NET6 + SNAT_ADDR_IDX_START + k)
  }

  // What the endpoint at a position is to hold: 172.10.0.100 for the source, 192.200.0.100 and up in
  // order for the destinations, each in its /16, and the IPv6 addresses that go with them.
  predicate HoldsPlace(i: nat, a: InterfaceAddress) {
    && a.ipv4 == (if i == 0 then Dotted(172, 10, 0, 100) else Dotted(192, 200, 0, 100) + (i - 1))
    && a.ipv4Net == (if i == 0 then Dotted(172, 10, 0, 0) else Dotted(192, 200, 0, 0))
    && a.ipv6 == Mapped(a.ipv4) && a.ipv6Net == Mapped(a.ipv4Net)
  }

  lemma LentHolds(i: nat)
    ensures HoldsPlace(i, LentTo(i))
  {
    if i == 0 {
      assert CLIENT_NET4 == Dotted(172, 10, 0, 0) && CLIENT_NET6 == Mapped(CLIENT_NET4);
    } else {
      assert SERVER_NET4 == Dotted(192, 200, 0, 0) && SERVER_NET6 == Mapped(SERVER_NET4);
    }
  }

  // There are enough as long as the last one is still on the server network.
  lemma EnoughIff(n: nat)
    requires n > 1
    ensures EnoughAddresses(n) <==> LentTo(n - 1).ipv4 <= Dotted(192, 200, 255, 255)
  {
    LentHolds(n - 1);
  }

  // The source is on the client network, the destinations on the network of the translation pool.
  lemma LentSides(i: nat, k: nat)
    requires EnoughAddresses(i + 1) && k < SNAT_ADDR_NUM
    ensures PoolAddr(k) == (Dotted(192, 200, 0, 10) + k, Mapped(Dotted(192, 200, 0, 10) + k))
    ensures PoolAddr(SNAT_ADDR_NUM - 1).0 == Dotted(192, 200, 0, 19)
    ensures LentTo(i).ipv4Net <= PoolAddr(k).0 < LentTo(i).ipv4Net + NET_SIZE <==> i > 0
    ensures LentTo(i).ipv6Net <= PoolAddr(k).1 < LentTo(i).ipv6Net + NET_SIZE <==> i > 0
  {
    LentHolds(i);
    assert SERVER_NET4 == Dotted(192, 200, 0, 0) && SERVER_NET6 == Mapped(SERVER_NET4);
  }

  // While lent, addresses are pairwise distinct, lie within their network, and are none of the
  // translation pool's nor the router's.
  lemma LentAddresses(i: nat, j: nat, k: nat)
    requires EnoughAddresses(i + 1) && EnoughAddresses(j + 1) && i != j && k < SNAT_ADDR_NUM
    ensures LentTo(i).ipv4 != LentTo(j).ipv4 && LentTo(i).ipv6 != LentTo(j).ipv6
    ensures LentTo(i).ipv4 != PoolAddr(k).0 && LentTo(i).ipv6 != PoolAddr(k).1
    ensures LentTo(i).ipv4 != Dotted(172, 10, 0, 1) && LentTo(i).ipv4 != Dotted(192, 200, 0, 1)
    ensures LentTo(i).ipv6 != Mapped(Dotted(172, 10, 0, 1)) && LentTo(i).ipv6 != Mapped(Dotted(192, 200, 0, 1))
    ensures LentTo(i).ipv4Net <= LentTo(i).ipv4 < LentTo(i).ipv4Net + NET_SIZE
    ensures LentTo(i).ipv6Net <= LentTo(i).ipv6 < LentTo(i).ipv6Net + NET_SIZE
  {
    LentHolds(i);
    LentHolds(j);
  }

  // ---- what configuring and restoring do to the interfaces ----

  datatype Slot = Slot(addr: Option<InterfaceAddress>, saved: Option<InterfaceAddress>)

  function SlotOf(v: Vif): Slot
    reads v
  {
    Slot(v.ifAddr, v.restoreIfAddr)
  }

  ghost function Slots(vifs: set<Vif>): map<Vif, Slot>
    reads vifs
  {
    map v | v in vifs :: SlotOf(v)
  }

  // Each interface in turn saves its address and takes the one of its position.
  ghost function Configured(m: map<Vif, Slot>, vifs: seq<Vif>): map<Vif, Slot>
    requires forall v :: v in vifs ==> v in m
    ensures Configured(m, vifs).Keys == m.Keys
  {
    if vifs == [] then m
    else
      var n := |vifs| - 1;
      var was := Configured(m, vifs[..n]);
      was[vifs[n] := Slot(Some(LentTo(n)), was[vifs[n]].addr)]
  }

  // Each interface in turn takes back what it saved.
  ghost function Restored(m: map<Vif, Slot>, vifs: seq<Vif>): map<Vif, Slot>
    requires forall v :: v in vifs ==> v in m
    ensures Restored(m, vifs).Keys == m.Keys
  {
    if vifs == [] then m
    else
      var n := |vifs| - 1;
      var was := Restored(m, vifs[..n]);
      was[vifs[n] := Slot(was[vifs[n]].saved, None)]
  }

  function Uses(vifs: seq<Vif>, v: Vif): nat {
    multiset(vifs)[v]
  }

  lemma UsesLast(vifs: seq<Vif>, v: Vif)
    requires vifs != []
    ensures Uses(vifs, v) == Uses(vifs[..|vifs| - 1], v) + if vifs[|vifs| - 1] == v then 1 else 0
  {
    assert vifs == vifs[..|vifs| - 1] + [vifs[|vifs| - 1]];
  }

  // An interface used once holds its own address saved; used again, it has saved a lent one.
  lemma {:induction false} ConfiguredSlot(m: map<Vif, Slot>, vifs: seq<Vif>, v: Vif)
    requires (forall x :: x in vifs ==> x in m) && v in m
    ensures var s := Configured(m, vifs)[v];
      && (Uses(vifs, v) == 0 ==> s == m[v])
      && (Uses(vifs, v) == 1 ==> s.saved == m[v].addr)
      && (Uses(vifs, v) >= 1 ==> exists i :: 0 <= i < |vifs| && vifs[i] == v && s.addr == Some(LentTo(i)))
  {
    if vifs == [] {
    } else {
      var n := |vifs| - 1;
      UsesLast(vifs, v);
      ConfiguredSlot(m, vifs[..n], v);
      if vifs[n] != v && Uses(vifs, v) >= 1 {
        var i :| 0 <= i < n && vifs[..n][i] == v && Configured(m, vifs[..n])[v].addr == Some(LentTo(i));
        assert vifs[i] == v;
      }
    }
  }

  // Restoring an interface twice loses its address.
  lemma {:induction false} RestoredSlot(m: map<Vif, Slot>, vifs: seq<Vif>, v: Vif)
    requires (forall x :: x in vifs ==> x in m) && v in m
    ensures Restored(m, vifs)[v] ==
              if Uses(vifs, v) == 0 then m[v]
              else if Uses(vifs, v) == 1 then Slot(m[v].saved, None)
              else Slot(None, None)
  {
    if vifs == [] {
    } else {
      UsesLast(vifs, v);
      RestoredSlot(m, vifs[..|vifs| - 1], v);
    }
  }

  lemma {:induction false} DistinctUses(vifs: seq<Vif>)
    ensures Distinct(vifs) <==> forall v :: Uses(vifs, v) <= 1
  {
    if vifs == [] {
    } else {
      var n := |vifs| - 1;
      DistinctUses(vifs[..n]);
      forall v ensures Uses(vifs, v) == Uses(vifs[..n], v) + if vifs[n] == v then 1 else 0 { UsesLast(vifs, v); }
      assert vifs[n] in vifs[..n] <==> Uses(vifs[..n], vifs[n]) > 0;
    }
  }

  // Restoring after configuring gives every interface its own address back exactly when no
  // interface takes part twice.
  lemma RestoreUndoesConfigure(m: map<Vif, Slot>, vifs: seq<Vif>)
    requires forall v :: v in vifs ==> v in m && m[v].addr.Some? && m[v].saved == None
    ensures Restored(Configured(m, vifs), vifs) == m <==> Distinct(vifs)
  {
    var r := Restored(Configured(m, vifs), vifs);
    DistinctUses(vifs);
    forall v | v in m ensures r[v] == m[v] <==> Uses(vifs, v) <= 1 {
      ConfiguredSlot(m, vifs, v);
      RestoredSlot(Configured(m, vifs), vifs, v);
      assert v in vifs <==> Uses(vifs, v) > 0;
    }
    forall v | v !in m ensures Uses(vifs, v) == 0 { assert v !in vifs; }
  }

  // In between, every endpoint of a list without repetitions holds the address of its position
  // and keeps its own saved; nobody else is touched.
  lemma LentInPlace(m: map<Vif, Slot>, vifs: seq<Vif>, i: nat)
    requires (forall v :: v in vifs ==> v in m) && Distinct(vifs) && i < |vifs|
    ensures Configured(m, vifs)[vifs[i]] == Slot(Some(LentTo(i)), m[vifs[i]].addr) && HoldsPlace(i, LentTo(i))
    ensures forall v :: v in m && v !in vifs ==> Configured(m, vifs)[v] == m[v]
  {
    LentHolds(i);
    DistinctUses(vifs);
    ConfiguredSlot(m, vifs, vifs[i]);
    assert Uses(vifs, vifs[i]) == 1 by { assert vifs[i] in multiset(vifs); }
    forall v | v in m && v !in vifs ensures Configured(m, vifs)[v] == m[v] { ConfiguredSlot(m, vifs, v); }
  }

  // ---- the operations ----

  function VifSeq(eps: seq<EndPoint>): seq<Vif> {
    seq(|eps|, i requires 0 <= i < |eps| => eps[i].vif)
  }

  // The endpoints of an entry: its source, then its destinations.
  function EndPoints(v: Vte): seq<EndPoint> {
    [v.sep] + FullDeps(v)
  }

  function Used(v: Vte): seq<Vif> {
    VifSeq(EndPoints(v))
  }

  ghost function SetOf(vifs: seq<Vif>): set<Vif> {
    set x | x in vifs
  }

  method Lend(v: Vif, i: nat, ghost all: set<Vif>)
    requires v in all
    modifies v`ifAddr, v`restoreIfAddr
    ensures Slots(all) == old(Slots(all))[v := Slot(Some(LentTo(i)), old(v.ifAddr))]
  {
    v.restoreIfAddr := v.ifAddr;
    v.ifAddr := Some(LentTo(i));
  }

  method GiveBack(v: Vif, ghost all: set<Vif>)
    requires v in all
    modifies v`ifAddr, v`restoreIfAddr
    ensures Slots(all) == old(Slots(all))[v := Slot(old(v.restoreIfAddr), None)]
  {
    v.ifAddr := v.restoreIfAddr;
    v.restoreIfAddr := None;
  }

  lemma ConfiguredNext(was: map<Vif, Slot>, vifs: seq<Vif>, i: nat)
    requires i < |vifs| && forall v :: v in vifs ==> v in was
    ensures vifs[i] in Configured(was, vifs[..i])
    ensures var now := Configured(was, vifs[..i]);
      Configured(was, vifs[..i + 1]) == now[vifs[i] := Slot(Some(LentTo(i)), now[vifs[i]].addr)]
  {
    assert vifs[..i + 1][..i] == vifs[..i];
  }

  lemma RestoredNext(was: map<Vif, Slot>, vifs: seq<Vif>, i: nat)
    requires i < |vifs| && forall v :: v in vifs ==> v in was
    ensures vifs[i] in Restored(was, vifs[..i])
    ensures var now := Restored(was, vifs[..i]);
      Restored(was, vifs[..i + 1]) == now[vifs[i] := Slot(now[vifs[i]].saved, None)]
  {
    assert vifs[..i + 1][..i] == vifs[..i];
  }

  // The loop over the destinations; `used` lists the source before them.
  method LendDeps(deps: seq<EndPoint>, ghost used: seq<Vif>, ghost was: map<Vif, Slot>) returns (ok: bool)
    requires |used| == |deps| + 1 && used[1..] == VifSeq(deps) && was.Keys == SetOf(used)
    requires Slots(SetOf(used)) == Configured(was, used[..1])
    modifies SetOf(used)`ifAddr, SetOf(used)`restoreIfAddr
    ensures ok <==> EnoughAddresses(|used|)
    ensures ok ==> Slots(SetOf(used)) == Configured(was, used)
  {
    var idx := 0;
    while idx < |deps|
      invariant idx <= |deps| && EnoughAddresses(idx + 1)
      invariant Slots(SetOf(used)) == Configured(was, used[..idx + 1])
    {
      if ENDPOINT_ADDR_IDX_START + idx >= NET_SIZE { return false; }
      assert deps[idx].vif == used[1..][idx] == used[idx + 1];
      assert used[idx + 1] in used;
      ConfiguredNext(was, used, idx + 1);
      assert Slots(SetOf(used))[used[idx + 1]].addr == used[idx + 1].ifAddr;
      Lend(deps[idx].vif, idx + 1, SetOf(used));
      idx := idx + 1;
    }
    assert used[..idx + 1] == used;
    return true;
  }

  method GiveBackDeps(deps: seq<EndPoint>, ghost used: seq<Vif>, ghost was: map<Vif, Slot>)
    requires |used| == |deps| + 1 && used[1..] == VifSeq(deps) && was.Keys == SetOf(used)
    requires Slots(SetOf(used)) == Restored(was, used[..1])
    modifies SetOf(used)`ifAddr, SetOf(used)`restoreIfAddr
    ensures Slots(SetOf(used)) == Restored(was, used)
  {
    var i := 0;
    while i < |deps|
      invariant i <= |deps| && Slots(SetOf(used)) == Restored(was, used[..i + 1])
    {
      assert used[1..][i] == deps[i].vif && used[i + 1] in used;
      RestoredNext(was, used, i + 1);
      assert Slots(SetOf(used))[used[i + 1]].saved == used[i + 1].restoreIfAddr;
      GiveBack(deps[i].vif, SetOf(used));
      i := i + 1;
    }
    assert used[..i + 1] == used;
  }

  // The source comes first, then the destinations on its node, on other nodes and on other hosts.
  lemma UsedParts(v: Vte)
    ensures |Used(v)| == |FullDeps(v)| + 1 && Used(v)[0] == v.sep.vif && Used(v)[1..] == VifSeq(FullDeps(v))
    ensures var (x, y) := (1 + |v.numa|, 1 + |v.numa| + |v.xnuma|);
      && x <= y <= |Used(v)| && Used(v)[1..x] == VifSeq(v.numa)
      && Used(v)[x..y] == VifSeq(v.xnuma) && Used(v)[y..] == VifSeq(v.xhost)
  {
    forall i | 0 <= i < |FullDeps(v)| ensures Used(v)[i + 1] == FullDeps(v)[i].vif {
      assert EndPoints(v)[i + 1] == FullDeps(v)[i];
    }
  }

  // Lends the endpoints of an entry addresses; false when the server network has too few.
  method ConfigureEntry(vte: Entry) returns (ok: bool)
    modifies SetOf(Used(vte.View()))`ifAddr, SetOf(Used(vte.View()))`restoreIfAddr
    ensures vte.View() == old(vte.View())
    ensures ok <==> EnoughAddresses(|EndPoints(vte.View())|)
    ensures ok ==> Slots(SetOf(Used(vte.View()))) == Configured(old(Slots(SetOf(Used(vte.View())))), Used(vte.View()))
  {
    ghost var used := Used(vte.View());
    ghost var was := Slots(SetOf(used));
    UsedParts(vte.View());
    ConfiguredNext(was, used, 0);
    assert was[used[0]].addr == used[0].ifAddr;
    var sep := vte.sep;
    Lend(sep.vif, 0, SetOf(used));
    var deps := vte.GetFullDeps();
    ok := LendDeps(deps, used, was);
  }

  method RestoreEntry(vte: Entry)
    modifies SetOf(Used(vte.View()))`ifAddr, SetOf(Used(vte.View()))`restoreIfAddr
    ensures vte.View() == old(vte.View())
    ensures Slots(SetOf(Used(vte.View()))) == Restored(old(Slots(SetOf(Used(vte.View())))), Used(vte.View()))
  {
    ghost var used := Used(vte.View());
    ghost var was := Slots(SetOf(used));
    UsedParts(vte.View());
    RestoredNext(was, used, 0);
    assert was[used[0]].saved == used[0].restoreIfAddr;
    var sep := vte.sep;
    GiveBack(sep.vif, SetOf(used));
    var deps := vte.GetFullDeps();
    GiveBackDeps(deps, used, was);
  }

  // The interfaces of the first allowed entry.
  ghost function FirstUsed(vt: VerifyTopology): seq<Vif>
    reads vt, vt.allow
  {
    if vt.allow == [] then [] else Used(vt.allow[0].View())
  }

  // Trims the topology to its first allowed entry and lends its endpoints addresses; false when
  // there is no such entry or the server network runs out of addresses.
  method ConfigureVms(vt: VerifyTopology) returns (ok: bool)
    modifies vt, SetOf(FirstUsed(vt))`ifAddr, SetOf(FirstUsed(vt))`restoreIfAddr
    ensures ok <==> old(vt.allow) != [] && EnoughAddresses(|old(FirstUsed(vt))|)
    ensures if old(vt.allow) == [] then vt.allow == [] && vt.deny == old(vt.deny)
            else vt.allow == [old(vt.allow)[0]] && vt.deny == []
    ensures FirstUsed(vt) == old(FirstUsed(vt))
    ensures ok ==> Slots(SetOf(FirstUsed(vt))) == Configured(old(Slots(SetOf(FirstUsed(vt)))), FirstUsed(vt))
  {
    if |vt.allow| < 1 { return false; }
    vt.allow := vt.allow[..1];
    vt.deny := [];
    assert FirstUsed(vt) == old(FirstUsed(vt));
    ok := ConfigureEntry(vt.allow[0]);
  }

  // Gives the endpoints of the first allowed entry their addresses back.
  method RestoreVms(vt: VerifyTopology) returns (ok: bool)
    modifies SetOf(FirstUsed(vt))`ifAddr, SetOf(FirstUsed(vt))`restoreIfAddr
    ensures ok <==> vt.allow != []
    ensures FirstUsed(vt) == old(FirstUsed(vt))
    ensures Slots(SetOf(FirstUsed(vt))) == Restored(old(Slots(SetOf(FirstUsed(vt)))), FirstUsed(vt))
  {
    if vt.allow == [] { return false; }
    RestoreEntry(vt.allow[0]);
    ok := true;
  }

  // ---- on the oracle's topologies ----

  ghost predicate OwnVifs(eps: seq<EndPoint>) {
    forall e, e' :: e in eps && e' in eps && e.vif == e'.vif ==> e == e'
  }

  lemma {:induction false} FilterDistinct(xs: seq<EndPoint>, p: EndPoint -> bool)
    requires Distinct(xs)
    ensures Distinct(Filter(xs, p)) && forall x :: x in Filter(xs, p) ==> x in xs && p(x)
  {
    if xs == [] {
    } else {
      var n := |xs| - 1;
      FilterDistinct(xs[..n], p);
      assert xs == xs[..n] + [xs[n]];
      assert xs[n] !in xs[..n];
    }
  }

  // No interface takes part twice in an entry of the oracle, so there restoring undoes configuring.
  lemma OracleEntryDistinct(facts: map<Vif, Fact>, eps: seq<EndPoint>, sep: EndPoint, v: Vte)
    requires Distinct(eps) && OwnVifs(eps) && sep in eps
    requires v in Oracle(facts, eps, sep).allow
    ensures Distinct(Used(v))
  {
    assert v == EntryFor(facts, eps, sep, true);
    FilterDistinct(eps, Matching(facts, sep, true, Numa));
    FilterDistinct(eps, Matching(facts, sep, true, XNuma));
    FilterDistinct(eps, Matching(facts, sep, true, XHost));
    DistinctConcat(v.numa, v.xnuma);
    DistinctConcat(v.numa + v.xnuma, v.xhost);
    DistinctConcat([sep], FullDeps(v));
    var all := EndPoints(v);
    forall i, j | 0 <= i < j < |all| ensures Used(v)[i] != Used(v)[j] {
      assert all[i] in all && all[j] in all && all[i] in eps && all[j] in eps;
    }
  }

  lemma NatRoundTrip(facts: map<Vif, Fact>, eps: seq<EndPoint>, sep: EndPoint, v: Vte, m: map<Vif, Slot>)
    requires Distinct(eps) && OwnVifs(eps) && sep in eps
    requires v in Oracle(facts, eps, sep).allow
    requires forall x :: x in Used(v) ==> x in m && m[x].addr.Some? && m[x].saved == None
    ensures Restored(Configured(m, Used(v)), Used(v)) == m
    ensures forall i :: 0 <= i < |Used(v)| ==>
              Configured(m, Used(v))[Used(v)[i]] == Slot(Some(LentTo(i)), m[Used(v)[i]].addr)
  {
    OracleEntryDistinct(facts, eps, sep, v);
    RestoreUndoesConfigure(m, Used(v));
    forall i | 0 <= i < |Used(v)|
      ensures Configured(m, Used(v))[Used(v)[i]] == Slot(Some(LentTo(i)), m[Used(v)[i]].addr)
    {
      LentInPlace(m, Used(v), i);
    }
  }

  // ---- configuring and restoring the oracle's topology ----

  // The first allowed entry of the oracle's answer.
  ghost function AllowedEntry(suts: seq<seq<Guest>>): Option<Vte>
    reads VifsOf(All(suts))
  {
    match SourceOf(suts, NO_CRITERIA)
    case Failure(_) => None
    case Success(sep) =>
      var allow := Oracle(Facts(All(suts)), All(suts), sep).allow;
      if allow == [] then None else Some(allow[0])
  }

  // Every endpoint holds the address of its position and has its own saved; nobody else is touched.
  ghost predicate LentOut(lent: map<Vif, Slot>, was: map<Vif, Slot>, used: seq<Vif>) {
    && lent.Keys == was.Keys
    && (forall i :: 0 <= i < |used| ==>
          && used[i] in was && lent[used[i]].saved == was[used[i]].addr
          && lent[used[i]].addr.Some? && HoldsPlace(i, lent[used[i]].addr.value))
    && forall v :: v in was && v !in used ==> lent[v] == was[v]
  }

  // The oracle is asked, its topology configured and restored: every interface is then as it was,
  // and in between the endpoints of the first allowed entry hold lent addresses.
  method LendAndReturn(suts: seq<seq<Guest>>) returns (ok: bool, ghost lent: map<Vif, Slot>)
    requires Distinct(All(suts)) && OwnVifs(All(suts))
    requires forall e :: e in All(suts) ==> e.vif.ifAddr.Some? && e.vif.restoreIfAddr == None
    modifies VifsOf(All(suts))`ifAddr, VifsOf(All(suts))`restoreIfAddr
    ensures ok <==> old(AllowedEntry(suts).Some? && EnoughAddresses(|Used(AllowedEntry(suts).value)|))
    ensures ok ==> Slots(VifsOf(All(suts))) == old(Slots(VifsOf(All(suts))))
    ensures ok ==> LentOut(lent, old(Slots(VifsOf(All(suts)))), Used(old(AllowedEntry(suts)).value))
  {
    ok, lent := false, map[];
    ghost var eps, facts := All(suts), Facts(All(suts));
    if SourceOf(suts, NO_CRITERIA).Success? {
      InAll(suts, 0, 0, 0);
      SearchSucceeds(suts, SourceOf(suts, NO_CRITERIA).value);
      VisitedAll(SourceOf(suts, NO_CRITERIA).value, eps);
    }
    var vt := VerifyTopologyGet(suts, NO_CRITERIA);
    if vt.Failure? { return; }
    ok, lent := LendTopology(vt.value, eps, facts, SourceOf(suts, NO_CRITERIA).value);
  }

  method LendTopology(vt: VerifyTopology, ghost eps: seq<EndPoint>, ghost facts: map<Vif, Fact>, ghost sep: EndPoint)
    returns (ok: bool, ghost lent: map<Vif, Slot>)
    requires vt.Valid() && vt.View() == Oracle(facts, eps, sep) && Distinct(eps) && OwnVifs(eps) && sep in eps
    requires forall e :: e in eps ==> e.vif.ifAddr.Some? && e.vif.restoreIfAddr == None
    modifies vt, VifsOf(eps)`ifAddr, VifsOf(eps)`restoreIfAddr
    ensures var allow := Oracle(facts, eps, sep).allow;
      && (ok <==> allow != [] && EnoughAddresses(|Used(allow[0])|))
      && (ok ==> Slots(VifsOf(eps)) == old(Slots(VifsOf(eps))))
      && (ok ==> LentOut(lent, old(Slots(VifsOf(eps))), Used(allow[0])))
  {
    ok, lent := false, map[];
    ghost var used, was := FirstUsed(vt), Slots(VifsOf(eps));
    ghost var wasUsed := Slots(SetOf(used));
    if vt.allow != [] { FirstUsedOnce(vt, facts, eps, sep); }
    ok := ConfigureVms(vt);
    if !ok { return; }
    lent := Slots(VifsOf(eps));
    LentFrom(was, wasUsed, Slots(SetOf(used)), lent, used);
    ReturnTopology(vt, VifsOf(eps), was, wasUsed);
  }

  method ReturnTopology(vt: VerifyTopology, ghost all: set<Vif>, ghost was: map<Vif, Slot>,
                        ghost wasUsed: map<Vif, Slot>)
    requires vt.allow != [] && Distinct(FirstUsed(vt)) && SetOf(FirstUsed(vt)) <= all
    requires SameOn(was, wasUsed, FirstUsed(vt)) && SameOff(was, Slots(all), FirstUsed(vt))
    requires forall v :: v in wasUsed ==> wasUsed[v].addr.Some? && wasUsed[v].saved == None
    requires Slots(SetOf(FirstUsed(vt))) == Configured(wasUsed, FirstUsed(vt))
    modifies SetOf(FirstUsed(vt))`ifAddr, SetOf(FirstUsed(vt))`restoreIfAddr
    ensures Slots(all) == was
  {
    ghost var used := FirstUsed(vt);
    RestoreUndoesConfigure(wasUsed, used);
    var ok := RestoreVms(vt);
    assert Slots(SetOf(used)) == wasUsed;
    ReturnedFrom(was, wasUsed, Slots(all), used);
  }

  lemma FirstUsedOnce(vt: VerifyTopology, facts: map<Vif, Fact>, eps: seq<EndPoint>, sep: EndPoint)
    requires vt.allow != [] && vt.View() == Oracle(facts, eps, sep) && Distinct(eps) && OwnVifs(eps) && sep in eps
    ensures FirstUsed(vt) == Used(Oracle(facts, eps, sep).allow[0]) && Distinct(FirstUsed(vt))
    ensures SetOf(FirstUsed(vt)) <= VifsOf(eps)
  {
    assert vt.View().allow[0] == vt.allow[0].View();
    UsedAmong(facts, eps, sep, vt.allow[0].View());
    OracleEntryDistinct(facts, eps, sep, vt.allow[0].View());
  }

  // The interfaces used are among those the oracle visits.
  lemma UsedAmong(facts: map<Vif, Fact>, eps: seq<EndPoint>, sep: EndPoint, v: Vte)
    requires sep in eps && v in Oracle(facts, eps, sep).allow
    ensures forall x :: x in Used(v) ==> x in VifsOf(eps)
  {
    assert v == EntryFor(facts, eps, sep, true);
    forall x | x in Used(v) ensures x in VifsOf(eps) {
      var i :| 0 <= i < |Used(v)| && Used(v)[i] == x;
      var e := EndPoints(v)[i];
      assert e in EndPoints(v);
      InFilter(eps, Matching(facts, sep, true, Numa), e);
      InFilter(eps, Matching(facts, sep, true, XNuma), e);
      InFilter(eps, Matching(facts, sep, true, XHost), e);
    }
  }

  // A map holds the same as another on the interfaces used.
  ghost predicate SameOn(m: map<Vif, Slot>, part: map<Vif, Slot>, used: seq<Vif>) {
    part.Keys == SetOf(used) && forall v :: v in used ==> v in m && m[v] == part[v]
  }

  ghost predicate SameOff(m: map<Vif, Slot>, m': map<Vif, Slot>, used: seq<Vif>) {
    m.Keys == m'.Keys && forall v :: v in m && v !in used ==> m'[v] == m[v]
  }

  lemma LentFrom(was: map<Vif, Slot>, wasUsed: map<Vif, Slot>, nowUsed: map<Vif, Slot>, lent: map<Vif, Slot>,
                 used: seq<Vif>)
    requires Distinct(used) && SameOn(was, wasUsed, used) && SameOn(lent, nowUsed, used) && SameOff(was, lent, used)
    requires nowUsed == Configured(wasUsed, used)
    ensures LentOut(lent, was, used)
  {
    forall i | 0 <= i < |used|
      ensures used[i] in was && lent[used[i]].saved == was[used[i]].addr
              && lent[used[i]].addr.Some? && HoldsPlace(i, lent[used[i]].addr.value)
    {
      LentInPlace(wasUsed, used, i);
    }
  }

  lemma ReturnedFrom(was: map<Vif, Slot>, wasUsed: map<Vif, Slot>, now: map<Vif, Slot>, used: seq<Vif>)
    requires SameOn(was, wasUsed, used) && SameOn(now, wasUsed, used) && SameOff(was, now, used)
    ensures now == was
  {
    forall v | v in was ensures now[v] == was[v] { if v in used { assert was[v] == wasUsed[v]; } }
  }
}
