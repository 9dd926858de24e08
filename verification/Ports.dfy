/** What the flow generators read off a bridge, as values: its virtual
    interfaces, its VNI index, its tunnel ports and its uplinks. */
module Ports {
  import opened Wrappers
  import opened OpenFlow

  datatype Rip = FlowRip | FixedRip(ip: Ip)
  datatype TunnelKey = FlowKey | FixedKey(vni: nat)
  datatype TunnelPort = TunnelPort(rip: Rip, key: TunnelKey, ofp: nat)

  datatype VifView = VifView(ofp: nat, vni: nat, mac: Option<Mac>)

  // One key of the insertion-ordered dictionary from VNIs to the interfaces on them.
  datatype VniEntry<T> = VniEntry(vni: nat, vifs: seq<T>)

  datatype BridgeView = BridgeView(
    vifs: seq<VifView>, vnis: seq<VniEntry<VifView>>, tnls: seq<TunnelPort>, uplinks: seq<nat>)

  function Ofps(vifs: seq<VifView>): seq<nat> {
    seq(|vifs|, i requires 0 <= i < |vifs| => vifs[i].ofp)
  }

  function TnlOfps(tnls: seq<TunnelPort>): seq<nat> {
    seq(|tnls|, i requires 0 <= i < |tnls| => tnls[i].ofp)
  }

  function Vnis(vifs: seq<VifView>): seq<nat> {
    seq(|vifs|, i requires 0 <= i < |vifs| => vifs[i].vni)
  }

  // ---- the VNI index ----

  // The position of a key, or the length when it is missing.
  function FindKey<T>(vnis: seq<VniEntry<T>>, vni: nat): (r: nat)
    ensures r <= |vnis|
    ensures r < |vnis| ==> vnis[r].vni == vni
    ensures forall j :: 0 <= j < r ==> vnis[j].vni != vni
  {
    if vnis == [] then 0
    else
      var r := FindKey(vnis[..|vnis| - 1], vni);
      if r == |vnis| - 1 && vnis[r].vni != vni then r + 1 else r
  }

  // Appends x to the list under a VNI, opening the key at the end when it is missing.
  function AddVni<T>(vnis: seq<VniEntry<T>>, vni: nat, x: T): seq<VniEntry<T>> {
    var i := FindKey(vnis, vni);
    if i < |vnis| then vnis[i := VniEntry(vni, vnis[i].vifs + [x])] else vnis + [VniEntry(vni, [x])]
  }

  function VniIndex<T>(xs: seq<T>, keys: seq<nat>): seq<VniEntry<T>>
    requires |xs| == |keys|
  {
    if xs == [] then []
    else
      var n := |xs| - 1;
      AddVni(VniIndex(xs[..n], keys[..n]), keys[n], xs[n])
  }

  // The members of xs whose key is vni, in order.
  function Sublist<T>(xs: seq<T>, keys: seq<nat>, vni: nat): seq<T>
    requires |xs| == |keys|
  {
    if xs == [] then []
    else
      var n := |xs| - 1;
      Sublist(xs[..n], keys[..n], vni) + (if keys[n] == vni then [xs[n]] else [])
  }

  // An index has no more entries than there are members.
  lemma {:induction false} VniIndexSmall<T>(xs: seq<T>, keys: seq<nat>)
    requires |xs| == |keys|
    ensures |VniIndex(xs, keys)| <= |xs|
  {
    if xs == [] {
      // no member, no entry
    } else {
      VniIndexSmall(xs[..|xs| - 1], keys[..|xs| - 1]);
    }
  }

  function KeysOf<T>(vnis: seq<VniEntry<T>>): seq<nat> {
    seq(|vnis|, i requires 0 <= i < |vnis| => vnis[i].vni)
  }

  ghost predicate UniqueKeys<T>(vnis: seq<VniEntry<T>>) {
    forall i, j :: 0 <= i < j < |vnis| ==> vnis[i].vni != vnis[j].vni
  }

  // An index groups xs by key: one entry per key in use, no entry empty, each list complete and in order.
  ghost predicate Groups<T>(vnis: seq<VniEntry<T>>, xs: seq<T>, keys: seq<nat>)
    requires |xs| == |keys|
  {
    && UniqueKeys(vnis)
    && (forall i :: 0 <= i < |vnis| ==> vnis[i].vifs == Sublist(xs, keys, vnis[i].vni))
    && (forall i :: 0 <= i < |vnis| ==> vnis[i].vifs != [])
    && (forall i :: 0 <= i < |xs| ==> keys[i] in KeysOf(vnis))
  }

  lemma {:induction false} SublistEmpty<T>(xs: seq<T>, keys: seq<nat>, vni: nat)
    requires |xs| == |keys| && vni !in keys
    ensures Sublist(xs, keys, vni) == []
  {
    if xs == [] {
    } else {
      SublistEmpty(xs[..|xs| - 1], keys[..|xs| - 1], vni);
    }
  }

  // What appending x under a key does to an index whose entries were `was`.
  ghost predicate Added<T>(was: seq<VniEntry<T>>, now: seq<VniEntry<T>>, vni: nat, x: T) {
    if vni in KeysOf(was) then
      && |now| == |was|
      && forall i :: 0 <= i < |was| ==>
           now[i] == if was[i].vni == vni then VniEntry(vni, was[i].vifs + [x]) else was[i]
    else
      now == was + [VniEntry(vni, [x])]
  }

  lemma AddVniIs<T>(vnis: seq<VniEntry<T>>, vni: nat, x: T)
    requires UniqueKeys(vnis)
    ensures Added(vnis, AddVni(vnis, vni, x), vni, x)
  {
    var j := FindKey(vnis, vni);
    if j < |vnis| {
      assert KeysOf(vnis)[j] == vni;
    }
  }

  lemma AddedGroups<T>(was: seq<VniEntry<T>>, now: seq<VniEntry<T>>, xs: seq<T>, keys: seq<nat>)
    requires |xs| == |keys| > 0
    requires Groups(was, xs[..|xs| - 1], keys[..|xs| - 1])
    requires Added(was, now, keys[|xs| - 1], xs[|xs| - 1])
    requires keys[|xs| - 1] !in KeysOf(was) ==>
               Sublist(xs[..|xs| - 1], keys[..|xs| - 1], keys[|xs| - 1]) == []
    ensures Groups(now, xs, keys)
  {
    var n := |xs| - 1;
    assert forall i :: 0 <= i < |was| ==> KeysOf(was)[i] == was[i].vni;
    assert forall i :: 0 <= i < |was| ==> KeysOf(now)[i] == KeysOf(was)[i];
    forall i | 0 <= i < |xs| ensures keys[i] in KeysOf(now) {
      if i < n {
        assert keys[..n][i] in KeysOf(was);
      } else if keys[n] !in KeysOf(was) {
        assert KeysOf(now)[|was|] == keys[n];
      }
    }
  }

  // Building the index by appending one interface at a time groups the interfaces by VNI.
  lemma {:induction false} VniIndexGroups<T>(xs: seq<T>, keys: seq<nat>)
    requires |xs| == |keys|
    ensures Groups(VniIndex(xs, keys), xs, keys)
  {
    if xs == [] {
    } else {
      var n := |xs| - 1;
      var was := VniIndex(xs[..n], keys[..n]);
      VniIndexGroups(xs[..n], keys[..n]);
      AddVniIs(was, keys[n], xs[n]);
      if keys[n] !in KeysOf(was) {
        assert keys[n] !in keys[..n];
        SublistEmpty(xs[..n], keys[..n], keys[n]);
      }
      AddedGroups(was, VniIndex(xs, keys), xs, keys);
    }
  }

  lemma {:induction false} InSublist<T>(xs: seq<T>, keys: seq<nat>, vni: nat, x: T)
    requires |xs| == |keys|
    ensures x in Sublist(xs, keys, vni) <==> exists i :: 0 <= i < |xs| && xs[i] == x && keys[i] == vni
  {
    if xs == [] {
    } else {
      var n := |xs| - 1;
      InSublist(xs[..n], keys[..n], vni, x);
      if i :| 0 <= i < |xs[..n]| && xs[..n][i] == x && keys[..n][i] == vni { assert xs[i] == x && keys[i] == vni; }
      if i :| 0 <= i < |xs| && xs[i] == x && keys[i] == vni {
        if i < n { assert xs[..n][i] == x && keys[..n][i] == vni; }
      }
    }
  }
}
