/** The objects of vif.py and vswitch.py whose fields change: interfaces, the
    ID allocator and the bridge with its VNI index, tunnel ports and flows. */
module Vswitch {
  import opened Wrappers
  import opened Seqs
  import opened Constants
  import opened OpenFlow
  import opened Ports

  datatype InterfaceAddress = InterfaceAddress(ipv4: nat, ipv4Net: nat, ipv6: nat, ipv6Net: nat)

  // An IPv4 address in dotted form, and the IPv6 address of the suite that ends in the same 32 bits.
  function Dotted(a: nat, b: nat, c: nat, d: nat): nat {
    ((a * 256 + b) * 256 + c) * 256 + d
  }

  function Mapped(ipv4: nat): nat {
    0x2001_1000_1000_1000_0000_0000_0000_0000 + ipv4
  }

  class Vif {
    const ofp: nat
    const mac: Option<Mac>
    var vni: nat
    var ifAddr: Option<InterfaceAddress>
    var restoreIfAddr: Option<InterfaceAddress>

    constructor (ofp: nat, mac: Option<Mac>)
      ensures this.ofp == ofp && this.mac == mac && vni == VNI_NONE
      ensures ifAddr == None && restoreIfAddr == None
    {
      this.ofp, this.mac := ofp, mac;
      vni, ifAddr, restoreIfAddr := VNI_NONE, None, None;
    }

    function View(): VifView
      reads this
    {
      VifView(ofp, vni, mac)
    }
  }

  function IdRange(lo: nat, hi: nat): seq<nat>
    requires lo <= hi + 1
  {
    seq(hi + 1 - lo, i => lo + i)
  }

  class IdAllocator {
    var ids: seq<nat>

    constructor (minId: nat, maxId: nat)
      requires minId <= maxId + 1
      ensures ids == IdRange(minId, maxId)
    {
      ids := IdRange(minId, maxId);
    }

    // Takes the first free ID; None stands for the exception of popping an empty list.
    method Get() returns (r: Option<nat>)
      modifies this
      ensures old(ids) == [] ==> r == None && ids == []
      ensures old(ids) != [] ==> r == Some(old(ids)[0]) && ids == old(ids)[1..]
    {
      if ids == [] { return None; }
      r := Some(ids[0]);
      ids := ids[1..];
    }

    method Put(id: nat)
      modifies this
      ensures ids == old(ids) + [id]
    {
      ids := ids + [id];
    }
  }

  // The entries of an object index and of a value index, side by side.
  ghost predicate SameEntries(a: seq<VniEntry<Vif>>, b: seq<VniEntry<VifView>>)
    reads set i, j | 0 <= i < |a| && 0 <= j < |a[i].vifs| :: a[i].vifs[j]
  {
    && |a| == |b|
    && forall i :: 0 <= i < |a| ==>
         && a[i].vni == b[i].vni && |a[i].vifs| == |b[i].vifs|
         && forall j :: 0 <= j < |a[i].vifs| ==> b[i].vifs[j] == a[i].vifs[j].View()
  }

  class Bridge {
    var vifs: seq<Vif>
    var vnis: seq<VniEntry<Vif>>
    var uplinks: seq<nat>
    var tnlPorts: seq<TunnelPort>
    var withMd: bool
    var flows: seq<Flow>
    const tunnelIds: IdAllocator

    // A new bridge carries its own local interface only.
    constructor ()
      ensures fresh(tunnelIds) && tunnelIds.ids == IdRange(OFP_TUNNEL_BASE, OFP_TUNNEL_BASE + 100)
      ensures |vifs| == 1 && fresh(vifs[0]) && vifs[0].ofp == OFP_LOCAL && vifs[0].mac == None
      ensures vifs[0].vni == VNI_NONE
      ensures uplinks == [] && tnlPorts == [] && flows == [] && !withMd
      ensures Agrees()
    {
      var tap := new Vif(OFP_LOCAL, None);
      tunnelIds := new IdAllocator(OFP_TUNNEL_BASE, OFP_TUNNEL_BASE + 100);
      vifs, vnis, uplinks, tnlPorts, withMd, flows := [], [], [], [], false, [];
      new;
      AddVif(tap);
    }

    function Keys(): seq<nat>
      reads this`vifs, vifs
    {
      var ws := vifs;
      seq(|ws|, i requires 0 <= i < |ws| reads ws => ws[i].vni)
    }

    // The VNI index lists the interfaces by their current VNIs.
    ghost predicate Agrees()
      reads this`vifs, this`vnis, vifs
    {
      vnis == VniIndex(vifs, Keys())
    }

    function Views(): seq<VifView>
      reads this`vifs, vifs
    {
      var ws := vifs;
      seq(|ws|, i requires 0 <= i < |ws| reads ws => ws[i].View())
    }

    static function EntryView(e: VniEntry<Vif>): VniEntry<VifView>
      reads e.vifs
    {
      VniEntry(e.vni, seq(|e.vifs|, j requires 0 <= j < |e.vifs| reads e.vifs => e.vifs[j].View()))
    }

    function IndexView(): seq<VniEntry<VifView>>
      reads this`vnis, set i, j | 0 <= i < |vnis| && 0 <= j < |vnis[i].vifs| :: vnis[i].vifs[j]
    {
      var es := vnis;
      seq(|es|, i requires 0 <= i < |es| reads if 0 <= i < |es| then es[i].vifs else [] => EntryView(es[i]))
    }

    function View(): BridgeView
      reads this`vifs, this`vnis, this`tnlPorts, this`uplinks, vifs
      reads set i, j | 0 <= i < |vnis| && 0 <= j < |vnis[i].vifs| :: vnis[i].vifs[j]
    {
      BridgeView(Views(), IndexView(), tnlPorts, uplinks)
    }

    // The view depends on no more than the lists of the bridge and the VNIs of the interfaces in them.
    twostate lemma ViewKept()
      requires vifs == old(vifs) && vnis == old(vnis) && tnlPorts == old(tnlPorts) && uplinks == old(uplinks)
      requires forall v :: v in old(vifs) ==> v.vni == old(v.vni)
      requires forall i, j :: 0 <= i < |old(vnis)| && 0 <= j < |old(vnis)[i].vifs| ==>
                                old(vnis)[i].vifs[j].vni == old(vnis[i].vifs[j].vni)
      ensures View() == old(View())
    {
      assert Views() == old(Views());
      forall i | 0 <= i < |vnis| ensures EntryView(vnis[i]) == old(EntryView(vnis[i])) {
        assert EntryView(vnis[i]).vifs == old(EntryView(vnis[i])).vifs;
      }
      assert IndexView() == old(IndexView());
    }

    // Appends an interface under its VNI, opening the key when it is missing.
    method AddVni(vif: Vif)
      modifies this`vnis
      ensures vnis == Ports.AddVni(old(vnis), vif.vni, vif)
    {
      var i := FindKey(vnis, vif.vni);
      if i == |vnis| {
        vnis := vnis + [VniEntry(vif.vni, [])];
      }
      vnis := vnis[i := VniEntry(vif.vni, vnis[i].vifs + [vif])];
      assert [] + [vif] == [vif];
    }

    method AddVif(vif: Vif)
      modifies this`vifs, this`vnis
      ensures vifs == old(vifs) + [vif]
      ensures vnis == Ports.AddVni(old(vnis), vif.vni, vif)
      ensures old(Agrees()) ==> Agrees()
    {
      vifs := vifs + [vif];
      AddVni(vif);
      assert vifs[..|vifs| - 1] == old(vifs) && Keys()[..|vifs| - 1] == old(Keys());
    }

    // Without a bond a bridge takes the first uplink, on the first port.
    method CreateUplink()
      modifies this`uplinks
      ensures uplinks == old(uplinks) + [1]
    {
      uplinks := uplinks + [OFP_UPLINK_BASE];
    }

    method RefreshVnis()
      modifies this`vnis
      ensures Agrees()
    {
      ghost var keys := Keys();
      vnis := [];
      var i := 0;
      while i < |vifs|
        invariant 0 <= i <= |vifs|
        invariant vnis == VniIndex(vifs[..i], keys[..i])
      {
        assert vifs[..i + 1][..i] == vifs[..i] && keys[..i + 1][..i] == keys[..i];
        AddVni(vifs[i]);
        i := i + 1;
      }
      assert vifs[..i] == vifs && keys[..i] == keys == Keys();
    }

    // ---- tunnel ports ----

    method CreateTunnelPort(rip: Rip, key: TunnelKey) returns (r: Option<TunnelPort>)
      modifies this`tnlPorts, tunnelIds
      ensures old(tunnelIds.ids) == [] ==> r == None && tunnelIds.ids == [] && tnlPorts == old(tnlPorts)
      ensures old(tunnelIds.ids) != [] ==>
                && r == Some(TunnelPort(rip, key, old(tunnelIds.ids)[0]))
                && tunnelIds.ids == old(tunnelIds.ids)[1..]
                && tnlPorts == old(tnlPorts) + [r.value]
    {
      var ofp := tunnelIds.Get();
      if ofp == None { return None; }
      var t := TunnelPort(rip, key, ofp.value);
      tnlPorts := tnlPorts + [t];
      r := Some(t);
    }

    method DeleteTunnelPort(t: TunnelPort)
      modifies this`tnlPorts, tunnelIds
      ensures tunnelIds.ids == old(tunnelIds.ids) + [t.ofp]
      ensures tnlPorts == RemoveFirst(old(tnlPorts), t)
    {
      tunnelIds.Put(t.ofp);
      tnlPorts := RemoveFirst(tnlPorts, t);
    }

    // ---- flows ----

    method DelFlows()
      modifies this`flows
      ensures flows == [] && View() == old(View())
    {
      flows := [];
    }

    method DelTable(table: nat)
      modifies this`flows
      ensures flows == Filter(old(flows), (f: Flow) => f.table != table) && View() == old(View())
    {
      flows := Filter(flows, (f: Flow) => f.table != table);
    }

    method Provision(more: seq<Flow>)
      modifies this`flows
      ensures flows == old(flows) + more && View() == old(View())
    {
      var i := 0;
      while i < |more|
        invariant 0 <= i <= |more|
        invariant flows == old(flows) + more[..i] && View() == old(View())
      {
        flows := flows + [more[i]];
        i := i + 1;
      }
    }

    // ---- the value the flow generators see ----

    lemma {:induction false} IndexViewOf(xs: seq<Vif>, vs: seq<VifView>, keys: seq<nat>)
      requires |xs| == |vs| == |keys|
      requires forall i :: 0 <= i < |xs| ==> vs[i] == xs[i].View()
      ensures SameEntries(VniIndex(xs, keys), VniIndex(vs, keys))
    {
      if xs == [] {
      } else {
        var n := |xs| - 1;
        IndexViewOf(xs[..n], vs[..n], keys[..n]);
        SameAdded(VniIndex(xs[..n], keys[..n]), VniIndex(vs[..n], keys[..n]), keys[n], xs[n]);
      }
    }

    lemma SameAdded(a: seq<VniEntry<Vif>>, b: seq<VniEntry<VifView>>, vni: nat, x: Vif)
      requires SameEntries(a, b)
      ensures SameEntries(Ports.AddVni(a, vni, x), Ports.AddVni(b, vni, x.View()))
    {
      SameFind(a, b, vni);
    }

    lemma {:induction false} SameFind(a: seq<VniEntry<Vif>>, b: seq<VniEntry<VifView>>, vni: nat)
      requires SameEntries(a, b)
      ensures FindKey(a, vni) == FindKey(b, vni)
    {
      if a == [] {
      } else {
        var n := |a| - 1;
        SameFind(a[..n], b[..n], vni);
      }
    }

    lemma ViewIndexed()
      requires Agrees()
      ensures View().vnis == VniIndex(View().vifs, Vnis(View().vifs))
    {
      assert Vnis(Views()) == Keys();
      IndexViewOf(vifs, Views(), Keys());
      var b := VniIndex(Views(), Keys());
      forall i | 0 <= i < |vnis| ensures EntryView(vnis[i]) == b[i] {
        assert EntryView(vnis[i]).vifs == b[i].vifs;
      }
    }
  }
}
