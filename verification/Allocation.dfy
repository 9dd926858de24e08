/** What the division of a host guarantees: cores are partitioned, memory is conserved, as many
    guests are placed as fit, and their identities never collide. */
module Allocation {
  import opened Wrappers
  import opened Seqs
  import opened Constants
  import opened Bits
  import opened Vswitch
  import opened Topology

  // ---- the cores of a list of nodes ----

  function Occ(xs: seq<nat>, x: nat): nat {
    multiset(xs)[x]
  }

  // How often a core is among the available cores of the nodes, and among their guests' cores.
  function Pool(ns: seq<Node>, x: nat): nat {
    if ns == [] then 0 else Pool(ns[..|ns| - 1], x) + Occ(ns[|ns| - 1].cpus, x)
  }

  function GuestCpus(vms: seq<Vm>, x: nat): nat {
    if vms == [] then 0 else GuestCpus(vms[..|vms| - 1], x) + Occ(vms[|vms| - 1].cpus, x)
  }

  function GuestPool(ns: seq<Node>, x: nat): nat {
    if ns == [] then 0 else GuestPool(ns[..|ns| - 1], x) + GuestCpus(ns[|ns| - 1].vms, x)
  }

  function Ids(cpus: seq<Cpu>): seq<nat> {
    seq(|cpus|, i requires 0 <= i < |cpus| => cpus[i].id)
  }

  lemma OccConcat(xs: seq<nat>, ys: seq<nat>, x: nat)
    ensures Occ(xs + ys, x) == Occ(xs, x) + Occ(ys, x)
  {
  }

  lemma OccCut(xs: seq<nat>, k: nat, x: nat)
    requires k <= |xs|
    ensures Occ(xs, x) == Occ(xs[..k], x) + Occ(xs[k..], x)
  {
    assert xs == xs[..k] + xs[k..];
  }

  lemma {:induction false} PoolUpdate(ns: seq<Node>, i: nat, n: Node, x: nat)
    requires i < |ns|
    ensures Pool(ns[i := n], x) + Occ(ns[i].cpus, x) == Pool(ns, x) + Occ(n.cpus, x)
  {
    var k := |ns| - 1;
    if i < k {
      assert ns[i := n][..k] == ns[..k][i := n];
      PoolUpdate(ns[..k], i, n, x);
    } else {
      assert ns[i := n][..k] == ns[..k];
    }
  }

  lemma {:induction false} NoCpusYet(pools: seq<Option<nat>>, x: nat)
    ensures Pool(NumasOf(pools), x) == 0
  {
    if pools == [] {
    } else {
      var n := |pools| - 1;
      NoCpusYet(pools[..n], x);
      var ns := NumasOf(pools);
      if pools[n].Some? {
        assert ns[..|ns| - 1] == NumasOf(pools[..n]) && ns[|ns| - 1].cpus == [];
      } else {
        assert ns == NumasOf(pools[..n]);
      }
    }
  }

  lemma {:induction false} AddedCpus(ns: seq<Node>, cpus: seq<Cpu>, x: nat)
    ensures var r := AddCpus(ns, cpus); r.Some? ==> Pool(r.value, x) == Pool(ns, x) + Occ(Ids(cpus), x)
  {
    if cpus == [] {
      assert Ids(cpus) == [];
    } else {
      var n := |cpus| - 1;
      AddedCpus(ns, cpus[..n], x);
      var r := AddCpus(ns, cpus[..n]);
      if r.Some? && cpus[n].node < |r.value| {
        AddedCpu(r.value, cpus[n], x);
        assert Ids(cpus) == Ids(cpus[..n]) + [cpus[n].id];
        OccConcat(Ids(cpus[..n]), [cpus[n].id], x);
      }
    }
  }

  lemma AddedCpu(ns: seq<Node>, cpu: Cpu, x: nat)
    requires cpu.node < |ns|
    ensures var m := ns[cpu.node];
      Pool(ns[cpu.node := m.(cpus := m.cpus + [cpu.id])], x) == Pool(ns, x) + Occ([cpu.id], x)
  {
    var m := ns[cpu.node];
    PoolUpdate(ns, cpu.node, m.(cpus := m.cpus + [cpu.id]), x);
    OccConcat(m.cpus, [cpu.id], x);
  }

  lemma {:induction false} RemovedFirst(xs: seq<nat>, y: nat, x: nat)
    requires y in xs
    ensures Occ(RemoveFirst(xs, y), x) + Count(x == y) == Occ(xs, x)
  {
    assert xs == [xs[0]] + xs[1..];
    if xs[0] == y {
    } else {
      RemovedFirst(xs[1..], y, x);
    }
  }

  // The loaded nodes hold every core but core 0.
  lemma LoadedPool(cpus: seq<Cpu>, pools: seq<Option<nat>>, x: nat)
    ensures var r := Load(cpus, pools); r.Success? ==> Pool(r.value, x) + Count(x == 0) == Occ(Ids(cpus), x)
  {
    var r := Load(cpus, pools);
    if r.Success? {
      var ns := AddCpus(NumasOf(pools), cpus).value;
      NoCpusYet(pools, x);
      AddedCpus(NumasOf(pools), cpus, x);
      RemovedFirst(ns[0].cpus, 0, x);
      PoolUpdate(ns, 0, r.value[0], x);
    }
  }

  lemma {:induction false} SharedPool(c: HostSpec, ns: seq<Node>, x: nat)
    ensures Pool(AfterShare(c, ns), x) == Pool(ns, x)
  {
    if ns == [] {
    } else {
      var n := |ns| - 1;
      SharedPool(c, ns[..n], x);
      assert AfterShare(c, ns)[..n] == AfterShare(c, ns[..n]);
    }
  }

  lemma {:induction false} TakenPool(c: HostSpec, ns: seq<Node>, x: nat)
    requires c.dpdk
    ensures Pool(ns, x) == Pool(AfterPmd(c, ns), x) + Occ(FlatMap(ns, PmdCpus(c)), x)
  {
    if ns == [] {
    } else {
      var n := |ns| - 1;
      TakenPool(c, ns[..n], x);
      assert AfterPmd(c, ns)[..n] == AfterPmd(c, ns[..n]);
      OccConcat(FlatMap(ns[..n], PmdCpus(c)), PmdCpus(c)(ns[n]), x);
      var k := PmdCount(c, ns[n]);
      if k <= |ns[n].cpus| { OccCut(ns[n].cpus, k, x); }
    }
  }

  lemma {:induction false} GuestsTake(c: HostSpec, cpus: seq<nat>, guest: nat, k: nat, x: nat)
    requires guest > 0 && k * c.vmCpus <= |cpus|
    ensures GuestCpus(VmList(c, cpus, guest, k), x) == Occ(cpus[..k * c.vmCpus], x)
  {
    if k == 0 {
    } else {
      var a, b := (k - 1) * c.vmCpus, k * c.vmCpus;
      SlotsFit(c.vmCpus, k, |cpus|);
      GuestsTake(c, cpus, guest, k - 1, x);
      var vms := VmList(c, cpus, guest, k);
      assert vms[..|vms| - 1] == VmList(c, cpus, guest, k - 1);
      OccCut(cpus[..b], a, x);
      assert cpus[..b][..a] == cpus[..a] && cpus[..b][a..] == cpus[a..b];
    }
  }

  lemma NodeSplits(c: HostSpec, n: Node, guest: nat, x: nat)
    requires guest > 0 && n.vms == []
    ensures var m := WithVms(c, n, guest); Occ(n.cpus, x) == Occ(m.cpus, x) + GuestCpus(m.vms, x)
  {
    VmsFit(c, n);
    GuestsTake(c, n.cpus, guest, VmCount(c, n), x);
    OccCut(n.cpus, VmCount(c, n) * c.vmCpus, x);
  }

  lemma PlacedPrefix(c: HostSpec, ns: seq<Node>)
    requires NoVms(ns) && ns != []
    ensures var n := |ns| - 1;
      && AllWithVms(c, ns)[..n] == AllWithVms(c, ns[..n])
      && AllWithVms(c, ns)[n] == WithVms(c, ns[n], NextGuest(c, ns[..n]))
  {
    var n := |ns| - 1;
    forall i | 0 <= i < n ensures AllWithVms(c, ns)[i] == AllWithVms(c, ns[..n])[i] {
      assert ns[..n][..i] == ns[..i];
    }
  }

  lemma {:induction false} PlacedPool(c: HostSpec, ns: seq<Node>, x: nat)
    requires NoVms(ns)
    ensures Pool(ns, x) == Pool(AllWithVms(c, ns), x) + GuestPool(AllWithVms(c, ns), x)
  {
    if ns == [] {
    } else {
      var n := |ns| - 1;
      PlacedPool(c, ns[..n], x);
      PlacedPrefix(c, ns);
      NodeSplits(c, ns[n], NextGuest(c, ns[..n]), x);
    }
  }

  function PmdList(c: HostSpec, cpus: seq<Cpu>, pools: seq<Option<nat>>): seq<nat>
    requires Setup(c, cpus, pools).Success?
  {
    if c.dpdk then FlatMap(AfterShare(c, Load(cpus, pools).value), PmdCpus(c)) else []
  }

  lemma CoresConserved(c: HostSpec, cpus: seq<Cpu>, pools: seq<Option<nat>>, core: nat)
    requires Setup(c, cpus, pools).Success?
    ensures var s := Setup(c, cpus, pools).value;
      Occ(PmdList(c, cpus, pools), core) + GuestPool(s.nodes, core) + Pool(s.nodes, core) + Count(core == 0)
      == Occ(Ids(cpus), core)
  {
    var ns := Load(cpus, pools).value;
    LoadedNoVms(cpus, pools);
    LoadedPool(cpus, pools, core);
    SwitchTakes(c, ns, core);
    PlacedPool(c, AfterPmd(c, AfterShare(c, ns)), core);
  }

  lemma SwitchTakes(c: HostSpec, ns: seq<Node>, core: nat)
    ensures Pool(ns, core) ==
              Pool(AfterPmd(c, AfterShare(c, ns)), core)
                + Occ(if c.dpdk then FlatMap(AfterShare(c, ns), PmdCpus(c)) else [], core)
  {
    SharedPool(c, ns, core);
    if c.dpdk { TakenPool(c, AfterShare(c, ns), core); }
  }

  lemma MaskIsPmd(c: HostSpec, cpus: seq<Cpu>, pools: seq<Option<nat>>, core: nat)
    requires Setup(c, cpus, pools).Success?
    ensures Bit(Setup(c, cpus, pools).value.mask, core) <==> core in PmdList(c, cpus, pools)
  {
    ZeroBits(core);
    MaskBit(PmdList(c, cpus, pools), core);
  }

  lemma {:induction false} OnceEach(xs: seq<nat>, x: nat)
    requires Distinct(xs)
    ensures Occ(xs, x) == Count(x in xs)
  {
    if xs == [] {
    } else {
      assert xs == [xs[0]] + xs[1..];
      OnceEach(xs[1..], x);
    }
  }

  // Every core but core 0 belongs to exactly one of: the switch (its bit is set in the mask),
  // one guest, or the cores left over; core 0 and unknown cores belong to none.
  lemma CpuPartition(c: HostSpec, cpus: seq<Cpu>, pools: seq<Option<nat>>, core: nat)
    requires Setup(c, cpus, pools).Success? && Distinct(Ids(cpus))
    ensures var s := Setup(c, cpus, pools).value;
      Count(Bit(s.mask, core)) + GuestPool(s.nodes, core) + Pool(s.nodes, core) == Count(core in Ids(cpus) && core != 0)
  {
    CoresConserved(c, cpus, pools, core);
    MaskIsPmd(c, cpus, pools, core);
    OnceEach(Ids(cpus), core);
    var pmd := PmdList(c, cpus, pools);
    assert core in pmd <==> Occ(pmd, core) > 0;
    CoreZeroListed(cpus, pools);
  }

  lemma CoreZeroListed(cpus: seq<Cpu>, pools: seq<Option<nat>>)
    requires Load(cpus, pools).Success?
    ensures 0 in Ids(cpus)
  {
    LoadedPool(cpus, pools, 0);
    assert 0 in Ids(cpus) <==> Occ(Ids(cpus), 0) > 0;
  }

  // ---- when a host can be set up ----

  lemma {:induction false} AllPools(pools: seq<Option<nat>>)
    ensures |NumasOf(pools)| == |pools| <==> forall i :: 0 <= i < |pools| ==> pools[i].Some?
    ensures (forall i :: 0 <= i < |pools| ==> pools[i].Some?) ==>
              forall i :: 0 <= i < |pools| ==> NumasOf(pools)[i] == Node(i, [], pools[i].value, [])
  {
    if pools == [] {
    } else {
      NumasEmpty(pools[..|pools| - 1]);
      AllPools(pools[..|pools| - 1]);
    }
  }

  lemma {:induction false} AddCpusIff(ns: seq<Node>, cpus: seq<Cpu>)
    ensures AddCpus(ns, cpus).Some? <==> forall i :: 0 <= i < |cpus| ==> cpus[i].node < |ns|
    ensures AddCpus(ns, cpus).Some? ==> |AddCpus(ns, cpus).value| == |ns|
  {
    if cpus == [] {
    } else {
      AddCpusIff(ns, cpus[..|cpus| - 1]);
    }
  }

  function NodeIds(cpus: seq<Cpu>): seq<nat> {
    seq(|cpus|, i requires 0 <= i < |cpus| => cpus[i].node)
  }

  // Each node holds, in order, the cores listed with its number.
  lemma {:induction false} AddCpusGroups(ns: seq<Node>, cpus: seq<Cpu>, k: nat)
    requires AddCpus(ns, cpus).Some? && k < |ns| == |AddCpus(ns, cpus).value|
    ensures AddCpus(ns, cpus).value[k] == ns[k].(cpus := ns[k].cpus + Ports.Sublist(Ids(cpus), NodeIds(cpus), k))
  {
    if cpus == [] {
      assert ns[k].cpus + [] == ns[k].cpus;
    } else {
      var n := |cpus| - 1;
      AddCpusIff(ns, cpus[..n]);
      AddCpusGroups(ns, cpus[..n], k);
      assert Ids(cpus)[..n] == Ids(cpus[..n]) && NodeIds(cpus)[..n] == NodeIds(cpus[..n]);
      var own := Ports.Sublist(Ids(cpus[..n]), NodeIds(cpus[..n]), k);
      assert ns[k].cpus + own + [cpus[n].id] == ns[k].cpus + (own + [cpus[n].id]);
      assert own + [] == own;
    }
  }

  // With one pool entry per node number up to that of the last core listed, the nodes can be
  // collected exactly when every node has huge pages, no core names a higher node, and core 0
  // is on node 0.
  lemma LoadSucceedsIff(cpus: seq<Cpu>, pools: seq<Option<nat>>)
    requires cpus != [] && |pools| == cpus[|cpus| - 1].node + 1
    ensures Load(cpus, pools).Success? <==>
              && (forall i :: 0 <= i < |pools| ==> pools[i].Some?)
              && (forall i :: 0 <= i < |cpus| ==> cpus[i].node < |pools|)
              && Cpu(0, 0) in cpus
  {
    var ns := NumasOf(pools);
    NumasEmpty(pools);
    AllPools(pools);
    AddCpusIff(ns, cpus);
    if AddCpus(ns, cpus).Some? {
      assert cpus[|cpus| - 1].node < |ns|;
      AddCpusGroups(ns, cpus, 0);
      Ports.InSublist(Ids(cpus), NodeIds(cpus), 0, 0);
      if Cpu(0, 0) in cpus {
        var i :| 0 <= i < |cpus| && cpus[i] == Cpu(0, 0);
        assert Ids(cpus)[i] == 0 && NodeIds(cpus)[i] == 0;
      }
      if 0 in AddCpus(ns, cpus).value[0].cpus {
        var i :| 0 <= i < |cpus| && Ids(cpus)[i] == 0 && NodeIds(cpus)[i] == 0;
        assert cpus[i] == Cpu(0, 0);
      }
    }
  }

  // ---- memory and the number of guests ----

  function GuestMem(vms: seq<Vm>): nat {
    if vms == [] then 0 else GuestMem(vms[..|vms| - 1]) + vms[|vms| - 1].mem
  }

  lemma {:induction false} VmListMem(c: HostSpec, cpus: seq<nat>, guest: nat, k: nat)
    requires guest > 0 && k * c.vmCpus <= |cpus|
    ensures GuestMem(VmList(c, cpus, guest, k)) == k * VmMem(c) && |VmList(c, cpus, guest, k)| == k
  {
    if k == 0 {
    } else {
      SlotsFit(c.vmCpus, k, |cpus|);
      VmListMem(c, cpus, guest, k - 1);
      var vms := VmList(c, cpus, guest, k);
      assert vms[..|vms| - 1] == VmList(c, cpus, guest, k - 1);
      assert k * VmMem(c) == (k - 1) * VmMem(c) + VmMem(c);
    }
  }

  // The switch wants 512 MB of a node, and a guest what it is set to, but at least a huge page.
  function SwitchShare(c: HostSpec): nat {
    if c.hugepage > 524288 then c.hugepage else 524288
  }

  function GuestShare(c: HostSpec): nat {
    if c.hugepage > c.vmMemMb * 1024 then c.hugepage else c.vmMemMb * 1024
  }

  lemma SharesAre(c: HostSpec)
    ensures SocketMem(c) == SwitchShare(c) && VmMem(c) == GuestShare(c)
  {
  }

  // What the switch takes of a node's memory: its share, if more than that is there.
  function SwitchMem(c: HostSpec, mem: nat): nat {
    if c.dpdk && mem > SwitchShare(c) then SwitchShare(c) else 0
  }

  function SwitchCpus(c: HostSpec, i: nat, mem: nat): nat {
    if c.dpdk && mem > SwitchShare(c) then (if c.pnic == Some(i) then c.pnicCpus else c.normCpus) else 0
  }

  // The cores of a node in the order they are listed, without core 0.
  function OwnCpus(cpus: seq<Cpu>, i: nat): seq<nat> {
    var own := Ports.Sublist(Ids(cpus), NodeIds(cpus), i);
    if i == 0 then RemoveFirst(own, 0) else own
  }

  lemma LoadedNode(cpus: seq<Cpu>, pools: seq<Option<nat>>, i: nat)
    requires Load(cpus, pools).Success? && i < |pools| == |Load(cpus, pools).value|
    ensures var n := Load(cpus, pools).value[i];
      n.id == i && pools[i] == Some(n.mem) && n.vms == [] && n.cpus == OwnCpus(cpus, i)
  {
    NumasEmpty(pools);
    AddCpusIff(NumasOf(pools), cpus);
    AllPools(pools);
    AddCpusGroups(NumasOf(pools), cpus, i);
    assert [] + Ports.Sublist(Ids(cpus), NodeIds(cpus), i) == Ports.Sublist(Ids(cpus), NodeIds(cpus), i);
  }

  // Node i has been set up, and there is one node for each pool entry.
  predicate IsSetUp(c: HostSpec, cpus: seq<Cpu>, pools: seq<Option<nat>>, i: nat) {
    var r := Setup(c, cpus, pools);
    r.Success? && i < |pools| == |r.value.nodes|
  }

  function NodeAfter(c: HostSpec, cpus: seq<Cpu>, pools: seq<Option<nat>>, i: nat): Node
    requires IsSetUp(c, cpus, pools, i)
  {
    Setup(c, cpus, pools).value.nodes[i]
  }

  // Node i as the guests find it.
  lemma SetupNode(c: HostSpec, cpus: seq<Cpu>, pools: seq<Option<nat>>, i: nat) returns (n: Node, guest: nat)
    requires IsSetUp(c, cpus, pools, i)
    ensures pools[i].Some?
    ensures var mem := pools[i].value;
      && guest > 0 && n.vms == []
      && n.mem == (if c.dpdk && mem <= SwitchShare(c) then 0 else mem - SwitchMem(c, mem))
      && SwitchCpus(c, i, mem) <= |OwnCpus(cpus, i)| && n.cpus == OwnCpus(cpus, i)[SwitchCpus(c, i, mem)..]
      && NodeAfter(c, cpus, pools, i) == WithVms(c, n, guest)
  {
    SharesAre(c);
    LoadedNoVms(cpus, pools);
    LoadedNode(cpus, pools, i);
    var ns := Load(cpus, pools).value;
    var taken := AfterPmd(c, AfterShare(c, ns));
    n, guest := taken[i], NextGuest(c, taken[..i]);
  }

  // No memory is lost: what a node had is the switch's share, its guests' memory and the rest,
  // except on a node too small for the switch, whose memory is given up.
  lemma MemoryConserved(c: HostSpec, cpus: seq<Cpu>, pools: seq<Option<nat>>, i: nat)
    requires IsSetUp(c, cpus, pools, i)
    ensures pools[i].Some?
    ensures var mem := pools[i].value;
      var n := NodeAfter(c, cpus, pools, i);
      if c.dpdk && mem <= SwitchShare(c) then n.mem == 0 && n.vms == []
      else mem == SwitchMem(c, mem) + GuestMem(n.vms) + n.mem
  {
    var n, guest := SetupNode(c, cpus, pools, i);
    VmsFit(c, n);
    VmListMem(c, n.cpus, guest, VmCount(c, n));
  }

  // As many guests as memory and cores allow, at most two.
  function Quota(c: HostSpec, mem: nat, cpus: nat): nat
    requires c.vmCpus > 0 && GuestShare(c) > 0
  {
    var (byMem, byCpus) := (mem / GuestShare(c), cpus / c.vmCpus);
    if byMem <= byCpus && byMem <= 2 then byMem else if byCpus <= 2 then byCpus else 2
  }

  lemma CountIsQuota(c: HostSpec, n: Node)
    requires c.vmCpus > 0 && GuestShare(c) > 0
    ensures VmCount(c, n) == Quota(c, n.mem, |n.cpus|)
  {
    SharesAre(c);
    DivIs(0, GuestShare(c), 0);
  }

  // Guests are placed greedily: as many as fit into what the switch leaves, none on a node
  // too small for the switch.
  lemma GreedyExact(c: HostSpec, cpus: seq<Cpu>, pools: seq<Option<nat>>, i: nat)
    requires c.vmCpus > 0 && GuestShare(c) > 0 && IsSetUp(c, cpus, pools, i)
    ensures pools[i].Some? && SwitchCpus(c, i, pools[i].value) <= |OwnCpus(cpus, i)|
    ensures var mem := pools[i].value;
      |NodeAfter(c, cpus, pools, i).vms| ==
        if c.dpdk && mem <= SwitchShare(c) then 0
        else Quota(c, mem - SwitchMem(c, mem), |OwnCpus(cpus, i)| - SwitchCpus(c, i, mem))
  {
    var n, guest := SetupNode(c, cpus, pools, i);
    VmsFit(c, n);
    VmListMem(c, n.cpus, guest, VmCount(c, n));
    CountIsQuota(c, n);
    DivIs(0, GuestShare(c), 0);
  }

  // ---- a node in order ----

  // The cores of a list of guests, one guest after the other.
  function CpusOf(vms: seq<Vm>): seq<nat> {
    if vms == [] then [] else CpusOf(vms[..|vms| - 1]) + vms[|vms| - 1].cpus
  }

  lemma {:induction false} VmListCpus(c: HostSpec, cpus: seq<nat>, guest: nat, k: nat)
    requires guest > 0 && k * c.vmCpus <= |cpus|
    ensures CpusOf(VmList(c, cpus, guest, k)) == cpus[..k * c.vmCpus] && |VmList(c, cpus, guest, k)| == k
  {
    if k == 0 {
    } else {
      VmListLast(c, cpus, guest, k);
      VmListCpus(c, cpus, guest, k - 1);
      assert cpus[..k * c.vmCpus] == cpus[..(k - 1) * c.vmCpus] + cpus[(k - 1) * c.vmCpus..k * c.vmCpus];
    }
  }

  lemma VmListLast(c: HostSpec, cpus: seq<nat>, guest: nat, k: nat)
    requires guest > 0 && 0 < k && k * c.vmCpus <= |cpus|
    ensures 0 <= (k - 1) * c.vmCpus <= k * c.vmCpus && k * c.vmCpus - (k - 1) * c.vmCpus == c.vmCpus
    ensures var vms := VmList(c, cpus, guest, k);
      && vms != [] && vms[..|vms| - 1] == VmList(c, cpus, guest, k - 1)
      && vms[|vms| - 1].cpus == cpus[(k - 1) * c.vmCpus..k * c.vmCpus] && vms[|vms| - 1].mem == VmMem(c)
  {
    SlotsFit(c.vmCpus, k, |cpus|);
    assert k * c.vmCpus == (k - 1) * c.vmCpus + c.vmCpus;
  }

  // Every guest has the cores and the memory it is set to.
  lemma {:induction false} VmListSized(c: HostSpec, cpus: seq<nat>, guest: nat, k: nat, v: Vm)
    requires guest > 0 && k * c.vmCpus <= |cpus| && v in VmList(c, cpus, guest, k)
    ensures |v.cpus| == c.vmCpus && v.mem == VmMem(c)
  {
    if k == 0 {
      assert false;
    } else {
      VmListLast(c, cpus, guest, k);
      var vms := VmList(c, cpus, guest, k);
      if v in vms[..|vms| - 1] { VmListSized(c, cpus, guest, k - 1, v); }
    }
  }

  lemma PlacedInOrder(c: HostSpec, n: Node, guest: nat, k: nat)
    requires guest > 0 && k * VmMem(c) <= n.mem && k * c.vmCpus <= |n.cpus|
    ensures var m := Placed(c, n, guest, k);
      && n.cpus == CpusOf(m.vms) + m.cpus && |m.vms| == k
      && forall v :: v in m.vms ==> |v.cpus| == c.vmCpus && v.mem == VmMem(c)
  {
    VmListCpus(c, n.cpus, guest, k);
    var x := k * c.vmCpus;
    assert n.cpus == n.cpus[..x] + n.cpus[x..];
    var vms := Placed(c, n, guest, k).vms;
    forall v | v in vms ensures |v.cpus| == c.vmCpus && v.mem == VmMem(c) { VmListSized(c, n.cpus, guest, k, v); }
  }

  lemma GuestsInOrder(c: HostSpec, n: Node, guest: nat)
    requires guest > 0 && n.vms == []
    ensures var m := WithVms(c, n, guest);
      && n.cpus == CpusOf(m.vms) + m.cpus && |m.vms| == VmCount(c, n)
      && forall v :: v in m.vms ==> |v.cpus| == c.vmCpus && v.mem == VmMem(c)
  {
    VmsFit(c, n);
    PlacedInOrder(c, n, guest, VmCount(c, n));
  }

  // The cores of a node in the order they are listed: first those of the switch, whose bits are set
  // in its mask, then each guest's as many as it is set to, then those left over; a node too small
  // for the switch keeps them all.
  lemma CoresInOrder(c: HostSpec, cpus: seq<Cpu>, pools: seq<Option<nat>>, i: nat)
    requires IsSetUp(c, cpus, pools, i)
    ensures var n := NodeAfter(c, cpus, pools, i);
      && pools[i].Some? && SwitchCpus(c, i, pools[i].value) <= |OwnCpus(cpus, i)|
      && OwnCpus(cpus, i) == OwnCpus(cpus, i)[..SwitchCpus(c, i, pools[i].value)] + CpusOf(n.vms) + n.cpus
      && (forall v :: v in n.vms ==> |v.cpus| == c.vmCpus && v.mem == GuestShare(c))
      && forall core :: core in OwnCpus(cpus, i)[..SwitchCpus(c, i, pools[i].value)] ==>
           Bit(Setup(c, cpus, pools).value.mask, core)
  {
    var n, guest := SetupNode(c, cpus, pools, i);
    SharesAre(c);
    GuestsInOrder(c, n, guest);
    SwitchThenRest(OwnCpus(cpus, i), SwitchCpus(c, i, pools[i].value), CpusOf(NodeAfter(c, cpus, pools, i).vms),
                   NodeAfter(c, cpus, pools, i).cpus);
    forall core | core in OwnCpus(cpus, i)[..SwitchCpus(c, i, pools[i].value)]
      ensures Bit(Setup(c, cpus, pools).value.mask, core)
    {
      SwitchCoreMasked(c, cpus, pools, i, core);
    }
  }

  lemma SwitchThenRest(own: seq<nat>, take: nat, x: seq<nat>, y: seq<nat>)
    requires take <= |own| && own[take..] == x + y
    ensures own == own[..take] + x + y
  {
    assert own == own[..take] + own[take..];
  }

  lemma SwitchCoreMasked(c: HostSpec, cpus: seq<Cpu>, pools: seq<Option<nat>>, i: nat, core: nat)
    requires IsSetUp(c, cpus, pools, i) && pools[i].Some?
    requires SwitchCpus(c, i, pools[i].value) <= |OwnCpus(cpus, i)|
    requires core in OwnCpus(cpus, i)[..SwitchCpus(c, i, pools[i].value)]
    ensures Bit(Setup(c, cpus, pools).value.mask, core)
  {
    SharesAre(c);
    LoadedNoVms(cpus, pools);
    LoadedNode(cpus, pools, i);
    var shared := AfterShare(c, Load(cpus, pools).value);
    assert PmdCpus(c)(shared[i]) == OwnCpus(cpus, i)[..SwitchCpus(c, i, pools[i].value)];
    InFlatMap(shared, PmdCpus(c), core);
    MaskIsPmd(c, cpus, pools, core);
  }

  // A node stops taking guests only with two of them, or without the memory or the cores for another.
  lemma NoRoomLeft(c: HostSpec, cpus: seq<Cpu>, pools: seq<Option<nat>>, i: nat)
    requires IsSetUp(c, cpus, pools, i)
    ensures var n := NodeAfter(c, cpus, pools, i);
      && |n.vms| <= 2
      && (|n.vms| == 2 || n.mem == 0 || n.mem < GuestShare(c) || |n.cpus| < c.vmCpus)
  {
    var n, guest := SetupNode(c, cpus, pools, i);
    SharesAre(c);
    GuestsInOrder(c, n, guest);
    RoomAfter(c, n, guest);
  }

  lemma RoomAfter(c: HostSpec, n: Node, guest: nat)
    requires guest > 0 && n.vms == []
    ensures var m := WithVms(c, n, guest);
      VmCount(c, n) <= 2 && (VmCount(c, n) == 2 || m.mem == 0 || m.mem < VmMem(c) || |m.cpus| < c.vmCpus)
  {
    var k := VmCount(c, n);
    VmsFit(c, n);
    CountIsMost(n.mem, VmMem(c));
    CountIsMost(|n.cpus|, c.vmCpus);
    NoMore(n.mem, VmMem(c), k);
    NoMore(|n.cpus|, c.vmCpus, k);
    assert n.mem == 0 || k == Fits(n.mem, VmMem(c)) || k == Fits(|n.cpus|, c.vmCpus);
  }

  lemma CountIsMost(total: nat, each: nat)
    ensures Fits(total, each) <= 2 && (Fits(total, each) == 2 || total < (Fits(total, each) + 1) * each)
  {
    if each > 0 {
      assert total < (total / each + 1) * each;
    }
  }

  lemma NoMore(total: nat, each: nat, k: nat)
    requires k * each <= total
    ensures total - k * each < each <==> total < (k + 1) * each
  {
    assert (k + 1) * each == k * each + each;
  }

  // ---- identities ----

  function VmIfaces(vms: seq<Vm>): seq<Iface> {
    if vms == [] then [] else VmIfaces(vms[..|vms| - 1]) + vms[|vms| - 1].vifs
  }

  function NodeIfaces(): Node -> seq<Iface> {
    (n: Node) => VmIfaces(n.vms)
  }

  function AllIfaces(ns: seq<Node>): seq<Iface> {
    FlatMap(ns, NodeIfaces())
  }

  // The interfaces of the guests numbered below `next`.
  function Numbered(host: nat, next: nat): seq<Iface>
    requires next > 0
  {
    if next == 1 then [] else Numbered(host, next - 1) + Ifaces(host, next - 1)
  }

  lemma {:induction false} NumberedAt(host: nat, next: nat, i: nat)
    requires next > 0
    ensures |Numbered(host, next)| == VIFS_PER_VM * (next - 1)
    ensures i < |Numbered(host, next)| ==>
              Numbered(host, next)[i] == IfaceOf(host, i / VIFS_PER_VM + 1, i % VIFS_PER_VM)
  {
    if next == 1 {
    } else {
      NumberedAt(host, next - 1, i);
      var m := |Numbered(host, next - 1)|;
      if m <= i < m + VIFS_PER_VM {
        assert i / VIFS_PER_VM == next - 2 && i % VIFS_PER_VM == i - m;
      }
    }
  }

  lemma {:induction false} VmListIfaces(c: HostSpec, cpus: seq<nat>, guest: nat, k: nat)
    requires guest > 0 && k * c.vmCpus <= |cpus|
    ensures Numbered(c.host, guest) + VmIfaces(VmList(c, cpus, guest, k)) == Numbered(c.host, guest + k)
  {
    if k == 0 {
      assert Numbered(c.host, guest) + [] == Numbered(c.host, guest);
    } else {
      SlotsFit(c.vmCpus, k, |cpus|);
      VmListIfaces(c, cpus, guest, k - 1);
      var vms := VmList(c, cpus, guest, k);
      assert vms[..|vms| - 1] == VmList(c, cpus, guest, k - 1);
      var last := Ifaces(c.host, guest + k - 1);
      assert vms[|vms| - 1].vifs == last;
      Reassoc(Numbered(c.host, guest), VmIfaces(vms[..|vms| - 1]), last);
    }
  }

  lemma Reassoc(x: seq<Iface>, y: seq<Iface>, z: seq<Iface>)
    ensures x + (y + z) == (x + y) + z
  {
  }

  lemma NodeContinues(c: HostSpec, n: Node, guest: nat)
    requires guest > 0 && n.vms == []
    ensures Numbered(c.host, guest) + NodeIfaces()(WithVms(c, n, guest)) == Numbered(c.host, guest + VmCount(c, n))
  {
    VmsFit(c, n);
    VmListIfaces(c, n.cpus, guest, VmCount(c, n));
  }

  lemma AllIfacesSplit(ns: seq<Node>)
    requires ns != []
    ensures AllIfaces(ns) == AllIfaces(ns[..|ns| - 1]) + NodeIfaces()(ns[|ns| - 1])
  {
  }

  lemma AllIfacesGrow(c: HostSpec, ns: seq<Node>)
    requires NoVms(ns) && ns != []
    ensures var n := |ns| - 1;
      AllIfaces(AllWithVms(c, ns)) == AllIfaces(AllWithVms(c, ns[..n]))
        + NodeIfaces()(WithVms(c, ns[n], NextGuest(c, ns[..n])))
  {
    PlacedPrefix(c, ns);
    AllIfacesSplit(AllWithVms(c, ns));
  }

  lemma AllIfacesNext(c: HostSpec, ns: seq<Node>)
    requires NoVms(ns) && ns != []
    requires AllIfaces(AllWithVms(c, ns[..|ns| - 1])) == Numbered(c.host, NextGuest(c, ns[..|ns| - 1]))
    ensures AllIfaces(AllWithVms(c, ns)) == Numbered(c.host, NextGuest(c, ns[..|ns| - 1]) + VmCount(c, ns[|ns| - 1]))
  {
    AllIfacesGrow(c, ns);
    NodeContinues(c, ns[|ns| - 1], NextGuest(c, ns[..|ns| - 1]));
  }

  lemma {:induction false} AllIfacesAre(c: HostSpec, ns: seq<Node>)
    requires NoVms(ns)
    ensures AllIfaces(AllWithVms(c, ns)) == Numbered(c.host, NextGuest(c, ns))
  {
    if ns == [] {
      assert AllWithVms(c, ns) == [];
    } else {
      AllIfacesAre(c, ns[..|ns| - 1]);
      AllIfacesNext(c, ns);
    }
  }

  // Ports are handed out consecutively from 11 on, so they are distinct.
  lemma PortsAreConsecutive(c: HostSpec, cpus: seq<Cpu>, pools: seq<Option<nat>>, i: nat)
    requires Setup(c, cpus, pools).Success? && i < |AllIfaces(Setup(c, cpus, pools).value.nodes)|
    ensures AllIfaces(Setup(c, cpus, pools).value.nodes)[i].ofp == OFP_VHOST_BASE + 1 + i
  {
    LoadedNoVms(cpus, pools);
    var taken := AfterPmd(c, AfterShare(c, Load(cpus, pools).value));
    AllIfacesAre(c, taken);
    NumberedAt(c.host, NextGuest(c, taken), i);
  }

  // A host's guests as set up: two interfaces each, on consecutive ports.
  predicate GuestsOnPorts(vifs: seq<Iface>) {
    Even(|vifs|) && forall i :: 0 <= i < |vifs| ==> vifs[i].ofp == OFP_VHOST_BASE + 1 + i
  }

  predicate Even(n: nat) {
    n % 2 == 0
  }

  lemma {:induction false} NumberedPorts(host: nat, next: nat)
    requires next > 0
    ensures GuestsOnPorts(Numbered(host, next))
  {
    NumberedAt(host, next, 0);
    forall i | 0 <= i < |Numbered(host, next)| ensures Numbered(host, next)[i].ofp == OFP_VHOST_BASE + 1 + i {
      NumberedAt(host, next, i);
    }
  }

  lemma SetupGuests(c: HostSpec, cpus: seq<Cpu>, pools: seq<Option<nat>>)
    requires Setup(c, cpus, pools).Success?
    ensures GuestsOnPorts(AllIfaces(Setup(c, cpus, pools).value.nodes))
  {
    LoadedNoVms(cpus, pools);
    var taken := AfterPmd(c, AfterShare(c, Load(cpus, pools).value));
    AllIfacesAre(c, taken);
    NumberedPorts(c.host, NextGuest(c, taken));
  }

  // They stay clear of the 101 tunnel ports exactly as long as there are at most 89 of them.
  lemma PortsClearIff(c: HostSpec, cpus: seq<Cpu>, pools: seq<Option<nat>>)
    requires Setup(c, cpus, pools).Success?
    ensures var vifs := AllIfaces(Setup(c, cpus, pools).value.nodes);
      (forall i :: 0 <= i < |vifs| ==> vifs[i].ofp !in IdRange(OFP_TUNNEL_BASE, OFP_TUNNEL_BASE + 100))
      <==> |vifs| <= 89
  {
    var vifs := AllIfaces(Setup(c, cpus, pools).value.nodes);
    var tunnels := IdRange(OFP_TUNNEL_BASE, OFP_TUNNEL_BASE + 100);
    forall i | 0 <= i < |vifs| ensures vifs[i].ofp == 11 + i { PortsAreConsecutive(c, cpus, pools, i); }
    if |vifs| > 89 { assert tunnels[0] == vifs[89].ofp; }
  }

  lemma {:induction false} GuestsBounded(c: HostSpec, ns: seq<Node>)
    ensures NextGuest(c, ns) <= 1 + MAX_VM_PER_NUMA * |ns|
  {
    if ns == [] {
    } else {
      GuestsBounded(c, ns[..|ns| - 1]);
    }
  }

  // Up to 22 nodes this is always so.
  lemma SmallHostsClear(c: HostSpec, cpus: seq<Cpu>, pools: seq<Option<nat>>)
    requires Setup(c, cpus, pools).Success? && |pools| <= 22
    ensures |AllIfaces(Setup(c, cpus, pools).value.nodes)| <= 89
  {
    LoadedNoVms(cpus, pools);
    NumasEmpty(pools);
    AddCpusIff(NumasOf(pools), cpus);
    var taken := AfterPmd(c, AfterShare(c, Load(cpus, pools).value));
    AllIfacesAre(c, taken);
    NumberedAt(c.host, NextGuest(c, taken), 0);
    GuestsBounded(c, taken);
  }

  // Hardware and network addresses identify the interface across all hosts.
  lemma IdentitiesDistinct(c: HostSpec, cpus: seq<Cpu>, pools: seq<Option<nat>>, i: nat,
                           c': HostSpec, cpus': seq<Cpu>, pools': seq<Option<nat>>, j: nat)
    requires Setup(c, cpus, pools).Success? && Setup(c', cpus', pools').Success?
    requires i < |AllIfaces(Setup(c, cpus, pools).value.nodes)| && j < |AllIfaces(Setup(c', cpus', pools').value.nodes)|
    ensures var v := AllIfaces(Setup(c, cpus, pools).value.nodes)[i];
      var w := AllIfaces(Setup(c', cpus', pools').value.nodes)[j];
      && (v.mac == w.mac <==> c.host == c'.host && i == j)
      && (v.addr.ipv4 == w.addr.ipv4 <==> c.host == c'.host && i == j)
      && (v.addr.ipv6 == w.addr.ipv6 <==> c.host == c'.host && i == j)
      && (v.addr.ipv4Net == w.addr.ipv4Net <==> i % VIFS_PER_VM == j % VIFS_PER_VM)
  {
    IdentityOf(c, cpus, pools, i);
    IdentityOf(c', cpus', pools', j);
    var g, h := i / VIFS_PER_VM + 1, j / VIFS_PER_VM + 1;
    PackedDistinct(c.host, g, i % VIFS_PER_VM, c'.host, h, j % VIFS_PER_VM);
  }

  lemma PackedDistinct(host: nat, guest: nat, x: nat, host': nat, guest': nat, y: nat)
    requires host < 256 && host' < 256 && guest < 256 && guest' < 256 && x < VIFS_PER_VM && y < VIFS_PER_VM
    ensures MacOf(host, guest, x) == MacOf(host', guest', y) <==> host == host' && guest == guest' && x == y
    ensures AddrOf(host, guest, x).ipv4 == AddrOf(host', guest', y).ipv4 <==> host == host' && guest == guest' && x == y
  {
    BytesDistinct(host, guest, x + 1, host', guest', y + 1);
    BytesDistinct(x, host, guest, y, host', guest');
  }

  lemma BytesDistinct(a: nat, b: nat, c: nat, a': nat, b': nat, c': nat)
    requires b < 256 && c < 256 && b' < 256 && c' < 256
    ensures a * 0x1_0000 + b * 256 + c == a' * 0x1_0000 + b' * 256 + c' <==> a == a' && b == b' && c == c'
  {
    LowByte(a * 256 + b, c);
    LowByte(a' * 256 + b', c');
    LowByte(a, b);
    LowByte(a', b');
  }

  lemma LowByte(hi: nat, lo: nat)
    requires lo < 256
    ensures (hi * 256 + lo) % 256 == lo && (hi * 256 + lo) / 256 == hi
  {
  }

  // The host's addresses can be written exactly when there is no guest, or the numbers of the host and
  // of every guest fit a byte.
  lemma AddressableIff(c: HostSpec, ns: seq<Node>)
    requires NoVms(ns)
    ensures var n := |AllIfaces(AllWithVms(c, ns))|;
      Addressable(c, ns) <==> n == 0 || (c.host <= 255 && n / 2 <= 255)
  {
    AllIfacesAre(c, ns);
    NumberedAt(c.host, NextGuest(c, ns), 0);
  }

  // The addresses byte by byte: 00:00:00:host:guest:interface, with interfaces counted from 1, and
  // 172.(168 + interface).host.guest in a /16, with interfaces counted from 0.
  lemma IdentityBytes(c: HostSpec, cpus: seq<Cpu>, pools: seq<Option<nat>>, j: nat)
    requires Setup(c, cpus, pools).Success? && j < |AllIfaces(Setup(c, cpus, pools).value.nodes)|
    ensures var v := AllIfaces(Setup(c, cpus, pools).value.nodes)[j];
      var (guest, i) := (j / 2 + 1, j % 2);
      && c.host < 256 && guest < 256 && v.mac == Dotted(0, c.host, guest, i + 1)
      && v.addr.ipv4 == Dotted(172, 168 + i, c.host, guest) && v.addr.ipv4Net == Dotted(172, 168 + i, 0, 0)
      && v.addr.ipv6 == Mapped(v.addr.ipv4) && v.addr.ipv6Net == Mapped(v.addr.ipv4Net)
  {
    IdentityOf(c, cpus, pools, j);
  }

  // Host n's tunnel endpoint is 10.111.0.0 + n + 2, as long as that is a host address of the /16.
  lemma EndpointIs(host: nat)
    ensures TepOf(host).Some? <==> Dotted(10, 111, 0, 2) + host < Dotted(10, 111, 255, 255)
    ensures TepOf(host).Some? ==>
              var a := TepOf(host).value;
              && a.ipv4 == Dotted(10, 111, 0, 2) + host && a.ipv4Net == Dotted(10, 111, 0, 0)
              && a.ipv6 == Mapped(a.ipv4) && a.ipv6Net == Mapped(a.ipv4Net)
  {
    assert TEP_NET4 == Dotted(10, 111, 0, 0) && TEP_NET6 == Mapped(TEP_NET4);
  }

  lemma IdentityOf(c: HostSpec, cpus: seq<Cpu>, pools: seq<Option<nat>>, i: nat)
    requires Setup(c, cpus, pools).Success? && i < |AllIfaces(Setup(c, cpus, pools).value.nodes)|
    ensures c.host < 256 && i / VIFS_PER_VM + 1 < 256
    ensures AllIfaces(Setup(c, cpus, pools).value.nodes)[i] == IfaceOf(c.host, i / VIFS_PER_VM + 1, i % VIFS_PER_VM)
  {
    LoadedNoVms(cpus, pools);
    var taken := AfterPmd(c, AfterShare(c, Load(cpus, pools).value));
    AllIfacesAre(c, taken);
    NumberedAt(c.host, NextGuest(c, taken), i);
  }

  // ---- the node of the uplinks ----

  // Uplinks on different nodes are accepted when those before the last change of node are all
  // on node 0; the node found is that of the last uplink.
  lemma {:induction false} PnicNodeIs(numaIds: seq<nat>)
    requires numaIds != []
    ensures PnicNode(numaIds) ==
              if forall i, j :: 0 <= i < j < |numaIds| && numaIds[i] != 0 ==> numaIds[j] == numaIds[i]
              then Some(Some(numaIds[|numaIds| - 1])) else None
  {
    var n := |numaIds| - 1;
    if n == 0 {
    } else {
      var was := numaIds[..n];
      PnicNodeIs(was);
      assert forall i :: 0 <= i < n ==> was[i] == numaIds[i];
      var last := was[n - 1];
      if forall i, j :: 0 <= i < j < n && was[i] != 0 ==> was[j] == was[i] {
        assert forall i :: 0 <= i < n ==> was[i] in {0, last};
      }
    }
  }
}
