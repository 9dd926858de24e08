/** How topology.py divides a host: cores and huge pages per NUMA node go first to the
    virtual switch, then to guests, which also receive their ports and addresses. */
module Topology {
  import opened Wrappers
  import opened Seqs
  import opened Constants
  import opened Bits
  import opened Vswitch

  datatype SetupError = IndexError | ValueError | Exit

  datatype Cpu = Cpu(id: nat, node: nat)
  datatype Iface = Iface(ofp: nat, mac: nat, addr: InterfaceAddress)
  datatype Vm = Vm(guest: nat, mem: nat, cpus: seq<nat>, vifs: seq<Iface>)
  datatype Node = Node(id: nat, cpus: seq<nat>, mem: nat, vms: seq<Vm>)

  // The settings of a host; memory is counted in KB.
  datatype HostSpec = HostSpec(
    dpdk: bool, hugepage: nat, pnic: Option<nat>, pnicCpus: nat, normCpus: nat,
    vmMemMb: nat, vmCpus: nat, host: nat)

  const MEM_PER_SOCKET: nat := 1024 * 512
  const MAX_VM_PER_NUMA: nat := 2
  const VIFS_PER_VM: nat := 2

  function Max(a: nat, b: nat): nat { if a < b then b else a }
  function Min(a: nat, b: nat): nat { if a < b then a else b }

  function SocketMem(c: HostSpec): nat { Max(MEM_PER_SOCKET, c.hugepage) }
  function VmMem(c: HostSpec): nat { Max(c.vmMemMb * 1024, c.hugepage) }

  // ---- collecting the nodes ----

  // A node without a huge page pool is left out.
  function NumasOf(pools: seq<Option<nat>>): seq<Node> {
    if pools == [] then []
    else
      var n := |pools| - 1;
      NumasOf(pools[..n]) + (if pools[n].Some? then [Node(n, [], pools[n].value, [])] else [])
  }

  // A core goes to the node at the position of its node number.
  function AddCpus(ns: seq<Node>, cpus: seq<Cpu>): Option<seq<Node>> {
    if cpus == [] then Some(ns)
    else
      var cpu := cpus[|cpus| - 1];
      match AddCpus(ns, cpus[..|cpus| - 1])
      case None => None
      case Some(ms) =>
        if cpu.node < |ms| then Some(ms[cpu.node := ms[cpu.node].(cpus := ms[cpu.node].cpus + [cpu.id])]) else None
  }

  function Load(cpus: seq<Cpu>, pools: seq<Option<nat>>): Result<seq<Node>, SetupError> {
    if cpus == [] then Failure(IndexError)
    else
      match AddCpus(NumasOf(pools), cpus)
      case None => Failure(IndexError)
      case Some(ns) =>
        if ns == [] then Failure(IndexError)
        else if 0 !in ns[0].cpus then Failure(ValueError)
        else Success(ns[0 := ns[0].(cpus := RemoveFirst(ns[0].cpus, 0))])
  }

  // ---- the virtual switch's share ----

  function Shared(c: HostSpec, n: Node): Node {
    n.(mem := if n.mem <= SocketMem(c) then 0 else n.mem - SocketMem(c))
  }

  function PmdCount(c: HostSpec, n: Node): nat {
    if n.mem == 0 then 0 else if c.pnic == Some(n.id) then c.pnicCpus else c.normCpus
  }

  function Taken(c: HostSpec, n: Node): Node {
    if PmdCount(c, n) <= |n.cpus| then n.(cpus := n.cpus[PmdCount(c, n)..]) else n
  }

  function PmdCpus(c: HostSpec): Node -> seq<nat> {
    (n: Node) => if PmdCount(c, n) <= |n.cpus| then n.cpus[..PmdCount(c, n)] else []
  }

  function MapNodes(ns: seq<Node>, f: Node -> Node): seq<Node> {
    seq(|ns|, i requires 0 <= i < |ns| => f(ns[i]))
  }

  predicate PmdFits(c: HostSpec, ns: seq<Node>) {
    forall i :: 0 <= i < |ns| ==> PmdCount(c, ns[i]) <= |ns[i].cpus|
  }

  // ---- guests ----

  // How often `each` fits into `total`, up to the number of guests of a node.
  function Fits(total: nat, each: nat): nat {
    if each == 0 then MAX_VM_PER_NUMA else Min(MAX_VM_PER_NUMA, total / each)
  }

  function VmCount(c: HostSpec, n: Node): nat {
    if n.mem == 0 then 0 else Min(Fits(n.mem, VmMem(c)), Fits(|n.cpus|, c.vmCpus))
  }

  // Addresses 172.(168+i).host.guest/16 and the IPv6 addresses with the same last 32 bits.
  const IPV6_BASE: nat := 0x2001_1000_1000_1000_0000_0000_0000_0000

  function AddrOf(host: nat, guest: nat, i: nat): InterfaceAddress {
    var net := (172 * 256 + 168 + i) * 0x1_0000;
    InterfaceAddress(net + host * 256 + guest, net, IPV6_BASE + net + host * 256 + guest, IPV6_BASE + net)
  }

  function MacOf(host: nat, guest: nat, i: nat): nat {
    host * 0x1_0000 + guest * 256 + i + 1
  }

  // The guests of a host are numbered from 1 and carry the next free ports.
  function IfaceOf(host: nat, guest: nat, i: nat): Iface
    requires guest > 0
  {
    Iface(OFP_VHOST_BASE + VIFS_PER_VM * (guest - 1) + i + 1, MacOf(host, guest, i), AddrOf(host, guest, i))
  }

  function Ifaces(host: nat, guest: nat): seq<Iface>
    requires guest > 0
  {
    seq(VIFS_PER_VM, i requires 0 <= i < VIFS_PER_VM => IfaceOf(host, guest, i))
  }

  function VmList(c: HostSpec, cpus: seq<nat>, guest: nat, k: nat): seq<Vm>
    requires guest > 0
    requires k * c.vmCpus <= |cpus|
  {
    if k == 0 then []
    else
      SlotsFit(c.vmCpus, k, |cpus|);
      VmList(c, cpus, guest, k - 1)
      + [Vm(guest + k - 1, VmMem(c), cpus[(k - 1) * c.vmCpus..k * c.vmCpus], Ifaces(c.host, guest + k - 1))]
  }

  lemma SlotsFit(size: nat, k: nat, total: nat)
    requires k > 0 && k * size <= total
    ensures 0 <= (k - 1) * size <= k * size
  {
    assert k * size == (k - 1) * size + size;
  }

  lemma Fitting(total: nat, each: nat, k: nat)
    requires k <= Fits(total, each)
    ensures k * each <= total
  {
    if each > 0 {
      assert k * each <= total / each * each;
    }
  }

  lemma VmsFit(c: HostSpec, n: Node)
    ensures VmCount(c, n) * VmMem(c) <= n.mem && VmCount(c, n) * c.vmCpus <= |n.cpus|
  {
    Fitting(n.mem, VmMem(c), VmCount(c, n));
    Fitting(|n.cpus|, c.vmCpus, VmCount(c, n));
  }

  // A node after k guests were placed, the first of them numbered `guest`.
  function Placed(c: HostSpec, n: Node, guest: nat, k: nat): Node
    requires guest > 0 && k * VmMem(c) <= n.mem && k * c.vmCpus <= |n.cpus|
  {
    Node(n.id, n.cpus[k * c.vmCpus..], n.mem - k * VmMem(c), VmList(c, n.cpus, guest, k))
  }

  function WithVms(c: HostSpec, n: Node, guest: nat): Node
    requires guest > 0 && n.vms == []
  {
    VmsFit(c, n);
    Placed(c, n, guest, VmCount(c, n))
  }

  lemma PlacedOne(c: HostSpec, n: Node, guest: nat, k: nat)
    requires guest > 0 && k * VmMem(c) + VmMem(c) <= n.mem && k * c.vmCpus + c.vmCpus <= |n.cpus|
    ensures (k + 1) * VmMem(c) == k * VmMem(c) + VmMem(c) && (k + 1) * c.vmCpus == k * c.vmCpus + c.vmCpus
    ensures var p := Placed(c, n, guest, k);
      && VmMem(c) <= p.mem && c.vmCpus <= |p.cpus|
      && Placed(c, n, guest, k + 1) ==
           Node(n.id, p.cpus[c.vmCpus..], p.mem - VmMem(c),
                p.vms + [Vm(guest + k, VmMem(c), p.cpus[..c.vmCpus], Ifaces(c.host, guest + k))])
  {
    var x, y := k * c.vmCpus, c.vmCpus;
    assert (k + 1) * c.vmCpus == x + y;
    Sliced(n.cpus, x, y);
  }

  lemma Sliced(xs: seq<nat>, x: nat, y: nat)
    requires x + y <= |xs|
    ensures xs[x..][..y] == xs[x..x + y] && xs[x..][y..] == xs[x + y..]
  {
  }

  // The number of the first guest after those of a list of nodes.
  function NextGuest(c: HostSpec, ns: seq<Node>): (r: nat)
    ensures r > 0
  {
    if ns == [] then 1 else NextGuest(c, ns[..|ns| - 1]) + VmCount(c, ns[|ns| - 1])
  }

  predicate NoVms(ns: seq<Node>) {
    forall i :: 0 <= i < |ns| ==> ns[i].vms == []
  }

  function AllWithVms(c: HostSpec, ns: seq<Node>): seq<Node>
    requires NoVms(ns)
  {
    seq(|ns|, i requires 0 <= i < |ns| => WithVms(c, ns[i], NextGuest(c, ns[..i])))
  }

  // IPv4 addresses take only one byte each for the host and the guest.
  predicate Addressable(c: HostSpec, ns: seq<Node>) {
    NextGuest(c, ns) > 1 ==> c.host < 256 && NextGuest(c, ns) <= 256
  }

  // ---- the node of the uplinks ----

  // The node numbers of the uplinks, in order, must agree; None stands for giving up.  A first
  // node number 0 does not count as set.
  function PnicNode(numaIds: seq<nat>): Option<Option<nat>> {
    if numaIds == [] then Some(None)
    else
      var id := numaIds[|numaIds| - 1];
      match PnicNode(numaIds[..|numaIds| - 1])
      case None => None
      case Some(cur) =>
        if cur == None || cur == Some(0) then Some(Some(id))
        else if cur.value == id then Some(cur) else None
  }

  method FindPnicNode(numaIds: seq<nat>) returns (r: Option<Option<nat>>)
    ensures r == PnicNode(numaIds)
  {
    var cur: Option<nat> := None;
    var i := 0;
    while i < |numaIds|
      invariant i <= |numaIds| && PnicNode(numaIds[..i]) == Some(cur)
    {
      assert numaIds[..i + 1][..i] == numaIds[..i];
      if cur == None || cur == Some(0) {
        cur := Some(numaIds[i]);
      } else if numaIds[i] != cur.value {
        PnicStuck(numaIds, i + 1);
        return None;
      }
      i := i + 1;
    }
    assert numaIds[..i] == numaIds;
    return Some(cur);
  }

  lemma {:induction false} PnicStuck(numaIds: seq<nat>, i: nat)
    requires i <= |numaIds| && PnicNode(numaIds[..i]) == None
    ensures PnicNode(numaIds) == None
    decreases |numaIds| - i
  {
    if i < |numaIds| {
      assert numaIds[..i + 1][..i] == numaIds[..i];
      PnicStuck(numaIds, i + 1);
    } else {
      assert numaIds[..i] == numaIds;
    }
  }

  // ---- the whole setup ----

  datatype Division = Division(mask: nat, nodes: seq<Node>)

  lemma {:induction false} NumasEmpty(pools: seq<Option<nat>>)
    ensures NoVms(NumasOf(pools)) && |NumasOf(pools)| <= |pools|
  {
    if pools == [] {
    } else {
      NumasEmpty(pools[..|pools| - 1]);
    }
  }

  lemma {:induction false} AddKeepsNoVms(ns: seq<Node>, cpus: seq<Cpu>)
    requires NoVms(ns)
    ensures var r := AddCpus(ns, cpus); r.Some? ==> NoVms(r.value) && |r.value| == |ns|
  {
    if cpus == [] {
    } else {
      AddKeepsNoVms(ns, cpus[..|cpus| - 1]);
    }
  }

  lemma LoadedNoVms(cpus: seq<Cpu>, pools: seq<Option<nat>>)
    ensures var r := Load(cpus, pools); r.Success? ==> NoVms(r.value)
  {
    NumasEmpty(pools);
    AddKeepsNoVms(NumasOf(pools), cpus);
  }

  function AfterShare(c: HostSpec, ns: seq<Node>): seq<Node> {
    if c.dpdk then MapNodes(ns, (n: Node) => Shared(c, n)) else ns
  }

  function AfterPmd(c: HostSpec, ns: seq<Node>): seq<Node> {
    if c.dpdk then MapNodes(ns, (n: Node) => Taken(c, n)) else ns
  }

  function PmdMask(c: HostSpec, ns: seq<Node>): nat {
    if c.dpdk then MaskOf(FlatMap(ns, PmdCpus(c))) else 0
  }

  function Setup(c: HostSpec, cpus: seq<Cpu>, pools: seq<Option<nat>>): Result<Division, SetupError> {
    LoadedNoVms(cpus, pools);
    match Load(cpus, pools)
    case Failure(e) => Failure(e)
    case Success(ns) =>
      var shared := AfterShare(c, ns);
      var taken := AfterPmd(c, shared);
      if c.dpdk && !PmdFits(c, shared) then Failure(Exit)
      else if !Addressable(c, taken) then Failure(ValueError)
      else Success(Division(PmdMask(c, shared), AllWithVms(c, taken)))
  }

  // ---- the objects ----

  class Numa {
    const id: nat
    var availCpus: seq<nat>
    var availMem: nat
    var vms: seq<Vm>

    constructor (id: nat)
      ensures View() == Node(id, [], 0, [])
    {
      this.id, availCpus, availMem, vms := id, [], 0, [];
    }

    function View(): Node
      reads this
    {
      Node(id, availCpus, availMem, vms)
    }
  }

  function NodeViews(numas: seq<Numa>): seq<Node>
    reads numas
  {
    seq(|numas|, i requires 0 <= i < |numas| reads numas => numas[i].View())
  }

  method CollectNumas(pools: seq<Option<nat>>) returns (numas: seq<Numa>)
    ensures fresh(numas) && Distinct(numas) && NodeViews(numas) == NumasOf(pools)
  {
    numas := [];
    var i := 0;
    while i < |pools|
      invariant i <= |pools| && fresh(numas) && Distinct(numas) && NodeViews(numas) == NumasOf(pools[..i])
    {
      assert pools[..i + 1][..i] == pools[..i];
      if pools[i].Some? {
        ghost var was := NodeViews(numas);
        var numa := new Numa(i);
        numa.availMem := pools[i].value;
        numas := numas + [numa];
        assert NodeViews(numas) == was + [numa.View()];
      }
      i := i + 1;
    }
    assert pools[..i] == pools;
  }

  method LoadCpus(numas: seq<Numa>, cpus: seq<Cpu>) returns (ok: bool)
    requires Distinct(numas)
    modifies numas
    ensures ok <==> AddCpus(old(NodeViews(numas)), cpus).Some?
    ensures ok ==> NodeViews(numas) == AddCpus(old(NodeViews(numas)), cpus).value
  {
    ghost var was := NodeViews(numas);
    var i := 0;
    while i < |cpus|
      invariant i <= |cpus| && AddCpus(was, cpus[..i]) == Some(NodeViews(numas))
    {
      assert cpus[..i + 1][..i] == cpus[..i];
      ghost var now := NodeViews(numas);
      if cpus[i].node >= |numas| {
        StuckCpus(was, cpus, i + 1);
        return false;
      }
      var numa := numas[cpus[i].node];
      numa.availCpus := numa.availCpus + [cpus[i].id];
      assert NodeViews(numas) == now[cpus[i].node := numa.View()];
      i := i + 1;
    }
    assert cpus[..i] == cpus;
    return true;
  }

  lemma {:induction false} StuckCpus(ns: seq<Node>, cpus: seq<Cpu>, i: nat)
    requires i <= |cpus| && AddCpus(ns, cpus[..i]) == None
    ensures AddCpus(ns, cpus) == None
    decreases |cpus| - i
  {
    if i < |cpus| {
      assert cpus[..i + 1][..i] == cpus[..i];
      StuckCpus(ns, cpus, i + 1);
    } else {
      assert cpus[..i] == cpus;
    }
  }

  method CollectNodes(cpus: seq<Cpu>, pools: seq<Option<nat>>) returns (r: Result<seq<Numa>, SetupError>)
    ensures r.Failure? ==> Load(cpus, pools) == Failure(r.error)
    ensures r.Success? ==> fresh(r.value) && Distinct(r.value) && Load(cpus, pools) == Success(NodeViews(r.value))
  {
    if cpus == [] { return Failure(IndexError); }
    var numas := CollectNumas(pools);
    var ok := LoadCpus(numas, cpus);
    if !ok { return Failure(IndexError); }
    if numas == [] { return Failure(IndexError); }
    ghost var was := NodeViews(numas);
    assert was[0] == numas[0].View();
    if 0 !in numas[0].availCpus { return Failure(ValueError); }
    numas[0].availCpus := RemoveFirst(numas[0].availCpus, 0);
    assert NodeViews(numas) == was[0 := numas[0].View()];
    return Success(numas);
  }

  method ShareMemory(c: HostSpec, numas: seq<Numa>)
    requires Distinct(numas)
    modifies numas
    ensures NodeViews(numas) == MapNodes(old(NodeViews(numas)), (n: Node) => Shared(c, n))
  {
    var i := 0;
    while i < |numas|
      invariant i <= |numas|
      invariant forall j :: 0 <= j < i ==> numas[j].View() == Shared(c, old(numas[j].View()))
      invariant forall j :: i <= j < |numas| ==> numas[j].View() == old(numas[j].View())
    {
      var socketMem := Max(MEM_PER_SOCKET, c.hugepage);
      if numas[i].availMem <= socketMem {
        numas[i].availMem := 0;
      } else {
        numas[i].availMem := numas[i].availMem - socketMem;
      }
      i := i + 1;
    }
  }

  method TakeCpus(numa: Numa, count: nat, mask: nat, ghost before: seq<nat>) returns (r: nat)
    requires count <= |numa.availCpus| && mask == MaskOf(before)
    modifies numa
    ensures numa.View() == old(numa.View()).(cpus := old(numa.availCpus)[count..])
    ensures r == MaskOf(before + old(numa.availCpus)[..count])
  {
    ghost var all := numa.availCpus;
    r := mask;
    assert before + all[..0] == before;
    var i := 0;
    while i < count
      invariant i <= count && numa.View() == old(numa.View()).(cpus := all[i..])
      invariant r == MaskOf(before + all[..i])
    {
      var cpu := numa.availCpus[0];
      numa.availCpus := numa.availCpus[1..];
      r := Or(r, Pow2(cpu));
      assert (before + all[..i + 1])[..|before| + i] == before + all[..i];
      i := i + 1;
    }
  }

  // Takes the switch's cores from one node, if it has memory; false when there are too few.
  method TakeShare(c: HostSpec, numa: Numa, mask: nat, ghost before: seq<nat>) returns (ok: bool, r: nat)
    requires mask == MaskOf(before)
    modifies numa
    ensures ok <==> PmdCount(c, old(numa.View())) <= |old(numa.availCpus)|
    ensures ok ==> numa.View() == Taken(c, old(numa.View())) && r == MaskOf(before + PmdCpus(c)(old(numa.View())))
  {
    assert before + [] == before;
    r := mask;
    if numa.availMem != 0 {
      var count := if c.pnic == Some(numa.id) then c.pnicCpus else c.normCpus;
      if |numa.availCpus| < count { return false, r; }
      r := TakeCpus(numa, count, r, before);
    }
    ok := true;
  }

  // The first i nodes have given the switch its cores.
  ghost predicate TakenUpTo(c: HostSpec, was: seq<Node>, i: nat, now: seq<Node>, mask: nat) {
    && i <= |was| == |now| && mask == MaskOf(FlatMap(was[..i], PmdCpus(c)))
    && forall j :: 0 <= j < |was| ==>
         if j < i then PmdCount(c, was[j]) <= |was[j].cpus| && now[j] == Taken(c, was[j]) else now[j] == was[j]
  }

  lemma TakenOneMore(c: HostSpec, was: seq<Node>, i: nat, now: seq<Node>, mask: nat)
    requires TakenUpTo(c, was, i, now, mask) && i < |was|
    ensures mask == MaskOf(FlatMap(was[..i], PmdCpus(c))) && now[i] == was[i]
    ensures PmdCount(c, was[i]) <= |was[i].cpus| ==>
      TakenUpTo(c, was, i + 1, now[i := Taken(c, was[i])], MaskOf(FlatMap(was[..i], PmdCpus(c)) + PmdCpus(c)(was[i])))
  {
    FlatMapStep(was, i, PmdCpus(c));
  }

  lemma TakenAll(c: HostSpec, was: seq<Node>, now: seq<Node>, mask: nat)
    requires TakenUpTo(c, was, |was|, now, mask)
    ensures PmdFits(c, was) && mask == MaskOf(FlatMap(was, PmdCpus(c)))
    ensures now == MapNodes(was, (n: Node) => Taken(c, n))
  {
    assert was[..|was|] == was;
  }

  method TakeShareAt(c: HostSpec, numas: seq<Numa>, i: nat, mask: nat, ghost before: seq<nat>) returns (ok: bool,
                     r: nat)
    requires i < |numas| && Distinct(numas) && mask == MaskOf(before)
    modifies numas[i]
    ensures var was := old(NodeViews(numas));
      && (ok <==> PmdCount(c, was[i]) <= |was[i].cpus|)
      && (ok ==> NodeViews(numas) == was[i := Taken(c, was[i])] && r == MaskOf(before + PmdCpus(c)(was[i])))
  {
    ghost var was := NodeViews(numas);
    assert was[i] == numas[i].View();
    ok, r := TakeShare(c, numas[i], mask, before);
    assert NodeViews(numas) == was[i := numas[i].View()];
  }

  // None when a node has memory but too few cores.
  method TakePmdCpus(c: HostSpec, numas: seq<Numa>) returns (mask: Option<nat>)
    requires Distinct(numas)
    modifies numas
    ensures mask == None <==> !PmdFits(c, old(NodeViews(numas)))
    ensures mask.Some? ==>
              && mask.value == MaskOf(FlatMap(old(NodeViews(numas)), PmdCpus(c)))
              && NodeViews(numas) == MapNodes(old(NodeViews(numas)), (n: Node) => Taken(c, n))
  {
    ghost var was := NodeViews(numas);
    var m := 0;
    var i := 0;
    while i < |numas|
      invariant i <= |numas| && TakenUpTo(c, was, i, NodeViews(numas), m)
    {
      TakenOneMore(c, was, i, NodeViews(numas), m);
      var ok;
      ok, m := TakeShareAt(c, numas, i, m, FlatMap(was[..i], PmdCpus(c)));
      if !ok { return None; }
      i := i + 1;
    }
    TakenAll(c, was, NodeViews(numas), m);
    return Some(m);
  }

  // The interfaces of one guest, on the next free ports from ifIdx on.
  method MakeIfaces(host: nat, guest: nat, ifIdx: nat) returns (vifs: seq<Iface>, next: nat)
    requires guest > 0 && ifIdx == VIFS_PER_VM * (guest - 1) + 1
    ensures vifs == Ifaces(host, guest) && next == ifIdx + VIFS_PER_VM
  {
    vifs, next := [], ifIdx;
    var i := 0;
    while i < VIFS_PER_VM
      invariant i <= VIFS_PER_VM && next == ifIdx + i && vifs == Ifaces(host, guest)[..i]
    {
      vifs := vifs + [Iface(OFP_VHOST_BASE + next, MacOf(host, guest, i), AddrOf(host, guest, i))];
      next := next + 1;
      i := i + 1;
    }
  }

  method PopCpus(numa: Numa, count: nat) returns (cpus: seq<nat>)
    requires count <= |numa.availCpus|
    modifies numa
    ensures cpus == old(numa.availCpus)[..count]
    ensures numa.View() == old(numa.View()).(cpus := old(numa.availCpus)[count..])
  {
    ghost var all := numa.availCpus;
    cpus := [];
    var i := 0;
    while i < count
      invariant i <= count && cpus == all[..i] && numa.View() == old(numa.View()).(cpus := all[i..])
    {
      cpus := cpus + [numa.availCpus[0]];
      numa.availCpus := numa.availCpus[1..];
      i := i + 1;
    }
  }

  // Between k and k + 1 times fits k times.
  lemma FitsExactly(total: nat, each: nat, k: nat)
    requires k < MAX_VM_PER_NUMA && k * each <= total < k * each + each
    ensures Fits(total, each) == k
  {
    assert total / each == k by {
      assert total == k * each + (total - k * each);
      DivIs(total, each, k);
    }
  }

  lemma DivIs(total: nat, each: nat, k: nat)
    requires each > 0 && k * each <= total < k * each + each
    ensures total / each == k
  {
    var q := total / each;
    assert q * each <= total < q * each + each;
    if q < k { TimesMonotone(q + 1, k, each); } else if q > k { TimesMonotone(k + 1, q, each); }
  }

  lemma FitsAtLeast(total: nat, each: nat, k: nat)
    requires k <= MAX_VM_PER_NUMA && k * each <= total
    ensures k <= Fits(total, each)
  {
    if each > 0 && total / each < k {
      assert total < total / each * each + each;
      TimesMonotone(total / each + 1, k, each);
    }
  }

  lemma TimesMonotone(a: nat, b: nat, each: nat)
    requires a <= b
    ensures a * each <= b * each
  {
    assert b * each == a * each + (b - a) * each;
  }

  // Places up to two guests on a node; false when a number does not fit an address.
  method PlaceVms(c: HostSpec, numa: Numa, guest: nat, ifIdx: nat) returns (ok: bool, nextGuest: nat, nextIf: nat)
    requires guest > 0 && ifIdx == VIFS_PER_VM * (guest - 1) + 1 && numa.vms == [] && numa.availMem != 0
    modifies numa
    ensures ok <==> VmCount(c, old(numa.View())) == 0 || (c.host < 256 && guest + VmCount(c, old(numa.View())) <= 256)
    ensures ok ==> numa.View() == WithVms(c, old(numa.View()), guest)
    ensures ok ==> nextGuest == guest + VmCount(c, old(numa.View())) && nextIf == VIFS_PER_VM * (nextGuest - 1) + 1
  {
    ghost var was := numa.View();
    nextGuest, nextIf := guest, ifIdx;
    var vmMem := Max(c.vmMemMb * 1024, c.hugepage);
    var k := 0;
    while k < MAX_VM_PER_NUMA
      invariant k <= MAX_VM_PER_NUMA && nextGuest == guest + k && nextIf == VIFS_PER_VM * (nextGuest - 1) + 1
      invariant k * vmMem <= was.mem && k * c.vmCpus <= |was.cpus| && k <= VmCount(c, was)
      invariant k > 0 ==> c.host < 256 && guest + k <= 256
      invariant numa.View() == Placed(c, was, guest, k)
    {
      if numa.availMem < vmMem {
        FitsExactly(was.mem, vmMem, k);
        break;
      }
      if |numa.availCpus| < c.vmCpus {
        FitsExactly(|was.cpus|, c.vmCpus, k);
        break;
      }
      PlacedOne(c, was, guest, k);
      FitsAtLeast(was.mem, vmMem, k + 1);
      FitsAtLeast(|was.cpus|, c.vmCpus, k + 1);
      if c.host >= 256 || nextGuest >= 256 { return false, nextGuest, nextIf; }
      numa.availMem := numa.availMem - vmMem;
      var cpus := PopCpus(numa, c.vmCpus);
      var vifs;
      vifs, nextIf := MakeIfaces(c.host, nextGuest, nextIf);
      numa.vms := numa.vms + [Vm(nextGuest, vmMem, cpus, vifs)];
      nextGuest := nextGuest + 1;
      k := k + 1;
    }
    VmsFit(c, was);
    ok := true;
  }

  method PlaceVmsAt(c: HostSpec, numas: seq<Numa>, i: nat, guest: nat, ifIdx: nat)
    returns (ok: bool, nextGuest: nat, nextIf: nat)
    requires i < |numas| && Distinct(numas) && NodeViews(numas)[i].vms == []
    requires guest > 0 && ifIdx == VIFS_PER_VM * (guest - 1) + 1
    modifies numas[i]
    ensures var was := old(NodeViews(numas));
      var k := VmCount(c, was[i]);
      && (ok <==> k == 0 || (c.host < 256 && guest + k <= 256))
      && (ok ==> NodeViews(numas) == was[i := WithVms(c, was[i], guest)])
      && (ok ==> nextGuest == guest + k && nextIf == VIFS_PER_VM * (nextGuest - 1) + 1)
  {
    ghost var was := NodeViews(numas);
    assert was[i] == numas[i].View();
    if numas[i].availMem != 0 {
      ok, nextGuest, nextIf := PlaceVms(c, numas[i], guest, ifIdx);
    } else {
      ok, nextGuest, nextIf := true, guest, ifIdx;
    }
    assert NodeViews(numas) == was[i := numas[i].View()];
  }

  method CreateVms(c: HostSpec, numas: seq<Numa>) returns (ok: bool)
    requires Distinct(numas) && NoVms(NodeViews(numas))
    modifies numas
    ensures ok <==> Addressable(c, old(NodeViews(numas)))
    ensures ok ==> NodeViews(numas) == AllWithVms(c, old(NodeViews(numas)))
  {
    ghost var was := NodeViews(numas);
    var guest, ifIdx := 1, 1;
    var i := 0;
    while i < |numas|
      invariant i <= |numas| && PlacedUpTo(c, was, i, NodeViews(numas), guest) && ifIdx == VIFS_PER_VM * (guest - 1) + 1
    {
      PlacedOneMore(c, was, i, NodeViews(numas), guest);
      ok, guest, ifIdx := PlaceVmsAt(c, numas, i, guest, ifIdx);
      if !ok { return false; }
      i := i + 1;
    }
    PlacedAll(c, was, NodeViews(numas), guest);
    ok := true;
  }

  // The first i nodes have got their guests; `guest` is the next number.
  ghost predicate PlacedUpTo(c: HostSpec, was: seq<Node>, i: nat, now: seq<Node>, guest: nat)
    requires NoVms(was)
  {
    && i <= |was| == |now| && guest == NextGuest(c, was[..i]) && (guest > 1 ==> c.host < 256 && guest <= 256)
    && forall j :: 0 <= j < |was| ==>
         now[j] == if j < i then WithVms(c, was[j], NextGuest(c, was[..j])) else was[j]
  }

  lemma PlacedOneMore(c: HostSpec, was: seq<Node>, i: nat, now: seq<Node>, guest: nat)
    requires NoVms(was) && PlacedUpTo(c, was, i, now, guest) && i < |was|
    ensures now[i] == was[i] && guest > 0
    ensures var k := VmCount(c, was[i]);
      if k == 0 || (c.host < 256 && guest + k <= 256)
      then PlacedUpTo(c, was, i + 1, now[i := WithVms(c, was[i], guest)], guest + k)
      else !Addressable(c, was)
  {
    NextGuestStep(c, was, i);
    NextGuestGrows(c, was, i + 1);
  }

  lemma PlacedAll(c: HostSpec, was: seq<Node>, now: seq<Node>, guest: nat)
    requires NoVms(was) && PlacedUpTo(c, was, |was|, now, guest)
    ensures Addressable(c, was) && now == AllWithVms(c, was)
  {
    assert was[..|was|] == was;
  }

  lemma NextGuestStep(c: HostSpec, ns: seq<Node>, i: nat)
    requires i < |ns|
    ensures NextGuest(c, ns[..i + 1]) == NextGuest(c, ns[..i]) + VmCount(c, ns[i])
  {
    assert ns[..i + 1][..i] == ns[..i];
  }

  lemma {:induction false} NextGuestGrows(c: HostSpec, ns: seq<Node>, i: nat)
    requires i <= |ns|
    ensures NextGuest(c, ns[..i]) <= NextGuest(c, ns)
    decreases |ns| - i
  {
    if i < |ns| {
      NextGuestStep(c, ns, i);
      NextGuestGrows(c, ns, i + 1);
    } else {
      assert ns[..i] == ns;
    }
  }

  // The host's own tunnel endpoint: the second address after as many as its number from the first
  // host address of the endpoint network on.
  const TEP_NET4: nat := (10 * 256 + 111) * 0x1_0000
  const TEP_NET6: nat := 0x2001_1000_1000_1000_0000_0000_0a6f_0000
  const TEP_HOSTS: nat := 0x1_0000 - 2

  function TepOf(host: nat): Option<InterfaceAddress> {
    if host + 1 < TEP_HOSTS then Some(InterfaceAddress(TEP_NET4 + host + 2, TEP_NET4, TEP_NET6 + host + 2, TEP_NET6))
      else None
  }

  // A host from its settings, the NUMA nodes of its uplinks, its cores and its huge page pools.
  function SetupHost(c: HostSpec, uplinks: seq<nat>, cpus: seq<Cpu>, pools: seq<Option<nat>>):
    Result<(Division, InterfaceAddress), SetupError>
  {
    match Load(cpus, pools)
    case Failure(e) => Failure(e)
    case Success(_) =>
      match PnicNode(uplinks)
      case None => Failure(Exit)
      case Some(pnic) =>
        match TepOf(c.host)
        case None => Failure(IndexError)
        case Some(tep) =>
          match Setup(c.(pnic := pnic), cpus, pools)
          case Failure(e) => Failure(e)
          case Success(s) => Success((s, tep))
  }

  // The whole setup of one host.
  method SetupSut(c: HostSpec, uplinks: seq<nat>, cpus: seq<Cpu>, pools: seq<Option<nat>>)
    returns (r: Result<(nat, seq<Numa>, InterfaceAddress), SetupError>)
    ensures r.Failure? ==> SetupHost(c, uplinks, cpus, pools) == Failure(r.error)
    ensures r.Success? ==>
              SetupHost(c, uplinks, cpus, pools) == Success((Division(r.value.0, NodeViews(r.value.1)), r.value.2))
  {
    LoadedNoVms(cpus, pools);
    var nodes := CollectNodes(cpus, pools);
    if nodes.Failure? { return Failure(nodes.error); }
    var pnic := FindPnicNode(uplinks);
    if pnic == None { return Failure(Exit); }
    var tep := TepOf(c.host);
    if tep == None { return Failure(IndexError); }
    var divided := Divide(c.(pnic := pnic.value), nodes.value);
    if divided.Failure? { return Failure(divided.error); }
    return Success((divided.value, nodes.value, tep.value));
  }

  // The switch's share and the guests, on the nodes collected.
  method Divide(c: HostSpec, numas: seq<Numa>) returns (r: Result<nat, SetupError>)
    requires Distinct(numas) && NoVms(NodeViews(numas))
    modifies numas
    ensures var shared := AfterShare(c, old(NodeViews(numas)));
      var taken := AfterPmd(c, shared);
      if c.dpdk && !PmdFits(c, shared) then r == Failure(Exit)
      else if !Addressable(c, taken) then r == Failure(ValueError)
      else r == Success(PmdMask(c, shared)) && NodeViews(numas) == AllWithVms(c, taken)
  {
    var mask := ShareOut(c, numas);
    if mask == None { return Failure(Exit); }
    var ok := CreateVms(c, numas);
    if !ok { return Failure(ValueError); }
    return Success(mask.value);
  }

  method ShareOut(c: HostSpec, numas: seq<Numa>) returns (mask: Option<nat>)
    requires Distinct(numas) && NoVms(NodeViews(numas))
    modifies numas
    ensures var shared := AfterShare(c, old(NodeViews(numas)));
      if c.dpdk && !PmdFits(c, shared) then mask == None
      else mask == Some(PmdMask(c, shared)) && NodeViews(numas) == AfterPmd(c, shared) && NoVms(NodeViews(numas))
  {
    if !c.dpdk { return Some(0); }
    ShareMemory(c, numas);
    ghost var shared := NodeViews(numas);
    mask := TakePmdCpus(c, numas);
    assert mask.Some? ==> NodeViews(numas) == AfterPmd(c, shared);
  }
}
