/** The flow language the suite programs Open vSwitch with, and its meaning:
    priority lookup (section 5.1 and 5.3 of the OpenFlow Switch Specification
    1.3), actions executed in order, learned forwarding entries, connection
    tracking by zone, and no output to the ingress port. */
module OpenFlow {
  import opened Wrappers
  import opened Constants

  type Mac = nat
  type Ip = nat

  // An 802.1Q tag: type, priority, bit 12 (which OVS keeps set when a tag is present), VLAN id.
  datatype Tag = Tag(tpid: nat, pcp: nat, present: bool, vid: nat)

  datatype EthType = Arp | Ipv4 | Ipv6 | OtherEth
  datatype Proto = Tcp | Udp | Icmp | OtherProto
  datatype Header = Header(eth: EthType, proto: Proto, icmpType: nat, fragLater: bool, tuple: Tuple)
  datatype Tuple = Tuple(src: Ip, dst: Ip, sport: nat, dport: nat)

  function Rev(t: Tuple): Tuple {
    Tuple(t.dst, t.src, t.dport, t.sport)
  }

  datatype CtState = CtState(trk: bool, isNew: bool, est: bool, rpl: bool, inv: bool, zone: nat)

  const UNTRACKED := CtState(false, false, false, false, false, 0)

  datatype Pkt = Pkt(
    inPort: nat, src: Mac, dst: Mac, tags: seq<Tag>, hdr: Header,
    reg0: nat, reg1: nat,
    tunId: nat, tunDst: Ip, md0: nat, md1: nat,
    invalid: bool,   // whether a connection tracker would call the packet invalid
    ct: CtState)

  // ---- bit ranges of the 32-bit register 0 ----

  datatype Range = Low12 | Outer12 | Zone16 | Whole32

  function Get(r: nat, f: Range): nat {
    match f
    case Low12 => r % 0x1000
    case Outer12 => r / 0x1_0000 % 0x1000
    case Zone16 => r % 0x1_0000
    case Whole32 => r % 0x1_0000_0000
  }

  // Overwrites one range; a value that is too wide keeps its low bits only.
  function Set(r: nat, f: Range, v: nat): nat {
    match f
    case Low12 => r - r % 0x1000 + v % 0x1000
    case Outer12 =>
      r / 0x1000_0000 * 0x1000_0000 + v % 0x1000 * 0x1_0000 + r % 0x1_0000
    case Zone16 => r - r % 0x1_0000 + v % 0x1_0000
    case Whole32 => v % 0x1_0000_0000
  }

  // ---- flows ----

  datatype ProtoMatch = IsArp | IsNd(icmpType: nat) | IsIp6LaterFrag | IsProto(proto: Proto, v6: bool)

  datatype CtMatch = CtMatch(trk: Option<bool>, isNew: Option<bool>, est: Option<bool>,
                             rpl: Option<bool>, inv: Option<bool>)

  const ANY_CT := CtMatch(None, None, None, None, None)

  datatype Match = Match(
    inPort: Option<nat>, dst: Option<Mac>, proto: Option<ProtoMatch>,
    reg0: Option<(Range, nat)>, reg1: Option<nat>,
    md0: Option<nat>, md1: Option<nat>,
    zone: Option<nat>, ct: CtMatch)

  const ANY := Match(None, None, None, None, None, None, None, None, ANY_CT)

  datatype Action =
    | Output(port: nat)
    | OutputReg1
    | Goto(table: nat)
    | Resubmit(table: nat)
    | LoadReg0(range: Range, value: nat)
    | MoveTunIdToReg0
    | MoveVidToReg0(range: Range)
    | PushVlan(tpid: nat)
    | PopVlan
    | MoveReg0ToVid(range: Range)
    | SetTagPresent
    | SetTunDst(ip: Ip)
    | MoveReg0ToTunId
    | MoveReg0ToMd0
    | SetMd1(value: nat)
    | Learn
    | CtTrack(table: nat)      // ct(zone=reg0[0..15],table=T)
    | CtCommit(zone: nat)      // ct(commit,zone=Z)

  // An empty action list drops the packet.
  datatype Flow = Flow(table: nat, priority: nat, cond: Match, actions: seq<Action>)

  const DEFAULT_PRIORITY: nat := 32768

  predicate Has<T(==)>(o: Option<T>, v: T) {
    o.None? || o.value == v
  }

  predicate ProtoHits(m: ProtoMatch, h: Header) {
    match m
    case IsArp => h.eth.Arp?
    case IsNd(t) => h.eth.Ipv6? && h.proto.Icmp? && !h.fragLater && h.icmpType == t
    case IsIp6LaterFrag => h.eth.Ipv6? && h.fragLater
    case IsProto(p, v6) =>
      // the protocol of a later IPv6 fragment is not parsed
      if v6 then h.eth.Ipv6? && h.proto == p && !h.fragLater else h.eth.Ipv4? && h.proto == p
  }

  predicate CtHits(m: CtMatch, c: CtState) {
    Has(m.trk, c.trk) && Has(m.isNew, c.isNew) && Has(m.est, c.est) && Has(m.rpl, c.rpl) && Has(m.inv, c.inv)
  }

  predicate Hits(f: Flow, table: nat, k: Pkt) {
    && f.table == table
    && Has(f.cond.inPort, k.inPort)
    && Has(f.cond.dst, k.dst)
    && (f.cond.proto.Some? ==> ProtoHits(f.cond.proto.value, k.hdr))
    && (f.cond.reg0.Some? ==> Get(k.reg0, f.cond.reg0.value.0) == f.cond.reg0.value.1)
    && Has(f.cond.reg1, k.reg1)
    && Has(f.cond.md0, k.md0)
    && Has(f.cond.md1, k.md1)
    && Has(f.cond.zone, k.ct.zone)
    && CtHits(f.cond.ct, k.ct)
  }

  // The matching flow of highest priority.  Of two with equal priority the later one is taken:
  // adding a flow with an existing match replaces the old flow.
  function Lookup(flows: seq<Flow>, table: nat, k: Pkt): (r: Option<Flow>)
    ensures r.Some? ==> r.value in flows && Hits(r.value, table, k)
    ensures forall g :: g in flows && Hits(g, table, k) ==> r.Some? && g.priority <= r.value.priority
  {
    if flows == [] then None
    else
      var n := |flows| - 1;
      assert flows == flows[..n] + [flows[n]];
      var r := Lookup(flows[..n], table, k);
      if Hits(flows[n], table, k) && (r.None? || r.value.priority <= flows[n].priority)
      then Some(flows[n]) else r
  }

  // What lookup does is fixed by the set of matching flows alone, as long as
  // flows of the winning priority agree on their actions.
  lemma LookupIs(flows: seq<Flow>, table: nat, k: Pkt, f: Flow)
    requires f in flows && Hits(f, table, k)
    requires forall g :: g in flows && Hits(g, table, k) ==>
               g.priority < f.priority || (g.priority == f.priority && g.actions == f.actions)
    ensures Lookup(flows, table, k).Some? && Lookup(flows, table, k).value.actions == f.actions
  {
  }

  // ---- switch state ----

  datatype ConnKey = ConnKey(zone: nat, v6: bool, proto: Proto, tuple: Tuple)

  // Learned entries (register 0, destination address) -> port, and committed
  // connections keyed by their original direction, with whether a reply was seen.
  datatype Switch = Switch(fib: map<(nat, Mac), nat>, conns: map<ConnKey, bool>)

  function KeyOf(zone: nat, h: Header): ConnKey {
    ConnKey(zone, h.eth.Ipv6?, h.proto, h.tuple)
  }

  function ReplyKeyOf(zone: nat, h: Header): ConnKey {
    ConnKey(zone, h.eth.Ipv6?, h.proto, Rev(h.tuple))
  }

  // Sending a packet through the tracker: a packet against the original direction of a
  // committed connection is an established reply; one along it is established once a reply
  // was seen and still new before that.
  function Track(conns: map<ConnKey, bool>, zone: nat, k: Pkt): (map<ConnKey, bool>, CtState) {
    if k.invalid then
      (conns, CtState(true, false, false, false, true, zone))
    else if ReplyKeyOf(zone, k.hdr) in conns then
      (conns[ReplyKeyOf(zone, k.hdr) := true], CtState(true, false, true, true, false, zone))
    else if KeyOf(zone, k.hdr) in conns && conns[KeyOf(zone, k.hdr)] then
      (conns, CtState(true, false, true, false, false, zone))
    else
      (conns, CtState(true, true, false, false, false, zone))
  }

  function Commit(conns: map<ConnKey, bool>, zone: nat, k: Pkt): map<ConnKey, bool> {
    if k.ct.isNew && KeyOf(zone, k.hdr) !in conns then conns[KeyOf(zone, k.hdr) := false] else conns
  }

  // ---- execution ----

  datatype Out = Out(port: nat, pkt: Pkt)

  datatype Res = Res(pkt: Pkt, sw: Switch, outs: seq<Out>)

  function Emit(port: nat, k: Pkt): seq<Out> {
    if port == k.inPort then [] else [Out(port, k)]
  }

  function Vid(tags: seq<Tag>): nat {
    if tags == [] then 0 else tags[0].vid
  }

  function Push(tpid: nat, tags: seq<Tag>): seq<Tag> {
    (if tags == [] then [Tag(tpid, 0, false, 0)] else [tags[0].(tpid := tpid)]) + tags
  }

  // Actions that only rewrite the packet.
  function Rewrite(a: Action, k: Pkt): Pkt {
    match a
    case LoadReg0(f, v) => k.(reg0 := Set(k.reg0, f, v))
    case MoveTunIdToReg0 => k.(reg0 := Set(k.reg0, Whole32, k.tunId))
    case MoveVidToReg0(f) => k.(reg0 := Set(k.reg0, f, Vid(k.tags)))
    case PushVlan(t) => k.(tags := Push(t, k.tags))
    case PopVlan => if k.tags == [] then k else k.(tags := k.tags[1..])
    case MoveReg0ToVid(f) =>
      if k.tags == [] then k else k.(tags := k.tags[0 := k.tags[0].(vid := Get(k.reg0, f) % 0x1000)])
    case SetTagPresent =>
      if k.tags == [] then k else k.(tags := k.tags[0 := k.tags[0].(present := true)])
    case SetTunDst(ip) => k.(tunDst := ip)
    case MoveReg0ToTunId => k.(tunId := Get(k.reg0, Whole32))
    case MoveReg0ToMd0 => k.(md0 := Get(k.reg0, Whole32))
    case SetMd1(v) => k.(md1 := v)
    case _ => k
  }

  // The order in which the pipeline's tables are entered; the learned table is
  // entered from L2_MATCH although its number is lower.
  function Rank(table: nat): nat {
    if table == OF_TABLE_ADMISS then 7
    else if table == OF_TABLE_INPUT then 6
    else if table == OF_TABLE_ACL then 5
    else if table == OF_TABLE_CORE then 4
    else if table == OF_TABLE_NAT then 3
    else if table == OF_TABLE_L2_MATCH then 2
    else if table == OF_TABLE_FIB then 1
    else 0
  }

  predicate Staged(a: Action, rank: nat, trk: bool) {
    match a
    case Goto(t) => Rank(t) < rank
    case Resubmit(t) => Rank(t) < rank
    case CtTrack(_) => !trk
    case _ => true
  }

  // A flow jumps only to a table of lower rank, and recirculates only untracked packets.
  predicate FlowStaged(f: Flow) {
    forall a :: a in f.actions ==>
      Staged(a, Rank(f.table), false) && (a.CtTrack? ==> f.cond.ct.trk == Some(false))
  }

  predicate WellStaged(flows: seq<Flow>) {
    forall f :: f in flows ==> FlowStaged(f)
  }

  // One packet's walk from a table on.  A miss drops the packet.
  function Run(flows: seq<Flow>, table: nat, s: Switch, k: Pkt): (r: Res)
    requires WellStaged(flows)
    ensures r.pkt.ct == k.ct
    decreases if k.ct.trk then 0 else 1, Rank(table), 1, 0
  {
    if table == OF_TABLE_FIB then
      if (k.reg0, k.dst) in s.fib then Res(k.(reg1 := s.fib[(k.reg0, k.dst)]), s, []) else Res(k, s, [])
    else
      match Lookup(flows, table, k)
      case None => Res(k, s, [])
      case Some(f) => assert FlowStaged(f); Exec(flows, f.actions, Rank(table), s, k)
  }

  function Exec(flows: seq<Flow>, acts: seq<Action>, rank: nat, s: Switch, k: Pkt): (r: Res)
    requires WellStaged(flows)
    requires forall a :: a in acts ==> Staged(a, rank, k.ct.trk)
    ensures r.pkt.ct == k.ct
    decreases if k.ct.trk then 0 else 1, rank, 0, |acts|
  {
    if acts == [] then Res(k, s, [])
    else
      var r := Act(flows, acts[0], rank, s, k);
      var r' := Exec(flows, acts[1..], rank, r.sw, r.pkt);
      Res(r'.pkt, r'.sw, r.outs + r'.outs)
  }

  function Act(flows: seq<Flow>, a: Action, rank: nat, s: Switch, k: Pkt): (r: Res)
    requires WellStaged(flows) && Staged(a, rank, k.ct.trk)
    ensures r.pkt.ct == k.ct
    decreases if k.ct.trk then 0 else 1, rank, 0, 0
  {
    match a
    case Output(p) => Res(k, s, Emit(p, k))
    case OutputReg1 => Res(k, s, Emit(k.reg1, k))
    case Goto(t) => Run(flows, t, s, k)
    case Resubmit(t) => Run(flows, t, s, k)
    case Learn => Res(k, s.(fib := s.fib[(k.reg0, k.src) := k.inPort]), [])
    case CtTrack(t) =>
      // the tracked copy restarts in table t; this copy goes on untracked
      var (conns, ct) := Track(s.conns, Get(k.reg0, Zone16), k);
      var r := Run(flows, t, s.(conns := conns), k.(ct := ct));
      Res(k, r.sw, r.outs)
    case CtCommit(z) => Res(k, s.(conns := Commit(s.conns, z, k)), [])
    case _ => Res(Rewrite(a, k), s, [])
  }
}
