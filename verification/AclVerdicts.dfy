/** What the stateful ACL decides about one packet, and what it records. */
module AclVerdicts {
  import opened Wrappers
  import opened Constants
  import opened OpenFlow
  import opened Ports
  import opened FlowTables
  import opened Lookups
  import opened Walk
  import opened Conntrack

  // A packet the stateful flows of a protocol apply to; neighbour discovery is always let through.
  predicate Guarded(proto: Proto, h: Header) {
    && h.proto == proto && (h.eth.Ipv4? || (h.eth.Ipv6? && !h.fragLater))
    && !(h.eth.Ipv6? && proto.Icmp? && (h.icmpType == 135 || h.icmpType == 136))
  }

  // A bridge running one host's stateful ACL.
  ghost predicate Filtering(flows: seq<Flow>, b: BridgeView, deploy: Deploy, md: bool, teps: seq<Ip>,
                            proto: Proto, guard: Option<Mac>) {
    Deployed(flows, b, deploy, md, teps, HostAcl(b, proto, guard))
  }

  // All that the decisions depend on: the flows of the ACL table.
  ghost predicate AclIs(flows: seq<Flow>, b: BridgeView, proto: Proto, guard: Option<Mac>) {
    forall f :: f in flows && f.table == OF_TABLE_ACL ==>
      f in ACL_HEAD || IsTracked(b, proto, f) || (guard.Some? && IsDeny(guard.value, proto, f))
  }

  lemma FilteringAcl(flows: seq<Flow>, b: BridgeView, deploy: Deploy, md: bool, teps: seq<Ip>, proto: Proto,
                     guard: Option<Mac>)
    requires Filtering(flows, b, deploy, md, teps, proto, guard)
    ensures AclIs(flows, b, proto, guard)
  {
    forall f | f in flows && f.table == OF_TABLE_ACL
      ensures f in ACL_HEAD || IsTracked(b, proto, f) || (guard.Some? && IsDeny(guard.value, proto, f))
    {
      OnlyTable(flows, b, deploy, md, teps, HostAcl(b, proto, guard), f);
      AllowProtoAre(b, proto, f);
      if guard.Some? { OriginateOnlyAre(guard.value, proto, f); }
    }
  }

  lemma InAcl(flows: seq<Flow>, b: BridgeView, deploy: Deploy, md: bool, teps: seq<Ip>, proto: Proto,
              guard: Option<Mac>, f: Flow)
    requires Filtering(flows, b, deploy, md, teps, proto, guard)
    requires f in ACL_HEAD || IsTracked(b, proto, f) || (guard.Some? && IsDeny(guard.value, proto, f))
    ensures f in flows
  {
    AllowProtoAre(b, proto, f);
    if guard.Some? { OriginateOnlyAre(guard.value, proto, f); }
  }

  // The forms an ACL flow can take.
  predicate HeadShape(f: Flow) {
    f == ACL_DROP || (f.priority == 2000 && f.actions == [Goto(OF_TABLE_CORE)]
                      && (f.cond.proto == Some(IsArp) || f.cond.proto == Some(IsNd(135))
                          || f.cond.proto == Some(IsNd(136))))
  }

  predicate TrackedShape(f: Flow) {
    && f.priority == 100
    && (|| (f.actions == [CtTrack(OF_TABLE_ACL)] && f.cond.ct == IS_UNTRACKED)
        || (f.cond.proto.Some? && f.cond.proto.value.IsProto?
            && f.cond.zone.Some? && f.actions == [CtCommit(f.cond.zone.value), Goto(OF_TABLE_CORE)]
            && f.cond.ct == IS_NEW)
        || (f.actions == [Goto(OF_TABLE_CORE)] && (f.cond.ct == IS_EST || f.cond.ct == IS_REPLY)))
  }

  predicate DenyShape(f: Flow, proto: Proto, guard: Option<Mac>) {
    && f.priority == 2000 && f.actions == [] && (f.cond.ct == IS_NEW || f.cond.ct == IS_INVALID)
    && guard.Some? && f.cond.dst == guard
    && f.cond.proto.Some? && f.cond.proto.value.IsProto? && f.cond.proto.value.proto == proto
  }

  lemma PortFlowShape(vni: nat, ofp: nat, proto: Proto, f: Flow)
    requires IsPortFlow(f, vni, ofp, proto)
    ensures TrackedShape(f)
  {
  }

  lemma DenyFlowShape(mac: Mac, proto: Proto, f: Flow)
    requires IsDeny(mac, proto, f)
    ensures DenyShape(f, proto, Some(mac))
  {
  }

  lemma Shapes(flows: seq<Flow>, b: BridgeView, proto: Proto, guard: Option<Mac>, f: Flow)
    requires AclIs(flows, b, proto, guard) && f in flows && f.table == OF_TABLE_ACL
    ensures HeadShape(f) || TrackedShape(f) || DenyShape(f, proto, guard)
  {
    if IsTracked(b, proto, f) {
      var e, ofp :| Listed(b, e, ofp) && IsPortFlow(f, e.vni, ofp, proto);
      PortFlowShape(e.vni, ofp, proto, f);
    } else if guard.Some? && IsDeny(guard.value, proto, f) {
      DenyFlowShape(guard.value, proto, f);
    }
  }

  // Of the fixed flows only the final drop matches a guarded packet.
  lemma HeadMisses(f: Flow, k: Pkt)
    requires HeadShape(f) && Hits(f, OF_TABLE_ACL, k) && Guarded(k.hdr.proto, k.hdr)
    ensures f == ACL_DROP
  {
  }

  // The flow a guarded packet selects when some flow of priority 100 or more matches it.
  lemma Winner(flows: seq<Flow>, b: BridgeView, proto: Proto, guard: Option<Mac>, f: Flow, k: Pkt)
    requires AclIs(flows, b, proto, guard) && f in flows && Guarded(k.hdr.proto, k.hdr)
    requires Hits(f, OF_TABLE_ACL, k) && f.priority >= 100
    ensures var l := Lookup(flows, OF_TABLE_ACL, k);
      && l.Some? && Hits(l.value, OF_TABLE_ACL, k) && l.value.priority >= f.priority
      && (TrackedShape(l.value) || DenyShape(l.value, proto, guard))
  {
    var l := Lookup(flows, OF_TABLE_ACL, k).value;
    Shapes(flows, b, proto, guard, l);
    if HeadShape(l) { HeadMisses(l, k); }
  }

  // What can be chosen for an untracked packet of a stateful protocol: drop it or track it.
  lemma FirstPass(flows: seq<Flow>, b: BridgeView, proto: Proto, guard: Option<Mac>, k: Pkt)
    requires AclIs(flows, b, proto, guard) && k.ct == UNTRACKED
    ensures var l := Lookup(flows, OF_TABLE_ACL, k);
      l.Some? ==>
        || l.value.actions == [] || l.value.actions == [CtTrack(OF_TABLE_ACL)]
        || (l.value.actions == [Goto(OF_TABLE_CORE)] && !Guarded(k.hdr.proto, k.hdr))
  {
    var l := Lookup(flows, OF_TABLE_ACL, k);
    if l.Some? { Shapes(flows, b, proto, guard, l.value); }
  }

  // On the second pass a new connection is committed only to the packet's own zone.
  lemma SecondPass(flows: seq<Flow>, b: BridgeView, proto: Proto, guard: Option<Mac>, k: Pkt)
    requires AclIs(flows, b, proto, guard) && k.ct.trk
    ensures var l := Lookup(flows, OF_TABLE_ACL, k);
      l.Some? ==>
        || l.value.actions == []
        || (l.value.actions == [CtCommit(k.ct.zone), Goto(OF_TABLE_CORE)] && k.ct.isNew
            && (k.hdr.eth.Ipv4? || (k.hdr.eth.Ipv6? && !k.hdr.fragLater)))
        || (l.value.actions == [Goto(OF_TABLE_CORE)] && (k.ct.est || !Guarded(k.hdr.proto, k.hdr)))
  {
    var l := Lookup(flows, OF_TABLE_ACL, k);
    if l.Some? { Shapes(flows, b, proto, guard, l.value); }
  }

  // New and invalid packets of the protocol towards the protected address are dropped.
  lemma DeniedDropped(flows: seq<Flow>, b: BridgeView, deploy: Deploy, md: bool, teps: seq<Ip>, proto: Proto, mac: Mac,
                      k: Pkt)
    requires Filtering(flows, b, deploy, md, teps, proto, Some(mac))
    requires k.dst == mac && Guarded(proto, k.hdr) && k.ct.trk && (k.ct.isNew || k.ct.inv)
    ensures var l := Lookup(flows, OF_TABLE_ACL, k);
      l.Some? && l.value.actions == []
  {
    var p := L4(proto, k.hdr.eth.Ipv6?);
    var f := if k.ct.isNew then DenyNew(mac, p) else DenyInvalid(mac, p);
    assert IsDeny(mac, proto, f) by { assert p in Both(proto); }
    InAcl(flows, b, deploy, md, teps, proto, Some(mac), f);
    FilteringAcl(flows, b, deploy, md, teps, proto, Some(mac));
    DenyWins(flows, b, proto, Some(mac), f, k);
  }

  lemma DenyWins(flows: seq<Flow>, b: BridgeView, proto: Proto, guard: Option<Mac>, f: Flow, k: Pkt)
    requires AclIs(flows, b, proto, guard) && f in flows
    requires Hits(f, OF_TABLE_ACL, k) && f.priority == 2000 && Guarded(k.hdr.proto, k.hdr)
    ensures var l := Lookup(flows, OF_TABLE_ACL, k);
      l.Some? && l.value.actions == []
  {
    Winner(flows, b, proto, guard, f, k);
  }

  // Neighbour discovery is passed on before anything tracks it.
  lemma NdNotTracked(flows: seq<Flow>, b: BridgeView, deploy: Deploy, md: bool, teps: seq<Ip>, proto: Proto,
                     guard: Option<Mac>, k: Pkt)
    requires Filtering(flows, b, deploy, md, teps, proto, guard) && k.ct == UNTRACKED
    requires ProtoHits(IsNd(135), k.hdr) || ProtoHits(IsNd(136), k.hdr)
    ensures Lookup(flows, OF_TABLE_ACL, k).Some?
    ensures Lookup(flows, OF_TABLE_ACL, k).value.actions == [Goto(OF_TABLE_CORE)]
  {
    var f := if k.hdr.icmpType == 135 then ND_SOLICIT else ND_ADVERT;
    InAcl(flows, b, deploy, md, teps, proto, guard, f);
    FilteringAcl(flows, b, deploy, md, teps, proto, guard);
    PassWins(flows, b, proto, guard, f, k);
  }

  lemma PassWins(flows: seq<Flow>, b: BridgeView, proto: Proto, guard: Option<Mac>, f: Flow, k: Pkt)
    requires AclIs(flows, b, proto, guard) && f in flows && k.ct == UNTRACKED
    requires Hits(f, OF_TABLE_ACL, k) && f.priority == 2000
    ensures var l := Lookup(flows, OF_TABLE_ACL, k);
      l.Some? && l.value.actions == [Goto(OF_TABLE_CORE)]
  {
    Shapes(flows, b, proto, guard, Lookup(flows, OF_TABLE_ACL, k).value);
  }

  // ---- one packet ----

  // The zone a packet is tracked in.
  function ZoneOf(k: Pkt): nat {
    Get(k.reg0, Zone16)
  }

  // Nothing is forgotten, and at most the packet's own connection, in its own zone, is added.
  ghost predicate RecordsOwn(was: map<ConnKey, bool>, now: map<ConnKey, bool>, k: Pkt) {
    && (forall key :: key in was ==> key in now)
    && (forall key :: key in now && key !in was ==> key == KeyOf(ZoneOf(k), k.hdr) && Guarded(k.hdr.proto, k.hdr))
  }

  lemma VerdictRecords(flows: seq<Flow>, b: BridgeView, deploy: Deploy, md: bool, teps: seq<Ip>, proto: Proto,
                       guard: Option<Mac>, s: Switch, k: Pkt)
    requires Filtering(flows, b, deploy, md, teps, proto, guard) && k.ct == UNTRACKED
    ensures RecordsOwn(s.conns, AclVerdict(flows, s, k).0.conns, k)
  {
    FilteringAcl(flows, b, deploy, md, teps, proto, guard);
    if ProtoHits(IsNd(135), k.hdr) || ProtoHits(IsNd(136), k.hdr) {
      NdNotTracked(flows, b, deploy, md, teps, proto, guard, k);
      PassedAtOnce(flows, s, k);
    } else {
      Recorded(flows, b, proto, guard, s, k);
    }
  }

  lemma PassedAtOnce(flows: seq<Flow>, s: Switch, k: Pkt)
    requires Lookup(flows, OF_TABLE_ACL, k).Some?
    requires Lookup(flows, OF_TABLE_ACL, k).value.actions == [Goto(OF_TABLE_CORE)]
    ensures AclVerdict(flows, s, k) == (s, Some(k))
  {
  }

  lemma Recorded(flows: seq<Flow>, b: BridgeView, proto: Proto, guard: Option<Mac>, s: Switch, k: Pkt)
    requires AclIs(flows, b, proto, guard) && k.ct == UNTRACKED
    requires !ProtoHits(IsNd(135), k.hdr) && !ProtoHits(IsNd(136), k.hdr)
    ensures RecordsOwn(s.conns, AclVerdict(flows, s, k).0.conns, k)
  {
    FirstPass(flows, b, proto, guard, k);
    var l := Lookup(flows, OF_TABLE_ACL, k);
    if l.Some? && l.value.actions == [CtTrack(OF_TABLE_ACL)] {
      var (conns, ct) := Track(s.conns, ZoneOf(k), k);
      VerdictOfTracked(flows, s, k);
      RecordedTracked(flows, b, proto, guard, s.(conns := conns), k.(ct := ct));
    }
  }

  lemma RecordedTracked(flows: seq<Flow>, b: BridgeView, proto: Proto, guard: Option<Mac>, s: Switch, k: Pkt)
    requires AclIs(flows, b, proto, guard) && k.ct.trk && k.ct.zone == ZoneOf(k)
    requires !ProtoHits(IsNd(135), k.hdr) && !ProtoHits(IsNd(136), k.hdr)
    ensures RecordsOwn(s.conns, AclVerdict(flows, s, k).0.conns, k)
  {
    SecondPass(flows, b, proto, guard, k);
  }

  // Towards the protected address nothing is recorded, and only packets of a recorded connection pass.
  lemma GuardedVerdict(flows: seq<Flow>, b: BridgeView, deploy: Deploy, md: bool, teps: seq<Ip>, proto: Proto, mac: Mac,
                       s: Switch, k: Pkt)
    requires Filtering(flows, b, deploy, md, teps, proto, Some(mac)) && k.ct == UNTRACKED
    requires k.dst == mac && Guarded(proto, k.hdr)
    ensures var (s1, v) := AclVerdict(flows, s, k);
      && s1.conns.Keys == s.conns.Keys
      && (v.Some? ==> ReplyKeyOf(ZoneOf(k), k.hdr) in s.conns || KeyOf(ZoneOf(k), k.hdr) in s.conns)
  {
    FilteringAcl(flows, b, deploy, md, teps, proto, Some(mac));
    var (conns, ct) := Track(s.conns, ZoneOf(k), k);
    var k1 := k.(ct := ct);
    if ct.isNew || ct.inv { DeniedDropped(flows, b, deploy, md, teps, proto, mac, k1); }
    PassedKnown(flows, b, proto, Some(mac), s, k);
  }

  lemma PassedKnown(flows: seq<Flow>, b: BridgeView, proto: Proto, guard: Option<Mac>, s: Switch, k: Pkt)
    requires AclIs(flows, b, proto, guard) && k.ct == UNTRACKED && Guarded(proto, k.hdr)
    requires var k1 := k.(ct := Track(s.conns, ZoneOf(k), k).1);
             k1.ct.isNew || k1.ct.inv ==>
               Lookup(flows, OF_TABLE_ACL, k1).Some? && Lookup(flows, OF_TABLE_ACL, k1).value.actions == []
    ensures var (s1, v) := AclVerdict(flows, s, k);
      && s1.conns.Keys == s.conns.Keys
      && (v.Some? ==> ReplyKeyOf(ZoneOf(k), k.hdr) in s.conns || KeyOf(ZoneOf(k), k.hdr) in s.conns)
  {
    FirstPass(flows, b, proto, guard, k);
    var (conns, ct) := Track(s.conns, ZoneOf(k), k);
    SecondPass(flows, b, proto, guard, k.(ct := ct));
    assert conns.Keys == s.conns.Keys;
  }

  // ---- what is let through ----

  // A packet of an admitted protocol on one of the ports its VNI's flows are written for.
  ghost predicate Trackable(b: BridgeView, proto: Proto, e: VniEntry<VifView>, k: Pkt) {
    && Listed(b, e, k.inPort) && ZoneOf(k) == e.vni && k.ct == UNTRACKED
    && Guarded(k.hdr.proto, k.hdr) && L4(k.hdr.proto, k.hdr.eth.Ipv6?) in Protos(proto)
  }

  ghost predicate Admissible(b: BridgeView, proto: Proto, e: VniEntry<VifView>, k: Pkt) {
    Trackable(b, proto, e, k) && !k.invalid
  }

  lemma TrackedFirst(flows: seq<Flow>, b: BridgeView, deploy: Deploy, md: bool, teps: seq<Ip>, proto: Proto,
                     guard: Option<Mac>, e: VniEntry<VifView>, k: Pkt)
    requires Filtering(flows, b, deploy, md, teps, proto, guard) && Trackable(b, proto, e, k)
    ensures Lookup(flows, OF_TABLE_ACL, k).Some?
    ensures Lookup(flows, OF_TABLE_ACL, k).value.actions == [CtTrack(OF_TABLE_ACL)]
  {
    var p := L4(k.hdr.proto, k.hdr.eth.Ipv6?);
    var f := TrackFlow(k.inPort, p);
    assert IsTracked(b, proto, f) by { assert IsPortFlow(f, e.vni, k.inPort, proto); }
    InAcl(flows, b, deploy, md, teps, proto, guard, f);
    FilteringAcl(flows, b, deploy, md, teps, proto, guard);
    TrackWins(flows, b, proto, guard, f, k);
  }

  lemma TrackWins(flows: seq<Flow>, b: BridgeView, proto: Proto, guard: Option<Mac>, f: Flow, k: Pkt)
    requires AclIs(flows, b, proto, guard) && f in flows && k.ct == UNTRACKED && Guarded(k.hdr.proto, k.hdr)
    requires Hits(f, OF_TABLE_ACL, k) && f.priority == 100
    ensures var l := Lookup(flows, OF_TABLE_ACL, k);
      l.Some? && l.value.actions == [CtTrack(OF_TABLE_ACL)]
  {
    Winner(flows, b, proto, guard, f, k);
  }

  lemma EstWins(flows: seq<Flow>, b: BridgeView, proto: Proto, guard: Option<Mac>, f: Flow, k: Pkt)
    requires AclIs(flows, b, proto, guard) && f in flows && Guarded(k.hdr.proto, k.hdr)
    requires k.ct.trk && k.ct.est && !k.ct.isNew && !k.ct.inv
    requires Hits(f, OF_TABLE_ACL, k) && f.priority == 100
    ensures var l := Lookup(flows, OF_TABLE_ACL, k);
      l.Some? && l.value.actions == [Goto(OF_TABLE_CORE)]
  {
    Winner(flows, b, proto, guard, f, k);
  }

  // Replies on a recorded connection are let through, towards the protected address too.
  lemma ReplyAdmitted(flows: seq<Flow>, b: BridgeView, deploy: Deploy, md: bool, teps: seq<Ip>, proto: Proto,
                      guard: Option<Mac>, s: Switch, e: VniEntry<VifView>, k: Pkt)
    requires Filtering(flows, b, deploy, md, teps, proto, guard) && Admissible(b, proto, e, k)
    requires ReplyKeyOf(ZoneOf(k), k.hdr) in s.conns
    ensures AclVerdict(flows, s, k).1.Some?
    ensures AclVerdict(flows, s, k).0.conns == s.conns[ReplyKeyOf(ZoneOf(k), k.hdr) := true]
  {
    EstablishedAdmitted(flows, b, deploy, md, teps, proto, guard, s, e, k);
  }

  // Further packets of a connection that was answered are let through as they come.
  lemma ContinuationAdmitted(flows: seq<Flow>, b: BridgeView, deploy: Deploy, md: bool, teps: seq<Ip>, proto: Proto,
                             guard: Option<Mac>, s: Switch, e: VniEntry<VifView>, k: Pkt)
    requires Filtering(flows, b, deploy, md, teps, proto, guard) && Admissible(b, proto, e, k)
    requires ReplyKeyOf(ZoneOf(k), k.hdr) !in s.conns
    requires KeyOf(ZoneOf(k), k.hdr) in s.conns && s.conns[KeyOf(ZoneOf(k), k.hdr)]
    ensures AclVerdict(flows, s, k).1.Some? && AclVerdict(flows, s, k).0 == s
  {
    EstablishedAdmitted(flows, b, deploy, md, teps, proto, guard, s, e, k);
  }

  lemma EstablishedAdmitted(flows: seq<Flow>, b: BridgeView, deploy: Deploy, md: bool, teps: seq<Ip>, proto: Proto,
                            guard: Option<Mac>, s: Switch, e: VniEntry<VifView>, k: Pkt)
    requires Filtering(flows, b, deploy, md, teps, proto, guard) && Admissible(b, proto, e, k)
    requires Track(s.conns, ZoneOf(k), k).1.est
    ensures AclVerdict(flows, s, k).1.Some?
    ensures AclVerdict(flows, s, k).0 == s.(conns := Track(s.conns, ZoneOf(k), k).0)
  {
    TrackedFirst(flows, b, deploy, md, teps, proto, guard, e, k);
    EstablishedIs(s.conns, ZoneOf(k), k);
    EstSecond(flows, b, deploy, md, teps, proto, guard, e, k, Track(s.conns, ZoneOf(k), k).1);
    PassedSecond(flows, s, k);
  }

  lemma EstablishedIs(conns: map<ConnKey, bool>, zone: nat, k: Pkt)
    requires Track(conns, zone, k).1.est
    ensures IsEstablished(Track(conns, zone, k).1, zone)
  {
  }

  ghost predicate IsEstablished(ct: CtState, zone: nat) {
    ct.trk && ct.est && !ct.isNew && !ct.inv && ct.zone == zone
  }

  // What an established packet selects when it comes back from the tracker.
  lemma EstSecond(flows: seq<Flow>, b: BridgeView, deploy: Deploy, md: bool, teps: seq<Ip>, proto: Proto,
                  guard: Option<Mac>, e: VniEntry<VifView>, k: Pkt, ct: CtState)
    requires Filtering(flows, b, deploy, md, teps, proto, guard) && Trackable(b, proto, e, k)
    requires IsEstablished(ct, ZoneOf(k))
    ensures var l := Lookup(flows, OF_TABLE_ACL, k.(ct := ct)); l.Some? && l.value.actions == [Goto(OF_TABLE_CORE)]
  {
    var f := EstFlow(e.vni, k.inPort, L4(k.hdr.proto, k.hdr.eth.Ipv6?));
    assert IsTracked(b, proto, f) by { assert IsPortFlow(f, e.vni, k.inPort, proto); }
    InAcl(flows, b, deploy, md, teps, proto, guard, f);
    FilteringAcl(flows, b, deploy, md, teps, proto, guard);
    EstWins(flows, b, proto, guard, f, k.(ct := ct));
  }

  // A tracked packet that is passed on, or stopped, on its second visit.
  lemma PassedSecond(flows: seq<Flow>, s: Switch, k: Pkt)
    requires k.ct == UNTRACKED && Lookup(flows, OF_TABLE_ACL, k).Some?
    requires Lookup(flows, OF_TABLE_ACL, k).value.actions == [CtTrack(OF_TABLE_ACL)]
    requires var l := Lookup(flows, OF_TABLE_ACL, k.(ct := Track(s.conns, ZoneOf(k), k).1));
      l.Some? && l.value.actions == [Goto(OF_TABLE_CORE)]
    ensures AclVerdict(flows, s, k) ==
              (s.(conns := Track(s.conns, ZoneOf(k), k).0), Some(k.(ct := Track(s.conns, ZoneOf(k), k).1)))
  {
    VerdictOfTracked(flows, s, k);
  }

  lemma StoppedSecond(flows: seq<Flow>, s: Switch, k: Pkt)
    requires k.ct == UNTRACKED && Lookup(flows, OF_TABLE_ACL, k).Some?
    requires Lookup(flows, OF_TABLE_ACL, k).value.actions == [CtTrack(OF_TABLE_ACL)]
    requires var l := Lookup(flows, OF_TABLE_ACL, k.(ct := Track(s.conns, ZoneOf(k), k).1));
      l.Some? ==> l.value.actions == []
    ensures AclVerdict(flows, s, k) == (s.(conns := Track(s.conns, ZoneOf(k), k).0), None)
  {
    VerdictOfTracked(flows, s, k);
  }

  lemma VerdictOfTracked(flows: seq<Flow>, s: Switch, k: Pkt)
    requires k.ct == UNTRACKED && Lookup(flows, OF_TABLE_ACL, k).Some?
    requires Lookup(flows, OF_TABLE_ACL, k).value.actions == [CtTrack(OF_TABLE_ACL)]
    ensures var (conns, ct) := Track(s.conns, ZoneOf(k), k);
      AclVerdict(flows, s, k) == AclVerdict(flows, s.(conns := conns), k.(ct := ct))
  {
  }

  lemma NewWins(flows: seq<Flow>, b: BridgeView, proto: Proto, guard: Option<Mac>, f: Flow, k: Pkt)
    requires AclIs(flows, b, proto, guard) && f in flows && Guarded(k.hdr.proto, k.hdr)
    requires k.ct.trk && k.ct.isNew && !k.ct.est && !(guard == Some(k.dst) && k.hdr.proto == proto)
    requires Hits(f, OF_TABLE_ACL, k) && f.priority == 100
    ensures var l := Lookup(flows, OF_TABLE_ACL, k);
      l.Some? && l.value.actions == [CtCommit(k.ct.zone), Goto(OF_TABLE_CORE)]
  {
    Winner(flows, b, proto, guard, f, k);
  }

  lemma CommittedAtOnce(flows: seq<Flow>, s: Switch, k: Pkt, z: nat)
    requires Lookup(flows, OF_TABLE_ACL, k).Some?
    requires Lookup(flows, OF_TABLE_ACL, k).value.actions == [CtCommit(z), Goto(OF_TABLE_CORE)]
    ensures AclVerdict(flows, s, k) == (s.(conns := Commit(s.conns, z, k)), Some(k))
  {
  }

  // The first packet of a connection is let through and recorded, unless it goes to the protected endpoint.
  lemma OpeningAdmitted(flows: seq<Flow>, b: BridgeView, deploy: Deploy, md: bool, teps: seq<Ip>, proto: Proto,
                        guard: Option<Mac>, s: Switch, e: VniEntry<VifView>, k: Pkt)
    requires Filtering(flows, b, deploy, md, teps, proto, guard) && Admissible(b, proto, e, k)
    requires ReplyKeyOf(ZoneOf(k), k.hdr) !in s.conns && KeyOf(ZoneOf(k), k.hdr) !in s.conns
    requires !(guard == Some(k.dst) && k.hdr.proto == proto)
    ensures AclVerdict(flows, s, k).1.Some?
    ensures AclVerdict(flows, s, k).0.conns == s.conns[KeyOf(ZoneOf(k), k.hdr) := false]
  {
    UnansweredAdmitted(flows, b, deploy, md, teps, proto, guard, s, e, k);
  }

  // So is every packet in its direction until it is answered.
  lemma UnansweredAdmitted(flows: seq<Flow>, b: BridgeView, deploy: Deploy, md: bool, teps: seq<Ip>, proto: Proto,
                           guard: Option<Mac>, s: Switch, e: VniEntry<VifView>, k: Pkt)
    requires Filtering(flows, b, deploy, md, teps, proto, guard) && Admissible(b, proto, e, k)
    requires ReplyKeyOf(ZoneOf(k), k.hdr) !in s.conns
    requires KeyOf(ZoneOf(k), k.hdr) in s.conns ==> !s.conns[KeyOf(ZoneOf(k), k.hdr)]
    requires !(guard == Some(k.dst) && k.hdr.proto == proto)
    ensures AclVerdict(flows, s, k).1.Some?
    ensures var key := KeyOf(ZoneOf(k), k.hdr);
      AclVerdict(flows, s, k).0 == if key in s.conns then s else s.(conns := s.conns[key := false])
  {
    TrackedFirst(flows, b, deploy, md, teps, proto, guard, e, k);
    var k1 := k.(ct := Track(s.conns, ZoneOf(k), k).1);
    var f := NewFlow(e.vni, k.inPort, L4(k.hdr.proto, k.hdr.eth.Ipv6?));
    assert IsTracked(b, proto, f) by { assert IsPortFlow(f, e.vni, k.inPort, proto); }
    InAcl(flows, b, deploy, md, teps, proto, guard, f);
    FilteringAcl(flows, b, deploy, md, teps, proto, guard);
    NewWins(flows, b, proto, guard, f, k1);
    VerdictOfTracked(flows, s, k);
    CommittedAtOnce(flows, s, k1, k1.ct.zone);
  }
}
