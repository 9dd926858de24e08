/** The stateful ACL as a whole: for every packet on a port its VNI is listed for, the compiled table
    decides and records what a stateful firewall for one protocol does. */
module AclDecision {
  import opened Wrappers
  import opened Constants
  import opened OpenFlow
  import opened Ports
  import opened FlowTables
  import opened Walk
  import opened Switching
  import opened Conntrack
  import opened AclVerdicts

  // ---- the firewall ----

  // What is decided about a packet, and the connections on record afterwards.
  datatype Ruling = Ruling(pass: bool, conns: map<ConnKey, bool>)

  predicate IsAddressResolution(h: Header) {
    h.eth.Arp? || (h.eth.Ipv6? && h.proto.Icmp? && !h.fragLater && (h.icmpType == 135 || h.icmpType == 136))
  }

  // The UDP test needs TCP for its control connections.
  predicate IsCarried(proto: Proto, h: Header) {
    && (h.eth.Ipv4? || (h.eth.Ipv6? && !h.fragLater))
    && (h.proto == proto || (proto == Udp && h.proto == Tcp))
  }

  // Address resolution passes.  Of the admitted protocol, answers to a connection on record pass and
  // mark it answered, packets of an answered one pass, and others open or repeat one, unless they go
  // to the protected endpoint.  Invalid packets and all other protocols are stopped.
  function Rule(proto: Proto, guard: Option<Mac>, conns: map<ConnKey, bool>, zone: nat, f: Frame): Ruling {
    var h := f.hdr;
    var along := ConnKey(zone, h.eth.Ipv6?, h.proto, h.tuple);
    var against := along.(tuple := Tuple(h.tuple.dst, h.tuple.src, h.tuple.dport, h.tuple.sport));
    if IsAddressResolution(h) then Ruling(true, conns)
    else if h.eth.Ipv6? && h.fragLater then
      Ruling(false, if !f.invalid && against in conns then conns[against := true] else conns)
    else if !IsCarried(proto, h) || f.invalid then Ruling(false, conns)
    else if against in conns then Ruling(true, conns[against := true])
    else if along in conns && conns[along] then Ruling(true, conns)
    else if guard == Some(f.dst) && h.proto == proto then Ruling(false, conns)
    else Ruling(true, if along in conns then conns else conns[along := false])
  }

  // ---- the table decides the same ----

  // Address resolution is let through by the highest flows.
  lemma ResolutionPasses(flows: seq<Flow>, b: BridgeView, deploy: Deploy, md: bool, teps: seq<Ip>, proto: Proto,
                         guard: Option<Mac>, s: Switch, k: Pkt)
    requires Filtering(flows, b, deploy, md, teps, proto, guard) && k.ct == UNTRACKED && IsAddressResolution(k.hdr)
    ensures AclVerdict(flows, s, k) == (s, Some(k))
  {
    if k.hdr.eth.Arp? {
      InAcl(flows, b, deploy, md, teps, proto, guard, ARP_PASS);
      FilteringAcl(flows, b, deploy, md, teps, proto, guard);
      PassWins(flows, b, proto, guard, ARP_PASS, k);
    } else {
      NdNotTracked(flows, b, deploy, md, teps, proto, guard, k);
    }
    PassedAtOnce(flows, s, k);
  }

  // A port's flows match only packets of the protocols it admits, and later fragments.
  lemma PortFlowHits(vni: nat, ofp: nat, proto: Proto, f: Flow, k: Pkt)
    requires IsPortFlow(f, vni, ofp, proto) && Hits(f, OF_TABLE_ACL, k)
    ensures IsCarried(proto, k.hdr) || (f == FragFlow(ofp) && k.hdr.eth.Ipv6? && k.hdr.fragLater && !k.ct.trk)
  {
  }

  lemma OthersDropped(flows: seq<Flow>, b: BridgeView, proto: Proto, guard: Option<Mac>, k: Pkt)
    requires AclIs(flows, b, proto, guard) && !IsAddressResolution(k.hdr) && !IsCarried(proto, k.hdr)
    requires k.hdr.eth.Ipv6? && k.hdr.fragLater ==> k.ct.trk
    ensures var l := Lookup(flows, OF_TABLE_ACL, k); l.Some? ==> l.value.actions == []
  {
    var l := Lookup(flows, OF_TABLE_ACL, k);
    if l.Some? {
      if IsTracked(b, proto, l.value) {
        var e, ofp :| Listed(b, e, ofp) && IsPortFlow(l.value, e.vni, ofp, proto);
        PortFlowHits(e.vni, ofp, proto, l.value, k);
      }
    }
  }

  lemma DroppedAtOnce(flows: seq<Flow>, s: Switch, k: Pkt)
    requires var l := Lookup(flows, OF_TABLE_ACL, k); l.Some? ==> l.value.actions == []
    ensures AclVerdict(flows, s, k) == (s, None)
  {
  }

  // A later fragment is tracked and then matched by nothing.
  lemma FragmentStopped(flows: seq<Flow>, b: BridgeView, deploy: Deploy, md: bool, teps: seq<Ip>, proto: Proto,
                        guard: Option<Mac>, s: Switch, e: VniEntry<VifView>, k: Pkt)
    requires Filtering(flows, b, deploy, md, teps, proto, guard) && k.ct == UNTRACKED && Listed(b, e, k.inPort)
    requires k.hdr.eth.Ipv6? && k.hdr.fragLater
    ensures AclVerdict(flows, s, k) == (s.(conns := Track(s.conns, ZoneOf(k), k).0), None)
  {
    FragmentFirst(flows, b, deploy, md, teps, proto, guard, e, k);
    FilteringAcl(flows, b, deploy, md, teps, proto, guard);
    Tracks(s.conns, ZoneOf(k), k);
    OthersDropped(flows, b, proto, guard, k.(ct := Track(s.conns, ZoneOf(k), k).1));
    StoppedSecond(flows, s, k);
  }

  lemma Tracks(conns: map<ConnKey, bool>, zone: nat, k: Pkt)
    ensures Track(conns, zone, k).1.trk && Track(conns, zone, k).1.zone == zone
    ensures Track(conns, zone, k).0.Keys == conns.Keys
  {
  }

  lemma FragmentFirst(flows: seq<Flow>, b: BridgeView, deploy: Deploy, md: bool, teps: seq<Ip>, proto: Proto,
                      guard: Option<Mac>, e: VniEntry<VifView>, k: Pkt)
    requires Filtering(flows, b, deploy, md, teps, proto, guard) && k.ct == UNTRACKED && Listed(b, e, k.inPort)
    requires k.hdr.eth.Ipv6? && k.hdr.fragLater
    ensures var l := Lookup(flows, OF_TABLE_ACL, k); l.Some? && l.value.actions == [CtTrack(OF_TABLE_ACL)]
  {
    FragmentFlowIn(flows, b, deploy, md, teps, proto, guard, e, k.inPort);
    FilteringAcl(flows, b, deploy, md, teps, proto, guard);
    FragmentTracked(flows, b, proto, guard, FragFlow(k.inPort), k);
  }

  lemma FragmentFlowIn(flows: seq<Flow>, b: BridgeView, deploy: Deploy, md: bool, teps: seq<Ip>, proto: Proto,
                       guard: Option<Mac>, e: VniEntry<VifView>, ofp: nat)
    requires Filtering(flows, b, deploy, md, teps, proto, guard) && Listed(b, e, ofp)
    ensures FragFlow(ofp) in flows
  {
    assert IsTracked(b, proto, FragFlow(ofp)) by { assert IsPortFlow(FragFlow(ofp), e.vni, ofp, proto); }
    InAcl(flows, b, deploy, md, teps, proto, guard, FragFlow(ofp));
  }

  lemma FragmentTracked(flows: seq<Flow>, b: BridgeView, proto: Proto, guard: Option<Mac>, f: Flow, k: Pkt)
    requires AclIs(flows, b, proto, guard) && f in flows && Hits(f, OF_TABLE_ACL, k) && f.priority == 100
    requires k.ct == UNTRACKED && k.hdr.eth.Ipv6? && k.hdr.fragLater
    ensures var l := Lookup(flows, OF_TABLE_ACL, k); l.Some? && l.value.actions == [CtTrack(OF_TABLE_ACL)]
  {
    FragmentMatches(b, proto, guard, Lookup(flows, OF_TABLE_ACL, k).value, k);
  }

  lemma FragmentMatches(b: BridgeView, proto: Proto, guard: Option<Mac>, f: Flow, k: Pkt)
    requires f in ACL_HEAD || IsTracked(b, proto, f) || (guard.Some? && IsDeny(guard.value, proto, f))
    requires Hits(f, OF_TABLE_ACL, k) && k.ct == UNTRACKED && k.hdr.eth.Ipv6? && k.hdr.fragLater
    ensures f == ACL_DROP || f.actions == [CtTrack(OF_TABLE_ACL)]
  {
    if IsTracked(b, proto, f) {
      var e, ofp :| Listed(b, e, ofp) && IsPortFlow(f, e.vni, ofp, proto);
      PortFlowHits(e.vni, ofp, proto, f, k);
    }
  }

  // Nothing lets an invalid packet through.
  lemma InvalidStopped(flows: seq<Flow>, b: BridgeView, deploy: Deploy, md: bool, teps: seq<Ip>, proto: Proto,
                       guard: Option<Mac>, s: Switch, e: VniEntry<VifView>, k: Pkt)
    requires Filtering(flows, b, deploy, md, teps, proto, guard) && Trackable(b, proto, e, k) && k.invalid
    ensures AclVerdict(flows, s, k) == (s, None)
  {
    TrackedFirst(flows, b, deploy, md, teps, proto, guard, e, k);
    FilteringAcl(flows, b, deploy, md, teps, proto, guard);
    var k1 := k.(ct := Track(s.conns, ZoneOf(k), k).1);
    SecondPass(flows, b, proto, guard, k1);
    StoppedSecond(flows, s, k);
  }

  // Nothing opens a connection towards the protected endpoint.
  lemma OpeningStopped(flows: seq<Flow>, b: BridgeView, deploy: Deploy, md: bool, teps: seq<Ip>, proto: Proto,
                       mac: Mac, s: Switch, e: VniEntry<VifView>, k: Pkt)
    requires Filtering(flows, b, deploy, md, teps, proto, Some(mac)) && Admissible(b, proto, e, k)
    requires k.dst == mac && k.hdr.proto == proto && Track(s.conns, ZoneOf(k), k).1.isNew
    ensures AclVerdict(flows, s, k) == (s.(conns := Track(s.conns, ZoneOf(k), k).0), None)
  {
    TrackedFirst(flows, b, deploy, md, teps, proto, Some(mac), e, k);
    Tracks(s.conns, ZoneOf(k), k);
    DeniedDropped(flows, b, deploy, md, teps, proto, mac, k.(ct := Track(s.conns, ZoneOf(k), k).1));
    StoppedSecond(flows, s, k);
  }

  lemma CarriedTrackable(b: BridgeView, proto: Proto, e: VniEntry<VifView>, k: Pkt)
    requires Listed(b, e, k.inPort) && ZoneOf(k) == e.vni && k.ct == UNTRACKED
    requires IsCarried(proto, k.hdr) && !IsAddressResolution(k.hdr)
    ensures Trackable(b, proto, e, k)
  {
    assert L4(k.hdr.proto, k.hdr.eth.Ipv6?) in Both(k.hdr.proto);
  }

  lemma CarriedDecided(flows: seq<Flow>, b: BridgeView, deploy: Deploy, md: bool, teps: seq<Ip>, proto: Proto,
                       guard: Option<Mac>, s: Switch, e: VniEntry<VifView>, k: Pkt)
    requires Filtering(flows, b, deploy, md, teps, proto, guard) && Trackable(b, proto, e, k)
    requires IsCarried(proto, k.hdr) && !IsAddressResolution(k.hdr)
    ensures Decided(AclVerdict(flows, s, k), s, Rule(proto, guard, s.conns, ZoneOf(k), FrameOf(k)))
  {
    RuleOfTrack(proto, guard, s.conns, ZoneOf(k), k);
    if k.invalid {
      InvalidStopped(flows, b, deploy, md, teps, proto, guard, s, e, k);
    } else if Track(s.conns, ZoneOf(k), k).1.est {
      EstablishedAdmitted(flows, b, deploy, md, teps, proto, guard, s, e, k);
    } else if guard == Some(k.dst) && k.hdr.proto == proto {
      OpeningStopped(flows, b, deploy, md, teps, proto, k.dst, s, e, k);
    } else {
      UnansweredAdmitted(flows, b, deploy, md, teps, proto, guard, s, e, k);
    }
  }

  // The firewall in terms of what the tracker says about a packet it is about.
  lemma RuleOfTrack(proto: Proto, guard: Option<Mac>, conns: map<ConnKey, bool>, zone: nat, k: Pkt)
    requires IsCarried(proto, k.hdr) && !IsAddressResolution(k.hdr)
    ensures var (marked, ct) := Track(conns, zone, k);
      && ct.isNew == (!k.invalid && !ct.est) && (!ct.est ==> marked == conns)
      && Rule(proto, guard, conns, zone, FrameOf(k)) ==
           if k.invalid then Ruling(false, conns)
           else if ct.est then Ruling(true, marked)
           else if guard == Some(k.dst) && k.hdr.proto == proto then Ruling(false, conns)
           else Ruling(true, if KeyOf(zone, k.hdr) in conns then conns else conns[KeyOf(zone, k.hdr) := false])
  {
  }

  // And of packets it is not about.
  lemma RuleOfOthers(proto: Proto, guard: Option<Mac>, conns: map<ConnKey, bool>, zone: nat, k: Pkt)
    requires IsAddressResolution(k.hdr) || !IsCarried(proto, k.hdr)
    ensures Rule(proto, guard, conns, zone, FrameOf(k)) ==
              if IsAddressResolution(k.hdr) then Ruling(true, conns)
              else if k.hdr.eth.Ipv6? && k.hdr.fragLater then Ruling(false, Track(conns, zone, k).0)
              else Ruling(false, conns)
  {
  }

  predicate Decided(v: (Switch, Option<Pkt>), s: Switch, r: Ruling) {
    v.0 == s.(conns := r.conns) && (v.1.Some? <==> r.pass)
  }

  // The stateful ACL table of a host decides and records what the firewall says, about every packet
  // that enters on a port listed for its VNI.
  lemma AclDecides(flows: seq<Flow>, b: BridgeView, deploy: Deploy, md: bool, teps: seq<Ip>, proto: Proto,
                   guard: Option<Mac>, s: Switch, e: VniEntry<VifView>, k: Pkt)
    requires Filtering(flows, b, deploy, md, teps, proto, guard) && k.ct == UNTRACKED
    requires Listed(b, e, k.inPort) && ZoneOf(k) == e.vni
    ensures Decided(AclVerdict(flows, s, k), s, Rule(proto, guard, s.conns, ZoneOf(k), FrameOf(k)))
  {
    if IsCarried(proto, k.hdr) && !IsAddressResolution(k.hdr) {
      CarriedTrackable(b, proto, e, k);
      CarriedDecided(flows, b, deploy, md, teps, proto, guard, s, e, k);
    } else {
      OthersDecided(flows, b, deploy, md, teps, proto, guard, s, e, k);
    }
  }

  lemma OthersDecided(flows: seq<Flow>, b: BridgeView, deploy: Deploy, md: bool, teps: seq<Ip>, proto: Proto,
                      guard: Option<Mac>, s: Switch, e: VniEntry<VifView>, k: Pkt)
    requires Filtering(flows, b, deploy, md, teps, proto, guard) && k.ct == UNTRACKED && Listed(b, e, k.inPort)
    requires IsAddressResolution(k.hdr) || !IsCarried(proto, k.hdr)
    ensures Decided(AclVerdict(flows, s, k), s, Rule(proto, guard, s.conns, ZoneOf(k), FrameOf(k)))
  {
    RuleOfOthers(proto, guard, s.conns, ZoneOf(k), k);
    if IsAddressResolution(k.hdr) {
      ResolutionPasses(flows, b, deploy, md, teps, proto, guard, s, k);
    } else if k.hdr.eth.Ipv6? && k.hdr.fragLater {
      FragmentStopped(flows, b, deploy, md, teps, proto, guard, s, e, k);
    } else {
      FilteringAcl(flows, b, deploy, md, teps, proto, guard);
      OthersDropped(flows, b, proto, guard, k);
      DroppedAtOnce(flows, s, k);
    }
  }

  // ---- packets of no VNI of the host ----

  ghost predicate IsListed(b: BridgeView, ofp: nat, zone: nat) {
    exists e :: Listed(b, e, ofp) && e.vni == zone
  }

  // On a port and in a zone that no flow is written for, a packet is at most tracked, and then dropped.
  lemma UnlistedStopped(flows: seq<Flow>, b: BridgeView, deploy: Deploy, md: bool, teps: seq<Ip>, proto: Proto,
                        guard: Option<Mac>, s: Switch, k: Pkt)
    requires Filtering(flows, b, deploy, md, teps, proto, guard) && k.ct == UNTRACKED
    requires !IsAddressResolution(k.hdr) && !IsListed(b, k.inPort, ZoneOf(k))
    ensures var (s1, v) := AclVerdict(flows, s, k); v.None? && s1.conns.Keys == s.conns.Keys
  {
    FilteringAcl(flows, b, deploy, md, teps, proto, guard);
    UnlistedVerdict(flows, b, proto, guard, s, k);
  }

  lemma UnlistedVerdict(flows: seq<Flow>, b: BridgeView, proto: Proto, guard: Option<Mac>, s: Switch, k: Pkt)
    requires AclIs(flows, b, proto, guard) && k.ct == UNTRACKED
    requires !IsAddressResolution(k.hdr) && !IsListed(b, k.inPort, ZoneOf(k))
    ensures var (s1, v) := AclVerdict(flows, s, k); v.None? && s1.conns.Keys == s.conns.Keys
  {
    UnlistedFirst(flows, b, proto, guard, k);
    if Lookup(flows, OF_TABLE_ACL, k).Some? && Lookup(flows, OF_TABLE_ACL, k).value.actions != [] {
      Tracks(s.conns, ZoneOf(k), k);
      UnlistedSecond(flows, b, proto, guard, k.(ct := Track(s.conns, ZoneOf(k), k).1));
      StoppedSecond(flows, s, k);
    } else {
      DroppedAtOnce(flows, s, k);
    }
  }

  lemma UnlistedFirst(flows: seq<Flow>, b: BridgeView, proto: Proto, guard: Option<Mac>, k: Pkt)
    requires AclIs(flows, b, proto, guard) && !IsAddressResolution(k.hdr) && k.ct == UNTRACKED
    ensures var l := Lookup(flows, OF_TABLE_ACL, k);
      l.Some? ==> l.value.actions == [] || l.value.actions == [CtTrack(OF_TABLE_ACL)]
  {
    var l := Lookup(flows, OF_TABLE_ACL, k);
    if l.Some? { Shapes(flows, b, proto, guard, l.value); }
  }

  lemma UnlistedSecond(flows: seq<Flow>, b: BridgeView, proto: Proto, guard: Option<Mac>, k: Pkt)
    requires AclIs(flows, b, proto, guard) && !IsAddressResolution(k.hdr)
    requires k.ct.trk && !IsListed(b, k.inPort, k.ct.zone)
    ensures var l := Lookup(flows, OF_TABLE_ACL, k); l.Some? ==> l.value.actions == []
  {
    var l := Lookup(flows, OF_TABLE_ACL, k);
    if l.Some? {
      if IsTracked(b, proto, l.value) {
        var e, ofp :| Listed(b, e, ofp) && IsPortFlow(l.value, e.vni, ofp, proto);
        TrackedInZone(e.vni, ofp, proto, l.value, k);
      }
    }
  }

  lemma TrackedInZone(vni: nat, ofp: nat, proto: Proto, f: Flow, k: Pkt)
    requires IsPortFlow(f, vni, ofp, proto) && Hits(f, OF_TABLE_ACL, k) && k.ct.trk
    ensures k.inPort == ofp && k.ct.zone == vni
  {
  }
}
