/** The stateful ACL does not depend on the order its flows were added in either: flows of equal
    priority that match one packet do the same, so a host treats packets alike however it was programmed. */
module AclOrder {
  import opened Wrappers
  import opened Constants
  import opened OpenFlow
  import opened Ports
  import opened FlowTables
  import opened Walk
  import opened Conflicts
  import opened Conntrack
  import opened AclVerdicts

  predicate IsNeighbour(h: Header) {
    ProtoHits(IsNd(135), h) || ProtoHits(IsNd(136), h)
  }

  // A state a connection tracker gives: none before tracking; then invalid, new or established.
  // Neighbour discovery is passed on before it is tracked.
  predicate Tracked(k: Pkt) {
    if !k.ct.trk then k.ct == UNTRACKED
    else !IsNeighbour(k.hdr) && !(k.ct.isNew && k.ct.est) && !(k.ct.inv && (k.ct.isNew || k.ct.est))
  }

  lemma ShapesAgree(proto: Proto, guard: Option<Mac>, f: Flow, g: Flow, k: Pkt)
    requires HeadShape(f) || TrackedShape(f) || DenyShape(f, proto, guard)
    requires HeadShape(g) || TrackedShape(g) || DenyShape(g, proto, guard)
    requires Hits(f, OF_TABLE_ACL, k) && Hits(g, OF_TABLE_ACL, k) && f.priority == g.priority && Tracked(k)
    ensures f.actions == g.actions
  {
    if TrackedShape(f) { TrackedAgree(f, g, k); }
  }

  lemma TrackedAgree(f: Flow, g: Flow, k: Pkt)
    requires TrackedShape(f) && TrackedShape(g)
    requires Hits(f, OF_TABLE_ACL, k) && Hits(g, OF_TABLE_ACL, k) && Tracked(k)
    ensures f.actions == g.actions
  {
  }

  // The stateful table is not free of overlaps, but overlapping flows agree.
  lemma StatefulAgrees(flows: seq<Flow>, b: BridgeView, proto: Proto, guard: Option<Mac>, f: Flow, g: Flow, k: Pkt)
    requires AclIs(flows, b, proto, guard) && f in flows && g in flows
    requires Hits(f, OF_TABLE_ACL, k) && Hits(g, OF_TABLE_ACL, k) && f.priority == g.priority && Tracked(k)
    ensures f.actions == g.actions
  {
    Shapes(flows, b, proto, guard, f);
    Shapes(flows, b, proto, guard, g);
    ShapesAgree(proto, guard, f, g, k);
  }

  // Two lookups choose flows that do the same, or both choose none.
  predicate SameActions(r: Option<Flow>, r': Option<Flow>) {
    (r.Some? <==> r'.Some?) && (r.Some? ==> r.value.actions == r'.value.actions)
  }

  lemma AclOrderIrrelevant(flows: seq<Flow>, flows': seq<Flow>, b: BridgeView, deploy: Deploy, md: bool, teps: seq<Ip>,
                           proto: Proto, guard: Option<Mac>, k: Pkt)
    requires Filtering(flows, b, deploy, md, teps, proto, guard)
    requires Installed(flows', b, deploy, md, teps, HostAcl(b, proto, guard))
    requires Tracked(k)
    ensures SameActions(Lookup(flows, OF_TABLE_ACL, k), Lookup(flows', OF_TABLE_ACL, k))
  {
    SameFlows(flows, flows', b, deploy, md, teps, HostAcl(b, proto, guard));
    FilteringAcl(flows, b, deploy, md, teps, proto, guard);
    SameFlowsAgree(flows, flows', b, proto, guard, k);
  }

  lemma SameFlowsAgree(flows: seq<Flow>, flows': seq<Flow>, b: BridgeView, proto: Proto, guard: Option<Mac>, k: Pkt)
    requires AclIs(flows, b, proto, guard) && Tracked(k) && forall f :: f in flows <==> f in flows'
    ensures SameActions(Lookup(flows, OF_TABLE_ACL, k), Lookup(flows', OF_TABLE_ACL, k))
  {
    var r, r' := Lookup(flows, OF_TABLE_ACL, k), Lookup(flows', OF_TABLE_ACL, k);
    if r.Some? && r'.Some? { StatefulAgrees(flows, b, proto, guard, r.value, r'.value, k); }
  }

  lemma SameFlows(flows: seq<Flow>, flows': seq<Flow>, b: BridgeView, deploy: Deploy, md: bool, teps: seq<Ip>,
                  acl: seq<Flow>)
    requires Installed(flows, b, deploy, md, teps, acl) && Installed(flows', b, deploy, md, teps, acl)
    ensures forall f :: f in flows <==> f in flows'
  {
  }

  // Hence so does the whole decision about a packet.
  lemma VerdictOrderIrrelevant(flows: seq<Flow>, flows': seq<Flow>, b: BridgeView, deploy: Deploy, md: bool,
                               teps: seq<Ip>, proto: Proto, guard: Option<Mac>, s: Switch, k: Pkt)
    requires Filtering(flows, b, deploy, md, teps, proto, guard)
    requires Installed(flows', b, deploy, md, teps, HostAcl(b, proto, guard))
    requires k.ct == UNTRACKED
    ensures AclVerdict(flows, s, k) == AclVerdict(flows', s, k)
  {
    AclOrderIrrelevant(flows, flows', b, deploy, md, teps, proto, guard, k);
    if IsNeighbour(k.hdr) {
      NdNotTracked(flows, b, deploy, md, teps, proto, guard, k);
      PassedAtOnce(flows, s, k);
      PassedAtOnce(flows', s, k);
    } else {
      var k1 := k.(ct := Track(s.conns, ZoneOf(k), k).1);
      TrackedState(s, k);
      AclOrderIrrelevant(flows, flows', b, deploy, md, teps, proto, guard, k1);
      SamePasses(flows, flows', s, k);
    }
  }

  lemma TrackedState(s: Switch, k: Pkt)
    requires !IsNeighbour(k.hdr)
    ensures var k1 := k.(ct := Track(s.conns, ZoneOf(k), k).1); k1.ct.trk && Tracked(k1)
  {
  }

  lemma SamePasses(flows: seq<Flow>, flows': seq<Flow>, s: Switch, k: Pkt)
    requires k.ct == UNTRACKED && SameActions(Lookup(flows, OF_TABLE_ACL, k), Lookup(flows', OF_TABLE_ACL, k))
    requires var k1 := k.(ct := Track(s.conns, ZoneOf(k), k).1);
      SameActions(Lookup(flows, OF_TABLE_ACL, k1), Lookup(flows', OF_TABLE_ACL, k1))
    ensures AclVerdict(flows, s, k) == AclVerdict(flows', s, k)
  {
  }

  // And everything a host does with a packet from the ACL table on.
  lemma ForwardOrderIrrelevant(flows: seq<Flow>, flows': seq<Flow>, b: BridgeView, deploy: Deploy, md: bool,
                               teps: seq<Ip>, proto: Proto, guard: Option<Mac>, s: Switch, k: Pkt)
    requires Filtering(flows, b, deploy, md, teps, proto, guard)
    requires Filtering(flows', b, deploy, md, teps, proto, guard)
    requires k.ct == UNTRACKED
    ensures var r, r' := Run(flows, OF_TABLE_ACL, s, k), Run(flows', OF_TABLE_ACL, s, k);
      r.sw == r'.sw && r.outs == r'.outs
  {
    var acl := HostAcl(b, proto, guard);
    ForwardRun(flows, b, deploy, md, teps, acl, s, k);
    ForwardRun(flows', b, deploy, md, teps, acl, s, k);
    VerdictOrderIrrelevant(flows, flows', b, deploy, md, teps, proto, guard, s, k);
    var (s1, v) := AclVerdict(flows, s, k);
    if v.Some? {
      OrderIrrelevant(flows, flows', b, deploy, md, teps, acl, OF_TABLE_OUTPUT, Resolve(Learned(s1, v.value), v.value));
    }
  }
}
