/** The closed form of a packet's walk: tag, filter, learn, resolve, output. */
module Walk {
  import opened Wrappers
  import opened Constants
  import opened OpenFlow
  import opened Ports
  import opened FlowTables
  import opened FlowTableProps
  import opened Lookups
  import opened Pipeline

  // ---- INPUT ----

  // What register 0 holds for a VNI: qinq keeps the VNI in the low bits and VNI + 100 above.
  function Reg0Of(deploy: Deploy, vni: nat): nat {
    match deploy
    case Qinq => vni % 0x1000 + (vni + 100) % 0x1000 * 0x1_0000
    case Native => 0
    case _ => vni % 0x1_0000_0000
  }

  function Tail(tags: seq<Tag>): seq<Tag> {
    if tags == [] then [] else tags[1..]
  }

  // A packet received on an external port, its encapsulation moved into register 0.
  function Decap(deploy: Deploy, k: Pkt): Pkt {
    match deploy
    case Tnl => k.(reg0 := k.tunId % 0x1_0000_0000)
    case Vlan => k.(reg0 := Vid(k.tags) % 0x1000, tags := Tail(k.tags))
    case Qinq => k.(reg0 := Vid(Tail(k.tags)) % 0x1000 + Vid(k.tags) % 0x1000 * 0x1_0000, tags := Tail(Tail(k.tags)))
    case _ => k
  }

  lemma Admit(flows: seq<Flow>, b: BridgeView, deploy: Deploy, md: bool, teps: seq<Ip>, acl: seq<Flow>, s: Switch,
              k: Pkt)
    requires Deployed(flows, b, deploy, md, teps, acl)
    ensures Run(flows, OF_TABLE_ADMISS, s, k) == Run(flows, OF_TABLE_INPUT, s, k)
  {
    SelectFixed(flows, b, deploy, md, teps, acl, ADMISS_FLOW, k);
    RunGoto(flows, OF_TABLE_ADMISS, OF_TABLE_INPUT, s, k);
  }

  lemma PlainTwo(x: Action, y: Action, k: Pkt)
    requires Plain(x) && Plain(y) && PlainStep(x, k).1 == [] && PlainStep(y, PlainStep(x, k).0).1 == []
    ensures PlainRun([x, y], k) == (PlainStep(y, PlainStep(x, k).0).0, [])
  {
    assert [x, y] == [x] + [y];
    PlainAppend([x], [y], k);
    PlainOne(x, k);
    PlainOne(y, PlainStep(x, k).0);
  }

  lemma InputRewrites(deploy: Deploy, vni: nat, k: Pkt) returns (pre: seq<Action>)
    requires k.reg0 == 0 && !deploy.Native? && !deploy.Unknown?
    ensures InputLoads(deploy, vni) == pre + [Goto(OF_TABLE_ACL)] && AllPlain(pre)
    ensures PlainRun(pre, k) == (k.(reg0 := Reg0Of(deploy, vni)), [])
  {
    if deploy.Qinq? {
      pre := [LoadReg0(Low12, vni), LoadReg0(Outer12, vni + 100)];
      PlainTwo(pre[0], pre[1], k);
      assert Set(0, Low12, vni) == vni % 0x1000;
      assert Set(vni % 0x1000, Outer12, vni + 100) == Reg0Of(Qinq, vni);
    } else {
      pre := [LoadReg0(Whole32, vni)];
      PlainOne(pre[0], k);
    }
  }

  // A packet from a local interface enters the ACL with its interface's VNI in register 0.
  lemma Ingress(flows: seq<Flow>, b: BridgeView, deploy: Deploy, md: bool, teps: seq<Ip>, acl: seq<Flow>,
                w: VifView, s: Switch, k: Pkt)
    requires Deployed(flows, b, deploy, md, teps, acl)
    requires w in b.vifs && k.inPort == w.ofp && k.reg0 == 0
    ensures Run(flows, OF_TABLE_ADMISS, s, k) == Run(flows, OF_TABLE_ACL, s, k.(reg0 := Reg0Of(deploy, w.vni)))
  {
    Admit(flows, b, deploy, md, teps, acl, s, k);
    SelectVifInput(flows, b, deploy, md, teps, acl, w, k);
    if deploy.Native? {
      RunGoto(flows, OF_TABLE_INPUT, OF_TABLE_ACL, s, k);
    } else {
      var pre := InputRewrites(deploy, w.vni, k);
      RunRewriteGoto(flows, OF_TABLE_INPUT, pre, OF_TABLE_ACL, s, k);
    }
  }

  lemma MoveRewrites(deploy: Deploy, k: Pkt) returns (pre: seq<Action>)
    requires k.reg0 == 0 && !deploy.Native? && !deploy.Unknown?
    ensures ExtMoves(deploy) == pre + [Goto(OF_TABLE_ACL)] && AllPlain(pre)
    ensures PlainRun(pre, k) == (Decap(deploy, k), [])
  {
    match deploy
    case Tnl =>
      pre := [MoveTunIdToReg0];
      PlainOne(pre[0], k);
    case Vlan =>
      pre := [MoveVidToReg0(Low12), PopVlan];
      PlainTwo(pre[0], pre[1], k);
    case Qinq =>
      pre := [MoveVidToReg0(Outer12), PopVlan] + [MoveVidToReg0(Low12), PopVlan];
      QinqMoves(k);
  }

  lemma QinqMoves(k: Pkt)
    requires k.reg0 == 0
    ensures PlainRun([MoveVidToReg0(Outer12), PopVlan] + [MoveVidToReg0(Low12), PopVlan], k) == (Decap(Qinq, k), [])
  {
    var p1 := [MoveVidToReg0(Outer12), PopVlan];
    var p2 := [MoveVidToReg0(Low12), PopVlan];
    PlainTwo(p1[0], p1[1], k);
    var k1 := PlainRun(p1, k).0;
    PlainTwo(p2[0], p2[1], k1);
    PlainAppend(p1, p2, k);
    assert k1.reg0 == Vid(k.tags) % 0x1000 * 0x1_0000;
    assert Set(k1.reg0, Low12, Vid(k1.tags)) == Vid(Tail(k.tags)) % 0x1000 + k1.reg0;
  }

  lemma ExtIngress(flows: seq<Flow>, b: BridgeView, deploy: Deploy, md: bool, teps: seq<Ip>, acl: seq<Flow>,
                   s: Switch, k: Pkt)
    requires Deployed(flows, b, deploy, md, teps, acl)
    requires k.inPort in ExtPorts(b, deploy) && k.reg0 == 0
    ensures Run(flows, OF_TABLE_ADMISS, s, k) == Run(flows, OF_TABLE_ACL, s, Decap(deploy, k))
  {
    Admit(flows, b, deploy, md, teps, acl, s, k);
    SelectExtInput(flows, b, deploy, md, teps, acl, k);
    if deploy.Native? {
      RunGoto(flows, OF_TABLE_INPUT, OF_TABLE_ACL, s, k);
    } else {
      var pre := MoveRewrites(deploy, k);
      RunRewriteGoto(flows, OF_TABLE_INPUT, pre, OF_TABLE_ACL, s, k);
    }
  }

  // ---- ACL ----

  // What an ACL table decides: the packet as it reaches CORE, or None when it is dropped.
  function AclVerdict(flows: seq<Flow>, s: Switch, k: Pkt): (r: (Switch, Option<Pkt>))
    ensures r.0.fib == s.fib
    ensures r.1.Some? ==> r.1.value == k.(ct := r.1.value.ct)
    decreases if k.ct.trk then 0 else 1
  {
    match Lookup(flows, OF_TABLE_ACL, k)
    case None => (s, None)
    case Some(f) =>
      if f.actions == [] then (s, None)
      else if f.actions[0].CtTrack? then
        if k.ct.trk then (s, None)
        else
          var (conns, ct) := Track(s.conns, Get(k.reg0, Zone16), k);
          AclVerdict(flows, s.(conns := conns), k.(ct := ct))
      else if f.actions[0].CtCommit? then
        (s.(conns := Commit(s.conns, f.actions[0].zone, k)), Some(k))
      else (s, Some(k))
  }

  ghost predicate CarriesOn(r: Res, flows: seq<Flow>, v: (Switch, Option<Pkt>))
    requires WellStaged(flows)
  {
    match v.1
    case None => r.outs == [] && r.sw == v.0
    case Some(k) =>
      var c := Run(flows, OF_TABLE_CORE, v.0, k);
      r.outs == c.outs && r.sw == c.sw
  }

  // The two ACL flows that do more than pass or drop.
  lemma RunTrack(flows: seq<Flow>, table: nat, t: nat, s: Switch, k: Pkt)
    requires WellStaged(flows) && table != OF_TABLE_FIB && !k.ct.trk
    requires Lookup(flows, table, k).Some? && Lookup(flows, table, k).value.actions == [CtTrack(t)]
    ensures var (conns, ct) := Track(s.conns, Get(k.reg0, Zone16), k);
      var c := Run(flows, t, s.(conns := conns), k.(ct := ct));
      var r := Run(flows, table, s, k);
      r.sw == c.sw && r.outs == c.outs
  {
    assert FlowStaged(Lookup(flows, table, k).value);
    assert Staged(CtTrack(t), Rank(table), k.ct.trk);
    ExecOne(flows, CtTrack(t), Rank(table), s, k);
  }

  lemma RunCommit(flows: seq<Flow>, table: nat, z: nat, t: nat, s: Switch, k: Pkt)
    requires WellStaged(flows) && table != OF_TABLE_FIB
    requires Lookup(flows, table, k).Some? && Lookup(flows, table, k).value.actions == [CtCommit(z), Goto(t)]
    ensures var c := Run(flows, t, s.(conns := Commit(s.conns, z, k)), k);
      var r := Run(flows, table, s, k);
      r.sw == c.sw && r.outs == c.outs
  {
    var f := Lookup(flows, table, k).value;
    assert FlowStaged(f);
    var rank := Rank(table);
    assert Goto(t) in f.actions;
    assert f.actions == [CtCommit(z)] + [Goto(t)];
    ExecAppend(flows, [CtCommit(z)], [Goto(t)], rank, s, k);
    ExecOne(flows, CtCommit(z), rank, s, k);
    ExecOne(flows, Goto(t), rank, s.(conns := Commit(s.conns, z, k)), k);
    assert [] + Run(flows, t, s.(conns := Commit(s.conns, z, k)), k).outs ==
      Run(flows, t, s.(conns := Commit(s.conns, z, k)), k).outs;
  }

  // On a deployed bridge the ACL selects one of four kinds of flow.
  lemma AclSelects(flows: seq<Flow>, b: BridgeView, deploy: Deploy, md: bool, teps: seq<Ip>, acl: seq<Flow>, k: Pkt)
    requires Deployed(flows, b, deploy, md, teps, acl)
    ensures var l := Lookup(flows, OF_TABLE_ACL, k);
      l.Some? ==> AclActions(l.value) && (l.value.actions == [CtTrack(OF_TABLE_ACL)] ==> !k.ct.trk)
  {
    var l := Lookup(flows, OF_TABLE_ACL, k);
    if l.Some? { OnlyTable(flows, b, deploy, md, teps, acl, l.value); }
  }

  lemma {:induction false} AclRun(flows: seq<Flow>, b: BridgeView, deploy: Deploy, md: bool, teps: seq<Ip>,
                                  acl: seq<Flow>, s: Switch, k: Pkt)
    requires Deployed(flows, b, deploy, md, teps, acl)
    ensures CarriesOn(Run(flows, OF_TABLE_ACL, s, k), flows, AclVerdict(flows, s, k))
    decreases if k.ct.trk then 0 else 1
  {
    AclSelects(flows, b, deploy, md, teps, acl, k);
    var l := Lookup(flows, OF_TABLE_ACL, k);
    if l.Some? && l.value.actions != [] {
      var acts := l.value.actions;
      if acts == [CtTrack(OF_TABLE_ACL)] {
        var (conns, ct) := Track(s.conns, Get(k.reg0, Zone16), k);
        RunTrack(flows, OF_TABLE_ACL, OF_TABLE_ACL, s, k);
        AclRun(flows, b, deploy, md, teps, acl, s.(conns := conns), k.(ct := ct));
      } else {
        AclPassed(flows, s, k);
      }
    }
  }

  lemma AclPassed(flows: seq<Flow>, s: Switch, k: Pkt)
    requires WellStaged(flows) && Lookup(flows, OF_TABLE_ACL, k).Some?
    requires var f := Lookup(flows, OF_TABLE_ACL, k).value;
      AclActions(f) && f.actions != [] && f.actions != [CtTrack(OF_TABLE_ACL)]
    ensures CarriesOn(Run(flows, OF_TABLE_ACL, s, k), flows, AclVerdict(flows, s, k))
  {
    var acts := Lookup(flows, OF_TABLE_ACL, k).value.actions;
    if acts == [Goto(OF_TABLE_CORE)] {
      RunGoto(flows, OF_TABLE_ACL, OF_TABLE_CORE, s, k);
    } else {
      assert acts == [CtCommit(acts[0].zone), Goto(OF_TABLE_CORE)];
      RunCommit(flows, OF_TABLE_ACL, acts[0].zone, OF_TABLE_CORE, s, k);
    }
  }

  lemma ExecOne(flows: seq<Flow>, a: Action, rank: nat, s: Switch, k: Pkt)
    requires WellStaged(flows) && Staged(a, rank, k.ct.trk)
    ensures Exec(flows, [a], rank, s, k) == Act(flows, a, rank, s, k)
  {
    var r := Act(flows, a, rank, s, k);
    assert [a][1..] == [] && r.outs + [] == r.outs;
  }

  // ---- CORE to OUTPUT ----

  function Learned(s: Switch, k: Pkt): Switch {
    s.(fib := s.fib[(k.reg0, k.src) := k.inPort])
  }

  function Resolve(s: Switch, k: Pkt): Pkt {
    if (k.reg0, k.dst) in s.fib then k.(reg1 := s.fib[(k.reg0, k.dst)]) else k
  }

  function OutputOuts(flows: seq<Flow>, k: Pkt): seq<Out> {
    match Lookup(flows, OF_TABLE_OUTPUT, k)
    case None => []
    case Some(f) => PlainRun(f.actions, k).1
  }

  lemma OutputRun(flows: seq<Flow>, b: BridgeView, deploy: Deploy, md: bool, teps: seq<Ip>, acl: seq<Flow>,
                  s: Switch, k: Pkt)
    requires Deployed(flows, b, deploy, md, teps, acl)
    ensures var r := Run(flows, OF_TABLE_OUTPUT, s, k);
      r.sw == s && r.outs == OutputOuts(flows, k)
  {
    var l := Lookup(flows, OF_TABLE_OUTPUT, k);
    if l.Some? {
      OnlyTable(flows, b, deploy, md, teps, acl, l.value);
      assert FlowStaged(l.value);
      OutputActionsPlain(b, deploy, md, teps, l.value) by {
        OutputFlowsAre(b, deploy, md, teps, l.value);
      }
      ExecPlain(flows, l.value.actions, Rank(OF_TABLE_OUTPUT), s, k);
    }
  }

  lemma RunLearn(flows: seq<Flow>, table: nat, t: nat, s: Switch, k: Pkt)
    requires WellStaged(flows) && table != OF_TABLE_FIB
    requires Lookup(flows, table, k).Some? && Lookup(flows, table, k).value.actions == [Learn, Goto(t)]
    ensures Run(flows, table, s, k) == Run(flows, t, Learned(s, k), k)
  {
    var f := Lookup(flows, table, k).value;
    assert FlowStaged(f);
    var rank := Rank(table);
    assert Goto(t) in f.actions;
    assert f.actions == [Learn] + [Goto(t)];
    ExecAppend(flows, [Learn], [Goto(t)], rank, s, k);
    ExecOne(flows, Learn, rank, s, k);
    ExecOne(flows, Goto(t), rank, Learned(s, k), k);
    assert [] + Run(flows, t, Learned(s, k), k).outs == Run(flows, t, Learned(s, k), k).outs;
  }

  // CORE learns the source, the FIB resolves the destination, OUTPUT sends.
  lemma CoreRun(flows: seq<Flow>, b: BridgeView, deploy: Deploy, md: bool, teps: seq<Ip>, acl: seq<Flow>,
                s: Switch, k: Pkt)
    requires Deployed(flows, b, deploy, md, teps, acl)
    ensures var s1 := Learned(s, k);
      var r := Run(flows, OF_TABLE_CORE, s, k);
      r.sw == s1 && r.outs == OutputOuts(flows, Resolve(s1, k))
  {
    SelectFixed(flows, b, deploy, md, teps, acl, CORE_FLOW, k);
    RunLearn(flows, OF_TABLE_CORE, OF_TABLE_NAT, s, k);
    SelectFixed(flows, b, deploy, md, teps, acl, NAT_FLOW, k);
    RunGoto(flows, OF_TABLE_NAT, OF_TABLE_L2_MATCH, Learned(s, k), k);
    L2Run(flows, b, deploy, md, teps, acl, Learned(s, k), k);
  }

  lemma L2Run(flows: seq<Flow>, b: BridgeView, deploy: Deploy, md: bool, teps: seq<Ip>, acl: seq<Flow>,
              s: Switch, k: Pkt)
    requires Deployed(flows, b, deploy, md, teps, acl)
    ensures var r := Run(flows, OF_TABLE_L2_MATCH, s, k);
      r.sw == s && r.outs == OutputOuts(flows, Resolve(s, k))
  {
    SelectFixed(flows, b, deploy, md, teps, acl, L2_FLOW, k);
    var k1 := Resolve(s, k);
    assert L2_FLOW.actions == [Resubmit(OF_TABLE_FIB)] + [Resubmit(OF_TABLE_OUTPUT)];
    ExecAppend(flows, [Resubmit(OF_TABLE_FIB)], [Resubmit(OF_TABLE_OUTPUT)], Rank(OF_TABLE_L2_MATCH), s, k);
    ExecOne(flows, Resubmit(OF_TABLE_FIB), Rank(OF_TABLE_L2_MATCH), s, k);
    ExecOne(flows, Resubmit(OF_TABLE_OUTPUT), Rank(OF_TABLE_L2_MATCH), s, k1);
    OutputRun(flows, b, deploy, md, teps, acl, s, k1);
  }

  // ---- the whole walk, from the ACL on ----

  function Forward(flows: seq<Flow>, s: Switch, k: Pkt): (Switch, seq<Out>) {
    var (s1, v) := AclVerdict(flows, s, k);
    match v
    case None => (s1, [])
    case Some(k1) => (Learned(s1, k1), OutputOuts(flows, Resolve(Learned(s1, k1), k1)))
  }

  lemma ForwardRun(flows: seq<Flow>, b: BridgeView, deploy: Deploy, md: bool, teps: seq<Ip>, acl: seq<Flow>,
                   s: Switch, k: Pkt)
    requires Deployed(flows, b, deploy, md, teps, acl)
    ensures var r := Run(flows, OF_TABLE_ACL, s, k);
      (r.sw, r.outs) == Forward(flows, s, k)
  {
    AclRun(flows, b, deploy, md, teps, acl, s, k);
    var (s1, v) := AclVerdict(flows, s, k);
    if v.Some? { CoreRun(flows, b, deploy, md, teps, acl, s1, v.value); }
  }

  lemma DefaultAclPasses(flows: seq<Flow>, b: BridgeView, deploy: Deploy, md: bool, teps: seq<Ip>, s: Switch, k: Pkt)
    requires Deployed(flows, b, deploy, md, teps, DEFAULT_ACL)
    ensures AclVerdict(flows, s, k) == (s, Some(k))
  {
    DefaultAclLookup(flows, b, deploy, md, teps, k);
  }

  lemma DefaultAclLookup(flows: seq<Flow>, b: BridgeView, deploy: Deploy, md: bool, teps: seq<Ip>, k: Pkt)
    requires Deployed(flows, b, deploy, md, teps, DEFAULT_ACL)
    ensures var l := Lookup(flows, OF_TABLE_ACL, k);
      l.Some? && l.value.actions == ACL_PASS.actions
  {
    forall g | g in flows && Hits(g, OF_TABLE_ACL, k)
      ensures g.priority < ACL_PASS.priority || (g.priority == ACL_PASS.priority && g.actions == ACL_PASS.actions)
    {
      OnlyTable(flows, b, deploy, md, teps, DEFAULT_ACL, g);
    }
    assert ACL_PASS in DEFAULT_ACL;
    LookupIs(flows, OF_TABLE_ACL, k, ACL_PASS);
  }
}
