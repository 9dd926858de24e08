/** A packet's whole walk through a deployed bridge, stage by stage. */
module Pipeline {
  import opened Seqs
  import opened Constants
  import opened OpenFlow
  import opened Ports
  import opened FlowTables
  import opened Lookups

  // ---- action lists that stay in one table ----

  function PlainStep(a: Action, k: Pkt): (Pkt, seq<Out>) {
    match a
    case Output(p) => (k, Emit(p, k))
    case OutputReg1 => (k, Emit(k.reg1, k))
    case _ => (Rewrite(a, k), [])
  }

  function PlainRun(acts: seq<Action>, k: Pkt): (Pkt, seq<Out>) {
    if acts == [] then (k, [])
    else
      var (k1, o1) := PlainStep(acts[0], k);
      var (k2, o2) := PlainRun(acts[1..], k1);
      (k2, o1 + o2)
  }

  lemma {:induction false} ExecPlain(flows: seq<Flow>, acts: seq<Action>, rank: nat, s: Switch, k: Pkt)
    requires WellStaged(flows) && AllPlain(acts)
    ensures Exec(flows, acts, rank, s, k) == Res(PlainRun(acts, k).0, s, PlainRun(acts, k).1)
  {
    if acts == [] {
    } else {
      var (k1, o1) := PlainStep(acts[0], k);
      assert Plain(acts[0]);
      assert Act(flows, acts[0], rank, s, k) == Res(k1, s, o1);
      ExecPlain(flows, acts[1..], rank, s, k1);
    }
  }

  lemma {:induction false} PlainAppend(xs: seq<Action>, ys: seq<Action>, k: Pkt)
    ensures var (k1, o1) := PlainRun(xs, k);
            var (k2, o2) := PlainRun(ys, k1);
            PlainRun(xs + ys, k) == (k2, o1 + o2)
  {
    if xs == [] {
      assert xs + ys == ys && [] + PlainRun(ys, k).1 == PlainRun(ys, k).1;
    } else {
      assert (xs + ys)[1..] == xs[1..] + ys;
      var (k1, o1) := PlainStep(xs[0], k);
      var (k2, o2) := PlainRun(xs[1..], k1);
      var (k3, o3) := PlainRun(ys, k2);
      PlainAppend(xs[1..], ys, k1);
      assert PlainRun(xs + ys, k) == (k3, o1 + (o2 + o3));
      assert o1 + (o2 + o3) == (o1 + o2) + o3;
    }
  }

  // ---- flooding ----

  function EmitAt(k: Pkt): nat -> seq<Out> {
    (q: nat) => Emit(q, k)
  }

  lemma {:induction false} PlainOutputs(ofps: seq<nat>, k: Pkt)
    ensures PlainRun(Outputs(ofps), k) == (k, FlatMap(ofps, EmitAt(k)))
  {
    if ofps == [] {
    } else {
      var n := |ofps| - 1;
      assert Outputs(ofps) == Outputs(ofps[..n]) + [Output(ofps[n])];
      PlainOutputs(ofps[..n], k);
      PlainAppend(Outputs(ofps[..n]), [Output(ofps[n])], k);
      PlainOne(Output(ofps[n]), k);
    }
  }

  lemma PlainOne(a: Action, k: Pkt)
    ensures PlainRun([a], k) == PlainStep(a, k)
  {
    var (k1, o1) := PlainStep(a, k);
    assert [a][1..] == [] && o1 + [] == o1;
  }

  lemma {:induction false} PlainOthers(ofps: seq<nat>, k: Pkt)
    ensures PlainRun(FlatMap(ofps, Others(k.inPort)), k) == (k, FlatMap(ofps, EmitAt(k)))
  {
    if ofps == [] {
    } else {
      var n := |ofps| - 1;
      PlainOthers(ofps[..n], k);
      PlainAppend(FlatMap(ofps[..n], Others(k.inPort)), Others(k.inPort)(ofps[n]), k);
      PlainOne(Output(ofps[n]), k);
    }
  }

  // ---- leaving through an external port ----

  function TunnelPkt(t: TunnelPort, md: bool, teps: seq<Ip>, k: Pkt): Pkt {
    var k1 := if t.rip.FlowRip? && teps != [] then k.(tunDst := teps[|teps| - 1]) else k;
    var k2 := if t.key.FlowKey? then k1.(tunId := Get(k.reg0, Whole32)) else k1;
    if md then k2.(md0 := Get(k.reg0, Whole32), md1 := TUN_MD1) else k2
  }

  function Pcp(tags: seq<Tag>): nat {
    if tags == [] then 0 else tags[0].pcp
  }

  function TaggedPkt(deploy: Deploy, k: Pkt): Pkt {
    var inner := Tag(0x8100, Pcp(k.tags), true, Get(k.reg0, Low12));
    var outer := Tag(0x88a8, Pcp(k.tags), true, Get(k.reg0, Outer12));
    if deploy.Vlan? then k.(tags := [inner] + k.tags)
    else if deploy.Qinq? then k.(tags := [outer, inner] + k.tags)
    else k
  }

  // Of several tun_dst settings only the last survives.
  lemma {:induction false} PlainSetTunDst(teps: seq<Ip>, k: Pkt)
    ensures PlainRun(seq(|teps|, i requires 0 <= i < |teps| => SetTunDst(teps[i])), k)
         == (if teps == [] then k else k.(tunDst := teps[|teps| - 1]), [])
  {
    var acts := seq(|teps|, i requires 0 <= i < |teps| => SetTunDst(teps[i]));
    if teps == [] {
    } else {
      var n := |teps| - 1;
      var init := seq(|teps[..n]|, i requires 0 <= i < |teps[..n]| => SetTunDst(teps[..n][i]));
      assert acts == init + [SetTunDst(teps[n])];
      PlainSetTunDst(teps[..n], k);
      PlainAppend(init, [SetTunDst(teps[n])], k);
      PlainOne(SetTunDst(teps[n]), PlainRun(init, k).0);
    }
  }

  lemma PlainMd(k: Pkt)
    ensures PlainRun([MoveReg0ToMd0, SetMd1(TUN_MD1)], k) == (k.(md0 := Get(k.reg0, Whole32), md1 := TUN_MD1), [])
  {
    assert [MoveReg0ToMd0, SetMd1(TUN_MD1)] == [MoveReg0ToMd0] + [SetMd1(TUN_MD1)];
    PlainAppend([MoveReg0ToMd0], [SetMd1(TUN_MD1)], k);
    PlainOne(MoveReg0ToMd0, k);
    PlainOne(SetMd1(TUN_MD1), Rewrite(MoveReg0ToMd0, k));
  }

  lemma PlainTnl(t: TunnelPort, md: bool, teps: seq<Ip>, k: Pkt)
    ensures var k' := TunnelPkt(t, md, teps, k);
      PlainRun(TnlActions(t, md, teps), k) == (k', Emit(t.ofp, k'))
  {
    var a1 := if t.rip.FlowRip? then seq(|teps|, i requires 0 <= i < |teps| => SetTunDst(teps[i])) else [];
    var a2 := if t.key.FlowKey? then [MoveReg0ToTunId] else [];
    var a3 := if md then [MoveReg0ToMd0, SetMd1(TUN_MD1)] else [];
    PlainSetTunDst(teps, k);
    var k1 := if t.rip.FlowRip? && teps != [] then k.(tunDst := teps[|teps| - 1]) else k;
    assert PlainRun(a1, k) == (k1, []);
    var k2 := if t.key.FlowKey? then k1.(tunId := Get(k.reg0, Whole32)) else k1;
    PlainOne(MoveReg0ToTunId, k1);
    assert PlainRun(a2, k1) == (k2, []);
    var k3 := TunnelPkt(t, md, teps, k);
    PlainMd(k2);
    assert PlainRun(a3, k2) == (k3, []);
    PlainOne(Output(t.ofp), k3);
    PlainAppend(a1, a2, k);
    assert PlainRun(a1 + a2, k) == (k2, []);
    PlainAppend(a1 + a2, a3, k);
    assert PlainRun(a1 + a2 + a3, k) == (k3, []);
    PlainAppend(a1 + a2 + a3, [Output(t.ofp)], k);
    assert TnlActions(t, md, teps) == a1 + a2 + a3 + [Output(t.ofp)];
    assert [] + Emit(t.ofp, k3) == Emit(t.ofp, k3);
  }

  lemma TwelveBits(r: nat, f: Range)
    requires f.Low12? || f.Outer12?
    ensures Get(r, f) % 0x1000 == Get(r, f)
  {
  }

  lemma PlainPush(tpid: nat, f: Range, k: Pkt)
    requires f.Low12? || f.Outer12?
    ensures PlainRun([PushVlan(tpid), MoveReg0ToVid(f), SetTagPresent], k)
         == (k.(tags := [Tag(tpid, Pcp(k.tags), true, Get(k.reg0, f))] + k.tags), [])
  {
    TwelveBits(k.reg0, f);
    var acts := [PushVlan(tpid), MoveReg0ToVid(f), SetTagPresent];
    var k1 := Rewrite(acts[0], k);
    var k2 := Rewrite(acts[1], k1);
    var k3 := Rewrite(acts[2], k2);
    PlainOne(SetTagPresent, k2);
    assert acts[1..] == [MoveReg0ToVid(f), SetTagPresent] && acts[1..][1..] == [SetTagPresent];
    assert k3.tags == [Tag(tpid, Pcp(k.tags), true, Get(k.reg0, f))] + k.tags;
  }

  lemma TwoTags(inner: Tag, outer: Tag, tags: seq<Tag>)
    ensures [outer] + ([inner] + tags) == [outer, inner] + tags
  {
  }

  lemma PlainUplink(deploy: Deploy, k: Pkt)
    requires deploy.Vlan? || deploy.Qinq?
    ensures PlainRun(UplinkActions(deploy), k) == (TaggedPkt(deploy, k), [])
  {
    var first := [PushVlan(0x8100), MoveReg0ToVid(Low12), SetTagPresent];
    PlainPush(0x8100, Low12, k);
    if deploy.Qinq? {
      var k1 := PlainRun(first, k).0;
      var second := [PushVlan(0x88a8), MoveReg0ToVid(Outer12), SetTagPresent];
      assert UplinkActions(deploy) == first + second;
      PlainAppend(first, second, k);
      PlainPush(0x88a8, Outer12, k1);
      TwoTags(k1.tags[0], Tag(0x88a8, Pcp(k.tags), true, Get(k.reg0, Outer12)), k.tags);
    }
  }

  // ---- stages ----

  lemma {:induction false} ExecAppend(flows: seq<Flow>, xs: seq<Action>, ys: seq<Action>, rank: nat, s: Switch, k: Pkt)
    requires WellStaged(flows)
    requires forall a :: a in xs + ys ==> Staged(a, rank, k.ct.trk)
    ensures (forall a :: a in xs ==> a in xs + ys) && (forall a :: a in ys ==> a in xs + ys)
    ensures var r1 := Exec(flows, xs, rank, s, k);
            var r2 := Exec(flows, ys, rank, r1.sw, r1.pkt);
            Exec(flows, xs + ys, rank, s, k) == Res(r2.pkt, r2.sw, r1.outs + r2.outs)
  {
    assert forall a :: a in xs ==> a in xs + ys;
    assert forall a :: a in ys ==> a in xs + ys;
    if xs == [] {
      assert xs + ys == ys;
    } else {
      assert (xs + ys)[1..] == xs[1..] + ys;
      var r := Act(flows, xs[0], rank, s, k);
      ExecAppend(flows, xs[1..], ys, rank, r.sw, r.pkt);
    }
  }

  // A flow that rewrites the packet and goes on to another table.
  lemma RunRewriteGoto(flows: seq<Flow>, table: nat, pre: seq<Action>, t: nat, s: Switch, k: Pkt)
    requires WellStaged(flows) && table != OF_TABLE_FIB && AllPlain(pre)
    requires Lookup(flows, table, k).Some? && Lookup(flows, table, k).value.actions == pre + [Goto(t)]
    requires PlainRun(pre, k).1 == []
    ensures Run(flows, table, s, k) == Run(flows, t, s, PlainRun(pre, k).0)
  {
    var f := Lookup(flows, table, k).value;
    assert FlowStaged(f);
    var rank := Rank(table);
    assert Goto(t) in f.actions;
    ExecAppend(flows, pre, [Goto(t)], rank, s, k);
    ExecPlain(flows, pre, rank, s, k);
    var r := Run(flows, t, s, PlainRun(pre, k).0);
    assert [Goto(t)][1..] == [] && r.outs + [] == r.outs && [] + r.outs == r.outs;
  }

  lemma RunGoto(flows: seq<Flow>, table: nat, t: nat, s: Switch, k: Pkt)
    requires WellStaged(flows) && table != OF_TABLE_FIB
    requires Lookup(flows, table, k).Some? && Lookup(flows, table, k).value.actions == [Goto(t)]
    ensures Run(flows, table, s, k) == Run(flows, t, s, k)
  {
    assert [] + [Goto(t)] == [Goto(t)];
    RunRewriteGoto(flows, table, [], t, s, k);
  }
}
