/** The generators of flowutils.py: nested loops that grow action and flow
    lists, each tied to the tables they are meant to produce. */
module FlowUtils {
  import opened Wrappers
  import opened Seqs
  import opened Constants
  import opened OpenFlow
  import opened Ports
  import opened FlowTables
  import opened Vswitch

  // peers are the tunnel endpoints of the other hosts, in order.
  method TnlAs(t: TunnelPort, md: bool, peers: seq<Ip>) returns (acts: seq<Action>)
    ensures acts == TnlActions(t, md, peers)
  {
    acts := [];
    if t.rip == FlowRip {
      var i := 0;
      while i < |peers|
        invariant 0 <= i <= |peers|
        invariant acts == seq(i, j requires 0 <= j < i <= |peers| => SetTunDst(peers[j]))
      {
        acts := acts + [SetTunDst(peers[i])];
        i := i + 1;
      }
    }
    if t.key == FlowKey {
      acts := acts + [MoveReg0ToTunId];
    }
    if md {
      acts := acts + [MoveReg0ToMd0];
      acts := acts + [SetMd1(TUN_MD1)];
    }
    acts := acts + [Output(t.ofp)];
  }

  method OutputAs(ofps: seq<nat>) returns (acts: seq<Action>)
    ensures acts == Outputs(ofps)
  {
    acts := [];
    for i := 0 to |ofps|
      invariant acts == Outputs(ofps[..i])
    {
      acts := acts + [Output(ofps[i])];
    }
    assert ofps[..|ofps|] == ofps;
  }

  method OtherLocals(ofps: seq<nat>, localOfp: nat) returns (acts: seq<Action>)
    ensures acts == FlatMap(ofps, Others(localOfp))
    ensures forall q :: Output(q) in acts <==> q in ofps && q != localOfp
  {
    acts := [];
    for i := 0 to |ofps|
      invariant acts == FlatMap(ofps[..i], Others(localOfp))
      invariant forall q :: Output(q) in acts <==> q in ofps[..i] && q != localOfp
    {
      FlatMapStep(ofps, i, Others(localOfp));
      if ofps[i] == localOfp { continue; }
      acts := acts + [Output(ofps[i])];
    }
    assert ofps[..|ofps|] == ofps;
  }

  method ExternalAs(b: BridgeView, deploy: Deploy, md: bool, peers: seq<Ip>, vni: nat) returns (acts: seq<Action>)
    ensures acts == ExternalActions(b, deploy, md, peers, vni)
  {
    acts := [];
    if deploy.Tnl? {
      var ts := b.tnls;
      for i := 0 to |ts|
        invariant acts == FlatMap(ts[..i], TnlFlood(vni, md, peers))
      {
        FlatMapStep(ts, i, TnlFlood(vni, md, peers));
        if ts[i].key != FlowKey && ts[i].key != FixedKey(vni) { continue; }
        var more := TnlAs(ts[i], md, peers);
        acts := acts + more;
      }
      assert ts[..|ts|] == ts;
    } else if deploy.Vlan? || deploy.Qinq? {
      var outs := OutputAs(b.uplinks);
      acts := UplinkActions(deploy) + outs;
    } else {
      acts := OutputAs(b.uplinks);
    }
  }

  method LocalOfps(b: BridgeView, n: nat) returns (ofps: seq<nat>)
    requires n < |b.vnis|
    ensures ofps == Ofps(b.vnis[n].vifs) && (ofps == [] <==> b.vnis[n].vifs == [])
  {
    ofps := [];
    var vifs := b.vnis[n].vifs;
    ghost var want := Ofps(b.vnis[n].vifs);
    for i := 0 to |vifs|
      invariant ofps == want[..i]
    {
      ofps := ofps + [vifs[i].ofp];
    }
  }

  method LocalFloodFlows(b: BridgeView, deploy: Deploy, md: bool, peers: seq<Ip>, n: nat, ofps: seq<nat>)
    returns (flows: seq<Flow>)
    requires n < |b.vnis| && ofps == Ofps(b.vnis[n].vifs)
    ensures flows == FlatMap(ofps, LocalFloods(b, deploy, md, peers, b.vnis[n]))
  {
    ghost var gen := LocalFloods(b, deploy, md, peers, b.vnis[n]);
    flows := [];
    for i := 0 to |ofps|
      invariant flows == FlatMap(ofps[..i], gen)
    {
      FlatMapStep(ofps, i, gen);
      var acts := OtherLocals(ofps, ofps[i]);
      var ext := ExternalAs(b, deploy, md, peers, b.vnis[n].vni);
      flows := flows + [Flow(OF_TABLE_OUTPUT, 100, ANY.(inPort := Some(ofps[i]), reg1 := Some(0)), acts + ext)];
    }
    assert ofps[..|ofps|] == ofps;
  }

  method ExtFloodFlows(b: BridgeView, deploy: Deploy, md: bool, n: nat, ofps: seq<nat>) returns (flows: seq<Flow>)
    requires n < |b.vnis| && ofps == Ofps(b.vnis[n].vifs)
    ensures flows == FlatMap(ExtPorts(b, deploy), ExtFloods(deploy, md, b.vnis[n]))
  {
    ghost var gen := ExtFloods(deploy, md, b.vnis[n]);
    var acts := OutputAs(ofps);
    var exts := if deploy.Tnl? then TnlOfps(b.tnls) else b.uplinks;
    flows := [];
    for i := 0 to |exts|
      invariant flows == FlatMap(exts[..i], gen)
    {
      FlatMapStep(exts, i, gen);
      flows := flows + [Flow(OF_TABLE_OUTPUT, 100, ExtFloodMatch(deploy, md, b.vnis[n].vni, exts[i]), acts)];
    }
    assert exts[..|exts|] == exts;
  }

  // The flood flows of one VNI: from each local interface, then from each external port.
  method VniFlows(b: BridgeView, deploy: Deploy, md: bool, peers: seq<Ip>, n: nat, ofps: seq<nat>)
    returns (flows: seq<Flow>)
    requires n < |b.vnis| && ofps == Ofps(b.vnis[n].vifs)
    ensures flows == VniFloods(b, deploy, md, peers)(b.vnis[n])
  {
    var local := LocalFloodFlows(b, deploy, md, peers, n, ofps);
    var ext := ExtFloodFlows(b, deploy, md, n, ofps);
    flows := local + ext;
  }

  method UnicastFlows(b: BridgeView, deploy: Deploy, md: bool, peers: seq<Ip>) returns (flows: seq<Flow>)
    ensures flows == ExtUnicasts(b, deploy, md, peers)
  {
    flows := [];
    if deploy.Tnl? {
      var ts := b.tnls;
      for i := 0 to |ts|
        invariant flows == FlatMap(ts[..i], TnlUnicast(md, peers))
      {
        FlatMapStep(ts, i, TnlUnicast(md, peers));
        var acts := TnlAs(ts[i], md, peers);
        flows := flows + [Flow(OF_TABLE_OUTPUT, 20, ANY.(reg1 := Some(ts[i].ofp)), acts)];
      }
      assert ts[..|ts|] == ts;
    } else {
      var us := b.uplinks;
      var acts := if deploy.Vlan? || deploy.Qinq? then UplinkActions(deploy) else [];
      for i := 0 to |us|
        invariant flows == FlatMap(us[..i], UplinkUnicast(deploy))
      {
        FlatMapStep(us, i, UplinkUnicast(deploy));
        flows := flows + [Flow(OF_TABLE_OUTPUT, 20, ANY.(reg1 := Some(us[i])), acts + [Output(us[i])])];
      }
      assert us[..|us|] == us;
    }
  }

  method PortChecks(b: BridgeView, ofp: nat) returns (flows: seq<Flow>)
    ensures flows == MdChecks(b)(ofp)
  {
    ghost var vs := b.vnis;
    flows := [];
    for n := 0 to |b.vnis|
      invariant flows == FlatMap(vs[..n], MdCheck(ofp))
    {
      FlatMapStep(vs, n, MdCheck(ofp));
      flows := flows + [Flow(OF_TABLE_OUTPUT, 15,
        ANY.(inPort := Some(ofp), md0 := Some(b.vnis[n].vni), md1 := Some(TUN_MD1)), [OutputReg1])];
    }
    assert vs[..|b.vnis|] == vs;
  }

  method MdCheckFlows(b: BridgeView) returns (flows: seq<Flow>)
    ensures flows == FlatMap(TnlOfps(b.tnls), MdChecks(b))
  {
    var ofps := TnlOfps(b.tnls);
    flows := [];
    for i := 0 to |ofps|
      invariant flows == FlatMap(ofps[..i], MdChecks(b))
    {
      FlatMapStep(ofps, i, MdChecks(b));
      var more := PortChecks(b, ofps[i]);
      flows := flows + more;
    }
    assert ofps[..|ofps|] == ofps;
  }

  method VifFlows(b: BridgeView) returns (flows: seq<Flow>)
    ensures flows == FlatMap(b.vifs, VifUnicast())
  {
    ghost var vs := b.vifs;
    flows := [];
    for i := 0 to |b.vifs|
      invariant flows == FlatMap(vs[..i], VifUnicast())
    {
      FlatMapStep(vs, i, VifUnicast());
      flows := flows + [Flow(OF_TABLE_OUTPUT, 10, ANY.(reg1 := Some(b.vifs[i].ofp)), [Output(b.vifs[i].ofp)])];
    }
    assert vs[..|b.vifs|] == vs;
  }

  predicate FullUpTo(b: BridgeView, n: nat)
    requires n <= |b.vnis|
  {
    n == 0 || (FullUpTo(b, n - 1) && b.vnis[n - 1].vifs != [])
  }

  predicate NoEmptyVni(b: BridgeView) {
    FullUpTo(b, |b.vnis|)
  }

  lemma {:induction false} FullIs(b: BridgeView, n: nat)
    requires n <= |b.vnis|
    ensures FullUpTo(b, n) <==> forall i :: 0 <= i < n ==> b.vnis[i].vifs != []
  {
    if n == 0 {
    } else {
      FullIs(b, n - 1);
    }
  }

  // The flood flows of all VNIs; None when a VNI has no interface.
  method FloodFlows(b: BridgeView, deploy: Deploy, md: bool, peers: seq<Ip>) returns (r: Option<seq<Flow>>)
    ensures r.Some? <==> NoEmptyVni(b)
    ensures r.Some? ==> r.value == FlatMap(b.vnis, VniFloods(b, deploy, md, peers))
  {
    ghost var gen := VniFloods(b, deploy, md, peers);
    var flows := [];
    for n := 0 to |b.vnis|
      invariant FullUpTo(b, n)
      invariant flows == FlatMap(b.vnis[..n], gen)
    {
      var more := EntryFlows(b, deploy, md, peers, n, gen);
      if more == None {
        FullIs(b, |b.vnis|);
        return None;
      }
      FlatMapStep(b.vnis, n, gen);
      flows := flows + more.value;
    }
    assert b.vnis[..|b.vnis|] == b.vnis;
    r := Some(flows);
  }

  method EntryFlows(b: BridgeView, deploy: Deploy, md: bool, peers: seq<Ip>, n: nat,
                    ghost gen: VniEntry<VifView> -> seq<Flow>)
    returns (r: Option<seq<Flow>>)
    requires n < |b.vnis| && gen == VniFloods(b, deploy, md, peers)
    ensures r.None? <==> b.vnis[n].vifs == []
    ensures r.Some? ==> r.value == gen(b.vnis[n])
  {
    var ofps := LocalOfps(b, n);
    if ofps == [] { return None; }
    var flows := VniFlows(b, deploy, md, peers, n, ofps);
    r := Some(flows);
  }

  method GenerateOutputFlows(b: BridgeView, deploy: Deploy, md: bool, peers: seq<Ip>)
    returns (r: Result<seq<Flow>, string>)
    ensures r.Success? <==> !deploy.Unknown? && NoEmptyVni(b)
    ensures r.Success? ==> r.value == OutputFlows(b, deploy, md, peers)
  {
    if deploy.Unknown? { return Failure("setup output flows for this deployment is invalid"); }
    var floods := FloodFlows(b, deploy, md, peers);
    if floods.None? { return Failure("no local vif on a vni"); }
    var unicast := UnicastFlows(b, deploy, md, peers);
    var flows := floods.value + unicast;
    if md {
      var checks := MdCheckFlows(b);
      flows := flows + checks;
    }
    var local := VifFlows(b);
    r := Success(flows + local);
    assert flows == floods.value + unicast + (if md then FlatMap(TnlOfps(b.tnls), MdChecks(b)) else []);
  }

  method VifInputFlows(b: BridgeView, deploy: Deploy) returns (flows: seq<Flow>)
    ensures flows == FlatMap(b.vifs, VifInput(deploy))
  {
    flows := [];
    for i := 0 to |b.vifs|
      invariant flows == FlatMap(b.vifs[..i], VifInput(deploy))
    {
      FlatMapStep(b.vifs, i, VifInput(deploy));
      var w := b.vifs[i];
      flows := flows + [Flow(OF_TABLE_INPUT, 100, ANY.(inPort := Some(w.ofp)), InputLoads(deploy, w.vni))];
    }
    assert b.vifs[..|b.vifs|] == b.vifs;
  }

  method ExtInputFlows(exts: seq<nat>, deploy: Deploy) returns (flows: seq<Flow>)
    ensures flows == FlatMap(exts, ExtInput(deploy))
  {
    flows := [];
    for i := 0 to |exts|
      invariant flows == FlatMap(exts[..i], ExtInput(deploy))
    {
      FlatMapStep(exts, i, ExtInput(deploy));
      flows := flows + [Flow(OF_TABLE_INPUT, 100, ANY.(inPort := Some(exts[i])), ExtMoves(deploy))];
    }
    assert exts[..|exts|] == exts;
  }

  method GenerateInputFlows(b: BridgeView, deploy: Deploy) returns (flows: seq<Flow>)
    ensures flows == InputFlows(b, deploy)
  {
    if deploy.Native? { return [Flow(OF_TABLE_INPUT, 100, ANY, [Goto(OF_TABLE_ACL)])]; }
    flows := VifInputFlows(b, deploy);
    if deploy.Unknown? { return; }
    var more := ExtInputFlows(if deploy.Tnl? then TnlOfps(b.tnls) else b.uplinks, deploy);
    flows := flows + more;
  }

  // Clears the bridge and installs the default pipeline on it.  When flow generation fails the
  // bridge has already been cleared.
  method SetupDefaultPipeline(br: Bridge, peers: seq<Ip>) returns (ok: bool)
    modifies br`flows
    ensures ok <==> NoEmptyVni(old(br.View()))
    ensures br.flows == if ok then DefaultPipeline(old(br.View()), peers) else []
    ensures ok ==> Installed(br.flows, old(br.View()), Native, false, peers, DEFAULT_ACL)
  {
    var b := br.View();
    br.DelFlows();
    var input := GenerateInputFlows(b, Native);
    var output := GenerateOutputFlows(b, Native, false, peers);
    if output.Failure? { return false; }
    var flows := [ADMISS_FLOW];
    flows := flows + input + DEFAULT_ACL + [CORE_FLOW, NAT_FLOW, L2_FLOW] + output.value;
    br.Provision(flows);
    ok := true;
  }
}
