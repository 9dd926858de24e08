/** What a bridge must look like to be compiled, and which flows there are in its INPUT and OUTPUT tables. */
module FlowTableProps {
  import opened Seqs
  import opened Constants
  import opened OpenFlow
  import opened Ports
  import opened FlowTables

  // ---- a bridge the compiler is meant for ----

  ghost predicate IndexOk(b: BridgeView) {
    && UniqueKeys(b.vnis)
    && (forall i, w :: 0 <= i < |b.vnis| ==> (w in b.vnis[i].vifs <==> w in b.vifs && w.vni == b.vnis[i].vni))
    && (forall w :: w in b.vifs ==> w.vni in KeysOf(b.vnis))
  }

  ghost predicate PortsOk(b: BridgeView, deploy: Deploy) {
    && (forall i, j :: 0 <= i < j < |b.vifs| ==> b.vifs[i].ofp != b.vifs[j].ofp)
    && Distinct(ExtPorts(b, deploy))
    && (forall x, w :: x in ExtPorts(b, deploy) && w in b.vifs ==> x != w.ofp)
    && OFP_LOCAL !in ExtPorts(b, deploy)
  }

  ghost predicate BridgeOk(b: BridgeView, deploy: Deploy, md: bool) {
    && !deploy.Unknown? && (md ==> deploy.Tnl?)
    && PortsOk(b, deploy)
    && b.vnis == VniIndex(b.vifs, Vnis(b.vifs))
    && (deploy.Native? ==> |b.vnis| <= 1)
  }

  lemma VifByOfp(b: BridgeView, deploy: Deploy, w: VifView, w': VifView)
    requires PortsOk(b, deploy) && w in b.vifs && w' in b.vifs && w.ofp == w'.ofp
    ensures w == w'
  {
    var i :| 0 <= i < |b.vifs| && b.vifs[i] == w;
    var j :| 0 <= j < |b.vifs| && b.vifs[j] == w';
  }

  lemma IndexIsOk(b: BridgeView)
    requires b.vnis == VniIndex(b.vifs, Vnis(b.vifs))
    ensures IndexOk(b)
  {
    var keys := Vnis(b.vifs);
    VniIndexGroups(b.vifs, keys);
    forall i, w | 0 <= i < |b.vnis|
      ensures w in b.vnis[i].vifs <==> w in b.vifs && w.vni == b.vnis[i].vni
    {
      InSublist(b.vifs, keys, b.vnis[i].vni, w);
      if w in b.vifs && w.vni == b.vnis[i].vni {
        var j :| 0 <= j < |b.vifs| && b.vifs[j] == w;
        assert keys[j] == w.vni;
      }
    }
    forall w | w in b.vifs ensures w.vni in KeysOf(b.vnis) {
      var j :| 0 <= j < |b.vifs| && b.vifs[j] == w;
      assert keys[j] == w.vni;
    }
  }

  // ---- which flows there are ----

  ghost predicate IsLocalFlood(b: BridgeView, deploy: Deploy, md: bool, teps: seq<Ip>, f: Flow) {
    exists e, w :: e in b.vnis && w in e.vifs && f == LocalFlood(b, deploy, md, teps, e, w.ofp)
  }

  ghost predicate IsExtFlood(b: BridgeView, deploy: Deploy, md: bool, f: Flow) {
    exists e, x :: e in b.vnis && x in ExtPorts(b, deploy) && f == ExtFlood(deploy, md, e, x)
  }

  ghost predicate IsExtUnicast(b: BridgeView, deploy: Deploy, md: bool, teps: seq<Ip>, f: Flow) {
    if deploy.Tnl? then exists t :: t in b.tnls && f == TnlUnicastFlow(md, teps, t)
    else exists u :: u in b.uplinks && f == UplinkUnicastFlow(deploy, u)
  }

  ghost predicate IsMdCheck(b: BridgeView, md: bool, f: Flow) {
    md && exists t, e :: t in b.tnls && e in b.vnis && f == MdCheckFlow(t.ofp, e)
  }

  ghost predicate IsVifUnicast(b: BridgeView, f: Flow) {
    exists w :: w in b.vifs && f == VifUnicastFlow(w)
  }

  lemma InOfps(vifs: seq<VifView>, q: nat)
    ensures q in Ofps(vifs) <==> exists w :: w in vifs && w.ofp == q
  {
    if q in Ofps(vifs) {
      var i :| 0 <= i < |vifs| && Ofps(vifs)[i] == q;
      assert vifs[i] in vifs && vifs[i].ofp == q;
    }
    if w :| w in vifs && w.ofp == q {
      var i :| 0 <= i < |vifs| && vifs[i] == w;
      assert Ofps(vifs)[i] == q;
    }
  }

  lemma EntryFloodsAre(b: BridgeView, deploy: Deploy, md: bool, teps: seq<Ip>, e: VniEntry<VifView>, f: Flow)
    ensures f in VniFloods(b, deploy, md, teps)(e) <==>
              (exists w :: w in e.vifs && f == LocalFlood(b, deploy, md, teps, e, w.ofp))
              || (exists x :: x in ExtPorts(b, deploy) && f == ExtFlood(deploy, md, e, x))
  {
    LocalFloodsAre(b, deploy, md, teps, e, f);
    ExtFloodsAre(b, deploy, md, e, f);
  }

  lemma LocalFloodsAre(b: BridgeView, deploy: Deploy, md: bool, teps: seq<Ip>, e: VniEntry<VifView>, f: Flow)
    ensures f in FlatMap(Ofps(e.vifs), LocalFloods(b, deploy, md, teps, e)) <==>
              exists w :: w in e.vifs && f == LocalFlood(b, deploy, md, teps, e, w.ofp)
  {
    InFlatMap(Ofps(e.vifs), LocalFloods(b, deploy, md, teps, e), f);
    if i :| 0 <= i < |Ofps(e.vifs)| && f in LocalFloods(b, deploy, md, teps, e)(Ofps(e.vifs)[i]) {
      assert e.vifs[i] in e.vifs;
    }
    if w :| w in e.vifs && f == LocalFlood(b, deploy, md, teps, e, w.ofp) {
      var i :| 0 <= i < |e.vifs| && e.vifs[i] == w;
      assert f in LocalFloods(b, deploy, md, teps, e)(Ofps(e.vifs)[i]);
    }
  }

  lemma ExtFloodsAre(b: BridgeView, deploy: Deploy, md: bool, e: VniEntry<VifView>, f: Flow)
    ensures f in FlatMap(ExtPorts(b, deploy), ExtFloods(deploy, md, e)) <==>
              exists x :: x in ExtPorts(b, deploy) && f == ExtFlood(deploy, md, e, x)
  {
    InFlatMap(ExtPorts(b, deploy), ExtFloods(deploy, md, e), f);
  }

  lemma FloodsAre(b: BridgeView, deploy: Deploy, md: bool, teps: seq<Ip>, f: Flow)
    ensures f in FlatMap(b.vnis, VniFloods(b, deploy, md, teps)) <==>
              IsLocalFlood(b, deploy, md, teps, f) || IsExtFlood(b, deploy, md, f)
  {
    var gen := VniFloods(b, deploy, md, teps);
    InFlatMap(b.vnis, gen, f);
    if i :| 0 <= i < |b.vnis| && f in gen(b.vnis[i]) {
      EntryFloodsAre(b, deploy, md, teps, b.vnis[i], f);
    } else if IsLocalFlood(b, deploy, md, teps, f) {
      var e, w :| e in b.vnis && w in e.vifs && f == LocalFlood(b, deploy, md, teps, e, w.ofp);
      EntryFloodsAre(b, deploy, md, teps, e, f);
    } else if IsExtFlood(b, deploy, md, f) {
      var e, x :| e in b.vnis && x in ExtPorts(b, deploy) && f == ExtFlood(deploy, md, e, x);
      EntryFloodsAre(b, deploy, md, teps, e, f);
    }
  }

  lemma ExtUnicastsAre(b: BridgeView, deploy: Deploy, md: bool, teps: seq<Ip>, f: Flow)
    ensures f in ExtUnicasts(b, deploy, md, teps) <==> IsExtUnicast(b, deploy, md, teps, f)
  {
    InFlatMap(b.tnls, TnlUnicast(md, teps), f);
    InFlatMap(b.uplinks, UplinkUnicast(deploy), f);
  }

  lemma MdChecksAre(b: BridgeView, f: Flow)
    ensures f in FlatMap(TnlOfps(b.tnls), MdChecks(b)) <==> IsMdCheck(b, true, f)
  {
    InFlatMap(TnlOfps(b.tnls), MdChecks(b), f);
    forall i | 0 <= i < |b.tnls|
      ensures f in MdChecks(b)(TnlOfps(b.tnls)[i]) <==> exists e :: e in b.vnis && f == MdCheckFlow(b.tnls[i].ofp, e)
    {
      InFlatMap(b.vnis, MdCheck(b.tnls[i].ofp), f);
    }
    if IsMdCheck(b, true, f) {
      var t, e :| t in b.tnls && e in b.vnis && f == MdCheckFlow(t.ofp, e);
      var i :| 0 <= i < |b.tnls| && b.tnls[i] == t;
      assert f in MdChecks(b)(TnlOfps(b.tnls)[i]);
    }
  }

  // The OUTPUT table holds exactly five kinds of flows.
  lemma OutputFlowsAre(b: BridgeView, deploy: Deploy, md: bool, teps: seq<Ip>, f: Flow)
    ensures f in OutputFlows(b, deploy, md, teps) <==>
              || IsLocalFlood(b, deploy, md, teps, f) || IsExtFlood(b, deploy, md, f)
              || IsExtUnicast(b, deploy, md, teps, f) || IsMdCheck(b, md, f) || IsVifUnicast(b, f)
  {
    FloodsAre(b, deploy, md, teps, f);
    ExtUnicastsAre(b, deploy, md, teps, f);
    MdChecksAre(b, f);
    InFlatMap(b.vifs, VifUnicast(), f);
  }

  lemma InputFlowsAre(b: BridgeView, deploy: Deploy, f: Flow)
    ensures f in InputFlows(b, deploy) <==>
              if deploy.Native? then f == Flow(OF_TABLE_INPUT, 100, ANY, [Goto(OF_TABLE_ACL)])
              else
                || (exists w :: w in b.vifs && f == VifInputFlow(deploy, w))
                || (!deploy.Unknown? && exists x :: x in ExtPorts(b, deploy) && f == ExtInputFlow(deploy, x))
  {
    InFlatMap(b.vifs, VifInput(deploy), f);
    InFlatMap(ExtPorts(b, deploy), ExtInput(deploy), f);
  }
}
