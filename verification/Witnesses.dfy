/**
  A short run from start-up in which a REPLY also grants an IA that another transaction is still
  discovering. It is stated for every client with two interfaces and one IA on each.
 */
module Witnesses {
  import opened Containers
  import opened Leases
  import opened Advertises
  import opened Retransmission
  import opened Protocol
  import opened Ownership
  import opened Replies
  import opened Runs
  import opened Agreement
  import opened TransMgr
  import opened Orphans
  import opened Hazards
  import opened Servers

  // ---- the client -------------------------------------------------------------------------------------------

  /** Two IAs, `i` on interface `f` and `j` on interface `g`; no address and no server yet. */
  predicate TwoLinks(c: Client, f: CfgIface, g: CfgIface, i: Iaid, j: Iaid) {
    c.ifaces == [f, g] && f.ias == [i] && g.ias == [j] && i != j && f.id != g.id && !f.noConfig && !g.noConfig &&
    c.iaList == [i, j] && i in c.cfg && j in c.cfg && c.cfg.Keys == c.db.Keys && (forall x :: x in c.db ==> x == i || x == j) &&
    c.db[i].iface == f.id && c.cfg[i].iface == f.id && c.db[j].iface == g.id && c.cfg[j].iface == g.id &&
    c.db[i].leases == [] && c.db[j].leases == [] && c.db[i].server == None && c.db[j].server == None &&
    c.ads == [] && c.installed == multiset{}
  }

  predicate InState(c: Client, i: Iaid, j: Iaid, s: EState)
    requires i in c.cfg && j in c.cfg && i in c.db && j in c.db
  {
    c.cfg[i].state == s && c.cfg[j].state == s && c.db[i].state == s && c.db[j].state == s
  }

  /** Before the first pass. The transaction identifiers are distinct. */
  predicate AtStart(c: Client, f: CfgIface, g: CfgIface, i: Iaid, j: Iaid) {
    TwoLinks(c, f, g, i, j) && InState(c, i, j, NotConfigured) && c.trans == [] &&
    c.xids(c.created) != c.xids(c.created + 1) && c.xids(c.created) != c.xids(c.created + 2)
  }

  /** A live message for one IA. */
  predicate For(t: Trans, kind: Kind, iface: IfaceId, x: Iaid) {
    t.kind == kind && t.iface == iface && t.ias == [x] && !t.done
  }

  predicate Discovering(c: Client, f: CfgIface, g: CfgIface, i: Iaid, j: Iaid, now: nat) {
    TwoLinks(c, f, g, i, j) && InState(c, i, j, InProcess) && |c.trans| == 2 && NoneDue(c.trans, now) &&
    For(c.trans[0], Solicit, f.id, i) && For(c.trans[1], Solicit, g.id, j) && c.trans[0].xid != c.trans[1].xid &&
    c.xids(c.created) != c.trans[0].xid
  }

  predicate Requesting(c: Client, f: CfgIface, g: CfgIface, i: Iaid, j: Iaid) {
    TwoLinks(c, f, g, i, j) && InState(c, i, j, InProcess) && |c.trans| == 2 &&
    For(c.trans[0], Solicit, f.id, i) && For(c.trans[1], Request, g.id, j) && c.trans[0].xid != c.trans[1].xid
  }

  /** The second SOLICIT has handed its IA to a REQUEST, and is done. */
  predicate Offered(c: Client, f: CfgIface, g: CfgIface, i: Iaid, j: Iaid, now: nat) {
    TwoLinks(c, f, g, i, j) && InState(c, i, j, InProcess) && |c.trans| == 3 && NoneDue(c.trans, now) &&
    For(c.trans[0], Solicit, f.id, i) && c.trans[1].done && For(c.trans[2], Request, g.id, j) &&
    c.trans[2].xid != c.trans[0].xid
  }

  /** `n` transactions have been created since. */
  ghost predicate Follows(c: Client, r: Client, n: nat) {
    r.xids == c.xids && r.created == c.created + n
  }

  lemma NoDeadLeases(c: Client, f: CfgIface, g: CfgIface, i: Iaid, j: Iaid, now: nat)
    requires TwoLinks(c, f, g, i, j)
    ensures Listed(c) && forall x :: x in c.db ==> !HasDead(c.db[x], now)
  {
    forall x | x in c.db
      ensures !HasDead(c.db[x], now)
    {
      assert c.db[x].leases == [];
    }
  }

  // ---- the first pass: two SOLICITs ------------------------------------------------------------------------------

  lemma SolicitForOne(c: Client, f: CfgIface, i: Iaid, clk: Clock)
    requires f.ias == [i] && !f.noConfig && i in c.cfg && c.cfg[i].state == NotConfigured
    ensures SolicitOn(c, f, clk) == StartSolicit(c, f, [i], clk)
  {
    OneWaits(c, f, i);
  }

  lemma OneWaits(c: Client, f: CfgIface, i: Iaid)
    requires f.ias == [i] && i in c.cfg && c.cfg[i].state == NotConfigured
    ensures NotConfiguredIAs(c, f) == [i]
  {
    FilterAll(f.ias, (i: Iaid) => i in c.cfg && c.cfg[i].state == NotConfigured);
  }

  lemma TwoSolicits(c: Client, f: CfgIface, g: CfgIface, i: Iaid, j: Iaid, clk: Clock)
    requires AtStart(c, f, g, i, j)
    ensures CheckSolicit(c, [f, g], clk) == StartSolicit(StartSolicit(c, f, [i], clk), g, [j], clk)
  {
    assert [f, g][..1] == [f] && [f][..0] == [];
    SolicitForOne(c, f, i, clk);
    assert CheckSolicit(c, [f], clk) == SolicitOn(c, f, clk);
    SolicitForOne(StartSolicit(c, f, [i], clk), g, j, clk);
  }

  lemma BothDiscovering(c: Client, f: CfgIface, g: CfgIface, i: Iaid, j: Iaid, clk: Clock)
    requires AtStart(c, f, g, i, j)
    ensures var r := StartSolicit(StartSolicit(c, f, [i], clk), g, [j], clk);
            Discovering(r, f, g, i, j, clk.now) && r.trans[1].xid == c.xids(c.created + 1) && Follows(c, r, 2)
  {
    var b := StartSolicit(c, f, [i], clk);
    var r := StartSolicit(b, g, [j], clk);
    StatesAfterTwo(c, f, g, i, j, clk);
    FirstNotDue(1, 120, 0, 0, clk);
    assert r.trans[0] == b.trans[0];
  }

  lemma StatesAfterTwo(c: Client, f: CfgIface, g: CfgIface, i: Iaid, j: Iaid, clk: Clock)
    requires AtStart(c, f, g, i, j)
    ensures var r := StartSolicit(StartSolicit(c, f, [i], clk), g, [j], clk);
            TwoLinks(r, f, g, i, j) && InState(r, i, j, InProcess)
  {
    StatesAfterOne(c, f, i, clk, i);
    StatesAfterOne(c, f, i, clk, j);
    StatesAfterOne(StartSolicit(c, f, [i], clk), g, j, clk, i);
    StatesAfterOne(StartSolicit(c, f, [i], clk), g, j, clk, j);
  }

  lemma StatesAfterOne(c: Client, f: CfgIface, i: Iaid, clk: Clock, x: Iaid)
    requires x in c.cfg && x in c.db
    ensures var r := StartSolicit(c, f, [i], clk);
            r.cfg[x] == (if x == i then c.cfg[x].(state := InProcess) else c.cfg[x]) &&
            r.db[x] == if x == i then c.db[x].(state := InProcess) else c.db[x]
  {
  }

  lemma FirstPass(c: Client, f: CfgIface, g: CfgIface, i: Iaid, j: Iaid, clk: Clock)
    requires AtStart(c, f, g, i, j)
    ensures Listed(c)
    ensures var r := Round(c, {}, clk);
            Discovering(r, f, g, i, j, clk.now) && r.trans[1].xid == c.xids(c.created + 1) && Follows(c, r, 2)
  {
    NoDeadLeases(c, f, g, i, j, clk.now);
    QuietSettle(c, clk);
    assert Purge(c) == c;
    TwoSolicits(c, f, g, i, j, clk);
    BothDiscovering(c, f, g, i, j, clk);
    var r := StartSolicit(StartSolicit(c, f, [i], clk), g, [j], clk);
    QuietRenew(r, {}, clk);
  }

  // ---- an ADVERTISE for the second, and the REQUEST ---------------------------------------------------------------

  /** A server offers itself to the SOLICIT with the greatest preference, and is not rejected. */
  predicate Offers(msg: Msg, xid: nat) {
    msg.xid == xid && msg.kind == Advertise && msg.pref == 255 && !msg.rejected && Acceptable(Parsed(msg).ias)
  }

  predicate Acceptable(ias: seq<RecvIA>) {
    ias != [] && ias[0].addrs != [] && ias[0].status == STATUS_SUCCESS
  }

  lemma SortOne(a: Advert)
    ensures SortByPreference([a]) == [a]
  {
    MaxPrefPresent([a]);
    assert RemoveAt([a], 0) == [];
  }

  lemma OfferHandsOver(c: Client, f: CfgIface, g: CfgIface, i: Iaid, j: Iaid, msg: Msg, clk: Clock)
    requires Discovering(c, f, g, i, j, clk.now) && Offers(msg, c.trans[1].xid)
    ensures Deliver(c, msg, clk) == HandOver(c.(ads := [Advert(255, msg.server)]), 1, clk)
  {
    FirstXid(c.trans, msg.xid, 1);
    assert c.ads + [Advert(255, msg.server)] == [Advert(255, msg.server)];
  }

  lemma HandedOver(c: Client, f: CfgIface, g: CfgIface, i: Iaid, j: Iaid, a: Advert, clk: Clock)
    requires Discovering(c, f, g, i, j, clk.now)
    ensures var r := HandOver(c.(ads := [a]), 1, clk);
            Offered(r, f, g, i, j, clk.now) && r.trans[2].xid == c.xids(c.created)
  {
    SortOne(a);
    FirstNotDue(1, 30, REQ_MAX_RC, 0, clk);
  }

  lemma OfferAccepted(c: Client, f: CfgIface, g: CfgIface, i: Iaid, j: Iaid, msg: Msg, clk: Clock)
    requires Discovering(c, f, g, i, j, clk.now) && Offers(msg, c.trans[1].xid)
    ensures var r := Deliver(c, msg, clk);
            Offered(r, f, g, i, j, clk.now) && r.trans[2].xid == c.xids(c.created)
  {
    OfferHandsOver(c, f, g, i, j, msg, clk);
    HandedOver(c, f, g, i, j, Advert(255, msg.server), clk);
  }

  lemma SecondPass(c: Client, f: CfgIface, g: CfgIface, i: Iaid, j: Iaid, clk: Clock)
    requires Offered(c, f, g, i, j, clk.now)
    ensures Listed(c) && Requesting(Round(c, {}, clk), f, g, i, j) && Round(c, {}, clk).trans[1] == c.trans[2]
  {
    NoDeadLeases(c, f, g, i, j, clk.now);
    BothInProcess(c, f, g, i, j);
    QuietRound(c, {}, clk);
    PurgeMiddle(c.trans);
  }

  lemma BothInProcess(c: Client, f: CfgIface, g: CfgIface, i: Iaid, j: Iaid)
    requires TwoLinks(c, f, g, i, j) && InState(c, i, j, InProcess)
    ensures NoneWaits(c.cfg) && forall x :: x in c.db ==> c.db[x].state != Configured
  {
  }

  lemma PurgeMiddle(trans: seq<Trans>)
    requires |trans| == 3 && !trans[0].done && trans[1].done && !trans[2].done
    ensures Filter(trans, (t: Trans) => !t.done) == [trans[0], trans[2]]
  {
    var live := (t: Trans) => !t.done;
    assert trans == [trans[0]] + [trans[1]] + [trans[2]];
    FilterOne(trans[0], live);
    FilterSnoc([trans[0]], trans[1], live);
    FilterSnoc([trans[0]] + [trans[1]], trans[2], live);
  }

  // ---- the REPLY ------------------------------------------------------------------------------------------------

  function TwoGrants(i: Iaid, j: Iaid): seq<RecvIA> {
    [RecvIA(j, 100, 200, STATUS_SUCCESS, [RecvAddr(1, 300, 400)]), RecvIA(i, 100, 200, STATUS_SUCCESS, [RecvAddr(2, 300, 400)])]
  }

  /** The server grants the IA asked for, and the other one as well. */
  predicate Generous(msg: Msg, xid: nat, i: Iaid, j: Iaid) {
    msg.xid == xid && !msg.notOnLink && Parsed(msg).ias == TwoGrants(i, j)
  }

  lemma MergeOneAddr(c: Client, x: Iaid, a: Ip, iface: IfaceId, server: Option<Server>, now: nat)
    requires x in c.cfg && x in c.db && c.db[x].leases == []
    ensures var r := MergeIA(c, RecvIA(x, 100, 200, STATUS_SUCCESS, [RecvAddr(a, 300, 400)]), iface, server, now);
            r.cfg == c.cfg[x := c.cfg[x].(state := Configured)] &&
            r.db == c.db[x := c.db[x].(state := Configured, t1 := 100, t2 := 200, stamp := now, server := server,
                                       leases := [Lease(a, 300, 400, now)])] &&
            r.installed == c.installed + multiset{(iface, a)}
  {
    MergeAddrsOne(c.installed, a, iface, now);
  }

  lemma MergeAddrsOne(installed: Installed, a: Ip, iface: IfaceId, now: nat)
    ensures MergeAddrs(Merge([], installed, false), [RecvAddr(a, 300, 400)], iface, now) ==
            Merge([Lease(a, 300, 400, now)], installed + multiset{(iface, a)}, true)
    ensures Stamped([Lease(a, 300, 400, now)], now) == [Lease(a, 300, 400, now)]
  {
    var recv, start := [RecvAddr(a, 300, 400)], Merge([], installed, false);
    var after := MergeAddr(start, recv[0], iface, now).after;
    assert [] + [Lease(a, 300, 400, now)] == [Lease(a, 300, 400, now)];
    assert recv[1..] == [];
    assert MergeAddrs(after, recv[1..], iface, now) == after;
  }

  /** What the REPLY leaves: both IAs CONFIGURED, the first with an address on the wrong interface,
      and still held by its SOLICIT. */
  predicate Misplaced(c: Client, f: CfgIface, g: CfgIface, i: Iaid, j: Iaid, now: nat) {
    c.iaList == [i, j] && i in c.cfg && j in c.db && i in c.db && c.cfg[i].state == Configured &&
    c.db[i].state == Configured && c.db[i].iface == f.id && c.db[i].iaid == i && c.db[i].t1 == 100 && c.db[i].stamp == now &&
    c.db[i].leases == [Lease(2, 300, 400, now)] && c.installed == multiset{(g.id, 1), (g.id, 2)} &&
    |c.trans| == 2 && For(c.trans[0], Solicit, f.id, i) && c.trans[1].done
  }

  lemma GenerousMerges(c: Client, f: CfgIface, g: CfgIface, i: Iaid, j: Iaid, server: Server, now: nat)
    requires Requesting(c, f, g, i, j) && c.db[i].iaid == i
    ensures var r := MergeAll(c, TwoGrants(i, j), g.id, Some(server), now);
            i in r.cfg && i in r.db && j in r.db && r.cfg[i].state == Configured && r.db[i].state == Configured &&
            r.db[i].iface == f.id && r.db[i].iaid == i && r.db[i].t1 == 100 && r.db[i].stamp == now &&
            r.db[i].leases == [Lease(2, 300, 400, now)] && r.installed == multiset{(g.id, 1), (g.id, 2)}
  {
    var ias := TwoGrants(i, j);
    assert ias[..1][..0] == [] && ias[..2] == ias;
    var b := MergeIA(c, ias[0], g.id, Some(server), now);
    assert MergeAll(c, ias[..1], g.id, Some(server), now) == b;
    MergeOneAddr(c, j, 1, g.id, Some(server), now);
    MergeOneAddr(b, i, 2, g.id, Some(server), now);
  }

  lemma GrantsBoth(i: Iaid, j: Iaid)
    ensures Granted(TwoGrants(i, j), i) && Leftover([j], TwoGrants(i, j)) == []
  {
    var ias := TwoGrants(i, j);
    LeftoverExact([j], ias);
    assert ias[0].iaid == j && ias[1].iaid == i;
    FilterNone([j], (x: Iaid) => !Granted(ias, x));
  }

  lemma GenerousMisplaces(c: Client, f: CfgIface, g: CfgIface, i: Iaid, j: Iaid, msg: Msg, clk: Clock)
    requires Requesting(c, f, g, i, j) && c.db[i].iaid == i && Generous(msg, c.trans[1].xid, i, j)
    ensures Misplaced(Deliver(c, msg, clk), f, g, i, j, clk.now)
  {
    FirstXid(c.trans, msg.xid, 1);
    GrantsBoth(i, j);
    GenerousMerges(c, f, g, i, j, msg.server, clk.now);
  }

  // ---- the run -----------------------------------------------------------------------------------------------------

  lemma AfterFirstTurn(c: Client, f: CfgIface, g: CfgIface, i: Iaid, j: Iaid, clk: Clock, offer: Msg)
    requires AtStart(c, f, g, i, j) && Offers(offer, c.xids(c.created + 1))
    ensures Listed(c)
    ensures var r := RunOf(c, [Hear(clk, offer)]);
            Offered(r, f, g, i, j, clk.now) && r.trans[2].xid == c.xids(c.created + 2)
  {
    FirstPass(c, f, g, i, j, clk);
    RunOfMessage(c, clk, offer);
    OfferAccepted(Round(c, {}, clk), f, g, i, j, offer, clk);
  }

  /** The client just before the message of the second turn. */
  function BeforeReply(c: Client, clk: Clock, offer: Msg): (r: Client)
    requires Listed(c)
    ensures SameShape(c, r)
  {
    Round(RunOf(c, [Hear(clk, offer)]), {}, clk)
  }

  lemma AfterSecondPass(c: Client, f: CfgIface, g: CfgIface, i: Iaid, j: Iaid, clk: Clock, offer: Msg)
    requires AtStart(c, f, g, i, j) && Offers(offer, c.xids(c.created + 1))
    ensures Listed(c)
    ensures var b := BeforeReply(c, clk, offer);
            Requesting(b, f, g, i, j) && b.trans[1].xid == c.xids(c.created + 2)
  {
    AfterFirstTurn(c, f, g, i, j, clk, offer);
    SecondPass(RunOf(c, [Hear(clk, offer)]), f, g, i, j, clk);
  }

  /** Two turns: the offer, then any message. */
  lemma RunOfTwo(c: Client, clk: Clock, offer: Msg, msg: Msg)
    requires Listed(c)
    ensures RunOf(c, [Hear(clk, offer), Hear(clk, msg)]) == Deliver(BeforeReply(c, clk, offer), msg, clk)
  {
    assert [Hear(clk, offer)] + [Hear(clk, msg)] == [Hear(clk, offer), Hear(clk, msg)];
    RunHears(c, [Hear(clk, offer)], clk, msg);
  }

  // ---- ownership -----------------------------------------------------------------------------------------------------

  /** An ADVERTISE grants nothing. */
  lemma OfferGrantsNothing(c: Client, f: CfgIface, g: CfgIface, i: Iaid, j: Iaid, offer: Msg, now: nat)
    requires Discovering(c, f, g, i, j, now) && Offers(offer, c.trans[1].xid)
    ensures Solicited(c, offer)
  {
    FirstXid(c.trans, offer.xid, 1);
  }

  lemma SolicitedFirst(c: Client, clk: Clock, offer: Msg)
    requires Listed(c) && Solicited(Round(c, {}, clk), offer)
    ensures AllSolicited(c, [Hear(clk, offer)])
  {
    RunOfOne(c, Hear(clk, offer));
  }

  lemma OfferIsSolicited(c: Client, f: CfgIface, g: CfgIface, i: Iaid, j: Iaid, clk: Clock, offer: Msg)
    requires AtStart(c, f, g, i, j) && Offers(offer, c.xids(c.created + 1))
    ensures Listed(c) && AllSolicited(c, [Hear(clk, offer)])
  {
    FirstPass(c, f, g, i, j, clk);
    OfferGrantsNothing(Round(c, {}, clk), f, g, i, j, offer, clk.now);
    SolicitedFirst(c, clk, offer);
  }

  lemma SolicitedThenPass(c: Client, clk: Clock, offer: Msg)
    requires Owned(c) && AllSolicited(c, [Hear(clk, offer)])
    ensures Owned(BeforeReply(c, clk, offer)) && NoneDone(BeforeReply(c, clk, offer).trans)
  {
    RunKeepsOwnership(c, [Hear(clk, offer)]);
    RoundKeeps(RunOf(c, [Hear(clk, offer)]), {}, clk);
  }

  lemma OwnedBeforeReply(c: Client, f: CfgIface, g: CfgIface, i: Iaid, j: Iaid, clk: Clock, offer: Msg)
    requires Initial(c) && AtStart(c, f, g, i, j) && Offers(offer, c.xids(c.created + 1))
    ensures Owned(BeforeReply(c, clk, offer)) && NoneDone(BeforeReply(c, clk, offer).trans)
  {
    StartIsOwned(c);
    OfferIsSolicited(c, f, g, i, j, clk, offer);
    SolicitedThenPass(c, clk, offer);
  }

  lemma StartIsOwned(c: Client)
    requires Initial(c)
    ensures Owned(c)
  {
  }

  lemma TwoHold(t: Trans, u: Trans, i: Iaid)
    ensures Holders([t, u], i) == Holds(t, i) + Holds(u, i)
  {
    assert [] + [t] == [t] && [t] + [u] == [t, u];
    HoldersSnoc([], t, i);
    HoldersSnoc([t], u, i);
  }

  lemma HeldElsewhere(c: Client, f: CfgIface, g: CfgIface, i: Iaid, j: Iaid, msg: Msg)
    requires Requesting(c, f, g, i, j) && msg.xid == c.trans[1].xid && !msg.notOnLink && Granted(Parsed(msg).ias, i)
    ensures !HarmlessMsg(c, msg)
  {
    FirstXid(c.trans, msg.xid, 1);
    TwoHold(c.trans[0], c.trans[1], i);
    assert c.trans == [c.trans[0], c.trans[1]] && i in c.trans[0].ias;
    assert Others(c, 1, i) > 0;
  }

  /**
    From start-up, with no server at fault before: every REPLY to the REQUEST that grants the IA
    under discovery elsewhere breaks the ownership.
   */
  lemma ForeignGrantBreaks(c: Client, f: CfgIface, g: CfgIface, i: Iaid, j: Iaid, clk: Clock, offer: Msg, msg: Msg)
    requires Initial(c) && AtStart(c, f, g, i, j) && Offers(offer, c.xids(c.created + 1))
    requires msg.xid == c.xids(c.created + 2) && !msg.notOnLink && Granted(Parsed(msg).ias, i)
    ensures Owned(BeforeReply(c, clk, offer)) && !Owned(RunOf(c, [Hear(clk, offer), Hear(clk, msg)]))
  {
    var b := BeforeReply(c, clk, offer);
    OwnedBeforeReply(c, f, g, i, j, clk, offer);
    AfterSecondPass(c, f, g, i, j, clk, offer);
    HeldElsewhere(b, f, g, i, j, msg);
    DeliverKeepsIff(b, msg, clk);
    RunOfTwo(c, clk, offer, msg);
  }

  lemma AfterGenerous(c: Client, f: CfgIface, g: CfgIface, i: Iaid, j: Iaid, clk: Clock, offer: Msg, msg: Msg)
    requires Initial(c) && AtStart(c, f, g, i, j) && Offers(offer, c.xids(c.created + 1))
    requires Generous(msg, c.xids(c.created + 2), i, j)
    ensures Misplaced(RunOf(c, [Hear(clk, offer), Hear(clk, msg)]), f, g, i, j, clk.now)
  {
    OwnedBeforeReply(c, f, g, i, j, clk, offer);
    AfterSecondPass(c, f, g, i, j, clk, offer);
    RunOfTwo(c, clk, offer, msg);
    GenerousMisplaces(BeforeReply(c, clk, offer), f, g, i, j, msg, clk);
  }

  // ---- agreement -----------------------------------------------------------------------------------------------------

  lemma MisplacedDisagrees(c: Client, f: CfgIface, g: CfgIface, i: Iaid, j: Iaid, now: nat)
    requires Misplaced(c, f, g, i, j, now) && f.id != g.id && i != j
    ensures Listed(c) && !Agrees(c)
  {
    var x: Tag := (f.id, 2);
    LeasedUpdate(c.db, c.iaList, i, c.db[i], x);
    assert Tags(f.id, c.db[i].leases) == [x];
    assert c.installed[x] == 0;
  }

  lemma RequestingAgrees(c: Client, f: CfgIface, g: CfgIface, i: Iaid, j: Iaid)
    requires Requesting(c, f, g, i, j)
    ensures Listed(c) && Agrees(c)
  {
    forall x
      ensures Leased(c.db, c.iaList, x) == 0
    {
      NothingLeased(c.db, c.iaList, x);
    }
  }

  /** The same REPLY puts an address that the database has for one interface on the other. */
  lemma ForeignInterfaceDisagrees(c: Client, f: CfgIface, g: CfgIface, i: Iaid, j: Iaid, clk: Clock, offer: Msg, msg: Msg)
    requires Initial(c) && AtStart(c, f, g, i, j) && Offers(offer, c.xids(c.created + 1))
    requires Generous(msg, c.xids(c.created + 2), i, j)
    ensures Agrees(BeforeReply(c, clk, offer)) && !Agrees(RunOf(c, [Hear(clk, offer), Hear(clk, msg)]))
  {
    AfterSecondPass(c, f, g, i, j, clk, offer);
    RequestingAgrees(BeforeReply(c, clk, offer), f, g, i, j);
    AfterGenerous(c, f, g, i, j, clk, offer, msg);
    MisplacedDisagrees(RunOf(c, [Hear(clk, offer), Hear(clk, msg)]), f, g, i, j, clk.now);
  }

  // ---- two holders ---------------------------------------------------------------------------------------------------

  lemma MisplacedIsRenewed(c: Client, f: CfgIface, g: CfgIface, i: Iaid, j: Iaid, now: nat, later: Clock)
    requires Misplaced(c, f, g, i, j, now) && now + 100 <= later.now < now + 400 <= ULONG_MAX
    ensures Listed(c) && Holders(Round(c, {}, later).trans, i) >= 2
  {
    TwoHold(c.trans[0], c.trans[1], i);
    assert c.trans == [c.trans[0], c.trans[1]] && i in c.trans[0].ias;
    FirstRenewedThoughHeld(c, {}, later, i);
  }

  /** And one more pass, after T1: the IA is held by its SOLICIT and by a RENEW. */
  lemma TwoHolders(c: Client, f: CfgIface, g: CfgIface, i: Iaid, j: Iaid, clk: Clock, offer: Msg, msg: Msg, later: Clock)
    requires Initial(c) && AtStart(c, f, g, i, j) && Offers(offer, c.xids(c.created + 1))
    requires Generous(msg, c.xids(c.created + 2), i, j) && clk.now + 100 <= later.now < clk.now + 400 <= ULONG_MAX
    ensures Holders(Round(RunOf(c, [Hear(clk, offer), Hear(clk, msg)]), {}, later).trans, i) >= 2
  {
    AfterGenerous(c, f, g, i, j, clk, offer, msg);
    MisplacedIsRenewed(RunOf(c, [Hear(clk, offer), Hear(clk, msg)]), f, g, i, j, clk.now, later);
  }

  // ---- a grant without an address ------------------------------------------------------------------------------------------

  /** The server grants the IA asked for, and gives it no address. */
  predicate EmptyHanded(msg: Msg, xid: nat, j: Iaid) {
    msg.xid == xid && !msg.notOnLink && Granted(Parsed(msg).ias, j) && !Carries(Parsed(msg).ias, j)
  }

  lemma RequestingIsEquipped(c: Client, f: CfgIface, g: CfgIface, i: Iaid, j: Iaid)
    requires Requesting(c, f, g, i, j)
    ensures Equipped(c)
  {
  }

  lemma EmptyHandedDoesNotFeed(c: Client, f: CfgIface, g: CfgIface, i: Iaid, j: Iaid, msg: Msg)
    requires Requesting(c, f, g, i, j) && EmptyHanded(msg, c.trans[1].xid, j)
    ensures !Feeds(c, msg)
  {
    FirstXid(c.trans, msg.xid, 1);
  }

  /** From start-up: after every such REPLY an IA is CONFIGURED without a server to renew it from. */
  lemma EmptyHandedBreaks(c: Client, f: CfgIface, g: CfgIface, i: Iaid, j: Iaid, clk: Clock, offer: Msg, msg: Msg)
    requires AtStart(c, f, g, i, j) && Offers(offer, c.xids(c.created + 1)) && EmptyHanded(msg, c.xids(c.created + 2), j)
    ensures Listed(c) && Equipped(BeforeReply(c, clk, offer)) && !Equipped(RunOf(c, [Hear(clk, offer), Hear(clk, msg)]))
  {
    var b := BeforeReply(c, clk, offer);
    AfterSecondPass(c, f, g, i, j, clk, offer);
    RequestingIsEquipped(b, f, g, i, j);
    EmptyHandedDoesNotFeed(b, f, g, i, j, msg);
    DeliverEquipsIff(b, msg, clk);
    RunOfTwo(c, clk, offer, msg);
  }

  // ---- one such client, and such messages --------------------------------------------------------------------------------

  const FIRST_LINK := CfgIface(1, false, false, [1])
  const SECOND_LINK := CfgIface(2, false, false, [2])

  function BlankIA(i: Iaid): IA {
    IA(i, i, NotConfigured, 0, 0, 0, None, [])
  }

  function Started(): Client {
    Client([FIRST_LINK, SECOND_LINK], map[1 := CfgIA(1, NotConfigured), 2 := CfgIA(2, NotConfigured)], [1, 2],
           map[1 := BlankIA(1), 2 := BlankIA(2)], multiset{}, [], [], (n: nat) => n, 0)
  }

  function Advertisement(): Msg {
    Msg(Advertise, 1, Server(1, 1), 255, false, false, false, TwoGrants(1, 2)[..1])
  }

  function Overgrant(): Msg {
    Msg(Reply, 2, Server(1, 1), 0, false, false, false, TwoGrants(1, 2))
  }

  lemma StartedIsWellFormed()
    ensures WellFormed(Started())
  {
    var c := Started();
    assert FIRST_LINK in c.ifaces && SECOND_LINK in c.ifaces;
    forall i | i in c.cfg.Keys
      ensures exists f :: f in c.ifaces && i in f.ias
    {
      assert i in (if i == 1 then FIRST_LINK else SECOND_LINK).ias;
    }
    StartedHosts();
  }

  lemma StartedIsInitial()
    ensures Initial(Started())
  {
    StartedIsWellFormed();
  }

  lemma StartedHosts()
    ensures Hosts(FIRST_LINK, Started().cfg) && Hosts(SECOND_LINK, Started().cfg)
  {
  }

  lemma StartedAtStart()
    ensures AtStart(Started(), FIRST_LINK, SECOND_LINK, 1, 2)
  {
  }

  lemma MessagesFit()
    ensures Offers(Advertisement(), 1) && Generous(Overgrant(), 2, 1, 2)
  {
    FilterAll(TwoGrants(1, 2), (r: RecvIA) => IsValid(r));
    FilterAll(TwoGrants(1, 2)[..1], (r: RecvIA) => IsValid(r));
  }

  function BareGrant(): Msg {
    Msg(Reply, 2, Server(1, 1), 0, false, false, false, [RecvIA(2, 100, 200, STATUS_SUCCESS, [])])
  }

  lemma BareGrantIsEmptyHanded()
    ensures EmptyHanded(BareGrant(), 2, 2)
  {
    var ias := BareGrant().ias;
    FilterAll(ias, (r: RecvIA) => IsValid(r));
    assert ias[0].iaid == 2;
  }

  /** There is a run from start-up after which an IA is to be renewed and knows no server. */
  lemma UnequippedRun(clk: Clock) returns (c: Client, turns: seq<Turn>)
    ensures Initial(c) && Equipped(c) && !Equipped(RunOf(c, turns))
  {
    var f, g, i, j, offer, msg, bare;
    c, f, g, i, j, offer, msg, bare := Fitting();
    turns := [Hear(clk, offer), Hear(clk, bare)];
    StartIsEquipped(c, f, g, i, j);
    EmptyHandedBreaks(c, f, g, i, j, clk, offer, bare);
  }

  lemma StartIsEquipped(c: Client, f: CfgIface, g: CfgIface, i: Iaid, j: Iaid)
    requires AtStart(c, f, g, i, j)
    ensures Equipped(c)
  {
  }

  lemma Fitting() returns (c: Client, f: CfgIface, g: CfgIface, i: Iaid, j: Iaid, offer: Msg, msg: Msg, bare: Msg)
    ensures Initial(c) && AtStart(c, f, g, i, j) && Offers(offer, c.xids(c.created + 1))
    ensures Generous(msg, c.xids(c.created + 2), i, j) && EmptyHanded(bare, c.xids(c.created + 2), j)
  {
    StartedIsInitial();
    StartedAtStart();
    MessagesFit();
    BareGrantIsEmptyHanded();
    bare := BareGrant();
    c, f, g, i, j, offer, msg := Started(), FIRST_LINK, SECOND_LINK, 1, 2, Advertisement(), Overgrant();
  }

  /** There is a run from start-up in which ownership and agreement end with a REPLY, and after
      which, at T1, an IA has two holders. */
  lemma BrokenRun(clk: Clock, later: Clock) returns (c: Client, turns: seq<Turn>, i: Iaid)
    requires clk.now + 100 <= later.now < clk.now + 400 <= ULONG_MAX
    ensures Initial(c) && !Owned(RunOf(c, turns)) && !Agrees(RunOf(c, turns))
    ensures Holders(Round(RunOf(c, turns), {}, later).trans, i) >= 2
  {
    var f, g, j, offer, msg, bare;
    c, f, g, i, j, offer, msg, bare := Fitting();
    turns := [Hear(clk, offer), Hear(clk, msg)];
    GrantsBoth(i, j);
    ForeignGrantBreaks(c, f, g, i, j, clk, offer, msg);
    ForeignInterfaceDisagrees(c, f, g, i, j, clk, offer, msg);
    TwoHolders(c, f, g, i, j, clk, offer, msg, later);
  }
}
