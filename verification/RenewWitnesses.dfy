/**
  Replies to a RENEW for two IAs: a success followed by a missing binding, and a reply that leaves
  one of the IAs out. Stated for every client whose two IAs were granted together.
 */
module RenewWitnesses {
  import opened Containers
  import opened Leases
  import opened Advertises
  import opened Retransmission
  import opened Protocol
  import opened Ownership
  import opened Replies
  import opened Runs
  import opened TransMgr
  import opened Orphans
  import opened Hazards

  // ---- the client -------------------------------------------------------------------------------------------

  /** An IA as a REPLY of server `s` left it at `stamp`, with one address. */
  function GrantedIA(i: Iaid, iface: IfaceId, s: Server, a: Ip, stamp: nat): IA {
    IA(i, iface, Configured, 100, 200, stamp, Some(s), [Lease(a, 300, 400, stamp)])
  }

  /** One interface with the IAs `i` and `j`, both granted at `stamp`; a second server is known. */
  predicate Bound(c: Client, f: CfgIface, i: Iaid, j: Iaid, s: Server, stamp: nat) {
    c.ifaces == [f] && f.ias == [i, j] && i != j && !f.noConfig && c.iaList == [i, j] &&
    i in c.cfg && j in c.cfg && c.cfg.Keys == c.db.Keys && (forall x :: x in c.db ==> x == i || x == j) &&
    c.cfg[i] == CfgIA(f.id, Configured) && c.cfg[j] == CfgIA(f.id, Configured) &&
    c.db[i] == GrantedIA(i, f.id, s, 1, stamp) && c.db[j] == GrantedIA(j, f.id, s, 2, stamp) &&
    |c.ads| == 1 && c.trans == [] && stamp + 400 <= ULONG_MAX
  }

  lemma BoundIsOwned(c: Client, f: CfgIface, i: Iaid, j: Iaid, s: Server, stamp: nat)
    requires Bound(c, f, i, j, s, stamp)
    ensures Owned(c)
  {
    assert f in c.ifaces;
    assert forall x :: x in c.db ==> x in f.ias && x in c.iaList;
  }

  // ---- the pass at T1 -----------------------------------------------------------------------------------------

  lemma NoneDeadYet(c: Client, f: CfgIface, i: Iaid, j: Iaid, s: Server, stamp: nat, now: nat)
    requires Bound(c, f, i, j, s, stamp) && stamp <= now < stamp + 400
    ensures Listed(c) && forall x :: x in c.db ==> !HasDead(c.db[x], now)
  {
    forall x | x in c.db
      ensures !HasDead(c.db[x], now)
    {
      assert c.db[x].leases == [Lease(if x == i then 1 else 2, 300, 400, stamp)];
    }
  }

  lemma BothAtT1(c: Client, f: CfgIface, i: Iaid, j: Iaid, s: Server, stamp: nat, x: Iaid)
    requires Bound(c, f, i, j, s, stamp) && x in c.db
    ensures NeedsRenew(c.db[x], stamp + 100, {}) && c.db[x].iface == f.id && c.db[x].server == Some(s)
  {
  }

  lemma TwoPicked(db: map<Iaid, IA>, i: Iaid, j: Iaid, now: nat)
    requires i in db && j in db && NeedsRenew(db[i], now, {}) && NeedsRenew(db[j], now, {})
    requires db[i].iface == db[j].iface && SameServer(db[j].server, db[i].server)
    ensures Pick(db, [i, j], now, {}) == [i, j]
  {
    assert [i, j][..1] == [i] && [i][..0] == [] && [] + [i] == [i];
    assert Pick(db, [i], now, {}) == [i];
  }

  lemma BothPicked(c: Client, f: CfgIface, i: Iaid, j: Iaid, s: Server, stamp: nat)
    requires Bound(c, f, i, j, s, stamp)
    ensures Listed(c) && T1Timeout(c.db, c.iaList, stamp + 100) == 0 && Pick(c.db, c.iaList, stamp + 100, {}) == [i, j]
  {
    BothAtT1(c, f, i, j, s, stamp, i);
    BothAtT1(c, f, i, j, s, stamp, j);
    TwoPicked(c.db, i, j, stamp + 100);
  }

  lemma NothingSettles(c: Client, f: CfgIface, i: Iaid, j: Iaid, s: Server, stamp: nat, clk: Clock)
    requires Bound(c, f, i, j, s, stamp) && clk.now == stamp + 100
    ensures Listed(c) && Settle(c, clk) == c
  {
    NoneDeadYet(c, f, i, j, s, stamp, clk.now);
    QuietSettle(c, clk);
    assert Purge(c) == c;
  }

  lemma NothingToDiscover(c: Client, f: CfgIface, i: Iaid, j: Iaid, s: Server, stamp: nat, clk: Clock)
    requires Bound(c, f, i, j, s, stamp)
    ensures CheckSolicit(c, c.ifaces, clk) == c
  {
    QuietSolicit(c, c.ifaces, clk);
  }

  lemma RenewAtT1(c: Client, f: CfgIface, i: Iaid, j: Iaid, s: Server, stamp: nat, clk: Clock)
    requires Bound(c, f, i, j, s, stamp) && clk.now == stamp + 100
    ensures Listed(c) && Round(c, {}, clk) == StartRenew(c, [i, j], clk)
  {
    NothingSettles(c, f, i, j, s, stamp, clk);
    NothingToDiscover(c, f, i, j, s, stamp, clk);
    BothPicked(c, f, i, j, s, stamp);
  }

  /** The RENEW for both. */
  predicate RenewingBoth(c: Client, f: CfgIface, i: Iaid, j: Iaid, s: Server, stamp: nat) {
    c.iaList == [i, j] && i != j && i in c.db && j in c.db && i in c.cfg && j in c.cfg && |c.ads| == 1 && |c.trans| == 1 &&
    c.cfg[j].state == Configured && c.db[i].iaid == i && c.db[j].state == InProcess &&
    c.db[i].leases == [Lease(1, 300, 400, stamp)] && c.trans[0].kind == Renew && c.trans[0].ias == [i, j] &&
    c.trans[0].iface == f.id && c.trans[0].server == Some(s) && !c.trans[0].done
  }

  lemma BothRenewing(c: Client, f: CfgIface, i: Iaid, j: Iaid, s: Server, stamp: nat, clk: Clock)
    requires Bound(c, f, i, j, s, stamp) && clk.now == stamp + 100
    ensures Listed(c)
    ensures var b := Round(c, {}, clk);
            RenewingBoth(b, f, i, j, s, stamp) && Owned(b) && NoneDone(b.trans) && b.trans[0].xid == c.xids(c.created)
  {
    BoundIsOwned(c, f, i, j, s, stamp);
    RoundKeeps(c, {}, clk);
    RenewAtT1(c, f, i, j, s, stamp, clk);
  }

  // ---- a success, then a missing binding ------------------------------------------------------------------------

  /** The reply renews the IA and then reports that another has no binding. */
  predicate RenewsThenDenies(msg: Msg, i: Iaid) {
    var ias := Parsed(msg).ias;
    |BeforeNoBinding(ias)| < |ias| && Granted(BeforeNoBinding(ias), i)
  }

  lemma HandedOn(c: Client, f: CfgIface, i: Iaid, j: Iaid, s: Server, stamp: nat, msg: Msg)
    requires RenewingBoth(c, f, i, j, s, stamp) && msg.xid == c.trans[0].xid && RenewsThenDenies(msg, i)
    ensures !HarmlessMsg(c, msg)
  {
    FirstXid(c.trans, msg.xid, 0);
    assert i in c.db && i in c.trans[0].ias;
  }

  /** Every such reply breaks the ownership: the IA is CONFIGURED, and asked for at the other server. */
  lemma LateNoBindingBreaks(c: Client, f: CfgIface, i: Iaid, j: Iaid, s: Server, stamp: nat, clk: Clock, msg: Msg)
    requires Bound(c, f, i, j, s, stamp) && clk.now == stamp + 100
    requires msg.xid == c.xids(c.created) && RenewsThenDenies(msg, i)
    ensures Owned(c) && !Owned(RunOf(c, [Hear(clk, msg)]))
  {
    var b := Round(c, {}, clk);
    BoundIsOwned(c, f, i, j, s, stamp);
    BothRenewing(c, f, i, j, s, stamp, clk);
    HandedOn(b, f, i, j, s, stamp, msg);
    DeliverKeepsIff(b, msg, clk);
    RunOfMessage(c, clk, msg);
  }

  function RenewedAndDenied(i: Iaid, j: Iaid): seq<RecvIA> {
    [RecvIA(i, 100, 200, STATUS_SUCCESS, [RecvAddr(1, 300, 400)]), RecvIA(j, 0, 0, STATUS_NOBINDING, [])]
  }

  /** What such a reply leaves: the IA CONFIGURED and held by a REQUEST. */
  predicate HeldConfigured(c: Client, i: Iaid, j: Iaid, now: nat) {
    c.iaList == [i, j] && i in c.cfg && i in c.db && j in c.db && c.cfg[i].state == Configured &&
    c.db[i].state == Configured && c.db[i].iaid == i && c.db[i].t1 == 100 && c.db[i].stamp == now &&
    c.db[i].leases == [Lease(1, 300, 400, now)] && |c.trans| == 2 && c.trans[0].done && !c.trans[1].done &&
    c.trans[1].kind == Request && c.trans[1].ias == [i, j] && c.trans[1].timer.rc == 1 && c.trans[1].timer.mrc == REQ_MAX_RC
  }

  lemma MergeKnownAddr(installed: Installed, iface: IfaceId, stamp: nat, now: nat)
    ensures MergeAddrs(Merge([Lease(1, 300, 400, stamp)], installed, false), [RecvAddr(1, 300, 400)], iface, now) ==
            Merge([Lease(1, 300, 400, now)], installed, false)
    ensures Stamped([Lease(1, 300, 400, now)], now) == [Lease(1, 300, 400, now)]
  {
    var leases, recv := [Lease(1, 300, 400, stamp)], [RecvAddr(1, 300, 400)];
    var after := MergeAddr(Merge(leases, installed, false), recv[0], iface, now).after;
    assert leases[0].addr == 1 && IndexOf(leases, 1) == 0;
    assert leases[0 := Lease(1, 300, 400, now)] == [Lease(1, 300, 400, now)];
    assert recv[1..] == [];
    assert MergeAddrs(after, recv[1..], iface, now) == after;
  }

  lemma RenewedMerge(c: Client, f: CfgIface, i: Iaid, j: Iaid, s: Server, stamp: nat, now: nat)
    requires RenewingBoth(c, f, i, j, s, stamp)
    ensures var r := MergeAll(c, RenewedAndDenied(i, j)[..1], f.id, Some(s), now);
            i in r.cfg && r.cfg[i].state == Configured && i in r.db && r.db[i].state == Configured && r.db[i].iaid == i &&
            r.db[i].t1 == 100 && r.db[i].stamp == now && r.db[i].leases == [Lease(1, 300, 400, now)]
  {
    var ias := RenewedAndDenied(i, j)[..1];
    assert ias[..0] == [];
    MergeKnownAddr(c.installed, f.id, stamp, now);
  }

  lemma BeforeTheDenied(i: Iaid, j: Iaid)
    ensures BeforeNoBinding(RenewedAndDenied(i, j)) == RenewedAndDenied(i, j)[..1]
    ensures Granted(RenewedAndDenied(i, j)[..1], i)
  {
    var ias := RenewedAndDenied(i, j);
    assert ias[1..] == [ias[1]];
    assert BeforeNoBinding(ias[1..]) == [];
    assert ias[..1][0].iaid == i;
  }

  lemma AfterDenied(c: Client, f: CfgIface, i: Iaid, j: Iaid, s: Server, stamp: nat, msg: Msg, clk: Clock)
    requires RenewingBoth(c, f, i, j, s, stamp) && msg.xid == c.trans[0].xid && Parsed(msg).ias == RenewedAndDenied(i, j)
    ensures HeldConfigured(Deliver(c, msg, clk), i, j, clk.now)
  {
    FirstXid(c.trans, msg.xid, 0);
    BeforeTheDenied(i, j);
    RenewedMerge(c, f, i, j, s, stamp, clk.now);
    SortNotEmpty(c.ads);
  }

  lemma SortNotEmpty(ads: seq<Advert>)
    requires ads != []
    ensures SortByPreference(ads) != []
  {
    SortIsDescending(ads);
    assert ads[0] in multiset(ads);
  }

  lemma RenewedAgain(c: Client, i: Iaid, j: Iaid, now: nat, later: Clock)
    requires HeldConfigured(c, i, j, now) && now + 100 <= later.now < now + 400 <= ULONG_MAX
    ensures Listed(c) && Holders(Round(c, {}, later).trans, i) >= 2
  {
    HoldersUpdate(c.trans, 1, c.trans[1], i);
    assert i in c.trans[1].ias;
    FirstRenewedThoughHeld(c, {}, later, i);
  }

  /** And at the next T1 the IA has two holders: the REQUEST and a new RENEW. */
  lemma TwoHolders(c: Client, f: CfgIface, i: Iaid, j: Iaid, s: Server, stamp: nat, clk: Clock, msg: Msg, later: Clock)
    requires Bound(c, f, i, j, s, stamp) && clk.now == stamp + 100 && clk.now + 100 <= later.now < clk.now + 400 <= ULONG_MAX
    requires msg.xid == c.xids(c.created) && Parsed(msg).ias == RenewedAndDenied(i, j)
    ensures Listed(c) && Holders(Round(RunOf(c, [Hear(clk, msg)]), {}, later).trans, i) >= 2
  {
    BothRenewing(c, f, i, j, s, stamp, clk);
    RunOfMessage(c, clk, msg);
    AfterDenied(Round(c, {}, clk), f, i, j, s, stamp, msg, clk);
    RenewedAgain(RunOf(c, [Hear(clk, msg)]), i, j, clk.now, later);
  }

  // ---- orphans -----------------------------------------------------------------------------------------------------

  /** The reply reports no missing binding and does not renew the IA. */
  predicate LeavesUnmentioned(msg: Msg, j: Iaid) {
    BeforeNoBinding(Parsed(msg).ias) == Parsed(msg).ias && !Granted(Parsed(msg).ias, j)
  }

  lemma UnmentionedIsLeftOut(c: Client, f: CfgIface, i: Iaid, j: Iaid, s: Server, stamp: nat, msg: Msg)
    requires RenewingBoth(c, f, i, j, s, stamp) && msg.xid == c.trans[0].xid && LeavesUnmentioned(msg, j)
    ensures LeavesOut(c, msg, j) && !Grants(c, msg, j)
  {
    FirstXid(c.trans, msg.xid, 0);
    assert j in c.trans[0].ias;
  }

  lemma LeftOutDelivered(c: Client, f: CfgIface, i: Iaid, j: Iaid, s: Server, stamp: nat, msg: Msg, clk: Clock)
    requires RenewingBoth(c, f, i, j, s, stamp) && Owned(c) && NoneDone(c.trans)
    requires msg.xid == c.trans[0].xid && LeavesUnmentioned(msg, j)
    ensures Orphan(Deliver(c, msg, clk), j)
  {
    UnmentionedIsLeftOut(c, f, i, j, s, stamp, msg);
    DeliverOrphanIff(c, msg, clk, j);
  }

  /** Every such reply makes an orphan of the IA. */
  lemma LeftOutIsOrphan(c: Client, f: CfgIface, i: Iaid, j: Iaid, s: Server, stamp: nat, clk: Clock, msg: Msg)
    requires Bound(c, f, i, j, s, stamp) && clk.now == stamp + 100
    requires msg.xid == c.xids(c.created) && LeavesUnmentioned(msg, j)
    ensures Listed(c) && Orphan(RunOf(c, [Hear(clk, msg)]), j)
  {
    BothRenewing(c, f, i, j, s, stamp, clk);
    LeftOutDelivered(Round(c, {}, clk), f, i, j, s, stamp, msg, clk);
    RunOfMessage(c, clk, msg);
  }

  /** It stays one in every run that follows, until some message grants it. */
  lemma LeftOutForEver(c: Client, f: CfgIface, i: Iaid, j: Iaid, s: Server, stamp: nat, clk: Clock, msg: Msg, turns: seq<Turn>)
    requires Bound(c, f, i, j, s, stamp) && clk.now == stamp + 100
    requires msg.xid == c.xids(c.created) && LeavesUnmentioned(msg, j)
    requires Listed(c) && NeverGranted(RunOf(c, [Hear(clk, msg)]), turns, j)
    ensures Orphan(RunOf(RunOf(c, [Hear(clk, msg)]), turns), j)
  {
    LeftOutIsOrphan(c, f, i, j, s, stamp, clk, msg);
    OrphanForEver(RunOf(c, [Hear(clk, msg)]), turns, j);
  }

  lemma BothDead(c: Client, f: CfgIface, i: Iaid, j: Iaid, s: Server, stamp: nat, now: nat, x: Iaid)
    requires Bound(c, f, i, j, s, stamp) && now >= stamp + 400 && x in c.db
    ensures HasDead(c.db[x], now) && Loose(c, x)
  {
    assert !Alive(c.db[x].leases[0], now);
  }

  lemma ExpiryOrphansOne(c: Client, f: CfgIface, i: Iaid, j: Iaid, s: Server, stamp: nat, clk: Clock, x: Iaid)
    requires Bound(c, f, i, j, s, stamp) && clk.now >= stamp + 400 && x in c.db
    ensures Listed(c) && Orphan(Round(c, {}, clk), x)
  {
    BoundIsOwned(c, f, i, j, s, stamp);
    BothDead(c, f, i, j, s, stamp, clk.now, x);
    RoundOrphanIff(c, {}, clk, x);
  }

  /** A client that makes no pass before its addresses expire loses both IAs in the next one. */
  lemma ExpiryOrphansBoth(c: Client, f: CfgIface, i: Iaid, j: Iaid, s: Server, stamp: nat, clk: Clock)
    requires Bound(c, f, i, j, s, stamp) && clk.now >= stamp + 400
    ensures Listed(c) && Orphan(Round(c, {}, clk), i) && Orphan(Round(c, {}, clk), j)
  {
    ExpiryOrphansOne(c, f, i, j, s, stamp, clk, i);
    ExpiryOrphansOne(c, f, i, j, s, stamp, clk, j);
  }

  // ---- one such client, and such messages --------------------------------------------------------------------------------

  const LINK := CfgIface(1, false, false, [1, 2])

  function Lessee(): Client {
    Client([LINK], map[1 := CfgIA(1, Configured), 2 := CfgIA(1, Configured)], [1, 2],
           map[1 := GrantedIA(1, 1, Server(1, 1), 1, 0), 2 := GrantedIA(2, 1, Server(1, 1), 2, 0)],
           multiset{(1, 1), (1, 2)}, [Advert(0, Server(2, 2))], [], (n: nat) => n, 0)
  }

  function ReplyWith(ias: seq<RecvIA>): Msg {
    Msg(Reply, 0, Server(1, 1), 0, false, false, false, ias)
  }

  lemma LesseeIsBound()
    ensures Bound(Lessee(), LINK, 1, 2, Server(1, 1), 0)
  {
  }

  lemma AllValid(ias: seq<RecvIA>)
    requires ias == RenewedAndDenied(1, 2) || ias == RenewedAndDenied(1, 2)[..1]
    ensures Parsed(ReplyWith(ias)).ias == ias
  {
    FilterAll(ias, (r: RecvIA) => IsValid(r));
  }

  lemma FirstOnly()
    ensures LeavesUnmentioned(ReplyWith(RenewedAndDenied(1, 2)[..1]), 2)
  {
    var ias := RenewedAndDenied(1, 2)[..1];
    AllValid(ias);
    assert ias[1..] == [] && BeforeNoBinding(ias) == ias;
  }

  lemma Fitting() returns (c: Client, f: CfgIface, i: Iaid, j: Iaid, s: Server, denied: Msg, brief: Msg)
    ensures Bound(c, f, i, j, s, 0) && denied.xid == c.xids(c.created) && brief.xid == c.xids(c.created)
    ensures Parsed(denied).ias == RenewedAndDenied(i, j) && LeavesUnmentioned(brief, j)
  {
    LesseeIsBound();
    AllValid(RenewedAndDenied(1, 2));
    FirstOnly();
    c, f, i, j, s := Lessee(), LINK, 1, 2, Server(1, 1);
    denied, brief := ReplyWith(RenewedAndDenied(1, 2)), ReplyWith(RenewedAndDenied(1, 2)[..1]);
  }

  /** There is a client that owns its IAs, and a message to its RENEW that ends that. */
  lemma BrokenRenewal(clk: Clock, later: Clock) returns (c: Client, denied: Msg, i: Iaid)
    requires clk.now == 100 && later.now == 200
    ensures Owned(c) && !Owned(RunOf(c, [Hear(clk, denied)])) && Holders(Round(RunOf(c, [Hear(clk, denied)]), {}, later).trans, i) >= 2
  {
    var f, j, s, brief;
    c, f, i, j, s, denied, brief := Fitting();
    BeforeTheDenied(i, j);
    LateNoBindingBreaks(c, f, i, j, s, 0, clk, denied);
    TwoHolders(c, f, i, j, s, 0, clk, denied, later);
  }

  /** And one after which an IA is lost. */
  lemma LostIA(clk: Clock) returns (c: Client, brief: Msg, j: Iaid)
    requires clk.now == 100
    ensures Owned(c) && !Orphan(c, j) && Orphan(RunOf(c, [Hear(clk, brief)]), j)
  {
    var f, i, s, denied;
    c, f, i, j, s, denied, brief := Fitting();
    BoundIsOwned(c, f, i, j, s, 0);
    LeftOutIsOrphan(c, f, i, j, s, 0, clk, brief);
  }
}
