/**
  Clients with one interface and one configured IA: one whose addresses expire at different times
  leaves an address behind at shutdown, and one whose T1 and T2 are equal waits for a RENEW that
  has no time left.
 */
module LoneWitnesses {
  import opened Containers
  import opened Leases
  import opened Retransmission
  import opened Protocol
  import opened Ownership
  import opened Agreement
  import opened Orphans
  import opened Hazards
  import opened Failover
  import opened Shutdown
  import opened DHCPClient

  /** The IA `ia`, CONFIGURED, with its addresses on the interface; nothing is under way. */
  predicate Lone(c: Client, f: CfgIface, i: Iaid, ia: IA) {
    c.ifaces == [f] && f.ias == [i] && !f.noConfig && c.iaList == [i] && c.db.Keys == {i} && c.cfg.Keys == {i} &&
    c.cfg[i] == CfgIA(f.id, Configured) && c.db[i] == ia && ia.iaid == i && ia.iface == f.id && ia.state == Configured &&
    c.trans == [] && c.installed == IATags(ia)
  }

  lemma LoneIsOwned(c: Client, f: CfgIface, i: Iaid, ia: IA)
    requires Lone(c, f, i, ia)
    ensures Owned(c)
  {
    assert f in c.ifaces && i in f.ias;
  }

  lemma LoneAgrees(c: Client, f: CfgIface, i: Iaid, ia: IA)
    requires Lone(c, f, i, ia)
    ensures Listed(c) && Agrees(c)
  {
    forall x
      ensures Leased(c.db, c.iaList, x) == IATags(ia)[x]
    {
      assert [i][..0] == [];
    }
  }

  // ---- an address left behind -------------------------------------------------------------------------------

  /** Two addresses, of which the second is valid for longer. */
  predicate Uneven(ia: IA, stamp: nat) {
    |ia.leases| == 2 && ia.leases[0].stamp == ia.leases[1].stamp == stamp &&
    ia.leases[0].valid < ia.leases[1].valid && stamp + ia.leases[1].valid <= ULONG_MAX
  }

  /** The time between. */
  predicate Between(ia: IA, stamp: nat, now: nat)
    requires Uneven(ia, stamp)
  {
    stamp + ia.leases[0].valid <= now < stamp + ia.leases[1].valid
  }

  lemma ExpiredUneven(ia: IA, stamp: nat, now: nat)
    requires Uneven(ia, stamp) && Between(ia, stamp, now)
    ensures Expired(ia, now) == ia.(leases := [ia.leases[1]], state := NotConfigured)
  {
    var alive := (l: Lease) => Alive(l, now);
    assert ia.leases == [ia.leases[0]] + [ia.leases[1]];
    FilterOne(ia.leases[0], alive);
    FilterSnoc([ia.leases[0]], ia.leases[1], alive);
  }

  lemma SettledLone(c: Client, f: CfgIface, i: Iaid, ia: IA, clk: Clock)
    requires Lone(c, f, i, ia)
    ensures Listed(c)
    ensures var e := Settle(c, clk);
            e.db.Keys == {i} && e.db[i] == Expired(ia, clk.now) && e.cfg == c.cfg && e.ifaces == c.ifaces
  {
    assert Purge(c) == c;
  }

  lemma NothingToStart(c: Client, i: Iaid, clk: Clock)
    requires Listed(c) && NoneWaits(c.cfg) && c.db.Keys == {i} && c.db[i].state == NotConfigured
    ensures Check(c, {}, clk) == c
  {
    QuietSolicit(c, c.ifaces, clk);
    QuietRenew(c, {}, clk);
  }

  lemma PassIsSafe(c: Client, f: CfgIface, i: Iaid, ia: IA, clk: Clock)
    requires Lone(c, f, i, ia)
    ensures Listed(c) && Owned(Round(c, {}, clk)) && Agrees(Round(c, {}, clk))
  {
    LoneIsOwned(c, f, i, ia);
    LoneAgrees(c, f, i, ia);
    RoundKeeps(c, {}, clk);
    RoundAgrees(c, {}, clk);
  }

  /** A pass in between takes the first address and the CONFIGURED state, and keeps the second. */
  lemma PassBetween(c: Client, f: CfgIface, i: Iaid, ia: IA, stamp: nat, clk: Clock)
    requires Lone(c, f, i, ia) && Uneven(ia, stamp) && Between(ia, stamp, clk.now)
    ensures Listed(c)
    ensures var r := Round(c, {}, clk);
            r.iaList == [i] && r.db.Keys == {i} && r.db[i] == ia.(leases := [ia.leases[1]], state := NotConfigured)
  {
    SettledLone(c, f, i, ia, clk);
    ExpiredUneven(ia, stamp, clk.now);
    NothingToStart(Settle(c, clk), i, clk);
  }

  lemma ForgottenOne(ia: IA)
    requires !Eligible(ia)
    ensures ToRelease([ia]) == [] && PassedOver([ia]) == [ia]
  {
    FilterOne(ia, x => Eligible(x));
    FilterOne(ia, x => !Eligible(x));
  }

  /** The one IA of the list is passed over. */
  lemma ForgottenIA(c: Client, i: Iaid)
    requires c.iaList == [i] && i in c.db && c.db[i].state == NotConfigured
    ensures Releasable(c) == [] && PassedOver(Listing(c.db, c.iaList)) == [c.db[i]]
  {
    var ias := Listing(c.db, c.iaList);
    assert ias == [c.db[i]];
    ForgottenOne(c.db[i]);
  }

  lemma HeldOne(ia: IA, x: (IfaceId, Ip))
    ensures Held([ia], x) == IATags(ia)[x]
  {
    assert [ia][..0] == [];
  }

  /** The shutdown of a client whose one IA is not CONFIGURED any more. */
  method ForgetAtShutDown(c: Client, i: Iaid) returns (batches: seq<seq<IA>>, left: Installed)
    requires WellFormed(c) && Agrees(c) && c.iaList == [i] && i in c.db && c.db[i].state == NotConfigured
    ensures batches == [] && forall x :: left[x] == IATags(c.db[i])[x]
  {
    ForgottenIA(c, i);
    batches, left := ShutDown(c);
    forall x
      ensures left[x] == IATags(c.db[i])[x]
    {
      HeldOne(c.db[i], x);
    }
  }

  /** A shutdown after that pass releases nothing and leaves the second address on the interface. */
  method LeftAtShutDown(c: Client, f: CfgIface, i: Iaid, ia: IA, stamp: nat, clk: Clock)
    returns (batches: seq<seq<IA>>, left: Installed)
    requires Lone(c, f, i, ia) && Uneven(ia, stamp) && Between(ia, stamp, clk.now)
    ensures batches == [] && left[(f.id, ia.leases[1].addr)] == 1
  {
    PassIsSafe(c, f, i, ia, clk);
    PassBetween(c, f, i, ia, stamp, clk);
    var r := Round(c, {}, clk);
    batches, left := ForgetAtShutDown(r, i);
    assert Tags(f.id, [ia.leases[1]]) == [(f.id, ia.leases[1].addr)];
  }

  // ---- a RENEW without time ----------------------------------------------------------------------------------

  /** With T1 equal to T2, a renewal that is due has no time left until T2. */
  lemma NoTimeLeft(ia: IA, now: nat)
    requires ia.t1 == ia.t2 && NeedsRenew(ia, now, {})
    ensures T2Left(ia, now) == 0
  {
  }

  lemma RenewalOfLone(c: Client, f: CfgIface, i: Iaid, ia: IA, clk: Clock)
    requires Lone(c, f, i, ia) && NeedsRenew(ia, clk.now, {}) && !HasDead(ia, clk.now)
    ensures Listed(c) && Round(c, {}, clk) == StartRenew(c, [i], clk)
  {
    LoneSettles(c, f, i, ia, clk);
    QuietSolicit(c, c.ifaces, clk);
    LonePicked(c.db, i, clk.now);
  }

  lemma LoneSettles(c: Client, f: CfgIface, i: Iaid, ia: IA, clk: Clock)
    requires Lone(c, f, i, ia) && !HasDead(ia, clk.now)
    ensures Listed(c) && Settle(c, clk) == c
  {
    assert Purge(c) == c;
    QuietSettle(c, clk);
  }

  lemma LonePicked(db: map<Iaid, IA>, i: Iaid, now: nat)
    requires i in db && NeedsRenew(db[i], now, {})
    ensures Pick(db, [i], now, {}) == [i] && T1Timeout(db, [i], now) == 0
  {
    assert [i][..0] == [] && [] + [i] == [i];
  }

  /** The pass then starts a RENEW whose duration is zero, and which waits all the same. */
  lemma WaitsWithoutTime(c: Client, f: CfgIface, i: Iaid, ia: IA, clk: Clock, clks: nat -> Clock, n: nat)
    requires Lone(c, f, i, ia) && ia.t1 == ia.t2 && NeedsRenew(ia, clk.now, {}) && !HasDead(ia, clk.now)
    ensures Listed(c) && T2Left(ia, clk.now) == 0
    ensures var r := Round(c, {}, clk);
            Refreshing(r, 0) && r.trans[0].kind == Renew && r.trans[0].timer.rt + Ignored(r, 0, clks, n).renew > 0
  {
    NoTimeLeft(ia, clk.now);
    RenewalOfLone(c, f, i, ia, clk);
    RenewLastsUntilT2(c, [i], clk, clks, n);
  }

  // ---- such clients --------------------------------------------------------------------------------------------

  const LINK := CfgIface(1, false, false, [1])

  function Owner(ia: IA): Client {
    Client([LINK], map[1 := CfgIA(1, Configured)], [1], map[1 := ia], IATags(ia), [], [], (n: nat) => n, 0)
  }

  const SHORT_AND_LONG := IA(1, 1, Configured, 1000, 2000, 0, Some(Server(1, 1)), [Lease(1, 300, 400, 0), Lease(2, 300, 900, 0)])
  const EQUAL_TIMES := IA(1, 1, Configured, 100, 100, 0, Some(Server(1, 1)), [Lease(1, 300, 400, 0)])

  lemma OwnerIsLone(ia: IA)
    requires ia.iaid == 1 && ia.iface == 1 && ia.state == Configured
    ensures Lone(Owner(ia), LINK, 1, ia)
  {
  }

  /** At 500 the first of the two addresses is gone, and the second stays on the interface. */
  method OneLeftBehind(clk: Clock) returns (left: Installed)
    requires clk.now == 500
    ensures left[(1, 2)] == 1
  {
    var batches;
    OwnerIsLone(SHORT_AND_LONG);
    batches, left := LeftAtShutDown(Owner(SHORT_AND_LONG), LINK, 1, SHORT_AND_LONG, 0, clk);
  }

  /** At 100 the RENEW has no time left. */
  lemma OneWaits(clk: Clock, clks: nat -> Clock) returns (c: Client)
    requires clk.now == 100
    ensures Owned(c) && T2Left(EQUAL_TIMES, 100) == 0 && c.db == map[1 := EQUAL_TIMES]
    ensures var r := Round(c, {}, clk);
            Refreshing(r, 0) && r.trans[0].kind == Renew && r.trans[0].timer.rt + Ignored(r, 0, clks, 0).renew > 0
  {
    c := Owner(EQUAL_TIMES);
    OwnerIsLone(EQUAL_TIMES);
    LoneIsOwned(c, LINK, 1, EQUAL_TIMES);
    WaitsWithoutTime(c, LINK, 1, EQUAL_TIMES, clk, clks, 0);
  }
}
