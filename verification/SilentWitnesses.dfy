/**
  Every client can run in silence until no REQUEST, RENEW and REBIND is left; and two clients that
  do: one with an ADVERTISE and a REQUEST just sent, one whose only IA reaches T1.
 */
module SilentWitnesses {
  import opened Containers
  import opened Leases
  import opened Advertises
  import opened Retransmission
  import opened Protocol
  import opened Ownership
  import opened Runs
  import opened Orphans
  import opened Hazards
  import opened Failover
  import opened LoneWitnesses
  import opened SilentRuns
  import opened SilentRefresh
  import opened Deadlines
  import opened Punctuality

  // ---- runs that end ---------------------------------------------------------------------------------------------

  /** No REQUEST, RENEW or REBIND is left. */
  predicate Over(c: Client) {
    NoRequests(c.trans) && NoRefreshes(c.trans)
  }

  function Remaining(c: Client, bound: nat): int
    requires Listed(c)
  {
    Effort(c) + RefreshEffort(c, bound)
  }

  /** A pass in which nothing is received and no random number changes a timeout. */
  function PassAt(now: nat): Turn {
    Turn({}, Clock(now, 0.0, 0.0), None, Clock(now, 0.0, 0.0))
  }

  lemma SomeoneWaits(c: Client) returns (k: nat)
    requires !Over(c)
    ensures k < |c.trans| && (LiveRequest(c.trans[k]) || Refreshes(c.trans[k]))
  {
    var t :| t in c.trans && (LiveRequest(t) || Refreshes(t));
    k :| 0 <= k < |c.trans| && c.trans[k] == t;
  }

  /** A pass late enough for one of the messages takes something of what is left to do. */
  lemma PassTakes(c: Client, bound: nat, since: nat) returns (now: nat)
    requires Winding(c, bound) && Limited(c.trans) && !Over(c)
    ensures now >= since
    ensures var r := Round(c, {}, PassAt(now).clk);
            Winding(r, bound) && Limited(r.trans) && Remaining(r, bound) < Remaining(c, bound)
  {
    var k := SomeoneWaits(c);
    now := Max(since, c.trans[k].timer.last + c.trans[k].timer.rt);
    assert Due(c.trans[k], now);
    RoundCosts(c, {}, PassAt(now).clk);
    RoundTakes(c, {}, PassAt(now).clk, bound);
    RoundSpends(c, {}, PassAt(now).clk);
  }

  lemma RemainingNonNegative(c: Client, bound: nat)
    requires Listed(c) && Limited(c.trans)
    ensures Remaining(c, bound) >= 0
  {
    TotalNonNegative(c.trans, (t: Trans) => Weight(t));
    TotalNonNegative(c.trans, (t: Trans) => Cost(t, bound));
  }

  lemma OneTurnMore(turns: seq<Turn>, since: nat, now: nat)
    requires Silent(turns) && ForwardFrom(turns, since) && LastPass(turns, since) <= now
    ensures Silent(turns + [PassAt(now)]) && ForwardFrom(turns + [PassAt(now)], since)
  {
    assert (turns + [PassAt(now)])[..|turns|] == turns;
  }

  /** The run with one more pass. */
  lemma OnePassMore(c: Client, turns: seq<Turn>, since: nat, bound: nat, end: Client) returns (more: seq<Turn>, after: Client)
    requires Listed(c) && Silent(turns) && ForwardFrom(turns, since) && end == RunOf(c, turns)
    requires Winding(end, bound) && Limited(end.trans) && !Over(end)
    ensures turns <= more && Silent(more) && ForwardFrom(more, since) && after == RunOf(c, more)
    ensures Winding(after, bound) && Limited(after.trans) && Remaining(after, bound) < Remaining(end, bound)
  {
    var now := PassTakes(end, bound, LastPass(turns, since));
    RunSnoc(c, turns, PassAt(now));
    OneTurnMore(turns, since, now);
    more := turns + [PassAt(now)];
    after := Round(end, {}, PassAt(now).clk);
  }

  lemma {:induction false} SilenceGoesOn(c: Client, turns: seq<Turn>, since: nat, bound: nat, left: nat, end: Client)
    returns (more: seq<Turn>)
    requires Listed(c) && Silent(turns) && ForwardFrom(turns, since) && end == RunOf(c, turns)
    requires Winding(end, bound) && Limited(end.trans) && Remaining(end, bound) <= left
    ensures turns <= more && Silent(more) && ForwardFrom(more, since) && Over(RunOf(c, more))
    decreases left
  {
    if Over(end) {
      more := turns;
    } else {
      var next, after := OnePassMore(c, turns, since, bound, end);
      RemainingNonNegative(after, bound);
      more := SilenceGoesOn(c, next, since, bound, left - 1, after);
    }
  }

  /** Every run in silence can go on until no REQUEST, RENEW and REBIND is left. */
  lemma SilenceCanEnd(c: Client, turns: seq<Turn>, since: nat) returns (more: seq<Turn>)
    requires WellFormed(c) && Primed(c.trans) && Limited(c.trans) && Silent(turns) && ForwardFrom(turns, since)
    ensures turns <= more && Silent(more) && ForwardFrom(more, since) && Over(RunOf(c, more))
  {
    var bound := SomeBound(c.db, c.iaList);
    var end := SilenceTakes(c, turns, bound);
    SilenceCosts(c, turns);
    RemainingNonNegative(end, bound);
    more := SilenceGoesOn(c, turns, since, bound, Remaining(end, bound), end);
  }

  /** Then every IA that a transaction held is under discovery again. */
  lemma HeldIsDiscovered(c: Client, turns: seq<Turn>, i: Iaid)
    requires Owned(c) && Silent(turns) && i in c.cfg && Holders(c.trans, i) > 0 && Over(RunOf(c, turns))
    ensures Solicits(RunOf(c, turns).trans, i) && Holders(RunOf(c, turns).trans, i) == 1
  {
    var end := SilenceHolds(c, turns, i);
    var k := SomeHolder(end.trans, i);
    assert end.trans[k] in end.trans && !LiveRequest(end.trans[k]) && !Refreshes(end.trans[k]);
  }

  // ---- a REQUEST just sent, and another server -------------------------------------------------------------------

  const FIRST := Server(1, 1)
  const SECOND := Server(2, 2)

  /** IA 1 is asked for at the first server, and the second one is known. */
  function Asking(): Client {
    Client([LINK], map[1 := CfgIA(1, InProcess)], [1], map[1 := IA(1, 1, InProcess, 100, 200, 0, None, [])], multiset{},
           [Advert(7, SECOND)], [Trans(Request, 0, 1, [1], false, Some(FIRST), Timer(1, 30, REQ_MAX_RC, 0, 1, 1, 0), false)],
           (n: nat) => n + 1, 0)
  }

  lemma AskingHolds(i: Iaid)
    ensures Holders(Asking().trans, i) == if i == 1 then 1 else 0
  {
    var t := Asking().trans[0];
    assert Asking().trans == [] + [t];
    HoldersSnoc([], t, i);
    assert [1][..0] == [];
  }

  lemma AskingIsOwned()
    ensures Owned(Asking()) && Limited(Asking().trans) && Primed(Asking().trans)
  {
    var c := Asking();
    forall i
      ensures Exclusive(c, i) && Idle(c, i)
    {
      AskingHolds(i);
    }
    assert LINK in c.ifaces && 1 in LINK.ias;
  }

  lemma AskingCounts()
    ensures Budget(Asking()) == TRIES + TRIES - 1 && Servers(SortByPreference(Asking().ads)) == [SECOND]
  {
    var c := Asking();
    assert c.trans == [] + [c.trans[0]];
    TotalSnoc([], c.trans[0], (t: Trans) => Left(t));
    SortOfSorted(c.ads);
    assert Servers(c.ads) == [SECOND];
  }

  /** It comes to a run in which the second server is asked, each server gets MRC+1 REQUESTs in all, and
      the IA is then under discovery again. */
  lemma AskedAndDiscovered() returns (c: Client, turns: seq<Turn>)
    ensures Owned(c) && Limited(c.trans) && c.ads == [Advert(7, SECOND)]
    ensures |c.trans| == 1 && LiveRequest(c.trans[0]) && c.trans[0].timer.rc == 1 && c.trans[0].server == Some(FIRST)
    ensures Silent(turns) && NoRequests(RunOf(c, turns).trans)
    ensures AskedOver(c, turns) == [SECOND] && SentOver(c, turns) == 2 * TRIES - 1
    ensures Solicits(RunOf(c, turns).trans, 1) && Holders(RunOf(c, turns).trans, 1) == 1
  {
    c := Asking();
    AskingIsOwned();
    turns := SilenceCanEnd(c, [], 0);
    assert c.trans[0] in c.trans;
    SilenceAsksAll(c, turns);
    AskingCounts();
    RequestedIsDiscovered(c, turns, 0, 1);
  }

  lemma AskingIsTimed()
    ensures Timed(Asking(), 0) && AllWait(Asking().trans, 0) && Effort(Asking()) == 43
  {
    var c := Asking();
    AskingIsOwned();
    assert c.trans == [] + [c.trans[0]];
    TotalSnoc([], c.trans[0], (t: Trans) => Weight(t));
  }

  /** With a pass every second that takes at most 1420 seconds. */
  lemma AskedInTime() returns (turns: seq<Turn>)
    ensures turns == EverySecond(0, 1420) && Punctual(Asking(), turns) && NoRequests(RunOf(Asking(), turns).trans)
    ensures AskedOver(Asking(), turns) == [SECOND] && Solicits(RunOf(Asking(), turns).trans, 1)
  {
    var c := Asking();
    turns := EverySecond(0, 1420);
    AskingIsOwned();
    AskingIsTimed();
    AskingCounts();
    EverySecondIsPunctual(c, 0, 1420);
    assert c.trans[0] in c.trans;
    RequestsEndInTime(c, turns, 0);
    DiscoveredInTime(c, turns, 0, 0, 1);
  }

  // ---- an IA at its T1 -------------------------------------------------------------------------------------------

  lemma RenewalHolds(c: Client, i: Iaid, clk: Clock)
    requires c.trans == [] && i in c.db
    ensures var r := StartRenew(c, [i], clk);
            |r.trans| == 1 && r.trans[0].kind == Renew && !r.trans[0].done && r.trans[0].ias == [i] && Holders(r.trans, i) == 1
  {
    OneHolder(StartRenew(c, [i], clk).trans, i);
  }

  lemma OneHolder(trans: seq<Trans>, i: Iaid)
    requires |trans| == 1 && !trans[0].done && trans[0].ias == [i]
    ensures Holders(trans, i) == 1
  {
    assert trans == [] + [trans[0]];
    HoldersSnoc([], trans[0], i);
    OccursOnce(i);
  }

  lemma RenewalRuns(c: Client, i: Iaid, clk: Clock)
    requires c.trans == [] && i in c.db
    ensures var r := StartRenew(c, [i], clk);
            Limited(r.trans) && Primed(r.trans) && r.db[i].leases == c.db[i].leases
  {
    FirstTransmit(T2Left(c.db[i], clk.now), clk);
  }

  lemma RenewalOwned(c: Client, f: CfgIface, i: Iaid, ia: IA, clk: Clock) returns (r: Client)
    requires Lone(c, f, i, ia) && NeedsRenew(ia, clk.now, {}) && !HasDead(ia, clk.now)
    ensures Listed(c) && r == Round(c, {}, clk) && r == StartRenew(c, [i], clk) && Owned(r)
  {
    LoneIsOwned(c, f, i, ia);
    RoundKeeps(c, {}, clk);
    RenewalOfLone(c, f, i, ia, clk);
    r := Round(c, {}, clk);
  }

  lemma OccursOnce(i: Iaid)
    ensures Occurs([i], i) == 1
  {
    assert [i][..0] == [];
  }

  /** It is renewed, and if nobody answers, there is a run at whose end it has no address and a SOLICIT
      asks for one. */
  lemma LoneRunsOut(c: Client, f: CfgIface, i: Iaid, ia: IA, clk: Clock) returns (turns: seq<Turn>)
    requires Lone(c, f, i, ia) && NeedsRenew(ia, clk.now, {}) && !HasDead(ia, clk.now)
    ensures Listed(c) && Silent(turns) && ForwardFrom(turns, clk.now)
    ensures var r := Round(c, {}, clk);
            r.trans != [] && Refreshes(r.trans[0]) && r.trans[0].kind == Renew && r.trans[0].ias == [i] &&
            var end := RunOf(r, turns);
            Over(end) && i in end.db && end.db[i].leases == [] && Solicits(end.trans, i) && Holders(end.trans, i) == 1
  {
    var r := RenewalOwned(c, f, i, ia, clk);
    RenewalHolds(c, i, clk);
    RenewalRuns(c, i, clk);
    turns := SilenceCanEnd(r, [], clk.now);
    var end := RefreshedIsReleased(r, turns, 0, i);
    RefreshedIsDiscovered(r, turns, 0, i);
  }

  // ---- and what happens to it when ---------------------------------------------------------------------------------

  /** The RENEW that the pass starts. */
  lemma LoneRenewalStands(c: Client, f: CfgIface, i: Iaid, ia: IA, clk: Clock)
    requires Lone(c, f, i, ia) && NeedsRenew(ia, clk.now, {}) && !HasDead(ia, clk.now)
    requires clk.now < ia.stamp + ia.t2 <= ULONG_MAX
    ensures Listed(c)
    ensures var r := Round(c, {}, clk);
            Owned(r) && AllWait(r.trans, clk.now) && Stands(r, Renew, [i], ia.stamp + ia.t2)
  {
    var r := RenewalOwned(c, f, i, ia, clk);
    PassLeavesNoneDue(c, {}, clk);
    StartedRenewal(c, [i], clk);
  }

  /** When its REBIND is over. */
  function OverAt(r: Client, ias: seq<Iaid>, since: nat, end: nat): nat
    requires Listed(r) && since < end
  {
    RebindEnd(LongestLeft(RunOf(r, EverySecond(since, end - since - 1)).db, ias, end), Clock(end, 0.0, 0.0))
  }

  lemma SameOver(r: Client, turns: seq<Turn>, ias: seq<Iaid>, since: nat, end: nat, n: nat)
    requires Listed(r) && since < end && turns == EverySecond(since, |turns|) && n < |turns| && turns[n].clk.now == end
    ensures OverAt(r, ias, since, end) == RebindEnd(LongestLeft(RunOf(r, turns[..n]).db, ias, end), turns[n].clk)
  {
    assert n == end - since - 1;
    FirstSeconds(since, |turns|, n);
  }

  lemma RebindTakesTime(limit: nat, clk: Clock)
    ensures RebindEnd(limit, clk) > clk.now
  {
    FirstWait(limit, clk);
  }

  lemma OverAfterEnd(r: Client, ias: seq<Iaid>, since: nat, end: nat)
    requires Listed(r) && since < end
    ensures OverAt(r, ias, since, end) > end
  {
    RebindTakesTime(LongestLeft(RunOf(r, EverySecond(since, end - since - 1)).db, ias, end), Clock(end, 0.0, 0.0));
  }

  lemma LastIsNotBefore(since: nat, count: nat, n: nat, m: nat, over: nat)
    requires n < m <= count && since + count == over && EverySecond(since, count)[n].clk.now < over
    requires AllBefore(EverySecond(since, count), n + 1, m, over)
    ensures m < count
  {
    var last := EverySecond(since, count)[count - 1];
    assert last.clk.now == over;
  }

  /** A RENEW under way, and a pass every second for some time. */
  lemma RenewalForSeconds(r: Client, ias: seq<Iaid>, since: nat, end: nat, count: nat) returns (n: nat, m: nat, over: nat)
    requires Owned(r) && AllWait(r.trans, since) && Stands(r, Renew, ias, end) && since < end <= since + count
    ensures over == OverAt(r, ias, since, end) && n < m <= count
    ensures var turns := EverySecond(since, count);
            Silent(turns) && Punctual(r, turns) && turns[n].clk.now == end && AllBefore(turns, n + 1, m, over) &&
            Stands(RunOf(r, turns[..n]), Renew, ias, end) && Stands(RunOf(r, turns[..m]), Rebind, ias, over) &&
            (m < |turns| ==> turns[m].clk.now == over && AllRediscovered(RunOf(r, turns[..m + 1]), ias))
  {
    var turns := EverySecond(since, count);
    EverySecondIsPunctual(r, since, count);
    n, m := UnansweredRenewal(r, turns, ias, end);
    SameOver(r, turns, ias, since, end, n);
    over := OverAt(r, ias, since, end);
  }

  /** A RENEW and its REBIND, to the end. */
  predicate RunsOut(r: Client, turns: seq<Turn>, ias: seq<Iaid>, end: nat, n: nat, m: nat)
    requires Listed(r)
  {
    Silent(turns) && Punctual(r, turns) && n < m < |turns| && turns[n].clk.now == end &&
    Stands(RunOf(r, turns[..n]), Renew, ias, end) && Stands(RunOf(r, turns[..m]), Rebind, ias, turns[m].clk.now) &&
    AllRediscovered(RunOf(r, turns[..m + 1]), ias)
  }

  lemma RenewalToTheEnd(r: Client, ias: seq<Iaid>, since: nat, end: nat, count: nat) returns (n: nat, m: nat)
    requires Owned(r) && AllWait(r.trans, since) && Stands(r, Renew, ias, end) && since < end
    requires end < OverAt(r, ias, since, end) == since + count
    ensures RunsOut(r, EverySecond(since, count), ias, end, n, m)
  {
    var over;
    n, m, over := RenewalForSeconds(r, ias, since, end, count);
    LastIsNotBefore(since, count, n, m, over);
  }

  /** And for long enough. */
  lemma RenewalEverySecond(r: Client, ias: seq<Iaid>, since: nat, end: nat) returns (turns: seq<Turn>, n: nat, m: nat)
    requires Owned(r) && AllWait(r.trans, since) && Stands(r, Renew, ias, end) && since < end
    ensures RunsOut(r, turns, ias, end, n, m)
  {
    OverAfterEnd(r, ias, since, end);
    var count := OverAt(r, ias, since, end) - since;
    turns := EverySecond(since, count);
    n, m := RenewalToTheEnd(r, ias, since, end, count);
  }

  /** With a pass every second, the RENEW becomes a REBIND exactly at T2, the REBIND lasts exactly as long as it
      is meant to, and the IA is then under discovery. */
  lemma LoneOnTime(c: Client, f: CfgIface, i: Iaid, ia: IA, clk: Clock) returns (turns: seq<Turn>, n: nat, m: nat)
    requires Lone(c, f, i, ia) && NeedsRenew(ia, clk.now, {}) && !HasDead(ia, clk.now)
    requires clk.now < ia.stamp + ia.t2 <= ULONG_MAX
    ensures Listed(c) && RunsOut(Round(c, {}, clk), turns, [i], ia.stamp + ia.t2, n, m)
  {
    LoneRenewalStands(c, f, i, ia, clk);
    turns, n, m := RenewalEverySecond(Round(c, {}, clk), [i], clk.now, ia.stamp + ia.t2);
  }

  /** Such a client, with two addresses to lose. */
  lemma OneRunsOut() returns (c: Client, turns: seq<Turn>)
    ensures Owned(c) && Silent(turns) && |c.trans| == 1 && c.trans[0].kind == Renew && !c.trans[0].done && c.trans[0].ias == [1]
    ensures 1 in c.db && |c.db[1].leases| == 2
    ensures var end := RunOf(c, turns);
            Over(end) && 1 in end.db && end.db[1].leases == [] && Solicits(end.trans, 1)
  {
    var clk := Clock(1000, 0.0, 0.0);
    var ia := SHORT_AND_LONG.(leases := [Lease(1, 3000, 4000, 0), Lease(2, 3000, 9000, 0)]);
    OwnerIsLone(ia);
    c := RenewalOwned(Owner(ia), LINK, 1, ia, clk);
    RenewalHolds(Owner(ia), 1, clk);
    RenewalRuns(Owner(ia), 1, clk);
    turns := LoneRunsOut(Owner(ia), LINK, 1, ia, clk);
  }
}
