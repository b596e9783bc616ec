/**
  Runs in which nothing is received: RENEWs and REBINDs come to an end, and then the IAs they held
  have no addresses and are asked for anew.
 */
module SilentRefresh {
  import opened DHCPConst
  import opened Containers
  import opened Leases
  import opened Advertises
  import opened Retransmission
  import opened Protocol
  import opened Ownership
  import opened Runs
  import opened TransMgr
  import opened Orphans
  import opened Failover
  import opened SilentRuns

  predicate Refreshes(t: Trans) {
    !t.done && (t.kind == Renew || t.kind == Rebind)
  }

  /** The timers of these messages run. */
  predicate Primed(trans: seq<Trans>) {
    forall t :: t in trans && Refreshes(t) ==> Running(t.timer)
  }

  // ---- durations are bounded by what the database says -----------------------------------------------------------

  /** No instant that the IA knows of is later than `bound`. */
  predicate EndsBy(ia: IA, bound: nat) {
    ia.stamp + ia.t2 <= bound && forall l :: l in ia.leases ==> l.stamp + l.valid <= bound
  }

  predicate Bounded(db: map<Iaid, IA>, bound: nat) {
    INFINITY <= bound && forall i :: i in db ==> EndsBy(db[i], bound)
  }

  lemma RebindIsBounded(c: Client, k: nat, now: nat, bound: nat)
    requires k < |c.trans| && Bounded(c.db, bound)
    ensures RebindLimit(c, k, now) <= bound
  {
    forall i | i in c.db
      ensures IAMaxValidLeft(c.db[i], now) <= bound
    {
      assert EndsBy(c.db[i], bound);
    }
  }

  lemma RenewIsBounded(ia: IA, now: nat, bound: nat)
    requires EndsBy(ia, bound) && INFINITY <= bound
    ensures T2Left(ia, now) <= bound
  {
  }

  /** Every IA has at most the leases of before, and the same T2. */
  predicate Shrinks(before: map<Iaid, IA>, after: map<Iaid, IA>) {
    forall i :: i in after ==>
      i in before && after[i].stamp == before[i].stamp && after[i].t2 == before[i].t2 &&
      (forall l :: l in after[i].leases ==> l in before[i].leases) &&
      (after[i].state == Configured ==> before[i].state == Configured)
  }

  lemma ShrinksTransitive(a: map<Iaid, IA>, b: map<Iaid, IA>, c: map<Iaid, IA>)
    requires Shrinks(a, b) && Shrinks(b, c)
    ensures Shrinks(a, c)
  {
  }

  lemma ShrinksKeepsBound(before: map<Iaid, IA>, after: map<Iaid, IA>, bound: nat)
    requires Shrinks(before, after) && Bounded(before, bound)
    ensures Bounded(after, bound)
  {
    forall i | i in after
      ensures EndsBy(after[i], bound)
    {
      assert EndsBy(before[i], bound);
    }
  }

  lemma {:induction false} ReleaseShrinks(c: Client, ias: seq<Iaid>)
    ensures Shrinks(c.db, ReleaseAll(c, ias).db)
  {
    if ias != [] {
      var b := ReleaseAll(c, ias[..|ias| - 1]);
      ReleaseShrinks(c, ias[..|ias| - 1]);
      ShrinksTransitive(c.db, b.db, ReleaseIA(b, ias[|ias| - 1]).db);
    }
  }

  // ---- what is left to do ----------------------------------------------------------------------------------------

  /** What a message may still cost: one for each second, and one for ending; a RENEW, its REBIND, too. */
  function Cost(t: Trans, bound: nat): int {
    if !Refreshes(t) then 0 else if t.kind == Renew then t.timer.mrd + bound + 2 else t.timer.mrd + 1
  }

  /** Each IA that may be renewed may cost a RENEW. */
  function Renewals(db: map<Iaid, IA>, list: seq<Iaid>, each: nat): nat
    requires forall i :: i in list ==> i in db
  {
    if list == [] then 0
    else Renewals(db, list[..|list| - 1], each) + if db[list[|list| - 1]].state == Configured then each else 0
  }

  function RefreshEffort(c: Client, bound: nat): int
    requires Listed(c)
  {
    Total(c.trans, (t: Trans) => Cost(t, bound)) + Renewals(c.db, c.iaList, 2 * bound + 2)
  }

  lemma {:induction false} RenewalsShrink(before: map<Iaid, IA>, after: map<Iaid, IA>, list: seq<Iaid>, each: nat)
    requires Shrinks(before, after) && forall i :: i in list ==> i in after
    ensures Renewals(after, list, each) <= Renewals(before, list, each)
  {
    if list != [] {
      RenewalsShrink(before, after, list[..|list| - 1], each);
    }
  }

  /** An IA that is not CONFIGURED any more is not renewed. */
  lemma {:induction false} RenewalsLose(before: map<Iaid, IA>, after: map<Iaid, IA>, list: seq<Iaid>, each: nat, i: Iaid)
    requires Shrinks(before, after) && (forall j :: j in list ==> j in after) && i in list
    requires before[i].state == Configured && after[i].state != Configured
    ensures Renewals(after, list, each) + each <= Renewals(before, list, each)
  {
    var front := list[..|list| - 1];
    if list[|list| - 1] == i {
      RenewalsShrink(before, after, front, each);
    } else {
      RenewalsLose(before, after, front, each, i);
    }
  }

  // ---- one timeout -----------------------------------------------------------------------------------------------

  /** A transmission takes at least a second of what is left. */
  lemma TransmitTakes(t: Timer, clk: Clock)
    requires Running(t)
    ensures var r := Transmit(t, clk);
            Running(r) && r.mrd <= t.mrd && (t.mrd > 0 ==> r.mrd < t.mrd)
  {
    TransmitKeepsRunning(t, clk);
  }

  lemma FirstTransmit(limit: nat, clk: Clock)
    ensures var r := Transmit(NewTimer(10, 600, 0, limit, clk), clk);
            Running(r) && r.mrd <= limit
  {
    TransmitTakes(NewTimer(10, 600, 0, limit, clk), clk);
  }

  lemma RetransmitTakes(c: Client, k: nat, clk: Clock, bound: nat)
    requires Listed(c) && k < |c.trans| && Primed(c.trans) && (Refreshes(c.trans[k]) ==> c.trans[k].timer.mrd > 0)
    ensures RefreshEffort(Retransmit(c, k, clk), bound) <= RefreshEffort(c, bound) - if Refreshes(c.trans[k]) then 1 else 0
  {
    var r := Retransmit(c, k, clk);
    assert c.trans[k] in c.trans;
    TotalUpdate(c.trans, k, r.trans[k], (t: Trans) => Cost(t, bound));
    if Refreshes(c.trans[k]) {
      TransmitTakes(c.trans[k].timer, clk);
    }
  }

  lemma FinishTakes(c: Client, k: nat, bound: nat)
    requires Listed(c) && k < |c.trans|
    ensures RefreshEffort(Finish(c, k), bound) == RefreshEffort(c, bound) - Cost(c.trans[k], bound)
  {
    TotalUpdate(c.trans, k, c.trans[k].(done := true), (t: Trans) => Cost(t, bound));
  }

  lemma AppendTakes(c: Client, r: Client, x: Trans, bound: nat)
    requires Listed(c) && SameShape(c, r) && r.db == c.db && r.trans == c.trans + [x]
    ensures RefreshEffort(r, bound) == RefreshEffort(c, bound) + Cost(x, bound)
  {
    TotalSnoc(c.trans, x, (t: Trans) => Cost(t, bound));
  }

  lemma HandOverTakes(c: Client, k: nat, clk: Clock, bound: nat)
    requires Listed(c) && k < |c.trans| && !Refreshes(c.trans[k])
    ensures RefreshEffort(HandOver(c, k, clk), bound) == RefreshEffort(c, bound)
  {
    var s := SendRequest(c, c.trans[k].ias, c.trans[k].iface, clk);
    AppendTakes(c, s, s.trans[|c.trans|], bound);
    assert s.trans[k] == c.trans[k];
    FinishTakes(s, k, bound);
  }

  lemma RebindTakes(c: Client, k: nat, clk: Clock, bound: nat)
    requires Listed(c) && k < |c.trans| && Refreshes(c.trans[k]) && c.trans[k].kind == Renew && Bounded(c.db, bound)
    ensures RefreshEffort(Finish(SendRebind(c, c.trans[k].ias, c.trans[k].iface, clk), k), bound) < RefreshEffort(c, bound)
  {
    var s := SendRebind(c, c.trans[k].ias, c.trans[k].iface, clk);
    RebindIsBounded(c, k, clk.now, bound);
    FirstTransmit(RebindLimit(c, k, clk.now), clk);
    AppendTakes(c, s, s.trans[|c.trans|], bound);
    assert s.trans[k] == c.trans[k];
    FinishTakes(s, k, bound);
  }

  lemma ReleaseTakes(c: Client, k: nat, bound: nat)
    requires Listed(c) && k < |c.trans| && Refreshes(c.trans[k]) && c.trans[k].kind == Rebind
    ensures RefreshEffort(Finish(ReleaseAll(c, c.trans[k].ias), k), bound) < RefreshEffort(c, bound)
  {
    var r := ReleaseAll(c, c.trans[k].ias);
    ReleaseShrinks(c, c.trans[k].ias);
    RenewalsShrink(c.db, r.db, c.iaList, 2 * bound + 2);
    FinishTakes(r, k, bound);
  }

  /** `doDuties` of a message adds nothing, and that of a RENEW or REBIND takes some. */
  lemma DutiesTake(c: Client, k: nat, clk: Clock, bound: nat)
    requires Listed(c) && k < |c.trans| && !c.trans[k].done && Primed(c.trans) && Bounded(c.db, bound)
    ensures RefreshEffort(Duties(c, k, clk), bound) <= RefreshEffort(c, bound) - if Refreshes(c.trans[k]) then 1 else 0
  {
    var t := c.trans[k];
    if (t.kind == Solicit && c.ads != []) || (t.kind == Request && t.timer.rc > t.timer.mrc) {
      HandOverTakes(c, k, clk, bound);
    } else if t.kind == Renew && t.timer.mrd == 0 {
      RebindTakes(c, k, clk, bound);
    } else if t.kind == Rebind && t.timer.mrd == 0 {
      ReleaseTakes(c, k, bound);
    } else {
      RetransmitTakes(c, k, clk, bound);
    }
  }

  lemma SameDb(c: Client, k: nat, clk: Clock)
    requires k < |c.trans| && !(c.trans[k].kind == Rebind && c.trans[k].timer.mrd == 0)
    ensures Duties(c, k, clk).db == c.db
  {
  }

  lemma DutiesShrink(c: Client, k: nat, clk: Clock)
    requires k < |c.trans|
    ensures Shrinks(c.db, Duties(c, k, clk).db)
  {
    if c.trans[k].kind == Rebind && c.trans[k].timer.mrd == 0 {
      ReleaseShrinks(c, c.trans[k].ias);
    } else {
      SameDb(c, k, clk);
    }
  }

  // ---- timers run -----------------------------------------------------------------------------------------------

  lemma PrimedUpdate(trans: seq<Trans>, k: nat, t: Trans)
    requires k < |trans| && Primed(trans) && (Refreshes(t) ==> Running(t.timer))
    ensures Primed(trans[k := t])
  {
    forall x | x in trans[k := t] && x != t
      ensures x in trans
    {
    }
  }

  lemma PrimedAppend(trans: seq<Trans>, t: Trans)
    requires Primed(trans) && (Refreshes(t) ==> Running(t.timer))
    ensures Primed(trans + [t])
  {
  }

  lemma SendRebindPrimed(c: Client, ias: seq<Iaid>, iface: IfaceId, clk: Clock)
    requires Primed(c.trans)
    ensures Primed(SendRebind(c, ias, iface, clk).trans)
  {
    FirstTransmit(LongestLeft(c.db, ias, clk.now), clk);
    PrimedAppend(c.trans, SendRebind(c, ias, iface, clk).trans[|c.trans|]);
  }

  lemma FinishPrimed(c: Client, k: nat)
    requires k < |c.trans| && Primed(c.trans)
    ensures Primed(Finish(c, k).trans)
  {
    PrimedUpdate(c.trans, k, c.trans[k].(done := true));
  }

  lemma RetransmitPrimed(c: Client, k: nat, clk: Clock)
    requires k < |c.trans| && Primed(c.trans)
    ensures Primed(Retransmit(c, k, clk).trans)
  {
    assert c.trans[k] in c.trans;
    if Refreshes(c.trans[k]) {
      TransmitTakes(c.trans[k].timer, clk);
    }
    PrimedUpdate(c.trans, k, Retransmit(c, k, clk).trans[k]);
  }

  lemma SendRequestPrimed(c: Client, ias: seq<Iaid>, iface: IfaceId, clk: Clock)
    requires Primed(c.trans)
    ensures Primed(SendRequest(c, ias, iface, clk).trans)
  {
    PrimedAppend(c.trans, SendRequest(c, ias, iface, clk).trans[|c.trans|]);
  }

  lemma DutiesPrimed(c: Client, k: nat, clk: Clock)
    requires k < |c.trans| && Primed(c.trans)
    ensures Primed(Duties(c, k, clk).trans)
  {
    var t := c.trans[k];
    if (t.kind == Solicit && c.ads != []) || (t.kind == Request && t.timer.rc > t.timer.mrc) {
      SendRequestPrimed(c, t.ias, t.iface, clk);
      FinishPrimed(SendRequest(c, t.ias, t.iface, clk), k);
    } else if t.kind == Renew && t.timer.mrd == 0 {
      SendRebindPrimed(c, t.ias, t.iface, clk);
      FinishPrimed(SendRebind(c, t.ias, t.iface, clk), k);
    } else if t.kind == Rebind && t.timer.mrd == 0 {
      FinishPrimed(ReleaseAll(c, t.ias), k);
    } else {
      RetransmitPrimed(c, k, clk);
    }
  }

  // ---- one pass ---------------------------------------------------------------------------------------------------

  predicate DueRefresh(trans: seq<Trans>, k: nat, n: nat, now: nat) {
    exists j :: k <= j < n && j < |trans| && Refreshes(trans[j]) && Due(trans[j], now)
  }

  lemma StillDueRefresh(trans: seq<Trans>, after: seq<Trans>, k: nat, n: nat, now: nat)
    requires k < n <= |trans| <= |after| && forall j :: k < j < n ==> after[j] == trans[j]
    ensures DueRefresh(trans, k, n, now) ==> Refreshes(trans[k]) || DueRefresh(after, k + 1, n, now)
  {
    if DueRefresh(trans, k, n, now) {
      var j :| k <= j < n && Refreshes(trans[j]) && Due(trans[j], now);
      assert j > k ==> after[j] == trans[j];
    }
  }

  /** The state that the steps of a pass keep. */
  predicate Winding(c: Client, bound: nat) {
    Listed(c) && Primed(c.trans) && Bounded(c.db, bound)
  }

  lemma DueStepTakes(c: Client, k: nat, n: nat, clk: Clock, bound: nat)
    requires k < n <= |c.trans| && Winding(c, bound) && Due(c.trans[k], clk.now)
    ensures var r := Duties(c, k, clk);
            Winding(r, bound) && RefreshEffort(r, bound) <= RefreshEffort(c, bound) -
              if DueRefresh(c.trans, k, n, clk.now) && !DueRefresh(r.trans, k + 1, n, clk.now) then 1 else 0
  {
    var r := Duties(c, k, clk);
    DutiesTake(c, k, clk, bound);
    DutiesPrimed(c, k, clk);
    DutiesShrink(c, k, clk);
    ShrinksKeepsBound(c.db, r.db, bound);
    OthersLeftAlone(c, k, clk);
    StillDueRefresh(c.trans, r.trans, k, n, clk.now);
  }

  lemma {:induction false} DutiesFromTake(c: Client, k: nat, n: nat, clk: Clock, bound: nat) returns (end: Client)
    requires k <= n <= |c.trans| && Winding(c, bound)
    ensures end == DutiesFrom(c, k, n, clk) && Winding(end, bound)
    ensures RefreshEffort(end, bound) <= RefreshEffort(c, bound) - if DueRefresh(c.trans, k, n, clk.now) then 1 else 0
    decreases n - k
  {
    if k == n {
      end := c;
    } else if Due(c.trans[k], clk.now) {
      DueStepTakes(c, k, n, clk, bound);
      end := DutiesFromTake(Duties(c, k, clk), k + 1, n, clk, bound);
    } else {
      end := DutiesFromTake(c, k + 1, n, clk, bound);
    }
  }

  /** Steps that start nothing and renew nothing. */
  lemma Quieter(c: Client, r: Client, bound: nat)
    requires Winding(c, bound) && SameShape(c, r) && Shrinks(c.db, r.db) && r.trans == c.trans
    ensures Winding(r, bound) && RefreshEffort(r, bound) <= RefreshEffort(c, bound)
  {
    ShrinksKeepsBound(c.db, r.db, bound);
    RenewalsShrink(c.db, r.db, c.iaList, 2 * bound + 2);
  }

  lemma PurgeTakesNothing(c: Client, bound: nat)
    requires Winding(c, bound)
    ensures Winding(Purge(c), bound) && RefreshEffort(Purge(c), bound) == RefreshEffort(c, bound)
  {
    TotalPurge(c.trans, (t: Trans) => Cost(t, bound));
  }

  lemma SettleTakes(c: Client, clk: Clock, bound: nat)
    requires Winding(c, bound)
    ensures var r := Settle(c, clk);
            Winding(r, bound) &&
            RefreshEffort(r, bound) <= RefreshEffort(c, bound) - if DueRefresh(c.trans, 0, |c.trans|, clk.now) then 1 else 0
  {
    var d := DutiesFromTake(c, 0, |c.trans|, clk, bound);
    PurgeTakesNothing(d, bound);
    Quieter(Purge(d), ExpireDb(RemoveExpired(Purge(d), clk.now), clk.now), bound);
  }

  lemma SolicitTakesNothing(c: Client, f: CfgIface, clk: Clock, bound: nat)
    requires Winding(c, bound)
    ensures var r := SolicitOn(c, f, clk);
            Winding(r, bound) && RefreshEffort(r, bound) <= RefreshEffort(c, bound)
  {
    var ias := NotConfiguredIAs(c, f);
    if !f.noConfig && ias != [] {
      var b := c.(cfg := MarkCfg(c.cfg, ias, InProcess), db := MarkDb(c.db, ias, InProcess));
      var r := StartSolicit(c, f, ias, clk);
      Quieter(c, b, bound);
      AppendTakes(b, r, r.trans[|c.trans|], bound);
      PrimedAppend(c.trans, r.trans[|c.trans|]);
    }
  }

  lemma {:induction false} CheckSolicitTakesNothing(c: Client, ifaces: seq<CfgIface>, clk: Clock, bound: nat) returns (end: Client)
    requires Winding(c, bound)
    ensures end == CheckSolicit(c, ifaces, clk) && Winding(end, bound) && RefreshEffort(end, bound) <= RefreshEffort(c, bound)
  {
    if ifaces == [] {
      end := c;
    } else {
      var front := CheckSolicitTakesNothing(c, ifaces[..|ifaces| - 1], clk, bound);
      SolicitTakesNothing(front, ifaces[|ifaces| - 1], clk, bound);
      end := SolicitOn(front, ifaces[|ifaces| - 1], clk);
    }
  }

  /** A RENEW costs no more than the renewal of one of its IAs was reckoned at. */
  lemma StartRenewTakesNothing(c: Client, ias: seq<Iaid>, clk: Clock, bound: nat)
    requires Winding(c, bound) && ias != [] && ias[0] in c.iaList && c.db[ias[0]].state == Configured
    ensures var r := StartRenew(c, ias, clk);
            Winding(r, bound) && RefreshEffort(r, bound) <= RefreshEffort(c, bound)
  {
    var b := c.(db := MarkDb(c.db, ias, InProcess));
    var r := StartRenew(c, ias, clk);
    ShrinksKeepsBound(c.db, b.db, bound);
    RenewalsLose(c.db, b.db, c.iaList, 2 * bound + 2, ias[0]);
    assert EndsBy(c.db[ias[0]], bound);
    RenewIsBounded(c.db[ias[0]], clk.now, bound);
    FirstTransmit(T2Left(c.db[ias[0]], clk.now), clk);
    AppendTakes(b, r, r.trans[|c.trans|], bound);
    PrimedAppend(c.trans, r.trans[|c.trans|]);
  }

  lemma CheckRenewTakesNothing(c: Client, pending: set<Iaid>, clk: Clock, bound: nat)
    requires Winding(c, bound)
    ensures var r := CheckRenew(c, pending, clk);
            Winding(r, bound) && RefreshEffort(r, bound) <= RefreshEffort(c, bound)
  {
    var ias := Pick(c.db, c.iaList, clk.now, pending);
    if ias != [] {
      PickedWereConfigured(c.db, c.iaList, clk.now, pending, ias[0]);
      StartRenewTakesNothing(c, ias, clk, bound);
    }
  }

  /** A pass with a due RENEW or REBIND takes something of what is left to do, and no pass adds to it. */
  lemma RoundTakes(c: Client, pending: set<Iaid>, clk: Clock, bound: nat)
    requires Winding(c, bound)
    ensures var r := Round(c, pending, clk);
            Winding(r, bound) &&
            RefreshEffort(r, bound) <= RefreshEffort(c, bound) - if DueRefresh(c.trans, 0, |c.trans|, clk.now) then 1 else 0
  {
    var e := Settle(c, clk);
    SettleTakes(c, clk, bound);
    var s := CheckSolicitTakesNothing(e, e.ifaces, clk, bound);
    CheckRenewTakesNothing(s, pending, clk, bound);
  }

  // ---- what the results below need of a client is there ----------------------------------------------------------------

  lemma EndsLater(ia: IA, bound: nat, later: nat)
    requires EndsBy(ia, bound) && bound <= later
    ensures EndsBy(ia, later)
  {
  }

  lemma OwnBound(ia: IA) returns (bound: nat)
    ensures EndsBy(ia, bound)
  {
    bound := Max(ia.stamp + ia.t2, MaxOver(ia.leases, (l: Lease) => l.stamp + l.valid));
  }

  /** There is a bound for every database. */
  lemma {:induction false} SomeBound(db: map<Iaid, IA>, list: seq<Iaid>) returns (bound: nat)
    requires forall i :: i in list ==> i in db
    ensures INFINITY <= bound && forall i :: i in list ==> EndsBy(db[i], bound)
  {
    if list == [] {
      bound := INFINITY;
    } else {
      var front := SomeBound(db, list[..|list| - 1]);
      var own := OwnBound(db[list[|list| - 1]]);
      bound := Max(front, own);
      forall i | i in list
        ensures EndsBy(db[i], bound)
      {
        EndsLater(db[i], if i in list[..|list| - 1] then front else own, bound);
      }
    }
  }

  lemma ReplyPrimed(c: Client, k: nat, msg: Msg, clk: Clock)
    requires k < |c.trans| && Primed(c.trans)
    ensures Primed(AnswerReply(c, k, msg, clk).trans)
  {
    var t := c.trans[k];
    var left := Leftover(t.ias, msg.ias);
    var g := SetIAs(MergeAll(c, msg.ias, t.iface, Some(msg.server), clk.now), k, left);
    assert t in c.trans;
    PrimedUpdate(c.trans, k, t.(ias := left));
    FinishPrimed(g, k);
    SendRequestPrimed(g, left, t.iface, clk);
    FinishPrimed(SendRequest(g, left, t.iface, clk), k);
  }

  lemma RenewReplyPrimed(c: Client, k: nat, msg: Msg, clk: Clock)
    requires k < |c.trans| && Primed(c.trans)
    ensures Primed(AnswerRenew(c, k, msg, clk).trans)
  {
    var t := c.trans[k];
    var g := MergeAll(c, BeforeNoBinding(msg.ias), t.iface, t.server, clk.now);
    FinishPrimed(g, k);
    SendRequestPrimed(g, t.ias, t.iface, clk);
    FinishPrimed(SendRequest(g, t.ias, t.iface, clk), k);
  }

  lemma AdvertisePrimed(c: Client, k: nat, msg: Msg, clk: Clock)
    requires k < |c.trans| && Primed(c.trans)
    ensures Primed(AnswerAdvertise(c, k, msg, clk).trans)
  {
    var noted := c.(ads := c.ads + [Advert(msg.pref, msg.server)]);
    SendRequestPrimed(noted, c.trans[k].ias, c.trans[k].iface, clk);
    FinishPrimed(SendRequest(noted, c.trans[k].ias, c.trans[k].iface, clk), k);
  }

  lemma DeliverPrimed(c: Client, msg: Msg, clk: Clock)
    requires Primed(c.trans)
    ensures Primed(Deliver(c, msg, clk).trans)
  {
    var k := FindXid(c.trans, msg.xid);
    if k >= 0 {
      match c.trans[k].kind
      case Solicit =>
        AdvertisePrimed(c, k, Parsed(msg), clk);
        ReplyPrimed(c, k, Parsed(msg), clk);
      case Request => ReplyPrimed(c, k, Parsed(msg), clk);
      case Renew => RenewReplyPrimed(c, k, Parsed(msg), clk);
      case Rebind => ReplyPrimed(c, k, Parsed(msg), clk);
    }
  }

  lemma RoundPrimed(c: Client, pending: set<Iaid>, clk: Clock)
    requires Listed(c) && Primed(c.trans) && forall i :: i in c.db ==> i in c.iaList
    ensures Primed(Round(c, pending, clk).trans)
  {
    var bound := SomeBound(c.db, c.iaList);
    RoundTakes(c, pending, clk, bound);
  }

  /** The timers of RENEWs and REBINDs run throughout every run, whatever is received. */
  lemma {:induction false} RunPrimed(c: Client, turns: seq<Turn>)
    requires Listed(c) && Primed(c.trans) && forall i :: i in c.db ==> i in c.iaList
    ensures Primed(RunOf(c, turns).trans)
  {
    if turns != [] {
      var front, turn := turns[..|turns| - 1], turns[|turns| - 1];
      RunPrimed(c, front);
      RoundPrimed(RunOf(c, front), turn.pending, turn.clk);
      if turn.msg.Some? {
        DeliverPrimed(BeforeMessage(c, turns), turn.msg.value, turn.arrival);
      }
    }
  }

  // ---- whole runs ---------------------------------------------------------------------------------------------------

  /** The passes of a run in which a RENEW or REBIND is due. */
  function RefreshPasses(c: Client, turns: seq<Turn>): nat
    requires Listed(c)
  {
    if turns == [] then 0
    else
      var front, turn := RunOf(c, turns[..|turns| - 1]), turns[|turns| - 1];
      RefreshPasses(c, turns[..|turns| - 1]) + if DueRefresh(front.trans, 0, |front.trans|, turn.clk.now) then 1 else 0
  }

  /** While nothing is received, every such pass uses up something of the effort. */
  lemma {:induction false} SilenceTakes(c: Client, turns: seq<Turn>, bound: nat) returns (end: Client)
    requires Winding(c, bound) && Silent(turns)
    ensures end == RunOf(c, turns) && Winding(end, bound)
    ensures RefreshEffort(end, bound) + RefreshPasses(c, turns) <= RefreshEffort(c, bound)
  {
    if turns == [] {
      end := c;
    } else {
      SilentTurn(c, turns);
      var turn := turns[|turns| - 1];
      var front := SilenceTakes(c, turns[..|turns| - 1], bound);
      RoundTakes(front, turn.pending, turn.clk, bound);
      end := Round(front, turn.pending, turn.clk);
    }
  }

  predicate NoRefreshes(trans: seq<Trans>) {
    forall t :: t in trans ==> !Refreshes(t)
  }

  lemma NothingToRefresh(c: Client, bound: nat)
    requires Listed(c) && RefreshEffort(c, bound) <= 0
    ensures NoRefreshes(c.trans)
  {
    forall t | t in c.trans
      ensures !Refreshes(t)
    {
      var k :| 0 <= k < |c.trans| && c.trans[k] == t;
      TotalAtLeast(c.trans, k, (t: Trans) => Cost(t, bound));
    }
  }

  /** A pass in which some RENEW or REBIND is due. */
  predicate Urging(c: Client, now: nat) {
    DueRefresh(c.trans, 0, |c.trans|, now)
  }

  /** Every pass finds a due RENEW or REBIND, for as long as there are any. */
  predicate Urged(c: Client, turns: seq<Turn>)
    requires Listed(c)
  {
    forall n :: 0 <= n < |turns| ==>
      Urging(RunOf(c, turns[..n]), turns[n].clk.now) || NoRefreshes(RunOf(c, turns[..n]).trans)
  }

  /** Some RENEW or REBIND is live throughout. */
  predicate Lasting(c: Client, turns: seq<Turn>)
    requires Listed(c)
  {
    forall n :: 0 <= n <= |turns| ==> !NoRefreshes(RunOf(c, turns[..n]).trans)
  }

  lemma UrgedFront(c: Client, turns: seq<Turn>)
    requires Listed(c) && turns != [] && Urged(c, turns)
    ensures Urged(c, turns[..|turns| - 1])
  {
    var front := turns[..|turns| - 1];
    forall n | 0 <= n < |front|
      ensures Urging(RunOf(c, front[..n]), front[n].clk.now) || NoRefreshes(RunOf(c, front[..n]).trans)
    {
      assert front[..n] == turns[..n];
    }
  }

  lemma LastingFront(c: Client, turns: seq<Turn>)
    requires Listed(c) && turns != [] && Lasting(c, turns)
    ensures Lasting(c, turns[..|turns| - 1])
  {
    var front := turns[..|turns| - 1];
    forall n | 0 <= n <= |front|
      ensures !NoRefreshes(RunOf(c, front[..n]).trans)
    {
      assert front[..n] == turns[..n];
    }
  }

  lemma {:induction false} AllUrge(c: Client, turns: seq<Turn>)
    requires Listed(c) && Urged(c, turns) && Lasting(c, turns)
    ensures RefreshPasses(c, turns) == |turns|
  {
    if turns != [] {
      var n := |turns| - 1;
      UrgedFront(c, turns);
      LastingFront(c, turns);
      AllUrge(c, turns[..n]);
      assert !NoRefreshes(RunOf(c, turns[..n]).trans);
    }
  }

  lemma SomeTimeRefreshed(c: Client, turns: seq<Turn>, bound: nat)
    requires Winding(c, bound) && Silent(turns) && Urged(c, turns) && |turns| >= RefreshEffort(c, bound)
    ensures !Lasting(c, turns)
  {
    assert turns[..|turns|] == turns;
    if Lasting(c, turns) {
      AllUrge(c, turns);
      var end := SilenceTakes(c, turns, bound);
      NothingToRefresh(end, bound);
    }
  }

  /**
    While nothing is received, RENEWs and REBINDs come to an end: if each pass finds one due for as
    long as there are any, then after at most `RefreshEffort(c, bound)` passes there is none.
   */
  lemma RefreshesEnd(c: Client, turns: seq<Turn>, bound: nat) returns (n: nat)
    requires Winding(c, bound) && Silent(turns) && Urged(c, turns) && |turns| >= RefreshEffort(c, bound)
    ensures n <= |turns| && NoRefreshes(RunOf(c, turns[..n]).trans)
  {
    SomeTimeRefreshed(c, turns, bound);
    n :| 0 <= n <= |turns| && NoRefreshes(RunOf(c, turns[..n]).trans);
  }

  // ---- what becomes of the IAs ------------------------------------------------------------------------------------

  /** How often a RENEW or REBIND has the IA. */
  function RefreshesIA(t: Trans, i: Iaid): int {
    if Refreshes(t) then Occurs(t.ias, i) else 0
  }

  function Refreshers(trans: seq<Trans>, i: Iaid): int {
    Total(trans, (t: Trans) => RefreshesIA(t, i))
  }

  /** A RENEW or REBIND has the IA, or no address of it is left. */
  predicate Closing(c: Client, i: Iaid) {
    i in c.db && (Refreshers(c.trans, i) > 0 || c.db[i].leases == [])
  }

  lemma FinishRefreshers(c: Client, k: nat, i: Iaid)
    requires k < |c.trans|
    ensures Refreshers(Finish(c, k).trans, i) == Refreshers(c.trans, i) - RefreshesIA(c.trans[k], i)
  {
    TotalUpdate(c.trans, k, c.trans[k].(done := true), (t: Trans) => RefreshesIA(t, i));
  }

  lemma HandOverClosing(c: Client, k: nat, clk: Clock, i: Iaid)
    requires k < |c.trans| && !Refreshes(c.trans[k]) && Closing(c, i)
    ensures Closing(HandOver(c, k, clk), i)
  {
    var s := SendRequest(c, c.trans[k].ias, c.trans[k].iface, clk);
    TotalSnoc(c.trans, s.trans[|c.trans|], (t: Trans) => RefreshesIA(t, i));
    assert s.trans[k] == c.trans[k];
    FinishRefreshers(s, k, i);
  }

  lemma RebindClosing(c: Client, k: nat, clk: Clock, i: Iaid)
    requires k < |c.trans| && Closing(c, i)
    ensures Closing(Finish(SendRebind(c, c.trans[k].ias, c.trans[k].iface, clk), k), i)
  {
    var s := SendRebind(c, c.trans[k].ias, c.trans[k].iface, clk);
    TotalSnoc(c.trans, s.trans[|c.trans|], (t: Trans) => RefreshesIA(t, i));
    assert s.trans[k] == c.trans[k];
    FinishRefreshers(s, k, i);
  }

  lemma ReleaseClosing(c: Client, k: nat, i: Iaid)
    requires k < |c.trans| && Closing(c, i)
    ensures Closing(Finish(ReleaseAll(c, c.trans[k].ias), k), i)
  {
    var ias := c.trans[k].ias;
    ReleasedLeases(c, ias, i);
    FinishRefreshers(ReleaseAll(c, ias), k, i);
  }

  lemma DutiesClosing(c: Client, k: nat, clk: Clock, i: Iaid)
    requires k < |c.trans| && !c.trans[k].done && Closing(c, i)
    ensures Closing(Duties(c, k, clk), i)
  {
    var t := c.trans[k];
    if (t.kind == Solicit && c.ads != []) || (t.kind == Request && t.timer.rc > t.timer.mrc) {
      HandOverClosing(c, k, clk, i);
    } else if t.kind == Renew && t.timer.mrd == 0 {
      RebindClosing(c, k, clk, i);
    } else if t.kind == Rebind && t.timer.mrd == 0 {
      ReleaseClosing(c, k, i);
    } else {
      TotalUpdate(c.trans, k, Retransmit(c, k, clk).trans[k], (t: Trans) => RefreshesIA(t, i));
    }
  }

  lemma {:induction false} DutiesFromClosing(c: Client, k: nat, n: nat, clk: Clock, i: Iaid) returns (end: Client)
    requires Closing(c, i) && k <= n <= |c.trans|
    ensures end == DutiesFrom(c, k, n, clk) && Closing(end, i)
    decreases n - k
  {
    if k == n {
      end := c;
    } else if Due(c.trans[k], clk.now) {
      DutiesClosing(c, k, clk, i);
      end := DutiesFromClosing(Duties(c, k, clk), k + 1, n, clk, i);
    } else {
      end := DutiesFromClosing(c, k + 1, n, clk, i);
    }
  }

  /** New transactions take no leases and end no RENEW. */
  lemma StartClosing(c: Client, r: Client, x: Trans, i: Iaid)
    requires Closing(c, i) && r.trans == c.trans + [x] && i in r.db && r.db[i].leases == c.db[i].leases
    ensures Closing(r, i)
  {
    TotalSnoc(c.trans, x, (t: Trans) => RefreshesIA(t, i));
  }

  lemma {:induction false} CheckSolicitClosing(c: Client, ifaces: seq<CfgIface>, clk: Clock, i: Iaid)
    requires Closing(c, i)
    ensures Closing(CheckSolicit(c, ifaces, clk), i)
  {
    if ifaces != [] {
      var b, f := CheckSolicit(c, ifaces[..|ifaces| - 1], clk), ifaces[|ifaces| - 1];
      CheckSolicitClosing(c, ifaces[..|ifaces| - 1], clk, i);
      if !f.noConfig && NotConfiguredIAs(b, f) != [] {
        var r := StartSolicit(b, f, NotConfiguredIAs(b, f), clk);
        StartClosing(b, r, r.trans[|b.trans|], i);
      }
    }
  }

  lemma CheckRenewClosing(c: Client, pending: set<Iaid>, clk: Clock, i: Iaid)
    requires Listed(c) && Closing(c, i)
    ensures Closing(CheckRenew(c, pending, clk), i)
  {
    var r := CheckRenew(c, pending, clk);
    if r != c {
      StartClosing(c, r, r.trans[|c.trans|], i);
    }
  }

  lemma RoundClosing(c: Client, pending: set<Iaid>, clk: Clock, i: Iaid)
    requires Listed(c) && Closing(c, i)
    ensures Closing(Round(c, pending, clk), i)
  {
    var e := Settle(c, clk);
    var d := DutiesFromClosing(c, 0, |c.trans|, clk, i);
    TotalPurge(d.trans, (t: Trans) => RefreshesIA(t, i));
    CheckSolicitClosing(e, e.ifaces, clk, i);
    CheckRenewClosing(CheckSolicit(e, e.ifaces, clk), pending, clk, i);
  }

  lemma {:induction false} SilenceCloses(c: Client, turns: seq<Turn>, i: Iaid) returns (end: Client)
    requires Listed(c) && Closing(c, i) && Silent(turns)
    ensures end == RunOf(c, turns) && Closing(end, i)
  {
    if turns == [] {
      end := c;
    } else {
      SilentTurn(c, turns);
      var turn := turns[|turns| - 1];
      var front := SilenceCloses(c, turns[..|turns| - 1], i);
      RoundClosing(front, turn.pending, turn.clk, i);
      end := Round(front, turn.pending, turn.clk);
    }
  }

  lemma RefreshedIsClosing(c: Client, k: nat, i: Iaid)
    requires Owned(c) && k < |c.trans| && Refreshes(c.trans[k]) && i in c.trans[k].ias
    ensures Closing(c, i) && i in c.cfg && Holders(c.trans, i) > 0
  {
    assert Placed(c.cfg, c.trans[k]);
    TotalAtLeast(c.trans, k, (t: Trans) => RefreshesIA(t, i));
    HoldersUpdate(c.trans, k, c.trans[k], i);
  }

  /** A live SOLICIT or REQUEST has the IA. */
  predicate AskedFor(trans: seq<Trans>, i: Iaid) {
    exists k :: 0 <= k < |trans| && !trans[k].done && (trans[k].kind == Solicit || trans[k].kind == Request) && i in trans[k].ias
  }

  lemma {:induction false} SomeHolder(trans: seq<Trans>, i: Iaid) returns (k: nat)
    requires Holders(trans, i) > 0
    ensures k < |trans| && !trans[k].done && i in trans[k].ias
  {
    var n := |trans| - 1;
    if Holds(trans[n], i) > 0 {
      k := n;
    } else {
      k := SomeHolder(trans[..n], i);
    }
  }

  lemma NothingClosing(c: Client, i: Iaid)
    requires NoRefreshes(c.trans) && Closing(c, i) && Holders(c.trans, i) > 0
    ensures c.db[i].leases == [] && AskedFor(c.trans, i)
  {
    TotalZero(c.trans, (t: Trans) => RefreshesIA(t, i));
    var k := SomeHolder(c.trans, i);
    assert c.trans[k] in c.trans;
  }

  /**
    A RENEW or REBIND of a client that owns its IAs, and nothing received any more: when no RENEW
    and no REBIND is left, each of its IAs has no address, and is held by one transaction, which
    asks for new ones.
   */
  lemma RefreshedIsReleased(c: Client, turns: seq<Turn>, k: nat, i: Iaid) returns (end: Client)
    requires Owned(c) && Silent(turns) && NoRefreshes(RunOf(c, turns).trans)
    requires k < |c.trans| && Refreshes(c.trans[k]) && i in c.trans[k].ias
    ensures end == RunOf(c, turns)
    ensures i in end.db && end.db[i].leases == [] && Holders(end.trans, i) == 1 && AskedFor(end.trans, i)
  {
    RefreshedIsClosing(c, k, i);
    end := SilenceCloses(c, turns, i);
    var last := SilenceHolds(c, turns, i);
    NothingClosing(end, i);
  }

  /** If no REQUEST is left, either, that is a SOLICIT. */
  lemma RefreshedIsDiscovered(c: Client, turns: seq<Turn>, k: nat, i: Iaid)
    requires Owned(c) && Silent(turns) && NoRefreshes(RunOf(c, turns).trans) && NoRequests(RunOf(c, turns).trans)
    requires k < |c.trans| && Refreshes(c.trans[k]) && i in c.trans[k].ias
    ensures Solicits(RunOf(c, turns).trans, i)
  {
    var end := RefreshedIsReleased(c, turns, k, i);
    AskedBySolicit(end.trans, i);
  }

  lemma AskedBySolicit(trans: seq<Trans>, i: Iaid)
    requires AskedFor(trans, i) && NoRequests(trans)
    ensures Solicits(trans, i)
  {
    var k :| 0 <= k < |trans| && !trans[k].done && (trans[k].kind == Solicit || trans[k].kind == Request) && i in trans[k].ias;
    assert !LiveRequest(trans[k]);
  }
}
