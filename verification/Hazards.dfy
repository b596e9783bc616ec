/**
  Why an IA that is CONFIGURED must not be held: it is soon held by two transactions. And what a
  pass does when nothing is due, which the runs that lead there need.
 */
module Hazards {
  import opened Containers
  import opened Leases
  import opened Retransmission
  import opened Protocol
  import opened Ownership
  import opened Runs
  import opened TransMgr
  import opened Orphans

  // ---- a second holder -------------------------------------------------------------------------------------

  /** A message that keeps its IAs whatever its timeout makes of it. */
  predicate Keeps(t: Trans) {
    t.kind == Solicit || (t.kind == Request && t.timer.rc <= t.timer.mrc)
  }

  /** The IA is held as often, and is in the same state on both sides. */
  predicate SameIA(c: Client, r: Client, i: Iaid) {
    i in c.cfg && i in r.cfg && i in c.db && i in r.db && Holders(r.trans, i) == Holders(c.trans, i) &&
    r.cfg[i] == c.cfg[i] && r.db[i] == c.db[i]
  }

  lemma SameIATransitive(a: Client, b: Client, c: Client, i: Iaid)
    requires SameIA(a, b, i) && SameIA(b, c, i)
    ensures SameIA(a, c, i)
  {
  }

  lemma ElsewhereSameIA(c: Client, k: nat, clk: Clock, i: Iaid)
    requires i in c.cfg && i in c.db && k < |c.trans| && !c.trans[k].done && i !in c.trans[k].ias
    ensures SameIA(c, Duties(c, k, clk), i)
  {
    var t, r := c.trans[k], Duties(c, k, clk);
    if r == Retransmit(c, k, clk) {
      HoldersUpdate(c.trans, k, r.trans[k], i);
    } else if t.kind == Solicit || t.kind == Request {
      HandOverHolders(c, k, clk, i);
    } else if t.kind == Renew {
      RebindHolders(c, k, clk, i);
    } else {
      ReleaseAllOthers(c, t.ias, i);
      FinishHolders(ReleaseAll(c, t.ias), k, i);
    }
  }

  lemma KeptSameIA(c: Client, k: nat, clk: Clock, i: Iaid)
    requires i in c.cfg && i in c.db && k < |c.trans| && !c.trans[k].done && Keeps(c.trans[k])
    ensures SameIA(c, Duties(c, k, clk), i)
  {
    var r := Duties(c, k, clk);
    if r == Retransmit(c, k, clk) {
      HoldersUpdate(c.trans, k, r.trans[k], i);
    } else {
      HandOverHolders(c, k, clk, i);
    }
  }

  /** The messages of the list from `k` on that hold the IA keep it. */
  predicate KeptFrom(trans: seq<Trans>, k: nat, n: nat, i: Iaid) {
    forall j :: k <= j < n && j < |trans| && !trans[j].done && i in trans[j].ias ==> Keeps(trans[j])
  }

  lemma {:induction false} DutiesFromSameIA(c: Client, k: nat, n: nat, clk: Clock, i: Iaid)
    requires i in c.cfg && i in c.db && k <= n <= |c.trans| && KeptFrom(c.trans, k, n, i)
    ensures SameIA(c, DutiesFrom(c, k, n, clk), i)
    decreases n - k
  {
    if k < n {
      if Due(c.trans[k], clk.now) {
        var r := Duties(c, k, clk);
        OthersLeftAlone(c, k, clk);
        if i in c.trans[k].ias {
          KeptSameIA(c, k, clk, i);
        } else {
          ElsewhereSameIA(c, k, clk, i);
        }
        DutiesFromSameIA(r, k + 1, n, clk, i);
        SameIATransitive(c, r, DutiesFrom(r, k + 1, n, clk), i);
      } else {
        DutiesFromSameIA(c, k + 1, n, clk, i);
      }
    }
  }

  lemma NoneDeadSame(ia: IA, now: nat)
    requires !HasDead(ia, now)
    ensures Expired(ia, now) == ia
  {
    FilterAll(ia.leases, l => Alive(l, now));
  }

  lemma SettleSameIA(c: Client, clk: Clock, i: Iaid)
    requires Listed(c) && i in c.cfg && i in c.db && KeptFrom(c.trans, 0, |c.trans|, i) && !HasDead(c.db[i], clk.now)
    ensures SameIA(c, Settle(c, clk), i)
  {
    var d := DutiesFrom(c, 0, |c.trans|, clk);
    DutiesFromSameIA(c, 0, |c.trans|, clk, i);
    HoldersPurge(d.trans, i);
    NoneDeadSame(c.db[i], clk.now);
  }

  lemma SolicitSameIA(c: Client, f: CfgIface, clk: Clock, i: Iaid)
    requires i in c.cfg && i in c.db && c.cfg[i].state != NotConfigured
    ensures SameIA(c, SolicitOn(c, f, clk), i)
  {
    var ias := NotConfiguredIAs(c, f);
    if !f.noConfig && ias != [] {
      HoldersSnoc(c.trans, StartSolicit(c, f, ias, clk).trans[|c.trans|], i);
    }
  }

  lemma {:induction false} CheckSolicitSameIA(c: Client, ifaces: seq<CfgIface>, clk: Clock, i: Iaid)
    requires i in c.cfg && i in c.db && c.cfg[i].state != NotConfigured
    ensures SameIA(c, CheckSolicit(c, ifaces, clk), i)
  {
    if ifaces != [] {
      var b := CheckSolicit(c, ifaces[..|ifaces| - 1], clk);
      CheckSolicitSameIA(c, ifaces[..|ifaces| - 1], clk, i);
      SolicitSameIA(b, ifaces[|ifaces| - 1], clk, i);
      SameIATransitive(c, b, CheckSolicit(c, ifaces, clk), i);
    }
  }

  lemma {:induction false} FirstIsPicked(db: map<Iaid, IA>, list: seq<Iaid>, now: nat, pending: set<Iaid>)
    requires list != [] && (forall i :: i in list ==> i in db) && NeedsRenew(db[list[0]], now, pending)
    ensures Pick(db, list, now, pending) != [] && Pick(db, list, now, pending)[0] == list[0]
  {
    if |list| > 1 {
      FirstIsPicked(db, list[..|list| - 1], now, pending);
    }
  }

  lemma {:induction false} CheckSolicitHolders(c: Client, ifaces: seq<CfgIface>, clk: Clock, i: Iaid)
    ensures Holders(CheckSolicit(c, ifaces, clk).trans, i) >= Holders(c.trans, i)
  {
    if ifaces != [] {
      var b, f := CheckSolicit(c, ifaces[..|ifaces| - 1], clk), ifaces[|ifaces| - 1];
      CheckSolicitHolders(c, ifaces[..|ifaces| - 1], clk, i);
      if !f.noConfig && NotConfiguredIAs(b, f) != [] {
        HoldersSnoc(b.trans, StartSolicit(b, f, NotConfiguredIAs(b, f), clk).trans[|b.trans|], i);
      }
    }
  }

  lemma CheckRenewTakes(c: Client, pending: set<Iaid>, clk: Clock, i: Iaid)
    requires Listed(c) && i in Pick(c.db, c.iaList, clk.now, pending)
    ensures Holders(CheckRenew(c, pending, clk).trans, i) > Holders(c.trans, i)
  {
    var ias := Pick(c.db, c.iaList, clk.now, pending);
    if T1Timeout(c.db, c.iaList, clk.now) > 0 {
      NothingToRenew(c.db, c.iaList, clk.now, pending);
    }
    HoldersSnoc(c.trans, StartRenew(c, ias, clk).trans[|c.trans|], i);
  }

  /** The client as `checkRenew` finds it. */
  function BeforeRenewal(c: Client, clk: Clock): (r: Client)
    requires Listed(c)
    ensures SameShape(c, r)
  {
    var e := Settle(c, clk);
    CheckSolicit(e, e.ifaces, clk)
  }

  /**
    Why a CONFIGURED IA must not be held: every IA that `checkRenew` picks is given to a RENEW,
    although messages that keep it still hold it.
   */
  lemma RenewedThoughHeld(c: Client, pending: set<Iaid>, clk: Clock, i: Iaid)
    requires Listed(c) && i in c.cfg && i in c.db && KeptFrom(c.trans, 0, |c.trans|, i)
    requires var s := BeforeRenewal(c, clk);
             i in Pick(s.db, s.iaList, clk.now, pending)
    ensures Holders(Round(c, pending, clk).trans, i) > Holders(c.trans, i)
  {
    var d, e := DutiesFrom(c, 0, |c.trans|, clk), Settle(c, clk);
    DutiesFromSameIA(c, 0, |c.trans|, clk, i);
    HoldersPurge(d.trans, i);
    CheckSolicitHolders(e, e.ifaces, clk, i);
    CheckRenewTakes(BeforeRenewal(c, clk), pending, clk, i);
  }

  /** The first IA of the list, if it is CONFIGURED and its T1 is over, is picked. */
  lemma FirstRenewedThoughHeld(c: Client, pending: set<Iaid>, clk: Clock, i: Iaid)
    requires Listed(c) && c.iaList != [] && c.iaList[0] == i && i in c.cfg && c.cfg[i].state == Configured
    requires KeptFrom(c.trans, 0, |c.trans|, i) && !HasDead(c.db[i], clk.now) && NeedsRenew(c.db[i], clk.now, pending)
    ensures Holders(Round(c, pending, clk).trans, i) > Holders(c.trans, i)
  {
    var e, s := Settle(c, clk), BeforeRenewal(c, clk);
    SettleSameIA(c, clk, i);
    CheckSolicitSameIA(e, e.ifaces, clk, i);
    FirstIsPicked(s.db, s.iaList, clk.now, pending);
    RenewedThoughHeld(c, pending, clk, i);
  }

  // ---- passes in which nothing happens -------------------------------------------------------------------------

  predicate NoneDue(trans: seq<Trans>, now: nat) {
    forall k :: 0 <= k < |trans| ==> !Due(trans[k], now)
  }

  lemma {:induction false} QuietDuties(c: Client, k: nat, n: nat, clk: Clock)
    requires k <= n <= |c.trans| && NoneDue(c.trans, clk.now)
    ensures DutiesFrom(c, k, n, clk) == c
    decreases n - k
  {
    if k < n {
      QuietDuties(c, k + 1, n, clk);
    }
  }

  lemma {:induction false} NoDeadAddrs(db: map<Iaid, IA>, list: seq<Iaid>, now: nat)
    requires forall i :: i in list ==> i in db && !HasDead(db[i], now)
    ensures DeadAddrs(db, list, now) == multiset{}
  {
    if list != [] {
      NoDeadAddrs(db, list[..|list| - 1], now);
      var ia := db[list[|list| - 1]];
      FilterNone(ia.leases, l => !Alive(l, now));
      assert Tags(ia.iface, []) == [];
    }
  }

  /** With nothing due and nothing dead, only the purge is left of the first half of a pass. */
  lemma QuietSettle(c: Client, clk: Clock)
    requires Listed(c) && NoneDue(c.trans, clk.now) && forall i :: i in c.db ==> !HasDead(c.db[i], clk.now)
    ensures Settle(c, clk) == Purge(c)
  {
    QuietDuties(c, 0, |c.trans|, clk);
    NoDeadAddrs(c.db, c.iaList, clk.now);
    forall i | i in c.db
      ensures Expired(c.db[i], clk.now) == c.db[i]
    {
      NoneDeadSame(c.db[i], clk.now);
    }
    var p := RemoveExpired(Purge(c), clk.now);
    assert ExpireDb(p, clk.now).db == c.db;
    assert p.installed == c.installed;
  }

  lemma {:induction false} QuietSolicit(c: Client, ifaces: seq<CfgIface>, clk: Clock)
    requires NoneWaits(c.cfg)
    ensures CheckSolicit(c, ifaces, clk) == c
  {
    if ifaces != [] {
      QuietSolicit(c, ifaces[..|ifaces| - 1], clk);
      FilterNone(ifaces[|ifaces| - 1].ias, (i: Iaid) => i in c.cfg && c.cfg[i].state == NotConfigured);
    }
  }

  lemma QuietRenew(c: Client, pending: set<Iaid>, clk: Clock)
    requires Listed(c) && forall i :: i in c.db ==> c.db[i].state != Configured
    ensures CheckRenew(c, pending, clk) == c
  {
    var ias := Pick(c.db, c.iaList, clk.now, pending);
    if ias != [] {
      PickedWereConfigured(c.db, c.iaList, clk.now, pending, ias[0]);
    }
  }

  /** A pass with nothing due, dead, waiting or CONFIGURED only purges. */
  lemma QuietRound(c: Client, pending: set<Iaid>, clk: Clock)
    requires Listed(c) && NoneDue(c.trans, clk.now) && NoneWaits(c.cfg)
    requires forall i :: i in c.db ==> !HasDead(c.db[i], clk.now) && c.db[i].state != Configured
    ensures Round(c, pending, clk) == Purge(c)
  {
    QuietSettle(c, clk);
    QuietSolicit(Purge(c), c.ifaces, clk);
    QuietRenew(Purge(c), pending, clk);
  }

  lemma RunSnoc(c: Client, turns: seq<Turn>, turn: Turn)
    requires Listed(c)
    ensures var r := Round(RunOf(c, turns), turn.pending, turn.clk);
            RunOf(c, turns + [turn]) == if turn.msg.Some? then Deliver(r, turn.msg.value, turn.arrival) else r
  {
    assert (turns + [turn])[..|turns|] == turns;
  }

  /** A turn in which a message arrives right after the pass. */
  function Hear(clk: Clock, msg: Msg): Turn {
    Turn({}, clk, Some(msg), clk)
  }

  lemma RunHears(c: Client, turns: seq<Turn>, clk: Clock, msg: Msg)
    requires Listed(c)
    ensures RunOf(c, turns + [Hear(clk, msg)]) == Deliver(Round(RunOf(c, turns), {}, clk), msg, clk)
  {
    RunSnoc(c, turns, Hear(clk, msg));
  }

  lemma RunOfOne(c: Client, turn: Turn)
    requires Listed(c)
    ensures BeforeMessage(c, [turn]) == Round(c, turn.pending, turn.clk)
    ensures turn.msg.Some? ==> RunOf(c, [turn]) == Deliver(Round(c, turn.pending, turn.clk), turn.msg.value, turn.arrival)
    ensures AllSolicited(c, [turn]) <==> (turn.msg.Some? ==> Solicited(Round(c, turn.pending, turn.clk), turn.msg.value))
  {
    assert [turn][..0] == [];
  }

  lemma RunOfMessage(c: Client, clk: Clock, msg: Msg)
    requires Listed(c)
    ensures RunOf(c, [Hear(clk, msg)]) == Deliver(Round(c, {}, clk), msg, clk)
  {
    RunOfOne(c, Hear(clk, msg));
  }
}
