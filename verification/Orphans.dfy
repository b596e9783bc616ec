/**
  IAs that fall between the two checks: CONFIGURED for `checkSolicit`, which looks at the
  configuration, but not for `checkRenew`, which looks at the database. Once no transaction holds
  such an IA, it is asked for again only if some message happens to grant it.
 */
module Orphans {
  import opened Containers
  import opened Leases
  import opened Advertises
  import opened Retransmission
  import opened Protocol
  import opened Ownership
  import opened Replies
  import opened Runs
  import opened TransMgr

  /** CONFIGURED in the configuration, and held by no transaction. */
  predicate Loose(c: Client, i: Iaid) {
    i in c.cfg && i in c.db && c.cfg[i].state == Configured && Holders(c.trans, i) == 0
  }

  /** Neither to be renewed nor to be confirmed. */
  predicate Unsettled(ia: IA) {
    ia.state == NotConfigured || ia.state == InProcess
  }

  predicate Orphan(c: Client, i: Iaid) {
    Loose(c, i) && Unsettled(c.db[i])
  }

  lemma NotHeldByAny(c: Client, k: nat, i: Iaid)
    requires Holders(c.trans, i) == 0 && k < |c.trans| && !c.trans[k].done
    ensures i !in c.trans[k].ias
  {
    HoldersUpdate(c.trans, k, c.trans[k], i);
  }

  // ---- timeouts let no IA loose, and take up none ------------------------------------------------------------

  lemma RetransmitLoose(c: Client, k: nat, clk: Clock, i: Iaid)
    requires k < |c.trans|
    ensures Loose(Retransmit(c, k, clk), i) <==> Loose(c, i)
  {
    HoldersUpdate(c.trans, k, Retransmit(c, k, clk).trans[k], i);
  }

  lemma HandOverLoose(c: Client, k: nat, clk: Clock, i: Iaid)
    requires k < |c.trans| && !c.trans[k].done
    ensures Loose(c, i) ==> Loose(HandOver(c, k, clk), i)
    ensures Placed(c.cfg, c.trans[k]) && Loose(HandOver(c, k, clk), i) ==> Loose(c, i)
  {
    HandOverHolders(c, k, clk, i);
    OthersBounds(c, k, i);
    if Loose(c, i) {
      NotHeldByAny(c, k, i);
    }
  }

  lemma ReleaseLoose(c: Client, k: nat, i: Iaid)
    requires k < |c.trans| && !c.trans[k].done
    ensures var r := Finish(ReleaseAll(c, c.trans[k].ias), k);
            (Loose(r, i) <==> Loose(c, i)) && (Loose(c, i) ==> r.db[i] == c.db[i])
  {
    var ias := c.trans[k].ias;
    FinishHolders(ReleaseAll(c, ias), k, i);
    ReleaseAllStates(c, ias, i);
    OthersBounds(c, k, i);
    if Loose(c, i) {
      NotHeldByAny(c, k, i);
      ReleaseAllOthers(c, ias, i);
    }
  }

  /** The IA is loose on both sides and the same, or on neither. */
  predicate SameLoose(c: Client, r: Client, i: Iaid) {
    (Loose(r, i) <==> Loose(c, i)) && (Loose(c, i) ==> r.db[i] == c.db[i])
  }

  lemma SameLooseTransitive(a: Client, b: Client, c: Client, i: Iaid)
    requires SameLoose(a, b, i) && SameLoose(b, c, i)
    ensures SameLoose(a, c, i)
  {
  }

  /** `doDuties` of a message: the loose IAs stay as they are, and no IA in its place is let loose. */
  lemma DutiesLoose(c: Client, k: nat, clk: Clock, i: Iaid)
    requires k < |c.trans| && !c.trans[k].done
    ensures Loose(c, i) || Placed(c.cfg, c.trans[k]) ==> SameLoose(c, Duties(c, k, clk), i)
  {
    var t, r := c.trans[k], Duties(c, k, clk);
    if r == Retransmit(c, k, clk) {
      RetransmitLoose(c, k, clk, i);
    } else if t.kind == Solicit || t.kind == Request {
      HandOverLoose(c, k, clk, i);
    } else if t.kind == Renew {
      RebindHolders(c, k, clk, i);
    } else {
      ReleaseLoose(c, k, i);
    }
  }

  lemma HandOverPlaced(c: Client, k: nat, clk: Clock)
    requires AllPlaced(c.cfg, c.trans) && k < |c.trans| && !c.trans[k].done
    ensures AllPlaced(HandOver(c, k, clk).cfg, HandOver(c, k, clk).trans)
  {
    var r := HandOver(c, k, clk);
    forall j | 0 <= j < |r.trans|
      ensures Placed(r.cfg, r.trans[j])
    {
      if j < |c.trans| {
        StillPlaced(c.cfg, r.cfg, c.trans[j]);
      } else {
        assert Placed(c.cfg, c.trans[k]);
      }
    }
  }

  lemma ReleasePlaced(c: Client, k: nat)
    requires AllPlaced(c.cfg, c.trans) && k < |c.trans|
    ensures var r := Finish(ReleaseAll(c, c.trans[k].ias), k);
            AllPlaced(r.cfg, r.trans)
  {
    var r := Finish(ReleaseAll(c, c.trans[k].ias), k);
    forall i | i in c.cfg
      ensures r.cfg[i].iface == c.cfg[i].iface && (c.cfg[i].state != InProcess ==> r.cfg[i].state != InProcess)
    {
      ReleaseAllStates(c, c.trans[k].ias, i);
    }
    forall j | 0 <= j < |r.trans|
      ensures Placed(r.cfg, r.trans[j])
    {
      StillPlaced(c.cfg, r.cfg, c.trans[j]);
    }
  }

  lemma RetransmitPlaced(c: Client, k: nat, clk: Clock)
    requires AllPlaced(c.cfg, c.trans) && k < |c.trans|
    ensures AllPlaced(Retransmit(c, k, clk).cfg, Retransmit(c, k, clk).trans)
  {
    assert Placed(c.cfg, c.trans[k]);
  }

  lemma RebindPlaced(c: Client, k: nat, clk: Clock)
    requires AllPlaced(c.cfg, c.trans) && k < |c.trans| && !c.trans[k].done && c.trans[k].kind == Renew
    ensures var r := Finish(SendRebind(c, c.trans[k].ias, c.trans[k].iface, clk), k);
            AllPlaced(r.cfg, r.trans)
  {
    assert Placed(c.cfg, c.trans[k]);
  }

  lemma DutiesPlaced(c: Client, k: nat, clk: Clock)
    requires AllPlaced(c.cfg, c.trans) && k < |c.trans| && !c.trans[k].done
    ensures AllPlaced(Duties(c, k, clk).cfg, Duties(c, k, clk).trans)
  {
    var t := c.trans[k];
    if Duties(c, k, clk) == Retransmit(c, k, clk) {
      RetransmitPlaced(c, k, clk);
    } else if t.kind == Solicit || t.kind == Request {
      HandOverPlaced(c, k, clk);
    } else if t.kind == Renew {
      RebindPlaced(c, k, clk);
    } else {
      ReleasePlaced(c, k);
    }
  }

  lemma VisitLoose(c: Client, k: nat, clk: Clock, i: Iaid)
    requires Loose(c, i) || AllPlaced(c.cfg, c.trans)
    requires k < |c.trans| && !c.trans[k].done
    ensures var r := Duties(c, k, clk);
            SameLoose(c, r, i) && (Loose(r, i) || AllPlaced(r.cfg, r.trans))
  {
    if AllPlaced(c.cfg, c.trans) {
      DutiesPlaced(c, k, clk);
    }
    DutiesLoose(c, k, clk, i);
  }

  lemma {:induction false} DutiesFromLoose(c: Client, k: nat, n: nat, clk: Clock, i: Iaid)
    requires Loose(c, i) || AllPlaced(c.cfg, c.trans)
    requires k <= n <= |c.trans|
    ensures SameLoose(c, DutiesFrom(c, k, n, clk), i)
    decreases n - k
  {
    if k < n {
      if Due(c.trans[k], clk.now) {
        var r := Duties(c, k, clk);
        VisitLoose(c, k, clk, i);
        DutiesFromLoose(r, k + 1, n, clk, i);
        SameLooseTransitive(c, r, DutiesFrom(r, k + 1, n, clk), i);
      } else {
        DutiesFromLoose(c, k + 1, n, clk, i);
      }
    }
  }

  // ---- expiry makes orphans ------------------------------------------------------------------------------------

  predicate HasDead(ia: IA, now: nat) {
    exists l :: l in ia.leases && !Alive(l, now)
  }

  lemma {:induction false} DeadAreDropped(leases: seq<Lease>, now: nat)
    ensures |Filter(leases, l => Alive(l, now))| <= |leases|
    ensures |Filter(leases, l => Alive(l, now))| < |leases| <==> exists l :: l in leases && !Alive(l, now)
  {
    if leases != [] {
      var front, last := leases[..|leases| - 1], leases[|leases| - 1];
      DeadAreDropped(front, now);
      assert leases == front + [last];
    }
  }

  /** A loose IA is an orphan after the expiry exactly when it was one or an address of it is dead. */
  lemma ExpiredIsOrphan(c: Client, now: nat, i: Iaid)
    requires Loose(c, i) && i in c.iaList
    ensures Orphan(ExpireDb(c, now), i) <==> Unsettled(c.db[i]) || HasDead(c.db[i], now)
  {
    DeadAreDropped(c.db[i].leases, now);
  }

  lemma SettleOrphanIff(c: Client, clk: Clock, i: Iaid)
    requires Listed(c) && c.cfg.Keys == c.db.Keys && AllPlaced(c.cfg, c.trans) && forall i :: i in c.db ==> i in c.iaList
    ensures Orphan(Settle(c, clk), i) <==> Loose(c, i) && (Unsettled(c.db[i]) || HasDead(c.db[i], clk.now))
  {
    var d := DutiesFrom(c, 0, |c.trans|, clk);
    DutiesFromLoose(c, 0, |c.trans|, clk, i);
    HoldersPurge(d.trans, i);
    var p := RemoveExpired(Purge(d), clk.now);
    if Loose(c, i) {
      ExpiredIsOrphan(p, clk.now, i);
    }
  }

  // ---- new transactions make none, and adopt none -----------------------------------------------------------------

  lemma SolicitOrphanIff(c: Client, f: CfgIface, clk: Clock, i: Iaid)
    ensures Orphan(SolicitOn(c, f, clk), i) <==> Orphan(c, i)
  {
    var ias := NotConfiguredIAs(c, f);
    if !f.noConfig && ias != [] {
      var r := StartSolicit(c, f, ias, clk);
      HoldersSnoc(c.trans, r.trans[|c.trans|], i);
    }
  }

  lemma {:induction false} CheckSolicitOrphanIff(c: Client, ifaces: seq<CfgIface>, clk: Clock, i: Iaid)
    ensures Orphan(CheckSolicit(c, ifaces, clk), i) <==> Orphan(c, i)
  {
    if ifaces != [] {
      CheckSolicitOrphanIff(c, ifaces[..|ifaces| - 1], clk, i);
      SolicitOrphanIff(CheckSolicit(c, ifaces[..|ifaces| - 1], clk), ifaces[|ifaces| - 1], clk, i);
    }
  }

  lemma {:induction false} PickedWereConfigured(db: map<Iaid, IA>, list: seq<Iaid>, now: nat, pending: set<Iaid>, i: Iaid)
    requires (forall j :: j in list ==> j in db) && i in Pick(db, list, now, pending)
    ensures db[i].state == Configured
  {
    var front := list[..|list| - 1];
    if i in Pick(db, front, now, pending) {
      PickedWereConfigured(db, front, now, pending, i);
    }
  }

  lemma CheckRenewOrphanIff(c: Client, pending: set<Iaid>, clk: Clock, i: Iaid)
    requires Listed(c)
    ensures Orphan(CheckRenew(c, pending, clk), i) <==> Orphan(c, i)
  {
    var ias := Pick(c.db, c.iaList, clk.now, pending);
    if T1Timeout(c.db, c.iaList, clk.now) == 0 && ias != [] {
      HoldersSnoc(c.trans, StartRenew(c, ias, clk).trans[|c.trans|], i);
      if i in ias {
        PickedWereConfigured(c.db, c.iaList, clk.now, pending, i);
      }
    }
  }

  /** After a pass the orphans are exactly those of before and the loose IAs of which an address has
      expired. */
  lemma RoundOrphanIff(c: Client, pending: set<Iaid>, clk: Clock, i: Iaid)
    requires Owned(c)
    ensures Orphan(Round(c, pending, clk), i) <==> Orphan(c, i) || (Loose(c, i) && HasDead(c.db[i], clk.now))
  {
    var e := Settle(c, clk);
    SettleOrphanIff(c, clk, i);
    CheckSolicitOrphanIff(e, e.ifaces, clk, i);
    CheckRenewOrphanIff(CheckSolicit(e, e.ifaces, clk), pending, clk, i);
  }

  // ---- messages ---------------------------------------------------------------------------------------------

  lemma ReplyOrphanIff(c: Client, k: nat, msg: Msg, clk: Clock, i: Iaid)
    requires Core(c) && c.cfg.Keys == c.db.Keys && k < |c.trans| && !c.trans[k].done
    ensures Orphan(AnswerReply(c, k, msg, clk), i) <==> Orphan(c, i) && !Granted(msg.ias, i)
  {
    var g := Grant(c, k, msg, clk.now);
    MergeAllStates(c, msg.ias, c.trans[k].iface, Some(msg.server), clk.now, i);
    GrantHolders(c, k, msg, clk.now, i);
    GrantKeepsPlaces(c, k, msg, clk.now);
    if g.trans[k].ias == [] {
      FinishHolders(g, k, i);
    } else {
      HandOverLoose(g, k, clk, i);
    }
    OthersBounds(c, k, i);
  }

  /** A RENEW whose reply renews neither this IA nor reports a missing binding lets the IA loose. */
  predicate LeftOut(c: Client, k: nat, msg: Msg, i: Iaid)
    requires k < |c.trans|
  {
    c.trans[k].kind == Renew && i in c.trans[k].ias && BeforeNoBinding(msg.ias) == msg.ias &&
    i in c.cfg && i in c.db && c.cfg[i].state == Configured && Unsettled(c.db[i])
  }

  lemma RenewHandOverOrphanIff(c: Client, k: nat, msg: Msg, clk: Clock, i: Iaid)
    requires AllPlaced(c.cfg, c.trans) && c.cfg.Keys == c.db.Keys && k < |c.trans| && !c.trans[k].done
    ensures Orphan(HandOver(Renewed(c, k, msg, clk.now), k, clk), i) <==>
            !Granted(BeforeNoBinding(msg.ias), i) && Orphan(c, i)
  {
    var b, t, g := BeforeNoBinding(msg.ias), c.trans[k], Renewed(c, k, msg, clk.now);
    MergeAllStates(c, b, t.iface, t.server, clk.now, i);
    MergeKeepsPlaces(c, b, t.iface, t.server, clk.now);
    HandOverLoose(g, k, clk, i);
  }

  lemma RenewFinishOrphanIff(c: Client, k: nat, msg: Msg, clk: Clock, i: Iaid)
    requires c.cfg.Keys == c.db.Keys && Exclusive(c, i) && BeforeNoBinding(msg.ias) == msg.ias
    requires k < |c.trans| && !c.trans[k].done && c.trans[k].kind == Renew
    ensures Orphan(Finish(Renewed(c, k, msg, clk.now), k), i) <==>
            !Granted(msg.ias, i) && (Orphan(c, i) || LeftOut(c, k, msg, i))
  {
    var t, g := c.trans[k], Renewed(c, k, msg, clk.now);
    MergeAllStates(c, msg.ias, t.iface, t.server, clk.now, i);
    OthersBounds(c, k, i);
    FinishHolders(g, k, i);
  }

  lemma RenewReplyOrphanIff(c: Client, k: nat, msg: Msg, clk: Clock, i: Iaid)
    requires AllPlaced(c.cfg, c.trans) && c.cfg.Keys == c.db.Keys && Exclusive(c, i)
    requires k < |c.trans| && !c.trans[k].done && c.trans[k].kind == Renew
    ensures Orphan(AnswerRenew(c, k, msg, clk), i) <==>
            !Granted(BeforeNoBinding(msg.ias), i) && (Orphan(c, i) || LeftOut(c, k, msg, i))
  {
    if |BeforeNoBinding(msg.ias)| < |msg.ias| {
      RenewHandOverOrphanIff(c, k, msg, clk, i);
    } else {
      RenewFinishOrphanIff(c, k, msg, clk, i);
    }
  }

  /**
    For an IA of a RENEW that its database has not CONFIGURED: the reply makes it an orphan exactly
    when it reports no missing binding and does not renew it.
   */
  lemma IgnoredByRenewReply(c: Client, k: nat, msg: Msg, clk: Clock, i: Iaid)
    requires Owned(c) && k < |c.trans| && !c.trans[k].done && c.trans[k].kind == Renew && i in c.trans[k].ias
    requires i in c.db && c.cfg[i].state == Configured && Unsettled(c.db[i])
    ensures Orphan(AnswerRenew(c, k, msg, clk), i) <==>
            BeforeNoBinding(msg.ias) == msg.ias && !Granted(msg.ias, i)
  {
    assert Exclusive(c, i);
    RenewReplyOrphanIff(c, k, msg, clk, i);
    OthersBounds(c, k, i);
  }

  lemma AdvertiseOrphanIff(c: Client, k: nat, msg: Msg, clk: Clock, i: Iaid)
    requires AllPlaced(c.cfg, c.trans) && k < |c.trans| && !c.trans[k].done
    ensures Orphan(AnswerAdvertise(c, k, msg, clk), i) <==> Orphan(c, i)
  {
    var noted := c.(ads := c.ads + [Advert(msg.pref, msg.server)]);
    assert Placed(noted.cfg, noted.trans[k]);
    HandOverLoose(noted, k, clk, i);
  }

  lemma SolicitAnswerOrphanIff(c: Client, k: nat, msg: Msg, clk: Clock, i: Iaid)
    requires Owned(c) && k < |c.trans| && !c.trans[k].done && c.trans[k].kind == Solicit
    ensures Orphan(Answer(c, k, msg, clk), i) <==> Orphan(c, i) && !Granted(Considered(c.trans[k], msg), i)
  {
    var t := c.trans[k];
    if !Rejects(t, msg) {
      if msg.kind == Advertise {
        AdvertiseOrphanIff(c, k, msg, clk, i);
      } else if msg.kind == Reply && t.rapid && msg.rapid {
        ReplyOrphanIff(c, k, msg, clk, i);
      }
    }
  }

  lemma AnswerOrphanIff(c: Client, k: nat, msg: Msg, clk: Clock, i: Iaid)
    requires Owned(c) && k < |c.trans| && !c.trans[k].done
    ensures Orphan(Answer(c, k, msg, clk), i) <==>
            !Granted(Considered(c.trans[k], msg), i) && (Orphan(c, i) || LeftOut(c, k, msg, i))
  {
    match c.trans[k].kind
    case Solicit => SolicitAnswerOrphanIff(c, k, msg, clk, i);
    case Request =>
      if !msg.notOnLink {
        ReplyOrphanIff(c, k, msg, clk, i);
      }
    case Renew =>
      assert Exclusive(c, i);
      RenewReplyOrphanIff(c, k, msg, clk, i);
    case Rebind => ReplyOrphanIff(c, k, msg, clk, i);
  }

  /** The message answers a transaction and grants the IA. */
  predicate Grants(c: Client, msg: Msg, i: Iaid) {
    var k := FindXid(c.trans, msg.xid);
    k >= 0 && Granted(Considered(c.trans[k], Parsed(msg)), i)
  }

  /** The message answers a RENEW and leaves the IA out. */
  predicate LeavesOut(c: Client, msg: Msg, i: Iaid) {
    var k := FindXid(c.trans, msg.xid);
    k >= 0 && LeftOut(c, k, Parsed(msg), i)
  }

  /** After a message the orphans are exactly those of before and the IAs that a reply to their RENEW
      leaves out, unless the message grants them. */
  lemma DeliverOrphanIff(c: Client, msg: Msg, clk: Clock, i: Iaid)
    requires Owned(c) && NoneDone(c.trans)
    ensures Orphan(Deliver(c, msg, clk), i) <==> !Grants(c, msg, i) && (Orphan(c, i) || LeavesOut(c, msg, i))
  {
    var k := FindXid(c.trans, msg.xid);
    if k >= 0 {
      AnswerOrphanIff(c, k, Parsed(msg), clk, i);
    }
  }

  // ---- for ever ------------------------------------------------------------------------------------------------

  lemma RoundOrphan(c: Client, pending: set<Iaid>, clk: Clock, i: Iaid)
    requires Listed(c) && Orphan(c, i)
    ensures Orphan(Round(c, pending, clk), i)
  {
    var d, e := DutiesFrom(c, 0, |c.trans|, clk), Settle(c, clk);
    DutiesFromLoose(c, 0, |c.trans|, clk, i);
    HoldersPurge(d.trans, i);
    CheckSolicitOrphanIff(e, e.ifaces, clk, i);
    CheckRenewOrphanIff(CheckSolicit(e, e.ifaces, clk), pending, clk, i);
  }

  lemma ReplyOrphan(c: Client, k: nat, msg: Msg, clk: Clock, i: Iaid)
    requires Orphan(c, i) && k < |c.trans| && !c.trans[k].done && !Granted(msg.ias, i)
    ensures Orphan(AnswerReply(c, k, msg, clk), i)
  {
    var t, g := c.trans[k], Grant(c, k, msg, clk.now);
    MergeAllStates(c, msg.ias, t.iface, Some(msg.server), clk.now, i);
    NotHeldByAny(c, k, i);
    if i in Leftover(t.ias, msg.ias) {
      LeftoverWasAsked(t.ias, msg.ias, i);
    }
    HoldersUpdate(c.trans, k, g.trans[k], i);
    FinishHolders(g, k, i);
    HandOverLoose(g, k, clk, i);
  }

  lemma RenewReplyOrphan(c: Client, k: nat, msg: Msg, clk: Clock, i: Iaid)
    requires Orphan(c, i) && k < |c.trans| && !c.trans[k].done && !Granted(BeforeNoBinding(msg.ias), i)
    ensures Orphan(AnswerRenew(c, k, msg, clk), i)
  {
    var g := Renewed(c, k, msg, clk.now);
    MergeAllStates(c, BeforeNoBinding(msg.ias), c.trans[k].iface, c.trans[k].server, clk.now, i);
    FinishHolders(g, k, i);
    OthersBounds(g, k, i);
    HandOverLoose(g, k, clk, i);
  }

  lemma AdvertiseOrphan(c: Client, k: nat, msg: Msg, clk: Clock, i: Iaid)
    requires Orphan(c, i) && k < |c.trans| && !c.trans[k].done
    ensures Orphan(AnswerAdvertise(c, k, msg, clk), i)
  {
    HandOverLoose(c.(ads := c.ads + [Advert(msg.pref, msg.server)]), k, clk, i);
  }

  lemma AnswerOrphan(c: Client, k: nat, msg: Msg, clk: Clock, i: Iaid)
    requires Orphan(c, i) && k < |c.trans| && !c.trans[k].done && !Granted(Considered(c.trans[k], msg), i)
    ensures Orphan(Answer(c, k, msg, clk), i)
  {
    var t := c.trans[k];
    match t.kind
    case Solicit =>
      if !Rejects(t, msg) {
        if msg.kind == Advertise {
          AdvertiseOrphan(c, k, msg, clk, i);
        } else if msg.kind == Reply && t.rapid && msg.rapid {
          ReplyOrphan(c, k, msg, clk, i);
        }
      }
    case Request =>
      if !msg.notOnLink {
        ReplyOrphan(c, k, msg, clk, i);
      }
    case Renew => RenewReplyOrphan(c, k, msg, clk, i);
    case Rebind => ReplyOrphan(c, k, msg, clk, i);
  }

  /** No message of the run grants the IA. */
  predicate NeverGranted(c: Client, turns: seq<Turn>, i: Iaid)
    requires Listed(c)
  {
    turns == [] ||
    (NeverGranted(c, turns[..|turns| - 1], i) &&
     (turns[|turns| - 1].msg.Some? ==> !Grants(BeforeMessage(c, turns), turns[|turns| - 1].msg.value, i)))
  }

  lemma OrphanTurn(c: Client, turn: Turn, i: Iaid)
    requires Listed(c) && Orphan(c, i)
    requires turn.msg.Some? ==> !Grants(Round(c, turn.pending, turn.clk), turn.msg.value, i)
    ensures var r := Round(c, turn.pending, turn.clk);
            Orphan(if turn.msg.Some? then Deliver(r, turn.msg.value, turn.arrival) else r, i)
  {
    var b := Round(c, turn.pending, turn.clk);
    RoundOrphan(c, turn.pending, turn.clk, i);
    RoundNoneDone(c, turn.pending, turn.clk);
    if turn.msg.Some? {
      DeliverOrphan(b, turn.msg.value, turn.arrival, i);
    }
  }

  lemma DeliverOrphan(c: Client, msg: Msg, clk: Clock, i: Iaid)
    requires Orphan(c, i) && NoneDone(c.trans) && !Grants(c, msg, i)
    ensures Orphan(Deliver(c, msg, clk), i)
  {
    var k := FindXid(c.trans, msg.xid);
    if k >= 0 {
      AnswerOrphan(c, k, Parsed(msg), clk, i);
    }
  }

  /** An orphan stays one as long as no message happens to grant it, whatever else is received: the
      client neither discovers nor renews it. */
  lemma {:induction false} OrphanForEver(c: Client, turns: seq<Turn>, i: Iaid)
    requires Listed(c) && Orphan(c, i) && NeverGranted(c, turns, i)
    ensures Orphan(RunOf(c, turns), i)
  {
    if turns != [] {
      OrphanForEver(c, turns[..|turns| - 1], i);
      OrphanTurn(RunOf(c, turns[..|turns| - 1]), turns[|turns| - 1], i);
    }
  }

  /** Servers that grant only what they were asked for never grant an orphan. */
  lemma {:induction false} OrphanIsNotAskedFor(c: Client, turns: seq<Turn>, i: Iaid)
    requires Listed(c) && Orphan(c, i) && AllSolicited(c, turns)
    ensures NeverGranted(c, turns, i)
  {
    if turns != [] {
      var front, turn := turns[..|turns| - 1], turns[|turns| - 1];
      OrphanIsNotAskedFor(c, front, i);
      OrphanForEver(c, front, i);
      var b := BeforeMessage(c, turns);
      RoundOrphan(RunOf(c, front), turn.pending, turn.clk, i);
      RoundNoneDone(RunOf(c, front), turn.pending, turn.clk);
      if turn.msg.Some? && FindXid(b.trans, turn.msg.value.xid) >= 0 {
        NotHeldByAny(b, FindXid(b.trans, turn.msg.value.xid), i);
      }
    }
  }

  /** Once its addresses have expired, the client does not even sleep any more because of it. */
  lemma ExpiredOrphanPolls(c: Client, out: Outside, now: nat, i: Iaid)
    requires Listed(c) && i in c.iaList && c.db[i].state == NotConfigured
    ensures SleepTime(c, out, now) == 0
  {
    InDeadlines(c.db[i], now);
    assert 0 in Deadlines(c.db[i], now);
    SleepBeforeAll(c, out, now, 0);
  }
}
