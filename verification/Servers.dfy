/**
  Whether an IA knows its server: RENEW and RELEASE are sent to the server that an IA stores, and
  a merge stores it only together with a new address.
 */
module Servers {
  import opened Containers
  import opened Leases
  import opened Advertises
  import opened Retransmission
  import opened Protocol
  import opened Replies
  import opened Runs
  import opened Orphans

  /** An IA with addresses, or one to be renewed, knows its server. */
  predicate HasServer(ia: IA) {
    ia.leases != [] || ia.state == Configured ==> ia.server.Some?
  }

  /** So do all IAs of the database, and every RENEW. */
  predicate Equipped(c: Client) {
    (forall i :: i in c.db ==> HasServer(c.db[i])) && AllAddressed(c.trans)
  }

  predicate Addressed(t: Trans) {
    t.kind == Renew ==> t.server.Some?
  }

  predicate AllAddressed(trans: seq<Trans>) {
    forall k :: 0 <= k < |trans| ==> Addressed(trans[k])
  }

  // ---- transactions ---------------------------------------------------------------------------------------------

  /** The database is the same, and so is whether every RENEW has a server. */
  predicate SameServers(c: Client, r: Client) {
    r.db == c.db && (AllAddressed(r.trans) <==> AllAddressed(c.trans))
  }

  lemma UpdateSameServers(c: Client, k: nat, t: Trans)
    requires k < |c.trans| && t.kind == c.trans[k].kind && t.server == c.trans[k].server
    ensures SameServers(c, c.(trans := c.trans[k := t]))
  {
    var r := c.(trans := c.trans[k := t]);
    if AllAddressed(r.trans) {
      forall j | 0 <= j < |c.trans|
        ensures Addressed(c.trans[j])
      {
        assert Addressed(r.trans[j]);
      }
    }
  }

  lemma FinishSameServers(c: Client, k: nat)
    requires k < |c.trans|
    ensures SameServers(c, Finish(c, k))
  {
    UpdateSameServers(c, k, c.trans[k].(done := true));
  }

  lemma AppendedSameServers(trans: seq<Trans>, t: Trans)
    requires t.kind != Renew
    ensures AllAddressed(trans + [t]) <==> AllAddressed(trans)
  {
    if AllAddressed(trans + [t]) {
      forall j | 0 <= j < |trans|
        ensures Addressed(trans[j])
      {
        assert Addressed((trans + [t])[j]);
      }
    }
  }

  lemma SendRequestSameServers(c: Client, ias: seq<Iaid>, iface: IfaceId, clk: Clock)
    ensures SameServers(c, SendRequest(c, ias, iface, clk))
  {
    AppendedSameServers(c.trans, SendRequest(c, ias, iface, clk).trans[|c.trans|]);
  }

  lemma SendRebindSameServers(c: Client, ias: seq<Iaid>, iface: IfaceId, clk: Clock)
    ensures SameServers(c, SendRebind(c, ias, iface, clk))
  {
    AppendedSameServers(c.trans, SendRebind(c, ias, iface, clk).trans[|c.trans|]);
  }

  // ---- a pass -------------------------------------------------------------------------------------------------

  lemma {:induction false} ReleaseEquips(c: Client, ias: seq<Iaid>)
    requires Equipped(c)
    ensures Equipped(ReleaseAll(c, ias))
  {
    if ias != [] {
      ReleaseEquips(c, ias[..|ias| - 1]);
    }
  }

  lemma DutiesEquip(c: Client, k: nat, clk: Clock)
    requires Equipped(c) && k < |c.trans|
    ensures Equipped(Duties(c, k, clk))
  {
    var t := c.trans[k];
    if Duties(c, k, clk) == Retransmit(c, k, clk) {
      UpdateSameServers(c, k, t.(timer := Transmit(t.timer, clk)));
    } else if t.kind == Solicit || t.kind == Request {
      SendRequestSameServers(c, t.ias, t.iface, clk);
      FinishSameServers(SendRequest(c, t.ias, t.iface, clk), k);
    } else if t.kind == Renew {
      SendRebindSameServers(c, t.ias, t.iface, clk);
      FinishSameServers(SendRebind(c, t.ias, t.iface, clk), k);
    } else {
      ReleaseEquips(c, t.ias);
      FinishSameServers(ReleaseAll(c, t.ias), k);
    }
  }

  lemma {:induction false} DutiesFromEquip(c: Client, k: nat, n: nat, clk: Clock)
    requires Equipped(c) && k <= n <= |c.trans|
    ensures Equipped(DutiesFrom(c, k, n, clk))
    decreases n - k
  {
    if k < n {
      if Due(c.trans[k], clk.now) {
        DutiesEquip(c, k, clk);
        DutiesFromEquip(Duties(c, k, clk), k + 1, n, clk);
      } else {
        DutiesFromEquip(c, k + 1, n, clk);
      }
    }
  }

  lemma PurgeEquips(c: Client)
    requires Equipped(c)
    ensures Equipped(Purge(c))
  {
    var r := Purge(c);
    forall k | 0 <= k < |r.trans|
      ensures Addressed(r.trans[k])
    {
      assert r.trans[k] in r.trans && r.trans[k] in c.trans;
    }
  }

  lemma ExpiryEquips(c: Client, now: nat)
    requires Listed(c) && Equipped(c)
    ensures Equipped(ExpireDb(RemoveExpired(c, now), now))
  {
    var r := ExpireDb(RemoveExpired(c, now), now);
    forall i | i in r.db
      ensures HasServer(r.db[i])
    {
      if c.db[i].leases == [] {
        assert Expired(c.db[i], now) == c.db[i];
      }
    }
  }

  lemma SettleEquips(c: Client, clk: Clock)
    requires Listed(c) && Equipped(c)
    ensures Equipped(Settle(c, clk))
  {
    var d := DutiesFrom(c, 0, |c.trans|, clk);
    DutiesFromEquip(c, 0, |c.trans|, clk);
    PurgeEquips(d);
    ExpiryEquips(Purge(d), clk.now);
  }

  lemma SolicitEquips(c: Client, f: CfgIface, clk: Clock)
    requires Equipped(c)
    ensures Equipped(SolicitOn(c, f, clk))
  {
  }

  lemma {:induction false} CheckSolicitEquips(c: Client, ifaces: seq<CfgIface>, clk: Clock)
    requires Equipped(c)
    ensures Equipped(CheckSolicit(c, ifaces, clk))
  {
    if ifaces != [] {
      CheckSolicitEquips(c, ifaces[..|ifaces| - 1], clk);
      SolicitEquips(CheckSolicit(c, ifaces[..|ifaces| - 1], clk), ifaces[|ifaces| - 1], clk);
    }
  }

  lemma RenewEquips(c: Client, pending: set<Iaid>, clk: Clock)
    requires Listed(c) && Equipped(c)
    ensures Equipped(CheckRenew(c, pending, clk))
  {
    var ias := Pick(c.db, c.iaList, clk.now, pending);
    if ias != [] {
      PickedWereConfigured(c.db, c.iaList, clk.now, pending, ias[0]);
      assert HasServer(c.db[ias[0]]);
    }
  }

  /** One pass of the transaction manager. */
  lemma RoundEquips(c: Client, pending: set<Iaid>, clk: Clock)
    requires Listed(c) && Equipped(c)
    ensures Equipped(Round(c, pending, clk))
  {
    var e := Settle(c, clk);
    SettleEquips(c, clk);
    CheckSolicitEquips(e, e.ifaces, clk);
    RenewEquips(CheckSolicit(e, e.ifaces, clk), pending, clk);
  }

  // ---- a message --------------------------------------------------------------------------------------------------

  /** The received addresses contain one to be added to an empty list. */
  predicate Usable(recv: seq<RecvAddr>) {
    exists j :: 0 <= j < |recv| && recv[j].valid != 0
  }

  lemma {:induction false} AddedStays(m: Merge, recv: seq<RecvAddr>, iface: IfaceId, now: nat)
    requires m.added
    ensures MergeAddrs(m, recv, iface, now).added
    decreases |recv|
  {
    if recv != [] {
      var step := MergeAddr(m, recv[0], iface, now);
      if !step.last {
        AddedStays(step.after, recv[1..], iface, now);
      }
    }
  }

  /** Of an empty address list. */
  lemma {:induction false} AddedIff(installed: Installed, recv: seq<RecvAddr>, iface: IfaceId, now: nat)
    ensures var r := MergeAddrs(Merge([], installed, false), recv, iface, now);
            (r.added <==> Usable(recv)) && (!r.added ==> r.leases == [])
    decreases |recv|
  {
    var m := Merge([], installed, false);
    if recv != [] {
      if recv[0].valid == 0 {
        AddedIff(installed, recv[1..], iface, now);
        assert MergeAddrs(m, recv, iface, now) == MergeAddrs(m, recv[1..], iface, now);
        assert forall j :: 0 < j < |recv| ==> recv[j] == recv[1..][j - 1];
      } else {
        AddedStays(MergeAddr(m, recv[0], iface, now).after, recv[1..], iface, now);
      }
    }
  }

  /** An IA without server has no addresses. */
  predicate Blank(ia: IA) {
    ia.server.None? ==> ia.leases == []
  }

  lemma MergeEquipsIff(c: Client, r: RecvIA, iface: IfaceId, s: Server, now: nat)
    requires r.iaid in c.db && Blank(c.db[r.iaid])
    ensures var ia := MergeIA(c, r, iface, Some(s), now).db[r.iaid];
            (ia.server.Some? <==> c.db[r.iaid].server.Some? || Usable(r.addrs)) && Blank(ia)
  {
    AddedIff(c.installed, r.addrs, iface, now);
  }

  /** The message grants the IA together with an address. */
  predicate Carries(ias: seq<RecvIA>, i: Iaid) {
    exists j :: 0 <= j < |ias| && ias[j].iaid == i && ias[j].status == STATUS_SUCCESS && Usable(ias[j].addrs)
  }

  lemma CarriesSnoc(ias: seq<RecvIA>, i: Iaid)
    requires ias != []
    ensures var last := ias[|ias| - 1];
            Carries(ias, i) <==>
            Carries(ias[..|ias| - 1], i) || (last.iaid == i && last.status == STATUS_SUCCESS && Usable(last.addrs))
  {
    var front := ias[..|ias| - 1];
    if Carries(front, i) {
      var j :| 0 <= j < |front| && front[j].iaid == i && front[j].status == STATUS_SUCCESS && Usable(front[j].addrs);
      assert ias[j] == front[j];
    }
    if Carries(ias, i) {
      var j :| 0 <= j < |ias| && ias[j].iaid == i && ias[j].status == STATUS_SUCCESS && Usable(ias[j].addrs);
      assert j < |front| ==> front[j] == ias[j];
    }
  }

  /** After a message an IA knows a server exactly when it did before or was granted an address. */
  lemma {:induction false} MergeAllServer(c: Client, ias: seq<RecvIA>, iface: IfaceId, s: Server, now: nat, i: Iaid)
    requires i in c.db && Blank(c.db[i])
    ensures var ia := MergeAll(c, ias, iface, Some(s), now).db[i];
            (ia.server.Some? <==> c.db[i].server.Some? || Carries(ias, i)) && Blank(ia)
  {
    if ias != [] {
      var front, last := ias[..|ias| - 1], ias[|ias| - 1];
      MergeAllServer(c, front, iface, s, now, i);
      CarriesSnoc(ias, i);
      if last.status == STATUS_SUCCESS && last.iaid == i {
        MergeEquipsIff(MergeAll(c, front, iface, Some(s), now), last, iface, s, now);
      }
    }
  }

  /** Every known IA that is granted and knows no server is granted an address. */
  predicate AllFed(db: map<Iaid, IA>, ias: seq<RecvIA>) {
    forall i :: i in db && db[i].server.None? && Granted(ias, i) ==> Carries(ias, i)
  }

  lemma MergeAllEquipsIff(c: Client, ias: seq<RecvIA>, iface: IfaceId, s: Server, now: nat)
    requires Equipped(c)
    ensures Equipped(MergeAll(c, ias, iface, Some(s), now)) <==> AllFed(c.db, ias)
  {
    var r := MergeAll(c, ias, iface, Some(s), now);
    forall i | i in c.db
      ensures HasServer(r.db[i]) <==> (c.db[i].server.None? && Granted(ias, i) ==> Carries(ias, i))
    {
      assert HasServer(c.db[i]);
      MergeAllStates(c, ias, iface, Some(s), now, i);
      MergeAllServer(c, ias, iface, s, now, i);
    }
  }

  lemma ReplyEquipsIff(c: Client, k: nat, msg: Msg, clk: Clock)
    requires Equipped(c) && k < |c.trans|
    ensures Equipped(AnswerReply(c, k, msg, clk)) <==> AllFed(c.db, msg.ias)
  {
    var t := c.trans[k];
    var m := MergeAll(c, msg.ias, t.iface, Some(msg.server), clk.now);
    var g := Grant(c, k, msg, clk.now);
    MergeAllEquipsIff(c, msg.ias, t.iface, msg.server, clk.now);
    UpdateSameServers(m, k, t.(ias := Leftover(t.ias, msg.ias)));
    FinishSameServers(g, k);
    SendRequestSameServers(g, g.trans[k].ias, t.iface, clk);
    FinishSameServers(SendRequest(g, g.trans[k].ias, t.iface, clk), k);
  }

  lemma RenewReplyEquipsIff(c: Client, k: nat, msg: Msg, clk: Clock)
    requires Equipped(c) && k < |c.trans| && c.trans[k].kind == Renew
    ensures Equipped(AnswerRenew(c, k, msg, clk)) <==> AllFed(c.db, BeforeNoBinding(msg.ias))
  {
    var t, g := c.trans[k], Renewed(c, k, msg, clk.now);
    assert Addressed(t);
    MergeAllEquipsIff(c, BeforeNoBinding(msg.ias), t.iface, t.server.value, clk.now);
    FinishSameServers(g, k);
    SendRequestSameServers(g, t.ias, t.iface, clk);
    FinishSameServers(SendRequest(g, t.ias, t.iface, clk), k);
  }

  lemma AdvertiseEquips(c: Client, k: nat, msg: Msg, clk: Clock)
    requires Equipped(c) && k < |c.trans|
    ensures Equipped(AnswerAdvertise(c, k, msg, clk))
  {
    var noted := c.(ads := c.ads + [Advert(msg.pref, msg.server)]);
    SendRequestSameServers(noted, c.trans[k].ias, c.trans[k].iface, clk);
    FinishSameServers(SendRequest(noted, c.trans[k].ias, c.trans[k].iface, clk), k);
  }

  lemma SolicitAnswerEquipsIff(c: Client, k: nat, msg: Msg, clk: Clock)
    requires Equipped(c) && k < |c.trans| && c.trans[k].kind == Solicit
    ensures Equipped(Answer(c, k, msg, clk)) <==> AllFed(c.db, Considered(c.trans[k], msg))
  {
    var t := c.trans[k];
    if !Rejects(t, msg) {
      if msg.kind == Advertise {
        AdvertiseEquips(c, k, msg, clk);
      } else if msg.kind == Reply && t.rapid && msg.rapid {
        ReplyEquipsIff(c, k, msg, clk);
      }
    }
  }

  lemma AnswerEquipsIff(c: Client, k: nat, msg: Msg, clk: Clock)
    requires Equipped(c) && k < |c.trans|
    ensures Equipped(Answer(c, k, msg, clk)) <==> AllFed(c.db, Considered(c.trans[k], msg))
  {
    match c.trans[k].kind
    case Solicit => SolicitAnswerEquipsIff(c, k, msg, clk);
    case Request =>
      if !msg.notOnLink {
        ReplyEquipsIff(c, k, msg, clk);
      }
    case Renew => RenewReplyEquipsIff(c, k, msg, clk);
    case Rebind => ReplyEquipsIff(c, k, msg, clk);
  }

  predicate Feeds(c: Client, msg: Msg) {
    var k := FindXid(c.trans, msg.xid);
    k >= 0 ==> AllFed(c.db, Considered(c.trans[k], Parsed(msg)))
  }

  /** A message keeps every IA with addresses, and every one to be renewed, equipped exactly when it
      grants no IA without server empty-handed. */
  lemma DeliverEquipsIff(c: Client, msg: Msg, clk: Clock)
    requires Equipped(c)
    ensures Equipped(Deliver(c, msg, clk)) <==> Feeds(c, msg)
  {
    var k := FindXid(c.trans, msg.xid);
    if k >= 0 {
      AnswerEquipsIff(c, k, Parsed(msg), clk);
    }
  }

  // ---- whole runs ---------------------------------------------------------------------------------------------------

  predicate AllFeed(c: Client, turns: seq<Turn>)
    requires Listed(c)
  {
    turns == [] ||
    (AllFeed(c, turns[..|turns| - 1]) &&
     (turns[|turns| - 1].msg.Some? ==> Feeds(BeforeMessage(c, turns), turns[|turns| - 1].msg.value)))
  }

  predicate AlwaysEquipped(c: Client, turns: seq<Turn>)
    requires Listed(c)
  {
    Equipped(RunOf(c, turns)) && (turns != [] ==> AlwaysEquipped(c, turns[..|turns| - 1]))
  }

  /** Throughout a run every IA with addresses, and every RENEW, has a server exactly when no message
      grants an IA without server empty-handed. */
  lemma {:induction false} RunEquipsIff(c: Client, turns: seq<Turn>)
    requires Listed(c) && Equipped(c)
    ensures AlwaysEquipped(c, turns) <==> AllFeed(c, turns)
  {
    if turns != [] {
      var front, turn := turns[..|turns| - 1], turns[|turns| - 1];
      RunEquipsIff(c, front);
      if AlwaysEquipped(c, front) {
        RoundEquips(RunOf(c, front), turn.pending, turn.clk);
        if turn.msg.Some? {
          DeliverEquipsIff(BeforeMessage(c, turns), turn.msg.value, turn.arrival);
        }
      }
    }
  }
}
