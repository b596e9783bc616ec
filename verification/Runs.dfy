/**
  Whole runs of the client: passes of the transaction manager alternating with received messages
  (the loop of Misc/DHCPClient.cpp).
 */
module Runs {
  import opened Containers
  import opened Leases
  import opened Advertises
  import opened Retransmission
  import opened Protocol
  import opened Ownership
  import opened Replies

  // ---- one message -----------------------------------------------------------------------------------

  /** The received IAs that the answered transaction looks at. */
  function Considered(t: Trans, msg: Msg): seq<RecvIA> {
    match t.kind
    case Solicit => if !Rejects(t, msg) && msg.kind == Reply && t.rapid && msg.rapid then msg.ias else []
    case Request => if msg.notOnLink then [] else msg.ias
    case Renew => BeforeNoBinding(msg.ias)
    case Rebind => msg.ias
  }

  /** Nobody else holds what the message grants, and a RENEW does not hand on what it was granted. */
  ghost predicate Harmless(c: Client, k: nat, msg: Msg)
    requires k < |c.trans|
  {
    OnlyOwn(c, k, Considered(c.trans[k], msg)) && (c.trans[k].kind == Renew ==> NoneHandedOn(c, k, msg.ias))
  }

  lemma AnswerAdvertiseKeeps(c: Client, k: nat, msg: Msg, clk: Clock)
    requires Owned(c) && k < |c.trans| && !c.trans[k].done
    ensures Owned(AnswerAdvertise(c, k, msg, clk))
  {
    var noted := c.(ads := c.ads + [Advert(msg.pref, msg.server)]);
    SameHolders(c, noted);
    OnlyTransactionsChange(c, noted);
    HandOverKeepsCore(noted, k, clk);
    HandOverKeepsIdle(noted, k, clk);
    HandOverKeepsWellFormed(noted, k, clk);
  }

  lemma SolicitAnswerKeepsIff(c: Client, k: nat, msg: Msg, clk: Clock)
    requires Owned(c) && k < |c.trans| && !c.trans[k].done && c.trans[k].kind == Solicit
    ensures Owned(Answer(c, k, msg, clk)) <==> OnlyOwn(c, k, Considered(c.trans[k], msg))
  {
    var t := c.trans[k];
    if !Rejects(t, msg) {
      if msg.kind == Advertise {
        AnswerAdvertiseKeeps(c, k, msg, clk);
      } else if msg.kind == Reply && t.rapid && msg.rapid {
        AnswerReplyKeeps(c, k, msg, clk);
      }
    }
  }

  /** An answer keeps the invariant exactly when it is harmless. */
  lemma AnswerKeepsIff(c: Client, k: nat, msg: Msg, clk: Clock)
    requires Owned(c) && k < |c.trans| && !c.trans[k].done
    ensures Owned(Answer(c, k, msg, clk)) <==> Harmless(c, k, msg)
  {
    var t := c.trans[k];
    match t.kind
    case Solicit => SolicitAnswerKeepsIff(c, k, msg, clk);
    case Request =>
      if !msg.notOnLink {
        AnswerReplyKeeps(c, k, msg, clk);
      }
    case Renew => AnswerRenewKeeps(c, k, msg, clk);
    case Rebind => AnswerReplyKeeps(c, k, msg, clk);
  }

  ghost predicate HarmlessMsg(c: Client, msg: Msg) {
    var k := FindXid(c.trans, msg.xid);
    k >= 0 ==> Harmless(c, k, Parsed(msg))
  }

  /** A received message keeps the invariant exactly when it is harmless. */
  lemma DeliverKeepsIff(c: Client, msg: Msg, clk: Clock)
    requires Owned(c) && NoneDone(c.trans)
    ensures Owned(Deliver(c, msg, clk)) <==> HarmlessMsg(c, msg)
  {
    var k := FindXid(c.trans, msg.xid);
    if k >= 0 {
      AnswerKeepsIff(c, k, Parsed(msg), clk);
    }
  }

  // ---- whole runs ------------------------------------------------------------------------------------

  /** One turn of the client's loop: a pass at `clk`, then perhaps a message at `arrival`. */
  datatype Turn = Turn(pending: set<Iaid>, clk: Clock, msg: Option<Msg>, arrival: Clock)

  function RunOf(c: Client, turns: seq<Turn>): (r: Client)
    requires Listed(c)
    ensures SameShape(c, r)
  {
    if turns == [] then c
    else
      var turn := turns[|turns| - 1];
      var r := Round(RunOf(c, turns[..|turns| - 1]), turn.pending, turn.clk);
      if turn.msg.Some? then Deliver(r, turn.msg.value, turn.arrival) else r
  }

  ghost predicate AlwaysOwned(c: Client, turns: seq<Turn>)
    requires Listed(c)
  {
    Owned(RunOf(c, turns)) && (turns != [] ==> AlwaysOwned(c, turns[..|turns| - 1]))
  }

  /** The client just before the message of the last turn. */
  function BeforeMessage(c: Client, turns: seq<Turn>): (r: Client)
    requires Listed(c) && turns != []
    ensures SameShape(c, r)
  {
    Round(RunOf(c, turns[..|turns| - 1]), turns[|turns| - 1].pending, turns[|turns| - 1].clk)
  }

  ghost predicate AllHarmless(c: Client, turns: seq<Turn>)
    requires Listed(c)
  {
    turns == [] ||
    (AllHarmless(c, turns[..|turns| - 1]) &&
     (turns[|turns| - 1].msg.Some? ==> HarmlessMsg(BeforeMessage(c, turns), turns[|turns| - 1].msg.value)))
  }

  /** The invariant holds throughout a run exactly when every message of the run is harmless. */
  lemma {:induction false} RunKeepsIff(c: Client, turns: seq<Turn>)
    requires Owned(c)
    ensures AlwaysOwned(c, turns) <==> AllHarmless(c, turns)
  {
    if turns != [] {
      var front, turn := turns[..|turns| - 1], turns[|turns| - 1];
      RunKeepsIff(c, front);
      if AlwaysOwned(c, front) {
        RoundKeeps(RunOf(c, front), turn.pending, turn.clk);
        if turn.msg.Some? {
          DeliverKeepsIff(BeforeMessage(c, turns), turn.msg.value, turn.arrival);
        }
      }
    }
  }

  /** A message that grants only what its transaction asks for; to a RENEW it does not report a
      missing binding after a success while other servers are known. */
  ghost predicate Solicited(c: Client, msg: Msg) {
    var k := FindXid(c.trans, msg.xid);
    k >= 0 ==>
      var t, ias := c.trans[k], Considered(c.trans[k], Parsed(msg));
      (forall i :: i in c.db && Granted(ias, i) ==> i in t.ias) &&
      (t.kind == Renew ==> |ias| == |Parsed(msg).ias| || c.ads == [] || forall i :: i in c.db ==> !Granted(ias, i))
  }

  lemma SolicitedIsHarmless(c: Client, msg: Msg)
    requires Owned(c) && NoneDone(c.trans) && Solicited(c, msg)
    ensures HarmlessMsg(c, msg)
  {
    var k := FindXid(c.trans, msg.xid);
    if k >= 0 {
      forall i | i in c.db && Granted(Considered(c.trans[k], Parsed(msg)), i)
        ensures Others(c, k, i) == 0
      {
        assert Exclusive(c, i);
        OthersBounds(c, k, i);
      }
    }
  }

  ghost predicate AllSolicited(c: Client, turns: seq<Turn>)
    requires Listed(c)
  {
    turns == [] ||
    (AllSolicited(c, turns[..|turns| - 1]) &&
     (turns[|turns| - 1].msg.Some? ==> Solicited(BeforeMessage(c, turns), turns[|turns| - 1].msg.value)))
  }

  /** Servers that answer only what they were asked cannot make the client break its ownership. */
  lemma {:induction false} RunKeepsOwnership(c: Client, turns: seq<Turn>)
    requires Owned(c) && AllSolicited(c, turns)
    ensures AlwaysOwned(c, turns)
  {
    if turns != [] {
      var front, turn := turns[..|turns| - 1], turns[|turns| - 1];
      RunKeepsOwnership(c, front);
      RoundKeeps(RunOf(c, front), turn.pending, turn.clk);
      if turn.msg.Some? {
        SolicitedIsHarmless(BeforeMessage(c, turns), turn.msg.value);
        DeliverKeepsIff(BeforeMessage(c, turns), turn.msg.value, turn.arrival);
      }
    }
  }

  /** The client after start-up without a stored database: every IA waits to be discovered. */
  ghost predicate Initial(c: Client) {
    WellFormed(c) && c.trans == [] &&
    (forall i :: i in c.cfg ==> c.cfg[i].state == NotConfigured) &&
    (forall i :: i in c.db ==> c.db[i].state == NotConfigured)
  }

  lemma OwnedAtEnd(c: Client, turns: seq<Turn>) returns (end: Client)
    requires Initial(c) && AllSolicited(c, turns)
    ensures end == RunOf(c, turns) && Owned(end)
  {
    RunKeepsOwnership(c, turns);
    end := RunOf(c, turns);
  }

  /** In every run from the start, no two live transactions hold the same IA. */
  lemma NeverTwoHolders(c: Client, turns: seq<Turn>, j: nat, k: nat, i: Iaid)
    requires Initial(c) && AllSolicited(c, turns)
    requires var r := RunOf(c, turns);
             j < k < |r.trans| && !r.trans[j].done && !r.trans[k].done
    ensures !(i in RunOf(c, turns).trans[j].ias && i in RunOf(c, turns).trans[k].ias)
  {
    var end := OwnedAtEnd(c, turns);
    DistinctHolders(end, j, k, i);
  }

  lemma UnheldWhenStarted(c: Client, i: Iaid)
    requires Owned(c)
    ensures forall f :: f in c.ifaces && i in NotConfiguredIAs(c, f) ==> Holders(c.trans, i) == 0
    ensures forall now, pending :: i in Pick(c.db, c.iaList, now, pending) ==> Holders(c.trans, i) == 0
  {
    assert Exclusive(c, i) && Idle(c, i);
    forall now, pending | i in Pick(c.db, c.iaList, now, pending)
      ensures Holders(c.trans, i) == 0
    {
      PickedAreRenewable(c.db, c.iaList, now, pending);
    }
  }

  /** In every run from the start, a pass starts the SOLICIT of an interface and the RENEW only
      for IAs that no transaction holds at that moment. */
  lemma StartedOnlyForUnheld(c: Client, turns: seq<Turn>, pending: set<Iaid>, clk: Clock, n: nat, i: Iaid)
    requires Initial(c) && AllSolicited(c, turns)
    ensures var e := Settle(RunOf(c, turns), clk);
            var s := CheckSolicit(e, e.ifaces, clk);
            (n < |e.ifaces| && i in NotConfiguredIAs(CheckSolicit(e, e.ifaces[..n], clk), e.ifaces[n]) ==>
               Holders(CheckSolicit(e, e.ifaces[..n], clk).trans, i) == 0) &&
            (i in Pick(s.db, s.iaList, clk.now, pending) ==> Holders(s.trans, i) == 0)
  {
    RunKeepsOwnership(c, turns);
    var e := Settle(RunOf(c, turns), clk);
    SettleKeeps(RunOf(c, turns), clk);
    CheckSolicitKeeps(e, e.ifaces, clk);
    UnheldWhenStarted(CheckSolicit(e, e.ifaces, clk), i);
    if n < |e.ifaces| {
      CheckSolicitKeeps(e, e.ifaces[..n], clk);
      UnheldWhenStarted(CheckSolicit(e, e.ifaces[..n], clk), i);
    }
  }

  // ---- configuration and database list the same IAs, whoever holds them -------------------------------------------

  lemma DutiesKeepWellFormed(c: Client, k: nat, clk: Clock)
    requires WellFormed(c) && k < |c.trans|
    ensures WellFormed(Duties(c, k, clk))
  {
    var t := c.trans[k];
    if (t.kind == Solicit && c.ads != []) || (t.kind == Request && t.timer.rc > t.timer.mrc) {
      HandOverKeepsWellFormed(c, k, clk);
    } else if t.kind == Renew && t.timer.mrd == 0 {
      OnlyTransactionsChange(c, Finish(SendRebind(c, t.ias, t.iface, clk), k));
    } else if t.kind == Rebind && t.timer.mrd == 0 {
      ReleaseKeepsWellFormed(c, k);
    } else {
      OnlyTransactionsChange(c, Retransmit(c, k, clk));
    }
  }

  lemma {:induction false} DutiesFromKeepWellFormed(c: Client, k: nat, n: nat, clk: Clock) returns (end: Client)
    requires WellFormed(c) && k <= n <= |c.trans|
    ensures end == DutiesFrom(c, k, n, clk) && WellFormed(end)
    decreases n - k
  {
    if k == n {
      end := c;
    } else if Due(c.trans[k], clk.now) {
      DutiesKeepWellFormed(c, k, clk);
      end := DutiesFromKeepWellFormed(Duties(c, k, clk), k + 1, n, clk);
    } else {
      end := DutiesFromKeepWellFormed(c, k + 1, n, clk);
    }
  }

  lemma {:induction false} CheckSolicitKeepsWellFormed(c: Client, ifaces: seq<CfgIface>, clk: Clock)
    requires WellFormed(c)
    ensures WellFormed(CheckSolicit(c, ifaces, clk))
  {
    if ifaces != [] {
      var b, f := CheckSolicit(c, ifaces[..|ifaces| - 1], clk), ifaces[|ifaces| - 1];
      CheckSolicitKeepsWellFormed(c, ifaces[..|ifaces| - 1], clk);
      SolicitKeepsWellFormed(b, f, NotConfiguredIAs(b, f), clk);
    }
  }

  lemma CheckRenewKeepsWellFormed(c: Client, pending: set<Iaid>, clk: Clock)
    requires WellFormed(c)
    ensures WellFormed(CheckRenew(c, pending, clk))
  {
    ShapeKeepsWellFormed(c, CheckRenew(c, pending, clk));
  }

  lemma ExpiryKeepsWellFormed(c: Client, now: nat)
    requires WellFormed(c)
    ensures WellFormed(ExpireDb(RemoveExpired(c, now), now))
  {
    ShapeKeepsWellFormed(c, ExpireDb(RemoveExpired(c, now), now));
  }

  lemma SettleKeepsWellFormed(c: Client, clk: Clock)
    requires WellFormed(c)
    ensures WellFormed(Settle(c, clk))
  {
    var d := DutiesFromKeepWellFormed(c, 0, |c.trans|, clk);
    OnlyTransactionsChange(d, Purge(d));
    ExpiryKeepsWellFormed(Purge(d), clk.now);
  }

  lemma RoundKeepsWellFormed(c: Client, pending: set<Iaid>, clk: Clock)
    requires WellFormed(c)
    ensures WellFormed(Round(c, pending, clk))
  {
    var e := Settle(c, clk);
    SettleKeepsWellFormed(c, clk);
    CheckSolicitKeepsWellFormed(e, e.ifaces, clk);
    CheckRenewKeepsWellFormed(CheckSolicit(e, e.ifaces, clk), pending, clk);
  }

  lemma ReplyKeepsWellFormed(c: Client, k: nat, msg: Msg, clk: Clock)
    requires WellFormed(c) && k < |c.trans|
    ensures WellFormed(AnswerReply(c, k, msg, clk))
  {
    var m, g := MergeAll(c, msg.ias, c.trans[k].iface, Some(msg.server), clk.now), Grant(c, k, msg, clk.now);
    MergeKeepsWellFormed(c, msg.ias, c.trans[k].iface, Some(msg.server), clk.now);
    OnlyTransactionsChange(m, g);
    if g.trans[k].ias == [] {
      assert AnswerReply(c, k, msg, clk) == Finish(g, k);
      OnlyTransactionsChange(g, Finish(g, k));
    } else {
      assert AnswerReply(c, k, msg, clk) == HandOver(g, k, clk);
      HandOverKeepsWellFormed(g, k, clk);
    }
  }

  lemma RenewReplyKeepsWellFormed(c: Client, k: nat, msg: Msg, clk: Clock)
    requires WellFormed(c) && k < |c.trans|
    ensures WellFormed(AnswerRenew(c, k, msg, clk))
  {
    var g := Renewed(c, k, msg, clk.now);
    MergeKeepsWellFormed(c, BeforeNoBinding(msg.ias), c.trans[k].iface, c.trans[k].server, clk.now);
    OnlyTransactionsChange(g, Finish(g, k));
    HandOverKeepsWellFormed(g, k, clk);
  }

  lemma AdvertiseKeepsWellFormed(c: Client, k: nat, msg: Msg, clk: Clock)
    requires WellFormed(c) && k < |c.trans|
    ensures WellFormed(AnswerAdvertise(c, k, msg, clk))
  {
    var noted := c.(ads := c.ads + [Advert(msg.pref, msg.server)]);
    OnlyTransactionsChange(c, noted);
    HandOverKeepsWellFormed(noted, k, clk);
  }

  lemma SolicitAnswerKeepsWellFormed(c: Client, k: nat, msg: Msg, clk: Clock)
    requires WellFormed(c) && k < |c.trans| && c.trans[k].kind == Solicit
    ensures WellFormed(Answer(c, k, msg, clk))
  {
    if !Rejects(c.trans[k], msg) && msg.kind == Advertise {
      AdvertiseKeepsWellFormed(c, k, msg, clk);
    } else if !Rejects(c.trans[k], msg) {
      ReplyKeepsWellFormed(c, k, msg, clk);
    }
  }

  lemma DeliverKeepsWellFormed(c: Client, msg: Msg, clk: Clock)
    requires WellFormed(c)
    ensures WellFormed(Deliver(c, msg, clk))
  {
    var k := FindXid(c.trans, msg.xid);
    if k >= 0 {
      match c.trans[k].kind
      case Solicit => SolicitAnswerKeepsWellFormed(c, k, Parsed(msg), clk);
      case Request => ReplyKeepsWellFormed(c, k, Parsed(msg), clk);
      case Renew => RenewReplyKeepsWellFormed(c, k, Parsed(msg), clk);
      case Rebind => ReplyKeepsWellFormed(c, k, Parsed(msg), clk);
    }
  }

  /** Whatever is received, configuration and database go on listing the same IAs in the same places. */
  lemma {:induction false} RunKeepsWellFormed(c: Client, turns: seq<Turn>)
    requires WellFormed(c)
    ensures WellFormed(RunOf(c, turns))
  {
    if turns != [] {
      var front, turn := turns[..|turns| - 1], turns[|turns| - 1];
      RunKeepsWellFormed(c, front);
      RoundKeepsWellFormed(RunOf(c, front), turn.pending, turn.clk);
      if turn.msg.Some? {
        DeliverKeepsWellFormed(BeforeMessage(c, turns), turn.msg.value, turn.arrival);
      }
    }
  }
}
