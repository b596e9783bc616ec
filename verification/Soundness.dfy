/**
  Every IA in the database keeps distinct addresses, and T1 at most T2, whatever is received.
 */
module Soundness {
  import opened Containers
  import opened Leases
  import opened Retransmission
  import opened Protocol

  lemma {:induction false} ReleaseKeepsSound(c: Client, ias: seq<Iaid>)
    requires SoundDb(c.db)
    ensures SoundDb(ReleaseAll(c, ias).db)
  {
    if ias != [] {
      ReleaseKeepsSound(c, ias[..|ias| - 1]);
    }
  }

  lemma DutiesKeepSound(c: Client, k: nat, clk: Clock)
    requires SoundDb(c.db) && k < |c.trans|
    ensures SoundDb(Duties(c, k, clk).db)
  {
    ReleaseKeepsSound(c, c.trans[k].ias);
  }

  lemma {:induction false} DutiesFromKeepSound(c: Client, k: nat, n: nat, clk: Clock)
    requires SoundDb(c.db) && k <= n <= |c.trans|
    ensures SoundDb(DutiesFrom(c, k, n, clk).db)
    decreases n - k
  {
    if k < n {
      if Due(c.trans[k], clk.now) {
        DutiesKeepSound(c, k, clk);
        DutiesFromKeepSound(Duties(c, k, clk), k + 1, n, clk);
      } else {
        DutiesFromKeepSound(c, k + 1, n, clk);
      }
    }
  }

  lemma ExpiryKeepsSound(c: Client, now: nat)
    requires SoundDb(c.db)
    ensures SoundDb(ExpireDb(c, now).db)
  {
    forall i | i in c.db
      ensures Sound(ExpireDb(c, now).db[i])
    {
      ExpiredIsSound(c.db[i], now);
    }
  }

  lemma SettleKeepsSound(c: Client, clk: Clock)
    requires Listed(c) && SoundDb(c.db)
    ensures SoundDb(Settle(c, clk).db)
  {
    DutiesFromKeepSound(c, 0, |c.trans|, clk);
    ExpiryKeepsSound(RemoveExpired(Purge(DutiesFrom(c, 0, |c.trans|, clk)), clk.now), clk.now);
  }

  lemma MarkKeepsSound(db: map<Iaid, IA>, ids: seq<Iaid>, s: EState)
    requires SoundDb(db)
    ensures SoundDb(MarkDb(db, ids, s))
  {
  }

  lemma SolicitKeepsSound(c: Client, f: CfgIface, clk: Clock)
    requires SoundDb(c.db)
    ensures SoundDb(SolicitOn(c, f, clk).db)
  {
    MarkKeepsSound(c.db, NotConfiguredIAs(c, f), InProcess);
  }

  lemma {:induction false} CheckSolicitKeepsSound(c: Client, ifaces: seq<CfgIface>, clk: Clock)
    requires SoundDb(c.db)
    ensures SoundDb(CheckSolicit(c, ifaces, clk).db)
  {
    if ifaces != [] {
      CheckSolicitKeepsSound(c, ifaces[..|ifaces| - 1], clk);
      SolicitKeepsSound(CheckSolicit(c, ifaces[..|ifaces| - 1], clk), ifaces[|ifaces| - 1], clk);
    }
  }

  lemma CheckKeepsSound(c: Client, pending: set<Iaid>, clk: Clock)
    requires Listed(c) && SoundDb(c.db)
    ensures SoundDb(Check(c, pending, clk).db)
  {
    var s := CheckSolicit(c, c.ifaces, clk);
    CheckSolicitKeepsSound(c, c.ifaces, clk);
    MarkKeepsSound(s.db, Pick(s.db, s.iaList, clk.now, pending), InProcess);
  }

  /** One pass of the transaction manager. */
  lemma RoundKeepsSound(c: Client, pending: set<Iaid>, clk: Clock)
    requires Listed(c) && SoundDb(c.db)
    ensures SoundDb(Round(c, pending, clk).db)
  {
    SettleKeepsSound(c, clk);
    CheckKeepsSound(Settle(c, clk), pending, clk);
  }

  lemma MergeIAKeepsSound(c: Client, r: RecvIA, iface: IfaceId, server: Option<Server>, now: nat)
    requires SoundDb(c.db) && IsValid(r)
    ensures SoundDb(MergeIA(c, r, iface, server, now).db)
  {
    if r.iaid in c.db {
      MergedIsSound(c.db[r.iaid], r, c.installed, iface, server, now);
    }
  }

  lemma {:induction false} MergeAllKeepsSound(c: Client, ias: seq<RecvIA>, iface: IfaceId, server: Option<Server>, now: nat)
    requires SoundDb(c.db) && forall r :: r in ias ==> IsValid(r)
    ensures SoundDb(MergeAll(c, ias, iface, server, now).db)
  {
    if ias != [] {
      var front, last := ias[..|ias| - 1], ias[|ias| - 1];
      MergeAllKeepsSound(c, front, iface, server, now);
      MergeIAKeepsSound(MergeAll(c, front, iface, server, now), last, iface, server, now);
    }
  }

  lemma ReplyKeepsSound(c: Client, k: nat, msg: Msg, clk: Clock)
    requires SoundDb(c.db) && k < |c.trans| && forall r :: r in msg.ias ==> IsValid(r)
    ensures SoundDb(AnswerReply(c, k, msg, clk).db)
  {
    MergeAllKeepsSound(c, msg.ias, c.trans[k].iface, Some(msg.server), clk.now);
  }

  lemma RenewReplyKeepsSound(c: Client, k: nat, msg: Msg, clk: Clock)
    requires SoundDb(c.db) && k < |c.trans| && forall r :: r in msg.ias ==> IsValid(r)
    ensures SoundDb(AnswerRenew(c, k, msg, clk).db)
  {
    MergeAllKeepsSound(c, BeforeNoBinding(msg.ias), c.trans[k].iface, c.trans[k].server, clk.now);
  }

  lemma SolicitAnswerKeepsSound(c: Client, k: nat, msg: Msg, clk: Clock)
    requires SoundDb(c.db) && k < |c.trans| && c.trans[k].kind == Solicit && forall r :: r in msg.ias ==> IsValid(r)
    ensures SoundDb(Answer(c, k, msg, clk).db)
  {
    if msg.kind == Reply {
      ReplyKeepsSound(c, k, msg, clk);
    } else {
      assert Answer(c, k, msg, clk).db == c.db;
    }
  }

  lemma AnswerKeepsSound(c: Client, k: nat, msg: Msg, clk: Clock)
    requires SoundDb(c.db) && k < |c.trans| && forall r :: r in msg.ias ==> IsValid(r)
    ensures SoundDb(Answer(c, k, msg, clk).db)
  {
    match c.trans[k].kind
    case Solicit => SolicitAnswerKeepsSound(c, k, msg, clk);
    case Request => ReplyKeepsSound(c, k, msg, clk);
    case Renew => RenewReplyKeepsSound(c, k, msg, clk);
    case Rebind => ReplyKeepsSound(c, k, msg, clk);
  }

  /** A received message, whatever it grants: options with T1 beyond T2 are not accepted. */
  lemma DeliverKeepsSound(c: Client, msg: Msg, clk: Clock)
    requires SoundDb(c.db)
    ensures SoundDb(Deliver(c, msg, clk).db)
  {
    var k := FindXid(c.trans, msg.xid);
    if k >= 0 {
      AnswerKeepsSound(c, k, Parsed(msg), clk);
    }
  }
}
