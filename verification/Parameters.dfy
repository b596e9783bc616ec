/**
  Every message is retransmitted with the parameters of its kind (Misc/DHCPConst.h, section 5.5 of
  RFC 3315), over whole runs.
 */
module Parameters {
  import opened Leases
  import opened Advertises
  import opened Retransmission
  import opened Protocol
  import opened Replies
  import opened Runs

  /** The first wait and the longest one, in seconds, and the transmissions after the first. */
  datatype Limits = Limits(timeout: nat, maxRt: nat, maxRc: nat)

  const SOLICIT_LIMITS := Limits(1, 120, 0)
  const REQUEST_LIMITS := Limits(1, 30, 10)
  const RENEW_LIMITS := Limits(10, 600, 0)
  const REBIND_LIMITS := Limits(10, 600, 0)

  function LimitsOf(kind: Kind): Limits {
    match kind
    case Solicit => SOLICIT_LIMITS
    case Request => REQUEST_LIMITS
    case Renew => RENEW_LIMITS
    case Rebind => REBIND_LIMITS
  }

  /** IRT, MRT and MRC are those of the kind, the current wait is at most a tenth above MRT, and only
      RENEW and REBIND have a duration. */
  predicate Standard(t: Trans) {
    Tuned(t.timer, LimitsOf(t.kind)) && (t.kind == Solicit || t.kind == Request ==> t.timer.mrd == 0)
  }

  predicate Tuned(t: Timer, l: Limits) {
    t.irt == l.timeout && t.mrt == l.maxRt && t.mrc == l.maxRc && t.rt as real <= 1.1 * l.maxRt as real + 0.5
  }

  lemma SentTuned(t: Timer, l: Limits, clk: Clock)
    requires Tuned(t, l) && l.maxRt > 0
    ensures Tuned(Transmit(t, clk), l)
  {
    BelowCeiling(t, clk);
  }

  predicate AllStandard(trans: seq<Trans>) {
    forall k :: 0 <= k < |trans| ==> Standard(trans[k])
  }

  lemma StandardUpdate(trans: seq<Trans>, k: nat, t: Trans)
    requires k < |trans| && AllStandard(trans) && Standard(t)
    ensures AllStandard(trans[k := t])
  {
  }

  lemma StandardAppend(trans: seq<Trans>, t: Trans)
    requires AllStandard(trans) && Standard(t)
    ensures AllStandard(trans + [t])
  {
  }

  lemma SendRequestStandard(c: Client, ias: seq<Iaid>, iface: IfaceId, clk: Clock)
    requires AllStandard(c.trans)
    ensures AllStandard(SendRequest(c, ias, iface, clk).trans)
  {
    SentTuned(NewTimer(1, 30, REQ_MAX_RC, 0, clk), REQUEST_LIMITS, clk);
    StandardAppend(c.trans, SendRequest(c, ias, iface, clk).trans[|c.trans|]);
  }

  lemma SendRebindStandard(c: Client, ias: seq<Iaid>, iface: IfaceId, clk: Clock)
    requires AllStandard(c.trans)
    ensures AllStandard(SendRebind(c, ias, iface, clk).trans)
  {
    SentTuned(NewTimer(10, 600, 0, LongestLeft(c.db, ias, clk.now), clk), REBIND_LIMITS, clk);
    StandardAppend(c.trans, SendRebind(c, ias, iface, clk).trans[|c.trans|]);
  }

  lemma FinishStandard(c: Client, k: nat)
    requires k < |c.trans| && AllStandard(c.trans)
    ensures AllStandard(Finish(c, k).trans)
  {
    StandardUpdate(c.trans, k, c.trans[k].(done := true));
  }

  lemma DutiesStandard(c: Client, k: nat, clk: Clock)
    requires k < |c.trans| && AllStandard(c.trans)
    ensures AllStandard(Duties(c, k, clk).trans)
  {
    var t := c.trans[k];
    if (t.kind == Solicit && c.ads != []) || (t.kind == Request && t.timer.rc > t.timer.mrc) {
      SendRequestStandard(c, t.ias, t.iface, clk);
      FinishStandard(SendRequest(c, t.ias, t.iface, clk), k);
    } else if t.kind == Renew && t.timer.mrd == 0 {
      SendRebindStandard(c, t.ias, t.iface, clk);
      FinishStandard(SendRebind(c, t.ias, t.iface, clk), k);
    } else if t.kind == Rebind && t.timer.mrd == 0 {
      FinishStandard(ReleaseAll(c, t.ias), k);
    } else {
      SentTuned(t.timer, LimitsOf(t.kind), clk);
      StandardUpdate(c.trans, k, t.(timer := Transmit(t.timer, clk)));
    }
  }

  lemma {:induction false} DutiesFromStandard(c: Client, k: nat, n: nat, clk: Clock) returns (end: Client)
    requires k <= n <= |c.trans| && AllStandard(c.trans)
    ensures end == DutiesFrom(c, k, n, clk) && AllStandard(end.trans)
    decreases n - k
  {
    if k == n {
      end := c;
    } else if Due(c.trans[k], clk.now) {
      DutiesStandard(c, k, clk);
      end := DutiesFromStandard(Duties(c, k, clk), k + 1, n, clk);
    } else {
      end := DutiesFromStandard(c, k + 1, n, clk);
    }
  }

  lemma PurgeStandard(c: Client)
    requires AllStandard(c.trans)
    ensures AllStandard(Purge(c).trans)
  {
    var r := Purge(c);
    forall k | 0 <= k < |r.trans|
      ensures Standard(r.trans[k])
    {
      assert r.trans[k] in r.trans;
      var j :| 0 <= j < |c.trans| && c.trans[j] == r.trans[k];
    }
  }

  lemma {:induction false} CheckSolicitStandard(c: Client, ifaces: seq<CfgIface>, clk: Clock)
    requires AllStandard(c.trans)
    ensures AllStandard(CheckSolicit(c, ifaces, clk).trans)
  {
    if ifaces != [] {
      CheckSolicitStandard(c, ifaces[..|ifaces| - 1], clk);
      SentTuned(NewTimer(1, 120, 0, 0, clk), SOLICIT_LIMITS, clk);
    }
  }

  lemma CheckRenewStandard(c: Client, pending: set<Iaid>, clk: Clock)
    requires Listed(c) && AllStandard(c.trans)
    ensures AllStandard(CheckRenew(c, pending, clk).trans)
  {
    var ias := Pick(c.db, c.iaList, clk.now, pending);
    if ias != [] {
      SentTuned(NewTimer(10, 600, 0, T2Left(c.db[ias[0]], clk.now), clk), RENEW_LIMITS, clk);
    }
  }

  lemma RoundStandard(c: Client, pending: set<Iaid>, clk: Clock)
    requires Listed(c) && AllStandard(c.trans)
    ensures AllStandard(Round(c, pending, clk).trans)
  {
    var e := Settle(c, clk);
    var d := DutiesFromStandard(c, 0, |c.trans|, clk);
    PurgeStandard(d);
    CheckSolicitStandard(e, e.ifaces, clk);
    CheckRenewStandard(CheckSolicit(e, e.ifaces, clk), pending, clk);
  }

  lemma ReplyStandard(c: Client, k: nat, msg: Msg, clk: Clock)
    requires k < |c.trans| && AllStandard(c.trans)
    ensures AllStandard(AnswerReply(c, k, msg, clk).trans)
  {
    var g := Grant(c, k, msg, clk.now);
    StandardUpdate(c.trans, k, g.trans[k]);
    SendRequestStandard(g, g.trans[k].ias, c.trans[k].iface, clk);
    FinishStandard(g, k);
    FinishStandard(SendRequest(g, g.trans[k].ias, c.trans[k].iface, clk), k);
  }

  lemma RenewReplyStandard(c: Client, k: nat, msg: Msg, clk: Clock)
    requires k < |c.trans| && AllStandard(c.trans)
    ensures AllStandard(AnswerRenew(c, k, msg, clk).trans)
  {
    var g := Renewed(c, k, msg, clk.now);
    SendRequestStandard(g, c.trans[k].ias, c.trans[k].iface, clk);
    FinishStandard(g, k);
    FinishStandard(SendRequest(g, c.trans[k].ias, c.trans[k].iface, clk), k);
  }

  lemma AdvertiseStandard(c: Client, k: nat, msg: Msg, clk: Clock)
    requires k < |c.trans| && AllStandard(c.trans)
    ensures AllStandard(AnswerAdvertise(c, k, msg, clk).trans)
  {
    var noted := c.(ads := c.ads + [Advert(msg.pref, msg.server)]);
    SendRequestStandard(noted, c.trans[k].ias, c.trans[k].iface, clk);
    FinishStandard(SendRequest(noted, c.trans[k].ias, c.trans[k].iface, clk), k);
  }

  lemma DeliverStandard(c: Client, msg: Msg, clk: Clock)
    requires AllStandard(c.trans)
    ensures AllStandard(Deliver(c, msg, clk).trans)
  {
    var k := FindXid(c.trans, msg.xid);
    if k >= 0 {
      match c.trans[k].kind
      case Solicit =>
        AdvertiseStandard(c, k, Parsed(msg), clk);
        ReplyStandard(c, k, Parsed(msg), clk);
      case Request => ReplyStandard(c, k, Parsed(msg), clk);
      case Renew => RenewReplyStandard(c, k, Parsed(msg), clk);
      case Rebind => ReplyStandard(c, k, Parsed(msg), clk);
    }
  }

  /** Over every run whatsoever, every message has the parameters of its kind. */
  lemma {:induction false} RunStandard(c: Client, turns: seq<Turn>)
    requires Listed(c) && AllStandard(c.trans)
    ensures AllStandard(RunOf(c, turns).trans)
  {
    if turns != [] {
      var front, turn := turns[..|turns| - 1], turns[|turns| - 1];
      RunStandard(c, front);
      RoundStandard(RunOf(c, front), turn.pending, turn.clk);
      if turn.msg.Some? {
        DeliverStandard(BeforeMessage(c, turns), turn.msg.value, turn.arrival);
      }
    }
  }
}
