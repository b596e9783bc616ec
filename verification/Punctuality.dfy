/**
  Passes that come on time: after a pass no message is due, the client's own loop wakes up before
  the next one is, and then REQUESTs that nobody answers end in bounded time.
 */
module Punctuality {
  import opened Containers
  import opened Leases
  import opened Advertises
  import opened Retransmission
  import opened Protocol
  import opened Ownership
  import opened Replies
  import opened Runs
  import opened TransMgr
  import opened Hazards
  import opened Failover
  import opened DHCPClient
  import opened SilentRuns
  import opened Deadlines

  // ---- timers of live messages ------------------------------------------------------------------------------------

  /** The message was transmitted and waits; a REQUEST for at most MRT, give or take the random share. */
  predicate Clocked(t: Trans) {
    !t.done ==> t.timer.irt >= 1 && t.timer.rt >= 1 && (t.kind == Request ==> t.timer.mrt == 30)
  }

  predicate AllClocked(trans: seq<Trans>) {
    forall k :: 0 <= k < |trans| ==> Clocked(trans[k])
  }

  lemma FirstClocked(kind: Kind, xid: nat, iface: IfaceId, ias: seq<Iaid>, rapid: bool, server: Option<Server>,
                     timer: Timer, clk: Clock)
    requires timer.irt >= 1 && timer.rc == 0 && (kind == Request ==> timer.mrt == 30)
    ensures Clocked(Trans(kind, xid, iface, ias, rapid, server, Transmit(timer, clk), false))
  {
    TransmitKeepsRunning(timer, clk);
  }

  lemma ResentClocked(t: Trans, clk: Clock)
    requires Clocked(t) && !t.done
    ensures Clocked(t.(timer := Transmit(t.timer, clk))) && DueAt(t.(timer := Transmit(t.timer, clk))) > clk.now
  {
    TransmitKeepsRunning(t.timer, clk);
  }

  lemma SendRequestClocked(c: Client, ias: seq<Iaid>, iface: IfaceId, clk: Clock)
    requires AllClocked(c.trans)
    ensures AllClocked(SendRequest(c, ias, iface, clk).trans)
  {
    TransmitKeepsRunning(NewTimer(1, 30, REQ_MAX_RC, 0, clk), clk);
  }

  lemma SendRebindClocked(c: Client, ias: seq<Iaid>, iface: IfaceId, clk: Clock)
    requires AllClocked(c.trans)
    ensures AllClocked(SendRebind(c, ias, iface, clk).trans)
  {
    TransmitKeepsRunning(NewTimer(10, 600, 0, LongestLeft(c.db, ias, clk.now), clk), clk);
  }

  lemma FinishClocked(c: Client, k: nat)
    requires k < |c.trans| && AllClocked(c.trans)
    ensures AllClocked(Finish(c, k).trans)
  {
  }

  lemma DutiesClocked(c: Client, k: nat, clk: Clock)
    requires k < |c.trans| && !c.trans[k].done && AllClocked(c.trans)
    ensures AllClocked(Duties(c, k, clk).trans) && !Due(Duties(c, k, clk).trans[k], clk.now)
  {
    var t := c.trans[k];
    if (t.kind == Solicit && c.ads != []) || (t.kind == Request && t.timer.rc > t.timer.mrc) {
      SendRequestClocked(c, t.ias, t.iface, clk);
      FinishClocked(SendRequest(c, t.ias, t.iface, clk), k);
    } else if t.kind == Renew && t.timer.mrd == 0 {
      SendRebindClocked(c, t.ias, t.iface, clk);
      FinishClocked(SendRebind(c, t.ias, t.iface, clk), k);
    } else if t.kind == Rebind && t.timer.mrd == 0 {
      FinishClocked(ReleaseAll(c, t.ias), k);
    } else {
      ResentClocked(t, clk);
    }
  }

  /** Beyond the messages from `k` to `n`, none is due. */
  predicate NoneDueBeyond(trans: seq<Trans>, k: nat, n: nat, now: nat) {
    forall j :: 0 <= j < |trans| && !(k <= j < n) ==> !Due(trans[j], now)
  }

  lemma NoneDueBeyondNext(trans: seq<Trans>, after: seq<Trans>, k: nat, n: nat, now: nat)
    requires k < n <= |trans| <= |after| <= |trans| + 1 && NoneDueBeyond(trans, k, n, now)
    requires (forall j :: 0 <= j < |trans| && j != k ==> after[j] == trans[j]) && !Due(after[k], now)
    requires |after| == |trans| + 1 ==> !Due(after[|trans|], now)
    ensures NoneDueBeyond(after, k + 1, n, now)
  {
  }

  lemma VisitClocked(c: Client, k: nat, n: nat, clk: Clock)
    requires k < n <= |c.trans| && AllClocked(c.trans) && NoneDueBeyond(c.trans, k, n, clk.now)
    ensures var r := if Due(c.trans[k], clk.now) then Duties(c, k, clk) else c;
            n <= |r.trans| && AllClocked(r.trans) && NoneDueBeyond(r.trans, k + 1, n, clk.now)
  {
    if Due(c.trans[k], clk.now) {
      DutiesClocked(c, k, clk);
      OthersLeftAlone(c, k, clk);
      AppendedNotDue(c, k, clk);
      NoneDueBeyondNext(c.trans, Duties(c, k, clk).trans, k, n, clk.now);
    }
  }

  lemma {:induction false} DutiesFromClocked(c: Client, k: nat, n: nat, clk: Clock) returns (end: Client)
    requires k <= n <= |c.trans| && AllClocked(c.trans) && NoneDueBeyond(c.trans, k, n, clk.now)
    ensures end == DutiesFrom(c, k, n, clk) && AllClocked(end.trans) && NoneDue(end.trans, clk.now)
    decreases n - k
  {
    if k == n {
      end := c;
    } else {
      VisitClocked(c, k, n, clk);
      end := DutiesFromClocked(if Due(c.trans[k], clk.now) then Duties(c, k, clk) else c, k + 1, n, clk);
    }
  }

  /** Every live message runs and is not due. */
  predicate AllWait(trans: seq<Trans>, now: nat) {
    AllClocked(trans) && NoneDue(trans, now)
  }

  lemma PurgeWaits(c: Client, now: nat)
    requires AllWait(c.trans, now)
    ensures AllWait(Purge(c).trans, now)
  {
    var r := Purge(c);
    forall k | 0 <= k < |r.trans|
      ensures Clocked(r.trans[k]) && !Due(r.trans[k], now)
    {
      assert r.trans[k] in r.trans;
      var j :| 0 <= j < |c.trans| && c.trans[j] == r.trans[k];
    }
  }

  lemma {:induction false} CheckSolicitWaits(c: Client, ifaces: seq<CfgIface>, clk: Clock)
    requires AllWait(c.trans, clk.now)
    ensures AllWait(CheckSolicit(c, ifaces, clk).trans, clk.now)
  {
    if ifaces != [] {
      CheckSolicitWaits(c, ifaces[..|ifaces| - 1], clk);
      TransmitKeepsRunning(NewTimer(1, 120, 0, 0, clk), clk);
    }
  }

  lemma CheckRenewWaits(c: Client, pending: set<Iaid>, clk: Clock)
    requires Listed(c) && AllWait(c.trans, clk.now)
    ensures AllWait(CheckRenew(c, pending, clk).trans, clk.now)
  {
    var ias := Pick(c.db, c.iaList, clk.now, pending);
    if ias != [] {
      TransmitKeepsRunning(NewTimer(10, 600, 0, T2Left(c.db[ias[0]], clk.now), clk), clk);
    }
  }

  /** After a pass no live message is due at that time: another pass would find none. */
  lemma PassLeavesNoneDue(c: Client, pending: set<Iaid>, clk: Clock)
    requires Listed(c) && AllClocked(c.trans)
    ensures AllWait(Round(c, pending, clk).trans, clk.now)
  {
    var e := Settle(c, clk);
    var d := DutiesFromClocked(c, 0, |c.trans|, clk);
    PurgeWaits(d, clk.now);
    CheckSolicitWaits(e, e.ifaces, clk);
    CheckRenewWaits(CheckSolicit(e, e.ifaces, clk), pending, clk);
  }

  // ---- over whole runs, whatever is received ------------------------------------------------------------------------

  lemma ReplyClocked(c: Client, k: nat, msg: Msg, clk: Clock)
    requires k < |c.trans| && AllClocked(c.trans)
    ensures AllClocked(AnswerReply(c, k, msg, clk).trans)
  {
    var g := Grant(c, k, msg, clk.now);
    SendRequestClocked(g, g.trans[k].ias, c.trans[k].iface, clk);
    FinishClocked(g, k);
    FinishClocked(SendRequest(g, g.trans[k].ias, c.trans[k].iface, clk), k);
  }

  lemma RenewReplyClocked(c: Client, k: nat, msg: Msg, clk: Clock)
    requires k < |c.trans| && AllClocked(c.trans)
    ensures AllClocked(AnswerRenew(c, k, msg, clk).trans)
  {
    var g := Renewed(c, k, msg, clk.now);
    SendRequestClocked(g, c.trans[k].ias, c.trans[k].iface, clk);
    FinishClocked(g, k);
    FinishClocked(SendRequest(g, c.trans[k].ias, c.trans[k].iface, clk), k);
  }

  lemma AdvertiseClocked(c: Client, k: nat, msg: Msg, clk: Clock)
    requires k < |c.trans| && AllClocked(c.trans)
    ensures AllClocked(AnswerAdvertise(c, k, msg, clk).trans)
  {
    var noted := c.(ads := c.ads + [Advert(msg.pref, msg.server)]);
    SendRequestClocked(noted, c.trans[k].ias, c.trans[k].iface, clk);
    FinishClocked(SendRequest(noted, c.trans[k].ias, c.trans[k].iface, clk), k);
  }

  lemma DeliverClocked(c: Client, msg: Msg, clk: Clock)
    requires AllClocked(c.trans)
    ensures AllClocked(Deliver(c, msg, clk).trans)
  {
    var k := FindXid(c.trans, msg.xid);
    if k >= 0 {
      match c.trans[k].kind
      case Solicit =>
        AdvertiseClocked(c, k, Parsed(msg), clk);
        ReplyClocked(c, k, Parsed(msg), clk);
      case Request => ReplyClocked(c, k, Parsed(msg), clk);
      case Renew => RenewReplyClocked(c, k, Parsed(msg), clk);
      case Rebind => ReplyClocked(c, k, Parsed(msg), clk);
    }
  }

  /** The timers of all live messages run throughout every run, whatever is received. */
  lemma {:induction false} RunClocked(c: Client, turns: seq<Turn>)
    requires Listed(c) && AllClocked(c.trans)
    ensures AllClocked(RunOf(c, turns).trans)
  {
    if turns != [] {
      var front, turn := turns[..|turns| - 1], turns[|turns| - 1];
      RunClocked(c, front);
      PassLeavesNoneDue(RunOf(c, front), turn.pending, turn.clk);
      if turn.msg.Some? {
        DeliverClocked(BeforeMessage(c, turns), turn.msg.value, turn.arrival);
      }
    }
  }

  // ---- the client's loop is on time --------------------------------------------------------------------------------

  /** The loop, if it wakes up after the time it asks for or earlier, is not late for any message. */
  lemma SleepIsOnTime(c: Client, out: Outside, now: nat, next: nat)
    requires Listed(c) && AllWait(c.trans, now) && next <= now + LoopSleep(c, out, now)
    ensures OnTime(c.trans, next)
  {
    forall k | 0 <= k < |c.trans| && !c.trans[k].done
      ensures next <= DueAt(c.trans[k])
    {
      var d := Timeout(c.trans[k].timer, now);
      assert !Due(c.trans[k], now);
      assert c.trans[k] in c.trans && Deadline(c, out, now, d);
      LoopSleepIsShort(c, out, now, d);
    }
  }

  /** The time of the last pass, if there is one. */
  function LastPass(turns: seq<Turn>, since: nat): nat {
    if turns == [] then since else turns[|turns| - 1].clk.now
  }

  /** Each pass comes when the loop wakes up from the sleep after the pass before, or earlier. */
  predicate Looping(c: Client, turns: seq<Turn>, outs: nat -> Outside, since: nat)
    requires Listed(c)
  {
    turns == [] ||
    var front := turns[..|turns| - 1];
    Looping(c, front, outs, since) &&
    turns[|turns| - 1].clk.now <= LastPass(front, since) + LoopSleep(RunOf(c, front), outs(|front|), LastPass(front, since))
  }

  lemma WaitsInTheEnd(c: Client, turns: seq<Turn>, since: nat) returns (end: Client)
    requires Listed(c) && AllWait(c.trans, since) && Silent(turns)
    ensures end == RunOf(c, turns) && AllWait(end.trans, LastPass(turns, since))
  {
    end := RunOf(c, turns);
    if turns != [] {
      var front, turn := turns[..|turns| - 1], turns[|turns| - 1];
      SilentTurn(c, turns);
      RunClocked(c, front);
      PassLeavesNoneDue(RunOf(c, front), turn.pending, turn.clk);
    }
  }

  /** So no pass of the loop comes after a message was due. */
  lemma {:induction false} LoopIsPunctual(c: Client, turns: seq<Turn>, outs: nat -> Outside, since: nat)
    requires Listed(c) && AllWait(c.trans, since) && Silent(turns) && Looping(c, turns, outs, since)
    ensures Punctual(c, turns)
  {
    if turns != [] {
      var front := turns[..|turns| - 1];
      LoopIsPunctual(c, front, outs, since);
      var end := WaitsInTheEnd(c, front, since);
      SleepIsOnTime(end, outs(|front|), LastPass(front, since), turns[|turns| - 1].clk.now);
    }
  }

  // ---- REQUESTs end in bounded time ---------------------------------------------------------------------------------

  const LONGEST_WAIT: nat := 33

  /** No REQUEST waits longer than that from now on. */
  predicate Paced(trans: seq<Trans>, now: nat) {
    forall k :: 0 <= k < |trans| && LiveRequest(trans[k]) ==> DueAt(trans[k]) <= now + LONGEST_WAIT
  }

  lemma WaitIsShort(t: Timer, clk: Clock)
    requires t.mrt == 30
    ensures Transmit(t, clk).rt <= LONGEST_WAIT
  {
    BelowCeiling(t, clk);
  }

  predicate ShortWait(t: Trans, now: nat) {
    LiveRequest(t) ==> DueAt(t) <= now + LONGEST_WAIT
  }

  lemma PacedNext(trans: seq<Trans>, after: seq<Trans>, k: nat, now: nat)
    requires k < |trans| <= |after| <= |trans| + 1 && Paced(trans, now)
    requires (forall j :: 0 <= j < |trans| && j != k ==> after[j] == trans[j]) && ShortWait(after[k], now)
    requires |after| == |trans| + 1 ==> ShortWait(after[|trans|], now)
    ensures Paced(after, now)
  {
  }

  lemma DutiesPaced(c: Client, k: nat, clk: Clock)
    requires k < |c.trans| && !c.trans[k].done && AllClocked(c.trans) && Paced(c.trans, clk.now)
    ensures Paced(Duties(c, k, clk).trans, clk.now)
  {
    OthersLeftAlone(c, k, clk);
    WaitIsShort(NewTimer(1, 30, REQ_MAX_RC, 0, clk), clk);
    if c.trans[k].kind == Request {
      WaitIsShort(c.trans[k].timer, clk);
    }
    PacedNext(c.trans, Duties(c, k, clk).trans, k, clk.now);
  }

  lemma {:induction false} DutiesFromPaced(c: Client, k: nat, n: nat, clk: Clock) returns (end: Client)
    requires k <= n <= |c.trans| && AllClocked(c.trans) && Paced(c.trans, clk.now)
    ensures end == DutiesFrom(c, k, n, clk) && Paced(end.trans, clk.now)
    decreases n - k
  {
    if k == n {
      end := c;
    } else if Due(c.trans[k], clk.now) {
      DutiesClocked(c, k, clk);
      DutiesPaced(c, k, clk);
      end := DutiesFromPaced(Duties(c, k, clk), k + 1, n, clk);
    } else {
      end := DutiesFromPaced(c, k + 1, n, clk);
    }
  }

  lemma PurgePaced(c: Client, now: nat)
    requires Paced(c.trans, now)
    ensures Paced(Purge(c).trans, now)
  {
    var r := Purge(c);
    forall k | 0 <= k < |r.trans| && LiveRequest(r.trans[k])
      ensures DueAt(r.trans[k]) <= now + LONGEST_WAIT
    {
      assert r.trans[k] in r.trans;
      var j :| 0 <= j < |c.trans| && c.trans[j] == r.trans[k];
    }
  }

  lemma {:induction false} CheckSolicitPaced(c: Client, ifaces: seq<CfgIface>, clk: Clock)
    requires Paced(c.trans, clk.now)
    ensures Paced(CheckSolicit(c, ifaces, clk).trans, clk.now)
  {
    if ifaces != [] {
      CheckSolicitPaced(c, ifaces[..|ifaces| - 1], clk);
    }
  }

  lemma PassPaced(c: Client, pending: set<Iaid>, clk: Clock, since: nat)
    requires Listed(c) && AllClocked(c.trans) && Paced(c.trans, since) && since <= clk.now
    ensures Paced(Round(c, pending, clk).trans, clk.now)
  {
    var d := DutiesFromPaced(c, 0, |c.trans|, clk);
    PurgePaced(d, clk.now);
    CheckSolicitPaced(Settle(c, clk), c.ifaces, clk);
  }

  /** Some REQUEST is due by `limit`. */
  predicate RequestBy(trans: seq<Trans>, limit: int) {
    exists k :: 0 <= k < |trans| && LiveRequest(trans[k]) && DueAt(trans[k]) <= limit
  }

  lemma PacedRequest(trans: seq<Trans>, now: nat)
    requires Paced(trans, now) && !NoRequests(trans)
    ensures RequestBy(trans, now + LONGEST_WAIT)
  {
    var t :| t in trans && LiveRequest(t);
    var k :| 0 <= k < |trans| && trans[k] == t;
  }

  /** A pass without a due REQUEST leaves the one that is due by then, and is over before. */
  lemma RequestStillWaits(c: Client, pending: set<Iaid>, clk: Clock, limit: int)
    requires Listed(c) && RequestBy(c.trans, limit) && !Pressing(c, clk.now)
    ensures RequestBy(Round(c, pending, clk).trans, limit) && clk.now <= limit
  {
    var k :| 0 <= k < |c.trans| && LiveRequest(c.trans[k]) && DueAt(c.trans[k]) <= limit;
    assert !Due(c.trans[k], clk.now);
    NotDueStays(c, pending, clk, k);
    var r := Round(c, pending, clk);
    var j :| 0 <= j < |r.trans| && r.trans[j] == c.trans[k];
  }

  lemma RequestByLater(trans: seq<Trans>, limit: int, later: int)
    requires RequestBy(trans, limit) && limit <= later
    ensures RequestBy(trans, later)
  {
    var k :| 0 <= k < |trans| && LiveRequest(trans[k]) && DueAt(trans[k]) <= limit;
  }

  /** A REQUEST is under way, and for each of the steps that are left there is time before `over`. */
  predicate InTime(c: Client, now: nat, over: int) {
    now <= over - LONGEST_WAIT * Effort(c) && RequestBy(c.trans, over - LONGEST_WAIT * Effort(c))
  }

  lemma PassInTime(c: Client, pending: set<Iaid>, clk: Clock, before: nat, over: int)
    requires Listed(c) && Limited(c.trans) && AllClocked(c.trans) && Paced(c.trans, before) && before <= clk.now
    requires OnTime(c.trans, clk.now) && InTime(c, before, over)
    ensures var r := Round(c, pending, clk);
            NoRequests(r.trans) || InTime(r, clk.now, over)
  {
    var r := Round(c, pending, clk);
    var limit := over - LONGEST_WAIT * Effort(c);
    RoundCosts(c, pending, clk);
    if !NoRequests(r.trans) {
      if Pressing(c, clk.now) {
        PassPaced(c, pending, clk, before);
        PacedRequest(r.trans, clk.now);
        assert clk.now <= limit;
        RequestByLater(r.trans, clk.now + LONGEST_WAIT, over - LONGEST_WAIT * Effort(r));
      } else {
        RequestStillWaits(c, pending, clk, limit);
        RequestByLater(r.trans, limit, over - LONGEST_WAIT * Effort(r));
      }
    }
  }

  /** Time does not go back. */
  predicate ForwardFrom(turns: seq<Turn>, since: nat) {
    turns == [] ||
    var front := turns[..|turns| - 1];
    ForwardFrom(front, since) && LastPass(front, since) <= turns[|turns| - 1].clk.now
  }

  /** The state that the passes of a silent run on time keep. */
  predicate Timed(c: Client, now: nat) {
    Listed(c) && Limited(c.trans) && AllClocked(c.trans) && Paced(c.trans, now)
  }

  lemma PassTimed(c: Client, pending: set<Iaid>, clk: Clock, before: nat)
    requires Timed(c, before) && before <= clk.now
    ensures Timed(Round(c, pending, clk), clk.now)
  {
    PassPaced(c, pending, clk, before);
    PassLeavesNoneDue(c, pending, clk);
    RoundSpends(c, pending, clk);
  }

  lemma {:induction false} SilenceTimed(c: Client, turns: seq<Turn>, since: nat, over: int) returns (end: Client)
    requires Timed(c, since) && Searching(c) && Silent(turns) && Punctual(c, turns) && ForwardFrom(turns, since)
    requires NoRequests(c.trans) || InTime(c, since, over)
    ensures end == RunOf(c, turns) && Timed(end, LastPass(turns, since))
    ensures NoRequests(end.trans) || InTime(end, LastPass(turns, since), over)
  {
    if turns == [] {
      end := c;
    } else {
      var turn, rest := turns[|turns| - 1], turns[..|turns| - 1];
      SilentTurn(c, turns);
      var front := SilenceTimed(c, rest, since, over);
      PassTimed(front, turn.pending, turn.clk, LastPass(rest, since));
      end := Round(front, turn.pending, turn.clk);
      if NoRequests(front.trans) {
        end := LastTurnStartsNone(c, turns);
      } else {
        PassInTime(front, turn.pending, turn.clk, LastPass(rest, since), over);
      }
    }
  }

  lemma EffortLeft(c: Client)
    requires Limited(c.trans) && !NoRequests(c.trans)
    ensures Effort(c) > 0
  {
    if Effort(c) <= 0 {
      NothingLeftToDo(c);
    }
  }

  /**
    Nothing is received and no pass is late: once 33 seconds are over for each unit of effort that was
    left, no REQUEST is under way any more.
   */
  lemma RequestsEndInTime(c: Client, turns: seq<Turn>, since: nat)
    requires Timed(c, since) && Searching(c) && Silent(turns) && Punctual(c, turns) && ForwardFrom(turns, since)
    requires LastPass(turns, since) > since + LONGEST_WAIT * Effort(c)
    ensures NoRequests(RunOf(c, turns).trans)
  {
    var over := since + LONGEST_WAIT * Effort(c) + LONGEST_WAIT;
    if !NoRequests(c.trans) {
      PacedRequest(c.trans, since);
    }
    var end := SilenceTimed(c, turns, since, over);
    if !NoRequests(end.trans) {
      EffortLeft(end);
    }
  }

  /** Every advertised server was asked by then, in order, and what was asked for is under discovery again. */
  lemma DiscoveredInTime(c: Client, turns: seq<Turn>, since: nat, k: nat, i: Iaid)
    requires Owned(c) && Timed(c, since) && Silent(turns) && Punctual(c, turns) && ForwardFrom(turns, since)
    requires LastPass(turns, since) > since + LONGEST_WAIT * Effort(c)
    requires k < |c.trans| && LiveRequest(c.trans[k]) && i in c.trans[k].ias
    ensures AskedOver(c, turns) == Failover.Servers(SortByPreference(c.ads)) && SentOver(c, turns) == Budget(c)
    ensures Solicits(RunOf(c, turns).trans, i) && Holders(RunOf(c, turns).trans, i) == 1
  {
    RequestedIsSought(c, k, i);
    RequestsEndInTime(c, turns, since);
    SilenceAsksAll(c, turns);
    RequestedIsDiscovered(c, turns, k, i);
  }

  // ---- there are such runs --------------------------------------------------------------------------------------------

  /** A pass every second in which nothing is received. */
  function EverySecond(since: nat, n: nat): (turns: seq<Turn>)
    ensures |turns| == n
    ensures forall j :: 0 <= j < n ==> turns[j].clk == Clock(since + 1 + j, 0.0, 0.0) && turns[j].msg.None?
  {
    seq(n, j requires 0 <= j < n => Turn({}, Clock(since + 1 + j, 0.0, 0.0), None, Clock(since + 1 + j, 0.0, 0.0)))
  }

  lemma OnTimeNext(trans: seq<Trans>, now: nat)
    requires AllWait(trans, now)
    ensures OnTime(trans, now + 1)
  {
    forall k | 0 <= k < |trans| && !trans[k].done
      ensures now + 1 <= DueAt(trans[k])
    {
      assert !Due(trans[k], now);
    }
  }

  lemma FirstSeconds(since: nat, n: nat, m: nat)
    requires m <= n
    ensures EverySecond(since, n)[..m] == EverySecond(since, m)
  {
  }

  /** A client that makes a pass every second is on time for every message. */
  lemma {:induction false} EverySecondIsPunctual(c: Client, since: nat, n: nat)
    requires Listed(c) && AllWait(c.trans, since)
    ensures var turns := EverySecond(since, n);
            Silent(turns) && ForwardFrom(turns, since) && LastPass(turns, since) == since + n && Punctual(c, turns)
  {
    if n > 0 {
      FirstSeconds(since, n, n - 1);
      EverySecondIsPunctual(c, since, n - 1);
      var end := WaitsInTheEnd(c, EverySecond(since, n - 1), since);
      OnTimeNext(end.trans, since + n - 1);
    }
  }
}
