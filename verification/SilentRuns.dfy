/**
  Runs in which nothing is received: REQUESTs come to an end, and then every advertised server has
  been asked, in order of preference, and what they asked for is under discovery again.
 */
module SilentRuns {
  import opened Containers
  import opened Leases
  import opened Advertises
  import opened Retransmission
  import opened Protocol
  import opened Ownership
  import opened Runs
  import opened TransMgr
  import opened Orphans
  import opened Failover

  predicate Silent(turns: seq<Turn>) {
    forall k :: 0 <= k < |turns| ==> turns[k].msg.None?
  }

  lemma SilentFront(turns: seq<Turn>)
    requires Silent(turns) && turns != []
    ensures Silent(turns[..|turns| - 1]) && turns[|turns| - 1].msg.None?
  {
  }

  lemma SilentTurn(c: Client, turns: seq<Turn>)
    requires Listed(c) && Silent(turns) && turns != []
    ensures var front, turn := turns[..|turns| - 1], turns[|turns| - 1];
            Silent(front) && RunOf(c, turns) == Round(RunOf(c, front), turn.pending, turn.clk)
  {
    SilentFront(turns);
  }

  predicate LiveRequest(t: Trans) {
    t.kind == Request && !t.done
  }

  // ---- REQUESTs come to an end -----------------------------------------------------------------------------------

  /** What a message may still cost: two for each transmission left, and one for ending. */
  function Weight(t: Trans): int {
    if LiveRequest(t) then 2 * (TRIES - t.timer.rc) + 1 else 0
  }

  /** An advertised server that was not asked yet costs as much as a REQUEST that starts and ends. */
  function Effort(c: Client): int {
    2 * TRIES * |c.ads| + Total(c.trans, (t: Trans) => Weight(t))
  }

  lemma RetransmitCosts(c: Client, k: nat, clk: Clock)
    requires k < |c.trans|
    ensures Effort(Retransmit(c, k, clk)) == Effort(c) - if LiveRequest(c.trans[k]) then 2 else 0
  {
    TotalUpdate(c.trans, k, Retransmit(c, k, clk).trans[k], (t: Trans) => Weight(t));
  }

  lemma FinishCosts(c: Client, k: nat)
    requires k < |c.trans|
    ensures Effort(Finish(c, k)) == Effort(c) - Weight(c.trans[k])
  {
    TotalUpdate(c.trans, k, c.trans[k].(done := true), (t: Trans) => Weight(t));
  }

  lemma RequestCosts(c: Client, r: Client, x: Trans)
    requires r.trans == c.trans + [x] && x.kind == Request
    requires if c.ads == [] then r.ads == [] && x.done else |r.ads| == |c.ads| - 1 && !x.done && x.timer.rc == 1
    ensures Effort(r) == Effort(c) - if c.ads == [] then 0 else 1
  {
    TotalSnoc(c.trans, x, (t: Trans) => Weight(t));
  }

  lemma SendRequestCosts(c: Client, ias: seq<Iaid>, iface: IfaceId, clk: Clock)
    ensures Effort(SendRequest(c, ias, iface, clk)) == Effort(c) - if c.ads == [] then 0 else 1
  {
    var r := SendRequest(c, ias, iface, clk);
    RequestCosts(c, r, r.trans[|c.trans|]);
  }

  lemma HandOverCosts(c: Client, k: nat, clk: Clock)
    requires k < |c.trans|
    ensures Effort(HandOver(c, k, clk)) == Effort(c) - Weight(c.trans[k]) - if c.ads == [] then 0 else 1
  {
    var s := SendRequest(c, c.trans[k].ias, c.trans[k].iface, clk);
    SendRequestCosts(c, c.trans[k].ias, c.trans[k].iface, clk);
    assert s.trans[k] == c.trans[k];
    FinishCosts(s, k);
  }

  /** Steps of messages other than REQUESTs that send none. */
  lemma RebindCosts(c: Client, k: nat, clk: Clock)
    requires k < |c.trans| && c.trans[k].kind == Renew
    ensures Effort(Finish(SendRebind(c, c.trans[k].ias, c.trans[k].iface, clk), k)) == Effort(c)
  {
    var s := SendRebind(c, c.trans[k].ias, c.trans[k].iface, clk);
    var x, t := s.trans[|c.trans|], c.trans[k].(done := true);
    assert Finish(s, k).trans == (c.trans + [x])[k := t];
    Exchange(c.trans, k, t, Some(x), (t: Trans) => Weight(t));
  }

  lemma ReleaseCosts(c: Client, k: nat)
    requires k < |c.trans| && c.trans[k].kind == Rebind
    ensures Effort(Finish(ReleaseAll(c, c.trans[k].ias), k)) == Effort(c)
  {
    TotalUpdate(c.trans, k, c.trans[k].(done := true), (t: Trans) => Weight(t));
  }

  /** `doDuties` of a message adds nothing to what is left to do, and that of a REQUEST takes some of it. */
  lemma DutiesCost(c: Client, k: nat, clk: Clock)
    requires k < |c.trans| && !c.trans[k].done && Limited(c.trans)
    ensures Effort(Duties(c, k, clk)) <= Effort(c) - if c.trans[k].kind == Request then 1 else 0
  {
    var t, r := c.trans[k], Duties(c, k, clk);
    assert t in c.trans;
    if r == Retransmit(c, k, clk) {
      RetransmitCosts(c, k, clk);
    } else if t.kind == Solicit || t.kind == Request {
      HandOverCosts(c, k, clk);
    } else if t.kind == Renew {
      RebindCosts(c, k, clk);
    } else {
      ReleaseCosts(c, k);
    }
  }

  predicate DueFrom(trans: seq<Trans>, k: nat, n: nat, now: nat) {
    exists j :: k <= j < n && j < |trans| && trans[j].kind == Request && Due(trans[j], now)
  }

  lemma DueStepCosts(c: Client, k: nat, n: nat, clk: Clock)
    requires k < n <= |c.trans| && Limited(c.trans) && Due(c.trans[k], clk.now)
    ensures var r := Duties(c, k, clk);
            Limited(r.trans) &&
            Effort(r) <= Effort(c) - if DueFrom(c.trans, k, n, clk.now) && !DueFrom(r.trans, k + 1, n, clk.now) then 1 else 0
  {
    DutiesCost(c, k, clk);
    DutiesLimited(c, k, clk);
    OthersLeftAlone(c, k, clk);
    StillDue(c.trans, Duties(c, k, clk).trans, k, n, clk.now);
  }

  lemma {:induction false} DutiesFromCost(c: Client, k: nat, n: nat, clk: Clock) returns (end: Client)
    requires k <= n <= |c.trans| && Limited(c.trans)
    ensures end == DutiesFrom(c, k, n, clk)
    ensures Effort(end) <= Effort(c) - if DueFrom(c.trans, k, n, clk.now) then 1 else 0
    decreases n - k
  {
    if k == n {
      end := c;
    } else if Due(c.trans[k], clk.now) {
      DueStepCosts(c, k, n, clk);
      end := DutiesFromCost(Duties(c, k, clk), k + 1, n, clk);
    } else {
      end := DutiesFromCost(c, k + 1, n, clk);
    }
  }

  lemma StillDue(trans: seq<Trans>, after: seq<Trans>, k: nat, n: nat, now: nat)
    requires k < n <= |trans| <= |after| && forall j :: k < j < n ==> after[j] == trans[j]
    ensures DueFrom(trans, k, n, now) ==> trans[k].kind == Request || DueFrom(after, k + 1, n, now)
  {
    if DueFrom(trans, k, n, now) {
      var j :| k <= j < n && trans[j].kind == Request && Due(trans[j], now);
      assert j > k ==> after[j] == trans[j];
    }
  }

  lemma StartCostsNothing(c: Client, r: Client, t: Trans)
    requires r.ads == c.ads && r.trans == c.trans + [t] && t.kind != Request
    ensures Effort(r) == Effort(c)
  {
    TotalSnoc(c.trans, t, (t: Trans) => Weight(t));
  }

  lemma {:induction false} CheckSolicitCostsNothing(c: Client, ifaces: seq<CfgIface>, clk: Clock)
    ensures Effort(CheckSolicit(c, ifaces, clk)) == Effort(c) && CheckSolicit(c, ifaces, clk).ads == c.ads
  {
    if ifaces != [] {
      CheckSolicitCostsNothing(c, ifaces[..|ifaces| - 1], clk);
      var b, f := CheckSolicit(c, ifaces[..|ifaces| - 1], clk), ifaces[|ifaces| - 1];
      if !f.noConfig && NotConfiguredIAs(b, f) != [] {
        var r := StartSolicit(b, f, NotConfiguredIAs(b, f), clk);
        StartCostsNothing(b, r, r.trans[|b.trans|]);
      }
    }
  }

  /** A pass in which some REQUEST is due. */
  predicate Pressing(c: Client, now: nat) {
    DueFrom(c.trans, 0, |c.trans|, now)
  }

  lemma SettleCosts(c: Client, clk: Clock)
    requires Listed(c) && Limited(c.trans)
    ensures Effort(Settle(c, clk)) <= Effort(c) - if Pressing(c, clk.now) then 1 else 0
  {
    var d := DutiesFromCost(c, 0, |c.trans|, clk);
    TotalPurge(d.trans, (t: Trans) => Weight(t));
  }

  lemma CheckCostsNothing(c: Client, pending: set<Iaid>, clk: Clock)
    requires Listed(c)
    ensures Effort(Check(c, pending, clk)) == Effort(c)
  {
    var s, r := CheckSolicit(c, c.ifaces, clk), Check(c, pending, clk);
    CheckSolicitCostsNothing(c, c.ifaces, clk);
    if r != s {
      StartCostsNothing(s, r, r.trans[|s.trans|]);
    }
  }

  /** A pass adds nothing to what is left to do, and one in which a REQUEST is due takes some of it. */
  lemma RoundCosts(c: Client, pending: set<Iaid>, clk: Clock)
    requires Listed(c) && Limited(c.trans)
    ensures Effort(Round(c, pending, clk)) <= Effort(c) - if Pressing(c, clk.now) then 1 else 0
  {
    SettleCosts(c, clk);
    CheckCostsNothing(Settle(c, clk), pending, clk);
  }

  /** The passes of a run in which some REQUEST is due. */
  function PressingPasses(c: Client, turns: seq<Turn>): nat
    requires Listed(c)
  {
    if turns == [] then 0
    else
      var front, turn := turns[..|turns| - 1], turns[|turns| - 1];
      PressingPasses(c, front) + if Pressing(RunOf(c, front), turn.clk.now) then 1 else 0
  }

  /** While nothing is received, every such pass uses up something of the effort. */
  lemma {:induction false} SilenceCosts(c: Client, turns: seq<Turn>)
    requires Listed(c) && Limited(c.trans) && Silent(turns)
    ensures Effort(RunOf(c, turns)) + PressingPasses(c, turns) <= Effort(c) && Limited(RunOf(c, turns).trans)
  {
    if turns != [] {
      var front, turn := turns[..|turns| - 1], turns[|turns| - 1];
      SilentFront(turns);
      SilenceCosts(c, front);
      RoundCosts(RunOf(c, front), turn.pending, turn.clk);
      RoundSpends(RunOf(c, front), turn.pending, turn.clk);
    }
  }

  lemma {:induction false} TotalAtLeast(trans: seq<Trans>, k: nat, f: Trans -> int)
    requires k < |trans| && forall t :: t in trans ==> f(t) >= 0
    ensures f(trans[k]) <= Total(trans, f)
  {
    var n := |trans| - 1;
    TotalNonNegative(trans[..n], f);
    if k < n {
      TotalAtLeast(trans[..n], k, f);
    }
  }

  lemma {:induction false} TotalZero(trans: seq<Trans>, f: Trans -> int)
    requires forall t :: t in trans ==> f(t) == 0
    ensures Total(trans, f) == 0
  {
    if trans != [] {
      TotalZero(trans[..|trans| - 1], f);
    }
  }

  predicate NoRequests(trans: seq<Trans>) {
    forall t :: t in trans ==> !LiveRequest(t)
  }

  lemma NothingLeftToDo(c: Client)
    requires Limited(c.trans) && Effort(c) <= 0
    ensures c.ads == [] && NoRequests(c.trans) && Budget(c) == 0
  {
    TotalNonNegative(c.trans, (t: Trans) => Weight(t));
    forall t | t in c.trans
      ensures !LiveRequest(t)
    {
      var k :| 0 <= k < |c.trans| && c.trans[k] == t;
      TotalAtLeast(c.trans, k, (t: Trans) => Weight(t));
    }
    TotalZero(c.trans, (t: Trans) => Left(t));
  }

  lemma NothingMoreToDo(c: Client)
    requires c.ads == [] && NoRequests(c.trans)
    ensures Effort(c) == 0
  {
    TotalZero(c.trans, (t: Trans) => Weight(t));
  }

  /** Every pass finds a due REQUEST, for as long as there are any. */
  predicate Pressed(c: Client, turns: seq<Turn>)
    requires Listed(c)
  {
    forall n :: 0 <= n < |turns| ==>
      Pressing(RunOf(c, turns[..n]), turns[n].clk.now) || NoRequests(RunOf(c, turns[..n]).trans)
  }

  /** Some REQUEST is live throughout. */
  predicate Unfinished(c: Client, turns: seq<Turn>)
    requires Listed(c)
  {
    forall n :: 0 <= n <= |turns| ==> !NoRequests(RunOf(c, turns[..n]).trans)
  }

  lemma PressedFront(c: Client, turns: seq<Turn>)
    requires Listed(c) && turns != [] && Pressed(c, turns)
    ensures Pressed(c, turns[..|turns| - 1])
  {
    var front := turns[..|turns| - 1];
    forall n | 0 <= n < |front|
      ensures Pressing(RunOf(c, front[..n]), front[n].clk.now) || NoRequests(RunOf(c, front[..n]).trans)
    {
      assert front[..n] == turns[..n];
    }
  }

  lemma UnfinishedFront(c: Client, turns: seq<Turn>)
    requires Listed(c) && turns != [] && Unfinished(c, turns)
    ensures Unfinished(c, turns[..|turns| - 1])
  {
    var front := turns[..|turns| - 1];
    forall n | 0 <= n <= |front|
      ensures !NoRequests(RunOf(c, front[..n]).trans)
    {
      assert front[..n] == turns[..n];
    }
  }

  lemma {:induction false} AllPress(c: Client, turns: seq<Turn>)
    requires Listed(c) && Pressed(c, turns) && Unfinished(c, turns)
    ensures PressingPasses(c, turns) == |turns|
  {
    if turns != [] {
      var n := |turns| - 1;
      PressedFront(c, turns);
      UnfinishedFront(c, turns);
      AllPress(c, turns[..n]);
      assert !NoRequests(RunOf(c, turns[..n]).trans);
    }
  }

  lemma SomeTimeFinished(c: Client, turns: seq<Turn>)
    requires Listed(c) && Limited(c.trans) && Silent(turns) && Pressed(c, turns) && |turns| >= Effort(c)
    ensures !Unfinished(c, turns)
  {
    assert turns[..|turns|] == turns;
    if Unfinished(c, turns) {
      AllPress(c, turns);
      SilenceCosts(c, turns);
      NothingLeftToDo(RunOf(c, turns));
    }
  }

  /**
    While nothing is received, REQUESTs come to an end: if each pass finds one due for as long as
    there are any, then after at most `Effort(c)` passes there is none.
   */
  lemma RequestsEnd(c: Client, turns: seq<Turn>) returns (n: nat)
    requires Listed(c) && Limited(c.trans) && Silent(turns) && Pressed(c, turns) && |turns| >= Effort(c)
    ensures n <= |turns| && NoRequests(RunOf(c, turns[..n]).trans)
  {
    SomeTimeFinished(c, turns);
    n :| 0 <= n <= |turns| && NoRequests(RunOf(c, turns[..n]).trans);
  }

  // ---- no ADVERTISE is left over -----------------------------------------------------------------------------------

  /** Some REQUEST is under way, or no ADVERTISE is left to send one for. */
  predicate Searching(c: Client) {
    c.ads == [] || !NoRequests(c.trans)
  }

  lemma StillRequests(trans: seq<Trans>, after: seq<Trans>, k: nat)
    requires k < |trans| <= |after| && (forall j :: 0 <= j < |trans| && j != k ==> after[j] == trans[j])
    requires !NoRequests(trans) && (LiveRequest(trans[k]) ==> LiveRequest(after[k]))
    ensures !NoRequests(after)
  {
    var t :| t in trans && LiveRequest(t);
    var j :| 0 <= j < |trans| && trans[j] == t;
    assert after[j] in after && LiveRequest(after[j]);
  }

  lemma HandOverSearching(c: Client, k: nat, clk: Clock)
    requires k < |c.trans|
    ensures Searching(HandOver(c, k, clk))
  {
    var r := HandOver(c, k, clk);
    SortIsDescending(c.ads);
    if c.ads != [] {
      assert r.trans[|c.trans|] in r.trans && LiveRequest(r.trans[|c.trans|]);
    }
  }

  lemma DutiesSearching(c: Client, k: nat, clk: Clock)
    requires k < |c.trans| && !c.trans[k].done && Searching(c)
    ensures Searching(Duties(c, k, clk))
  {
    var t, r := c.trans[k], Duties(c, k, clk);
    if (t.kind == Solicit && c.ads != []) || (t.kind == Request && t.timer.rc > t.timer.mrc) {
      HandOverSearching(c, k, clk);
    } else if c.ads != [] {
      OthersLeftAlone(c, k, clk);
      StillRequests(c.trans, r.trans, k);
    }
  }

  lemma {:induction false} DutiesFromSearching(c: Client, k: nat, n: nat, clk: Clock)
    requires k <= n <= |c.trans| && Searching(c)
    ensures Searching(DutiesFrom(c, k, n, clk))
    decreases n - k
  {
    if k < n {
      if Due(c.trans[k], clk.now) {
        DutiesSearching(c, k, clk);
        DutiesFromSearching(Duties(c, k, clk), k + 1, n, clk);
      } else {
        DutiesFromSearching(c, k + 1, n, clk);
      }
    }
  }

  lemma PurgeSearching(c: Client)
    requires Searching(c)
    ensures Searching(Purge(c))
  {
    if c.ads != [] {
      var t :| t in c.trans && LiveRequest(t);
      assert t in Purge(c).trans;
    }
  }

  /** A transaction that is added changes nothing about that. */
  lemma StartSearching(c: Client, r: Client, t: Trans)
    requires Searching(c) && r.ads == c.ads && r.trans == c.trans + [t]
    ensures Searching(r)
  {
    if c.ads != [] {
      var x :| x in c.trans && LiveRequest(x);
      assert x in r.trans;
    }
  }

  lemma {:induction false} CheckSolicitSearching(c: Client, ifaces: seq<CfgIface>, clk: Clock)
    requires Searching(c)
    ensures Searching(CheckSolicit(c, ifaces, clk))
  {
    if ifaces != [] {
      CheckSolicitSearching(c, ifaces[..|ifaces| - 1], clk);
      var b, f := CheckSolicit(c, ifaces[..|ifaces| - 1], clk), ifaces[|ifaces| - 1];
      if !f.noConfig && NotConfiguredIAs(b, f) != [] {
        var r := StartSolicit(b, f, NotConfiguredIAs(b, f), clk);
        StartSearching(b, r, r.trans[|b.trans|]);
      }
    }
  }

  lemma CheckSearching(c: Client, pending: set<Iaid>, clk: Clock)
    requires Listed(c) && Searching(c)
    ensures Searching(Check(c, pending, clk))
  {
    var s, r := CheckSolicit(c, c.ifaces, clk), Check(c, pending, clk);
    CheckSolicitSearching(c, c.ifaces, clk);
    if r != s {
      StartSearching(s, r, r.trans[|s.trans|]);
    }
  }

  lemma RoundSearching(c: Client, pending: set<Iaid>, clk: Clock)
    requires Listed(c) && Searching(c)
    ensures Searching(Round(c, pending, clk))
  {
    DutiesFromSearching(c, 0, |c.trans|, clk);
    PurgeSearching(DutiesFrom(c, 0, |c.trans|, clk));
    CheckSearching(Settle(c, clk), pending, clk);
  }

  /** While nothing is received, a client with an ADVERTISE to use has a REQUEST under way, if it had one before. */
  lemma {:induction false} SilenceSearches(c: Client, turns: seq<Turn>) returns (end: Client)
    requires Listed(c) && Searching(c) && Silent(turns)
    ensures end == RunOf(c, turns) && Searching(end)
  {
    if turns == [] {
      end := c;
    } else {
      SilentTurn(c, turns);
      var turn := turns[|turns| - 1];
      var front := SilenceSearches(c, turns[..|turns| - 1]);
      RoundSearching(front, turn.pending, turn.clk);
      end := Round(front, turn.pending, turn.clk);
    }
  }

  /** So once no REQUEST is left, there is no ADVERTISE and no transmission left. */
  lemma AllUsedUp(c: Client, turns: seq<Turn>)
    requires Listed(c) && Limited(c.trans) && Searching(c) && Silent(turns) && NoRequests(RunOf(c, turns).trans)
    ensures var end := RunOf(c, turns);
            end.ads == [] && Budget(end) == 0 && Effort(end) == 0
  {
    var end := SilenceSearches(c, turns);
    SilenceCosts(c, turns);
    NothingMoreToDo(end);
    NothingLeftToDo(end);
  }

  lemma PassStartsNone(c: Client, pending: set<Iaid>, clk: Clock)
    requires Listed(c) && Limited(c.trans) && c.ads == [] && NoRequests(c.trans)
    ensures NoRequests(Round(c, pending, clk).trans)
  {
    NothingMoreToDo(c);
    RoundCosts(c, pending, clk);
    RoundSpends(c, pending, clk);
    NothingLeftToDo(Round(c, pending, clk));
  }

  lemma LastTurnStartsNone(c: Client, turns: seq<Turn>) returns (end: Client)
    requires Listed(c) && Limited(c.trans) && Searching(c) && Silent(turns)
    requires turns != [] && NoRequests(RunOf(c, turns[..|turns| - 1]).trans)
    ensures end == RunOf(c, turns) && NoRequests(end.trans)
  {
    var front, turn := turns[..|turns| - 1], turns[|turns| - 1];
    SilentTurn(c, turns);
    AllUsedUp(c, front);
    SilenceCosts(c, front);
    PassStartsNone(RunOf(c, front), turn.pending, turn.clk);
    end := RunOf(c, turns);
  }

  /** And none is ever sent again. */
  lemma {:induction false} RequestsStayEnded(c: Client, turns: seq<Turn>, n: nat)
    requires Listed(c) && Limited(c.trans) && Searching(c) && Silent(turns)
    requires n <= |turns| && NoRequests(RunOf(c, turns[..n]).trans)
    ensures NoRequests(RunOf(c, turns).trans)
  {
    if n == |turns| {
      assert turns[..n] == turns;
    } else {
      assert turns[..|turns| - 1][..n] == turns[..n];
      RequestsStayEnded(c, turns[..|turns| - 1], n);
      var end := LastTurnStartsNone(c, turns);
    }
  }

  // ---- which servers are asked -------------------------------------------------------------------------------------

  /** The servers of the REQUESTs among some transactions. */
  function AskedBy(trans: seq<Trans>): seq<Server> {
    if trans == [] then []
    else
      var t := trans[|trans| - 1];
      AskedBy(trans[..|trans| - 1]) + if t.kind == Request && t.server.Some? then [t.server.value] else []
  }

  lemma {:induction false} AskedByConcat(a: seq<Trans>, b: seq<Trans>)
    ensures AskedBy(a + b) == AskedBy(a) + AskedBy(b)
  {
    if b == [] {
      assert a + b == a;
    } else {
      var front, last := b[..|b| - 1], b[|b| - 1];
      AskedByConcat(a, front);
      assert (a + b)[..|a + b| - 1] == a + front;
    }
  }

  lemma AskedByOne(t: Trans)
    ensures AskedBy([t]) == if t.kind == Request && t.server.Some? then [t.server.value] else []
  {
    assert [t][..0] == [];
  }

  /** The servers still to be asked, best preference first. */
  function Waiting(c: Client): seq<Server> {
    Servers(SortByPreference(c.ads))
  }

  /** The transactions appended since. */
  function Appended(c: Client, r: Client): seq<Trans> {
    if |r.trans| >= |c.trans| then r.trans[|c.trans|..] else []
  }

  /** The servers that the appended REQUESTs ask are the next ones. */
  predicate AsksNext(c: Client, r: Client) {
    AskedBy(Appended(c, r)) + Waiting(r) == Waiting(c)
  }

  /** The messages from the `n`-th on are as they were. */
  predicate Untouched(c: Client, r: Client, n: nat) {
    |r.trans| >= |c.trans| && forall j :: n <= j < |c.trans| ==> r.trans[j] == c.trans[j]
  }

  lemma SendRequestAsks(c: Client, ias: seq<Iaid>, iface: IfaceId, clk: Clock)
    ensures AsksNext(c, SendRequest(c, ias, iface, clk))
  {
    var r := SendRequest(c, ias, iface, clk);
    assert Appended(c, r) == [r.trans[|c.trans|]];
    AskedByOne(r.trans[|c.trans|]);
    if SortByPreference(c.ads) == [] {
      assert Waiting(r) == [] && Waiting(c) == [];
    } else {
      SortIsDescending(c.ads);
      assert c.ads != [];
      SortedRest(c.ads);
      ServersHead(SortByPreference(c.ads));
    }
  }

  lemma FinishAsks(c: Client, r: Client, k: nat)
    requires AsksNext(c, r) && k < |c.trans| <= |r.trans|
    ensures AsksNext(c, Finish(r, k))
  {
    assert Appended(c, Finish(r, k)) == Appended(c, r);
  }

  lemma NothingAsked(c: Client, r: Client)
    requires r.ads == c.ads && |c.trans| <= |r.trans| <= |c.trans| + 1
    requires |r.trans| > |c.trans| ==> r.trans[|c.trans|].kind != Request
    ensures AsksNext(c, r)
  {
    if |r.trans| == |c.trans| {
      assert Appended(c, r) == [];
    } else {
      assert Appended(c, r) == [r.trans[|c.trans|]];
      AskedByOne(r.trans[|c.trans|]);
    }
  }

  lemma DutiesAsk(c: Client, k: nat, clk: Clock)
    requires k < |c.trans|
    ensures AsksNext(c, Duties(c, k, clk))
  {
    var t, r := c.trans[k], Duties(c, k, clk);
    if r == Retransmit(c, k, clk) || t.kind == Rebind {
      NothingAsked(c, r);
    } else if t.kind == Renew {
      NothingAsked(c, r);
    } else {
      SendRequestAsks(c, t.ias, t.iface, clk);
      FinishAsks(c, SendRequest(c, t.ias, t.iface, clk), k);
    }
  }

  lemma UntouchedTransitive(a: Client, b: Client, c: Client, m: nat, n: nat)
    requires Untouched(a, b, m) && Untouched(b, c, n)
    ensures Untouched(a, c, Max(m, n))
  {
  }

  lemma {:induction false} RestLeftAlone(c: Client, k: nat, n: nat, clk: Clock)
    requires k <= n <= |c.trans|
    ensures Untouched(c, DutiesFrom(c, k, n, clk), n)
    decreases n - k
  {
    if k < n {
      if Due(c.trans[k], clk.now) {
        var r := Duties(c, k, clk);
        OthersLeftAlone(c, k, clk);
        RestLeftAlone(r, k + 1, n, clk);
        UntouchedTransitive(c, r, DutiesFrom(r, k + 1, n, clk), k + 1, n);
      } else {
        RestLeftAlone(c, k + 1, n, clk);
      }
    }
  }

  lemma AppendedInTwo(a: Client, b: Client, c: Client, n: nat)
    requires Untouched(a, b, n) && Untouched(b, c, n) && n <= |a.trans|
    ensures Appended(a, c) == Appended(a, b) + Appended(b, c)
  {
  }

  lemma AsksNextTransitive(a: Client, b: Client, c: Client, n: nat)
    requires AsksNext(a, b) && AsksNext(b, c) && Untouched(a, b, n) && Untouched(b, c, n) && n <= |a.trans|
    ensures AsksNext(a, c)
  {
    AppendedInTwo(a, b, c, n);
    AskedByConcat(Appended(a, b), Appended(b, c));
    Regroup(AskedBy(Appended(a, b)), AskedBy(Appended(b, c)), Waiting(c));
  }

  lemma Regroup<T>(a: seq<T>, b: seq<T>, c: seq<T>)
    ensures (a + b) + c == a + (b + c)
  {
  }

  lemma {:induction false} DutiesFromAsk(c: Client, k: nat, n: nat, clk: Clock)
    requires k <= n <= |c.trans|
    ensures AsksNext(c, DutiesFrom(c, k, n, clk))
    decreases n - k
  {
    if k == n {
      NothingAsked(c, c);
    } else if Due(c.trans[k], clk.now) {
      var r := Duties(c, k, clk);
      DutiesAsk(c, k, clk);
      DutiesFromAsk(r, k + 1, n, clk);
      OthersLeftAlone(c, k, clk);
      RestLeftAlone(r, k + 1, n, clk);
      AsksNextTransitive(c, r, DutiesFrom(r, k + 1, n, clk), n);
    } else {
      DutiesFromAsk(c, k + 1, n, clk);
    }
  }

  /** The servers asked by the REQUESTs that a pass starts, in order. */
  function AskedIn(c: Client, clk: Clock): seq<Server> {
    AskedBy(Appended(c, DutiesFrom(c, 0, |c.trans|, clk)))
  }

  lemma RoundAsks(c: Client, pending: set<Iaid>, clk: Clock)
    requires Listed(c)
    ensures AskedIn(c, clk) + Waiting(Round(c, pending, clk)) == Waiting(c)
  {
    DutiesFromAsk(c, 0, |c.trans|, clk);
    CheckSolicitCostsNothing(Settle(c, clk), c.ifaces, clk);
  }

  function AskedOver(c: Client, turns: seq<Turn>): seq<Server>
    requires Listed(c)
  {
    if turns == [] then []
    else
      var front, turn := turns[..|turns| - 1], turns[|turns| - 1];
      AskedOver(c, front) + AskedIn(RunOf(c, front), turn.clk)
  }

  /** While nothing is received, new REQUESTs ask the advertised servers once each, best preference
      first, whichever messages they take over from. */
  lemma {:induction false} SilenceAsks(c: Client, turns: seq<Turn>)
    requires Listed(c) && Silent(turns)
    ensures AskedOver(c, turns) + Waiting(RunOf(c, turns)) == Waiting(c)
  {
    if turns != [] {
      var front, turn := turns[..|turns| - 1], turns[|turns| - 1];
      SilentTurn(c, turns);
      SilenceAsks(c, front);
      var b := RunOf(c, front);
      RoundAsks(b, turn.pending, turn.clk);
      Regroup(AskedOver(c, front), AskedIn(b, turn.clk), Waiting(RunOf(c, turns)));
    }
  }

  lemma {:induction false} SilenceSpends(c: Client, turns: seq<Turn>)
    requires Listed(c) && Limited(c.trans) && Silent(turns)
    ensures SentOver(c, turns) == Budget(c) - Budget(RunOf(c, turns)) && Limited(RunOf(c, turns).trans)
  {
    if turns != [] {
      var front, turn := turns[..|turns| - 1], turns[|turns| - 1];
      SilentFront(turns);
      SilenceSpends(c, front);
      RoundSpends(RunOf(c, front), turn.pending, turn.clk);
    }
  }

  /**
    A run in silence from a client with a REQUEST under way to one without: the servers asked
    are all the advertised ones, in order of preference, and the REQUESTs sent are MRC+1 for each of
    them plus what was left before.
   */
  lemma SilenceAsksAll(c: Client, turns: seq<Turn>)
    requires Listed(c) && Limited(c.trans) && Searching(c) && Silent(turns) && NoRequests(RunOf(c, turns).trans)
    ensures AskedOver(c, turns) == Servers(SortByPreference(c.ads)) && SentOver(c, turns) == Budget(c)
  {
    AllUsedUp(c, turns);
    SilenceAsks(c, turns);
    SilenceSpends(c, turns);
    assert Waiting(RunOf(c, turns)) == [];
  }

  // ---- what becomes of the IAs ---------------------------------------------------------------------------------------

  /** How often a transaction that asks for new addresses has the IA. */
  function Seeks(t: Trans, i: Iaid): int {
    if !t.done && (t.kind == Solicit || t.kind == Request) then Occurs(t.ias, i) else 0
  }

  function Seekers(trans: seq<Trans>, i: Iaid): int {
    Total(trans, (t: Trans) => Seeks(t, i))
  }

  /** The IA waits to be discovered, or is asked for. */
  predicate Sought(c: Client, i: Iaid) {
    i in c.cfg && (c.cfg[i].state == NotConfigured || Seekers(c.trans, i) > 0)
  }

  lemma FinishSeekers(c: Client, k: nat, i: Iaid)
    requires k < |c.trans|
    ensures Seekers(Finish(c, k).trans, i) == Seekers(c.trans, i) - Seeks(c.trans[k], i)
  {
    TotalUpdate(c.trans, k, c.trans[k].(done := true), (t: Trans) => Seeks(t, i));
  }

  lemma SendRequestSeekers(c: Client, ias: seq<Iaid>, iface: IfaceId, clk: Clock, i: Iaid)
    ensures Seekers(SendRequest(c, ias, iface, clk).trans, i) == Seekers(c.trans, i) + if c.ads == [] then 0 else Occurs(ias, i)
  {
    TotalSnoc(c.trans, SendRequest(c, ias, iface, clk).trans[|c.trans|], (t: Trans) => Seeks(t, i));
    SortIsDescending(c.ads);
  }

  lemma HandOverSeekers(c: Client, k: nat, clk: Clock, i: Iaid)
    requires k < |c.trans| && !c.trans[k].done && (c.trans[k].kind == Solicit || c.trans[k].kind == Request)
    ensures Seekers(HandOver(c, k, clk).trans, i) ==
            Seekers(c.trans, i) - if c.ads == [] then Occurs(c.trans[k].ias, i) else 0
  {
    var s := SendRequest(c, c.trans[k].ias, c.trans[k].iface, clk);
    SendRequestSeekers(c, c.trans[k].ias, c.trans[k].iface, clk, i);
    assert s.trans[k] == c.trans[k];
    FinishSeekers(s, k, i);
  }

  lemma HandOverSought(c: Client, k: nat, clk: Clock, i: Iaid)
    requires k < |c.trans| && !c.trans[k].done && (c.trans[k].kind == Solicit || c.trans[k].kind == Request)
    requires Placed(c.cfg, c.trans[k]) && Sought(c, i)
    ensures Sought(HandOver(c, k, clk), i)
  {
    HandOverSeekers(c, k, clk, i);
  }

  lemma RebindSought(c: Client, k: nat, clk: Clock, i: Iaid)
    requires k < |c.trans| && c.trans[k].kind == Renew && Sought(c, i)
    ensures Sought(Finish(SendRebind(c, c.trans[k].ias, c.trans[k].iface, clk), k), i)
  {
    var s := SendRebind(c, c.trans[k].ias, c.trans[k].iface, clk);
    TotalSnoc(c.trans, s.trans[|c.trans|], (t: Trans) => Seeks(t, i));
    assert s.trans[k] == c.trans[k];
    FinishSeekers(s, k, i);
  }

  lemma ReleaseSought(c: Client, k: nat, i: Iaid)
    requires k < |c.trans| && c.trans[k].kind == Rebind && Sought(c, i)
    ensures Sought(Finish(ReleaseAll(c, c.trans[k].ias), k), i)
  {
    var r := ReleaseAll(c, c.trans[k].ias);
    ReleaseAllStates(c, c.trans[k].ias, i);
    assert Sought(r, i);
    FinishSeekers(r, k, i);
  }

  lemma DutiesSought(c: Client, k: nat, clk: Clock, i: Iaid)
    requires k < |c.trans| && !c.trans[k].done && Placed(c.cfg, c.trans[k]) && Sought(c, i)
    ensures Sought(Duties(c, k, clk), i)
  {
    var t, r := c.trans[k], Duties(c, k, clk);
    if r == Retransmit(c, k, clk) {
      TotalUpdate(c.trans, k, r.trans[k], (t: Trans) => Seeks(t, i));
    } else if t.kind == Solicit || t.kind == Request {
      HandOverSought(c, k, clk, i);
    } else if t.kind == Renew {
      RebindSought(c, k, clk, i);
    } else {
      ReleaseSought(c, k, i);
    }
  }

  lemma {:induction false} DutiesFromSought(c: Client, k: nat, n: nat, clk: Clock, i: Iaid)
    requires AllPlaced(c.cfg, c.trans) && Sought(c, i) && k <= n <= |c.trans|
    ensures Sought(DutiesFrom(c, k, n, clk), i)
    decreases n - k
  {
    if k < n {
      if Due(c.trans[k], clk.now) {
        DutiesPlaced(c, k, clk);
        DutiesSought(c, k, clk, i);
        DutiesFromSought(Duties(c, k, clk), k + 1, n, clk, i);
      } else {
        DutiesFromSought(c, k + 1, n, clk, i);
      }
    }
  }

  lemma SolicitSought(c: Client, f: CfgIface, clk: Clock, i: Iaid)
    requires Sought(c, i)
    ensures Sought(SolicitOn(c, f, clk), i)
  {
    var ias := NotConfiguredIAs(c, f);
    if !f.noConfig && ias != [] {
      TotalSnoc(c.trans, StartSolicit(c, f, ias, clk).trans[|c.trans|], (t: Trans) => Seeks(t, i));
      TotalNonNegative(c.trans, (t: Trans) => Seeks(t, i));
    }
  }

  lemma {:induction false} CheckSolicitSought(c: Client, ifaces: seq<CfgIface>, clk: Clock, i: Iaid)
    requires Sought(c, i)
    ensures Sought(CheckSolicit(c, ifaces, clk), i)
  {
    if ifaces != [] {
      CheckSolicitSought(c, ifaces[..|ifaces| - 1], clk, i);
      SolicitSought(CheckSolicit(c, ifaces[..|ifaces| - 1], clk), ifaces[|ifaces| - 1], clk, i);
    }
  }

  lemma RenewSought(c: Client, pending: set<Iaid>, clk: Clock, i: Iaid)
    requires Listed(c) && Sought(c, i)
    ensures Sought(CheckRenew(c, pending, clk), i)
  {
    var r := CheckRenew(c, pending, clk);
    if r != c {
      TotalSnoc(c.trans, r.trans[|c.trans|], (t: Trans) => Seeks(t, i));
    }
  }

  /** A pass goes on seeking what was sought. */
  lemma RoundSought(c: Client, pending: set<Iaid>, clk: Clock, i: Iaid)
    requires Listed(c) && AllPlaced(c.cfg, c.trans) && Sought(c, i)
    ensures Sought(Round(c, pending, clk), i)
  {
    var d, e := DutiesFrom(c, 0, |c.trans|, clk), Settle(c, clk);
    DutiesFromSought(c, 0, |c.trans|, clk, i);
    TotalPurge(d.trans, (t: Trans) => Seeks(t, i));
    CheckSolicitSought(e, e.ifaces, clk, i);
    RenewSought(CheckSolicit(e, e.ifaces, clk), pending, clk, i);
  }

  ghost predicate OwnedAndSought(c: Client, i: Iaid) {
    Owned(c) && Sought(c, i)
  }

  lemma OwnedRoundSought(c: Client, pending: set<Iaid>, clk: Clock, i: Iaid)
    requires OwnedAndSought(c, i)
    ensures OwnedAndSought(Round(c, pending, clk), i)
    ensures Seekers(Round(c, pending, clk).trans, i) > 0
  {
    RoundSought(c, pending, clk, i);
    RoundKeeps(c, pending, clk);
  }

  /** After a pass, what was sought is asked for. */
  lemma {:induction false} SilenceSought(c: Client, turns: seq<Turn>, i: Iaid) returns (end: Client)
    requires OwnedAndSought(c, i) && Silent(turns)
    ensures end == RunOf(c, turns) && OwnedAndSought(end, i)
    ensures turns != [] ==> Seekers(end.trans, i) > 0
  {
    if turns == [] {
      end := c;
    } else {
      SilentTurn(c, turns);
      var turn := turns[|turns| - 1];
      var front := SilenceSought(c, turns[..|turns| - 1], i);
      OwnedRoundSought(front, turn.pending, turn.clk, i);
      end := Round(front, turn.pending, turn.clk);
    }
  }

  /** A live SOLICIT has the IA. */
  predicate Solicits(trans: seq<Trans>, i: Iaid) {
    exists k :: 0 <= k < |trans| && trans[k].kind == Solicit && !trans[k].done && i in trans[k].ias
  }

  lemma OnlySolicitsSeek(trans: seq<Trans>, i: Iaid)
    requires NoRequests(trans) && Seekers(trans, i) > 0
    ensures Solicits(trans, i)
  {
    if !Solicits(trans, i) {
      forall t | t in trans
        ensures Seeks(t, i) == 0
      {
        var k :| 0 <= k < |trans| && trans[k] == t;
        assert !LiveRequest(trans[k]);
      }
      TotalZero(trans, (t: Trans) => Seeks(t, i));
    }
  }

  lemma HeldByOne(c: Client, i: Iaid)
    requires Owned(c) && Solicits(c.trans, i)
    ensures Holders(c.trans, i) == 1
  {
    var k :| 0 <= k < |c.trans| && c.trans[k].kind == Solicit && !c.trans[k].done && i in c.trans[k].ias;
    HoldersUpdate(c.trans, k, c.trans[k], i);
    assert Exclusive(c, i);
  }

  lemma RequestedIsSought(c: Client, k: nat, i: Iaid)
    requires Owned(c) && k < |c.trans| && LiveRequest(c.trans[k]) && i in c.trans[k].ias
    ensures OwnedAndSought(c, i) && !NoRequests(c.trans)
  {
    assert Placed(c.cfg, c.trans[k]);
    assert c.trans[k] in c.trans;
    TotalAtLeast(c.trans, k, (t: Trans) => Seeks(t, i));
  }

  /**
    A REQUEST of a client that owns its IAs, and nothing received any more: when no REQUEST is left,
    its IAs are held by a SOLICIT, and by nothing else.
   */
  lemma RequestedIsDiscovered(c: Client, turns: seq<Turn>, k: nat, i: Iaid)
    requires Owned(c) && Silent(turns) && NoRequests(RunOf(c, turns).trans)
    requires k < |c.trans| && LiveRequest(c.trans[k]) && i in c.trans[k].ias
    ensures var r := RunOf(c, turns);
            Solicits(r.trans, i) && Holders(r.trans, i) == 1
  {
    RequestedIsSought(c, k, i);
    var end := SilenceSought(c, turns, i);
    OnlySolicitsSeek(end.trans, i);
    HeldByOne(end, i);
  }

  // ---- no IA is dropped ----------------------------------------------------------------------------------------------

  /** The IA waits to be discovered, or some transaction holds it. */
  predicate Attended(c: Client, i: Iaid) {
    i in c.cfg && i in c.db && (c.cfg[i].state == NotConfigured || Holders(c.trans, i) > 0)
  }

  lemma ReleaseAttended(c: Client, k: nat, i: Iaid)
    requires k < |c.trans| && !c.trans[k].done && Attended(c, i)
    ensures Attended(Finish(ReleaseAll(c, c.trans[k].ias), k), i)
  {
    ReleaseAllStates(c, c.trans[k].ias, i);
    FinishHolders(ReleaseAll(c, c.trans[k].ias), k, i);
  }

  lemma DutiesAttended(c: Client, k: nat, clk: Clock, i: Iaid)
    requires k < |c.trans| && !c.trans[k].done && Placed(c.cfg, c.trans[k]) && Attended(c, i)
    ensures Attended(Duties(c, k, clk), i)
  {
    var t, r := c.trans[k], Duties(c, k, clk);
    if r == Retransmit(c, k, clk) {
      HoldersUpdate(c.trans, k, r.trans[k], i);
    } else if t.kind == Solicit || t.kind == Request {
      HandOverHolders(c, k, clk, i);
    } else if t.kind == Renew {
      RebindHolders(c, k, clk, i);
    } else {
      ReleaseAttended(c, k, i);
    }
  }

  lemma {:induction false} DutiesFromAttended(c: Client, k: nat, n: nat, clk: Clock, i: Iaid)
    requires AllPlaced(c.cfg, c.trans) && Attended(c, i) && k <= n <= |c.trans|
    ensures Attended(DutiesFrom(c, k, n, clk), i)
    decreases n - k
  {
    if k < n {
      if Due(c.trans[k], clk.now) {
        DutiesPlaced(c, k, clk);
        DutiesAttended(c, k, clk, i);
        DutiesFromAttended(Duties(c, k, clk), k + 1, n, clk, i);
      } else {
        DutiesFromAttended(c, k + 1, n, clk, i);
      }
    }
  }

  lemma {:induction false} CheckSolicitAttended(c: Client, ifaces: seq<CfgIface>, clk: Clock, i: Iaid)
    requires Attended(c, i)
    ensures Attended(CheckSolicit(c, ifaces, clk), i)
  {
    if ifaces != [] {
      CheckSolicitAttended(c, ifaces[..|ifaces| - 1], clk, i);
      SolicitAttended(CheckSolicit(c, ifaces[..|ifaces| - 1], clk), ifaces[|ifaces| - 1], clk, i);
    }
  }

  lemma SolicitAttended(c: Client, f: CfgIface, clk: Clock, i: Iaid)
    requires Attended(c, i)
    ensures Attended(SolicitOn(c, f, clk), i)
  {
    var ias := NotConfiguredIAs(c, f);
    if !f.noConfig && ias != [] {
      HoldersSnoc(c.trans, StartSolicit(c, f, ias, clk).trans[|c.trans|], i);
    }
  }

  lemma RenewAttended(c: Client, pending: set<Iaid>, clk: Clock, i: Iaid)
    requires Listed(c) && Attended(c, i)
    ensures Attended(CheckRenew(c, pending, clk), i)
  {
    var r := CheckRenew(c, pending, clk);
    if r != c {
      HoldersSnoc(c.trans, r.trans[|c.trans|], i);
    }
  }

  lemma RoundAttended(c: Client, pending: set<Iaid>, clk: Clock, i: Iaid)
    requires Listed(c) && AllPlaced(c.cfg, c.trans) && Attended(c, i)
    ensures Attended(Round(c, pending, clk), i)
  {
    var d, e := DutiesFrom(c, 0, |c.trans|, clk), Settle(c, clk);
    DutiesFromAttended(c, 0, |c.trans|, clk, i);
    HoldersPurge(d.trans, i);
    CheckSolicitAttended(e, e.ifaces, clk, i);
    RenewAttended(CheckSolicit(e, e.ifaces, clk), pending, clk, i);
  }

  /** A pass leaves an IA that is attended to with exactly one holder. */
  lemma RoundHolds(c: Client, pending: set<Iaid>, clk: Clock, i: Iaid)
    requires Owned(c) && Attended(c, i)
    ensures var r := Round(c, pending, clk);
            Owned(r) && Attended(r, i) && Holders(r.trans, i) == 1
  {
    RoundAttended(c, pending, clk, i);
    RoundKeeps(c, pending, clk);
    assert Exclusive(Round(c, pending, clk), i);
  }

  /**
    While nothing is received, whatever times out or expires, an IA that some transaction holds is
    always held by exactly one: RENEW, REBIND, SOLICIT and REQUEST pass it on without a gap.
   */
  lemma {:induction false} SilenceHolds(c: Client, turns: seq<Turn>, i: Iaid) returns (end: Client)
    requires Owned(c) && Silent(turns) && i in c.cfg && Holders(c.trans, i) > 0
    ensures end == RunOf(c, turns) && Owned(end) && i in end.cfg && Holders(end.trans, i) == 1
  {
    if turns == [] {
      end := c;
      assert Exclusive(c, i);
    } else {
      SilentTurn(c, turns);
      var turn := turns[|turns| - 1];
      var front := SilenceHolds(c, turns[..|turns| - 1], i);
      RoundHolds(front, turn.pending, turn.clk, i);
      end := Round(front, turn.pending, turn.clk);
    }
  }
}
