/**
  When things happen while nothing is received and no pass comes after a deadline: a RENEW becomes
  a REBIND exactly at T2, a REBIND gives up exactly when its duration is over, and REQUESTs end in
  bounded time. The client's own loop keeps such time.
 */
module Deadlines {
  import opened Containers
  import opened Leases
  import opened Retransmission
  import opened Protocol
  import opened Ownership
  import opened Runs
  import opened TransMgr
  import opened Hazards
  import opened Failover
  import opened SilentRuns
  import opened SilentRefresh

  /** When the message is due, and when its duration is over. */
  function DueAt(t: Trans): nat { t.timer.last + t.timer.rt }
  function EndsAt(t: Trans): nat { DueAt(t) + t.timer.mrd }

  // ---- one message in one pass -------------------------------------------------------------------------------------

  lemma {:induction false} DutiesInTwo(c: Client, k: nat, j: nat, n: nat, clk: Clock)
    requires k <= j <= n <= |c.trans|
    ensures var mid := DutiesFrom(c, k, j, clk);
            |mid.trans| >= |c.trans| && DutiesFrom(c, k, n, clk) == DutiesFrom(mid, j, n, clk)
    decreases j - k
  {
    if k < j {
      DutiesInTwo(if Due(c.trans[k], clk.now) then Duties(c, k, clk) else c, k + 1, j, n, clk);
    }
  }

  lemma {:induction false} EarlierLeftAlone(c: Client, k: nat, n: nat, clk: Clock, m: nat)
    requires m < k <= n <= |c.trans|
    ensures var r := DutiesFrom(c, k, n, clk);
            m < |r.trans| && r.trans[m] == c.trans[m]
    decreases n - k
  {
    if k < n {
      if Due(c.trans[k], clk.now) {
        OthersLeftAlone(c, k, clk);
        EarlierLeftAlone(Duties(c, k, clk), k + 1, n, clk, m);
      } else {
        EarlierLeftAlone(c, k + 1, n, clk, m);
      }
    }
  }

  /** The client when the `j`-th message's turn comes, and after it. */
  function Visited(c: Client, j: nat, clk: Clock): Client
    requires j < |c.trans|
  {
    DutiesFrom(c, 0, j, clk)
  }

  function Visit(c: Client, j: nat, clk: Clock): Client
    requires j < |c.trans| && j < |Visited(c, j, clk).trans|
  {
    if Due(c.trans[j], clk.now) then Duties(Visited(c, j, clk), j, clk) else Visited(c, j, clk)
  }

  /** Those before leave it as it was. */
  lemma TurnComes(c: Client, j: nat, clk: Clock)
    requires j < |c.trans|
    ensures var mid := Visited(c, j, clk);
            |mid.trans| >= |c.trans| && mid.trans[j] == c.trans[j] &&
            |Visit(c, j, clk).trans| >= |c.trans| &&
            DutiesFrom(c, 0, |c.trans|, clk) == DutiesFrom(Visit(c, j, clk), j + 1, |c.trans|, clk)
  {
    DutiesInTwo(c, 0, j, |c.trans|, clk);
    RestLeftAlone(c, 0, j, clk);
  }

  /** Those after it leave what it did. */
  lemma TurnCounts(c: Client, j: nat, clk: Clock)
    requires j < |c.trans|
    ensures |Visited(c, j, clk).trans| >= |c.trans|
    ensures var mid, after, d := Visited(c, j, clk), Visit(c, j, clk), DutiesFrom(c, 0, |c.trans|, clk);
            |d.trans| >= |after.trans| >= |mid.trans| && d.trans[j] == after.trans[j] &&
            (|after.trans| > |mid.trans| ==> d.trans[|mid.trans|] == after.trans[|mid.trans|])
  {
    TurnComes(c, j, clk);
    EarlierLeftAlone(Visit(c, j, clk), j + 1, |c.trans|, clk, j);
    RestLeftAlone(Visit(c, j, clk), j + 1, |c.trans|, clk);
  }

  lemma {:induction false} CheckSolicitAppends(c: Client, ifaces: seq<CfgIface>, clk: Clock)
    ensures c.trans <= CheckSolicit(c, ifaces, clk).trans
  {
    if ifaces != [] {
      CheckSolicitAppends(c, ifaces[..|ifaces| - 1], clk);
    }
  }

  /** What is live after the messages' turns is there after the pass. */
  lemma LiveStays(c: Client, pending: set<Iaid>, clk: Clock, t: Trans)
    requires Listed(c) && t in DutiesFrom(c, 0, |c.trans|, clk).trans && !t.done
    ensures t in Round(c, pending, clk).trans
  {
    var e := Settle(c, clk);
    assert t in e.trans;
    CheckSolicitAppends(e, e.ifaces, clk);
    var s := CheckSolicit(e, e.ifaces, clk);
    assert s.trans <= CheckRenew(s, pending, clk).trans;
    assert t in s.trans;
  }

  /** A live message that is not due stays as it is. */
  lemma NotDueStays(c: Client, pending: set<Iaid>, clk: Clock, j: nat)
    requires Listed(c) && j < |c.trans| && !c.trans[j].done && clk.now < DueAt(c.trans[j])
    ensures c.trans[j] in Round(c, pending, clk).trans
  {
    TurnComes(c, j, clk);
    TurnCounts(c, j, clk);
    LiveStays(c, pending, clk, c.trans[j]);
  }

  // ---- RENEW and REBIND in one pass ----------------------------------------------------------------------------------

  /** `x` is `t` after a pass. */
  predicate GoesOn(t: Trans, x: Trans, now: nat) {
    Refreshes(x) && x.kind == t.kind && x.ias == t.ias && x.iface == t.iface && x.xid == t.xid &&
    Running(x.timer) && now < DueAt(x) && EndsAt(t) <= EndsAt(x)
  }

  lemma ResentInTime(t: Trans, clk: Clock)
    requires Refreshes(t) && Running(t.timer) && DueAt(t) <= clk.now && t.timer.mrd > 0
    ensures var x := t.(timer := Transmit(t.timer, clk));
            GoesOn(t, x, clk.now) && EndsAt(x) == clk.now + t.timer.mrd
  {
    TransmitTakes(t.timer, clk);
    TransmitKeepsRunning(t.timer, clk);
  }

  /** A pass before the end of its duration leaves a RENEW or REBIND under way; it puts the end off only if it
      comes after the message was due. */
  lemma PassWaits(c: Client, pending: set<Iaid>, clk: Clock, j: nat) returns (x: Trans)
    requires Listed(c) && j < |c.trans| && Refreshes(c.trans[j]) && Running(c.trans[j].timer) && clk.now < EndsAt(c.trans[j])
    ensures x in Round(c, pending, clk).trans && GoesOn(c.trans[j], x, clk.now)
    ensures clk.now <= DueAt(c.trans[j]) ==> EndsAt(x) == EndsAt(c.trans[j])
  {
    var t := c.trans[j];
    if clk.now < DueAt(t) {
      x := t;
      NotDueStays(c, pending, clk, j);
    } else {
      x := t.(timer := Transmit(t.timer, clk));
      ResentInTime(t, clk);
      TurnComes(c, j, clk);
      TurnCounts(c, j, clk);
      LiveStays(c, pending, clk, x);
    }
  }

  lemma {:induction false} SameLongestLeft(before: map<Iaid, IA>, after: map<Iaid, IA>, ias: seq<Iaid>, now: nat)
    requires forall i :: i in ias ==> i in before && i in after && before[i] == after[i]
    ensures LongestLeft(before, ias, now) == LongestLeft(after, ias, now)
  {
    if ias != [] {
      SameLongestLeft(before, after, ias[..|ias| - 1], now);
    }
  }

  /** Those before it in a pass do not touch the IAs it holds. */
  lemma VisitedSame(c: Client, j: nat, clk: Clock, i: Iaid)
    requires Owned(c) && j < |c.trans| && !c.trans[j].done && i in c.trans[j].ias
    ensures SameIA(c, Visited(c, j, clk), i)
  {
    forall m | 0 <= m < j && !c.trans[m].done
      ensures i !in c.trans[m].ias
    {
      DistinctHolders(c, m, j, i);
    }
    assert Placed(c.cfg, c.trans[j]);
    DutiesFromSameIA(c, 0, j, clk, i);
  }

  /** The REBIND that follows a RENEW. */
  predicate TakesOver(t: Trans, x: Trans, limit: nat, clk: Clock) {
    x.kind == Rebind && !x.done && x.ias == t.ias && x.iface == t.iface &&
    x.timer == Transmit(NewTimer(10, 600, 0, limit, clk), clk)
  }

  lemma SameLimit(c: Client, j: nat, clk: Clock)
    requires Owned(c) && j < |c.trans| && !c.trans[j].done
    ensures LongestLeft(Visited(c, j, clk).db, c.trans[j].ias, clk.now) == LongestLeft(c.db, c.trans[j].ias, clk.now)
  {
    var mid := Visited(c, j, clk);
    forall i | i in c.trans[j].ias
      ensures i in c.db && i in mid.db && c.db[i] == mid.db[i]
    {
      VisitedSame(c, j, clk, i);
    }
    SameLongestLeft(mid.db, c.db, c.trans[j].ias, clk.now);
  }

  lemma DutiesRebind(c: Client, k: nat, clk: Clock) returns (x: Trans)
    requires k < |c.trans| && c.trans[k].kind == Renew && c.trans[k].timer.mrd == 0
    ensures var r := Duties(c, k, clk);
            |r.trans| > |c.trans| && x == r.trans[|c.trans|] &&
            TakesOver(c.trans[k], x, LongestLeft(c.db, c.trans[k].ias, clk.now), clk)
  {
    x := Duties(c, k, clk).trans[|c.trans|];
  }

  /** The pass at the end of a RENEW's duration makes a REBIND of it, for as long as an address is left. */
  lemma PassRebinds(c: Client, pending: set<Iaid>, clk: Clock, j: nat) returns (x: Trans)
    requires Owned(c) && j < |c.trans| && Refreshes(c.trans[j]) && c.trans[j].kind == Renew
    requires c.trans[j].timer.mrd == 0 && EndsAt(c.trans[j]) <= clk.now
    ensures x in Round(c, pending, clk).trans && TakesOver(c.trans[j], x, LongestLeft(c.db, c.trans[j].ias, clk.now), clk)
  {
    TurnComes(c, j, clk);
    TurnCounts(c, j, clk);
    SameLimit(c, j, clk);
    x := DutiesRebind(Visited(c, j, clk), j, clk);
    LiveStays(c, pending, clk, x);
  }

  // ---- a REBIND gives up ----------------------------------------------------------------------------------------------

  lemma SolicitsAppend(trans: seq<Trans>, more: seq<Trans>, i: Iaid)
    requires Solicits(trans, i) && trans <= more
    ensures Solicits(more, i)
  {
    var k :| 0 <= k < |trans| && trans[k].kind == Solicit && !trans[k].done && i in trans[k].ias;
    assert more[k] == trans[k];
  }

  /** An IA that waited to be discovered does not any more only if a SOLICIT has it. */
  lemma {:induction false} CheckSolicitAsks(c: Client, ifaces: seq<CfgIface>, clk: Clock, i: Iaid)
    requires i in c.cfg && c.cfg[i].state == NotConfigured
    ensures var r := CheckSolicit(c, ifaces, clk);
            r.cfg[i].state == NotConfigured || Solicits(r.trans, i)
  {
    if ifaces != [] {
      var b, f := CheckSolicit(c, ifaces[..|ifaces| - 1], clk), ifaces[|ifaces| - 1];
      CheckSolicitAsks(c, ifaces[..|ifaces| - 1], clk, i);
      var r := SolicitOn(b, f, clk);
      if Solicits(b.trans, i) {
        SolicitsAppend(b.trans, r.trans, i);
      } else if r.cfg[i].state != NotConfigured {
        assert r.trans[|b.trans|].kind == Solicit && i in r.trans[|b.trans|].ias;
      }
    }
  }

  lemma CheckRenewAppends(c: Client, pending: set<Iaid>, clk: Clock)
    requires Listed(c)
    ensures c.trans <= CheckRenew(c, pending, clk).trans
  {
  }

  lemma WaitingIsSolicited(e: Client, pending: set<Iaid>, clk: Clock, i: Iaid)
    requires Owned(e) && i in e.cfg && e.cfg[i].state == NotConfigured
    ensures Solicits(Check(e, pending, clk).trans, i)
  {
    var s := CheckSolicit(e, e.ifaces, clk);
    CheckSolicitAsks(e, e.ifaces, clk, i);
    AllDiscovered(e, clk);
    CheckRenewAppends(s, pending, clk);
    SolicitsAppend(s.trans, CheckRenew(s, pending, clk).trans, i);
  }

  /** Nothing of the IA is left: no address, and it waits to be discovered. */
  predicate GivenUp(c: Client, i: Iaid) {
    i in c.db && i in c.cfg && c.db[i].leases == [] && c.cfg[i].state == NotConfigured
  }

  lemma DutiesGivenUp(c: Client, k: nat, clk: Clock, i: Iaid)
    requires k < |c.trans| && GivenUp(c, i)
    ensures GivenUp(Duties(c, k, clk), i)
  {
    var t := c.trans[k];
    if t.kind == Rebind && t.timer.mrd == 0 {
      ReleasedLeases(c, t.ias, i);
      ReleaseAllStates(c, t.ias, i);
    }
  }

  lemma {:induction false} DutiesFromGivenUp(c: Client, k: nat, n: nat, clk: Clock, i: Iaid)
    requires k <= n <= |c.trans| && GivenUp(c, i)
    ensures GivenUp(DutiesFrom(c, k, n, clk), i)
    decreases n - k
  {
    if k < n {
      if Due(c.trans[k], clk.now) {
        DutiesGivenUp(c, k, clk, i);
        DutiesFromGivenUp(Duties(c, k, clk), k + 1, n, clk, i);
      } else {
        DutiesFromGivenUp(c, k + 1, n, clk, i);
      }
    }
  }

  lemma SettleGivenUp(c: Client, clk: Clock, i: Iaid)
    requires Listed(c) && GivenUp(DutiesFrom(c, 0, |c.trans|, clk), i)
    ensures GivenUp(Settle(c, clk), i)
  {
    assert Filter<Lease>([], l => Alive(l, clk.now)) == [];
  }

  lemma {:induction false} CheckSolicitLeases(c: Client, ifaces: seq<CfgIface>, clk: Clock, i: Iaid)
    requires i in c.db
    ensures CheckSolicit(c, ifaces, clk).db[i].leases == c.db[i].leases
  {
    if ifaces != [] {
      CheckSolicitLeases(c, ifaces[..|ifaces| - 1], clk, i);
    }
  }

  lemma CheckLeases(c: Client, pending: set<Iaid>, clk: Clock, i: Iaid)
    requires Listed(c) && i in c.db
    ensures Check(c, pending, clk).db[i].leases == c.db[i].leases
  {
    CheckSolicitLeases(c, c.ifaces, clk, i);
  }

  lemma ReleaseGivesUp(c: Client, k: nat, clk: Clock, i: Iaid)
    requires k < |c.trans| && c.trans[k].kind == Rebind && c.trans[k].timer.mrd == 0
    requires i in c.trans[k].ias && i in c.db && i in c.cfg
    ensures GivenUp(Duties(c, k, clk), i)
  {
    ReleasedIA(c, c.trans[k].ias, i);
  }

  lemma VisitReleases(c: Client, j: nat, clk: Clock, i: Iaid)
    requires Owned(c) && j < |c.trans| && Refreshes(c.trans[j]) && c.trans[j].kind == Rebind
    requires c.trans[j].timer.mrd == 0 && EndsAt(c.trans[j]) <= clk.now && i in c.trans[j].ias
    ensures GivenUp(DutiesFrom(c, 0, |c.trans|, clk), i)
  {
    var mid := Visited(c, j, clk);
    TurnComes(c, j, clk);
    VisitedSame(c, j, clk, i);
    ReleaseGivesUp(mid, j, clk, i);
    DutiesFromGivenUp(Visit(c, j, clk), j + 1, |c.trans|, clk, i);
  }

  /** The IA has no address, and a SOLICIT asks for one, and nothing else has it. */
  predicate Rediscovered(c: Client, i: Iaid) {
    i in c.db && c.db[i].leases == [] && Solicits(c.trans, i) && Holders(c.trans, i) == 1
  }

  predicate AllRediscovered(c: Client, ias: seq<Iaid>) {
    forall i :: i in ias ==> Rediscovered(c, i)
  }

  /** The pass at the end of a REBIND's duration takes every address of its IAs, and asks for new ones. */
  lemma PassReleases(c: Client, pending: set<Iaid>, clk: Clock, j: nat, i: Iaid)
    requires Owned(c) && j < |c.trans| && Refreshes(c.trans[j]) && c.trans[j].kind == Rebind
    requires c.trans[j].timer.mrd == 0 && EndsAt(c.trans[j]) <= clk.now && i in c.trans[j].ias
    ensures Rediscovered(Round(c, pending, clk), i)
  {
    var e := Settle(c, clk);
    VisitReleases(c, j, clk, i);
    SettleGivenUp(c, clk, i);
    SettleKeeps(c, clk);
    WaitingIsSolicited(e, pending, clk, i);
    CheckLeases(e, pending, clk, i);
    RoundKeeps(c, pending, clk);
    HeldByOne(Round(c, pending, clk), i);
  }

  // ---- whole runs -------------------------------------------------------------------------------------------------------

  /** A RENEW or REBIND with the IAs is under way, and its duration is over at `end`. */
  predicate Standing(t: Trans, kind: Kind, ias: seq<Iaid>, end: nat) {
    Refreshes(t) && t.kind == kind && t.ias == ias && Running(t.timer) && EndsAt(t) == end
  }

  predicate Stands(c: Client, kind: Kind, ias: seq<Iaid>, end: nat) {
    exists k :: 0 <= k < |c.trans| && Standing(c.trans[k], kind, ias, end)
  }

  /** No live message was due before `now`. */
  predicate OnTime(trans: seq<Trans>, now: nat) {
    forall k :: 0 <= k < |trans| && !trans[k].done ==> now <= DueAt(trans[k])
  }

  /** No pass comes after a message was due. */
  predicate Punctual(c: Client, turns: seq<Turn>)
    requires Listed(c)
  {
    turns == [] ||
    (Punctual(c, turns[..|turns| - 1]) && OnTime(RunOf(c, turns[..|turns| - 1]).trans, turns[|turns| - 1].clk.now))
  }

  lemma FoundAgain(c: Client, x: Trans, kind: Kind, ias: seq<Iaid>, end: nat)
    requires x in c.trans && Standing(x, kind, ias, end)
    ensures Stands(c, kind, ias, end)
  {
    var k :| 0 <= k < |c.trans| && c.trans[k] == x;
  }

  lemma PassStands(c: Client, turn: Turn, kind: Kind, ias: seq<Iaid>, end: nat)
    requires Listed(c) && OnTime(c.trans, turn.clk.now) && Stands(c, kind, ias, end) && turn.clk.now < end
    ensures Stands(Round(c, turn.pending, turn.clk), kind, ias, end)
  {
    var k :| 0 <= k < |c.trans| && Standing(c.trans[k], kind, ias, end);
    var x := PassWaits(c, turn.pending, turn.clk, k);
    FoundAgain(Round(c, turn.pending, turn.clk), x, kind, ias, end);
  }

  lemma RunOfFront(c: Client, turns: seq<Turn>, n: nat)
    requires Listed(c) && Silent(turns) && n < |turns|
    ensures RunOf(c, turns[..n + 1]) == Round(RunOf(c, turns[..n]), turns[n].pending, turns[n].clk)
  {
    assert turns[..n + 1][..n] == turns[..n];
  }

  lemma {:induction false} OnTimeAt(c: Client, turns: seq<Turn>, n: nat)
    requires Listed(c) && Punctual(c, turns) && n < |turns|
    ensures OnTime(RunOf(c, turns[..n]).trans, turns[n].clk.now)
  {
    var front := turns[..|turns| - 1];
    if n < |front| {
      OnTimeAt(c, front, n);
      assert front[..n] == turns[..n];
    }
  }

  lemma {:induction false} PunctualPrefix(c: Client, turns: seq<Turn>, n: nat)
    requires Listed(c) && Punctual(c, turns) && n <= |turns|
    ensures Punctual(c, turns[..n])
  {
    if n == |turns| {
      assert turns[..n] == turns;
    } else {
      var front := turns[..|turns| - 1];
      PunctualPrefix(c, front, n);
      assert front[..n] == turns[..n];
    }
  }

  /** The passes from the `m`-th up to the `n`-th come before `end`. */
  predicate AllBefore(turns: seq<Turn>, m: nat, n: nat, end: nat) {
    forall j :: m <= j < n && j < |turns| ==> turns[j].clk.now < end
  }

  lemma BeforeFront(turns: seq<Turn>, m: nat, end: nat)
    requires m < |turns| && AllBefore(turns, m, |turns|, end)
    ensures AllBefore(turns[..|turns| - 1], m, |turns| - 1, end) && turns[|turns| - 1].clk.now < end
    ensures turns[..|turns| - 1][..m] == turns[..m]
  {
  }

  lemma PunctualFront(c: Client, turns: seq<Turn>)
    requires Listed(c) && Punctual(c, turns) && turns != []
    ensures Punctual(c, turns[..|turns| - 1]) && OnTime(RunOf(c, turns[..|turns| - 1]).trans, turns[|turns| - 1].clk.now)
  {
  }

  /** The message stands from the `m`-th pass to the end of the run. */
  lemma {:induction false} StandsOn(c: Client, turns: seq<Turn>, m: nat, kind: Kind, ias: seq<Iaid>, end: nat, start: Client)
    returns (at: Client)
    requires Listed(c) && Silent(turns) && Punctual(c, turns) && m <= |turns| && AllBefore(turns, m, |turns|, end)
    requires start == RunOf(c, turns[..m]) && Stands(start, kind, ias, end)
    ensures at == RunOf(c, turns) && Stands(at, kind, ias, end)
  {
    if m == |turns| {
      assert turns[..m] == turns;
      at := start;
    } else {
      BeforeFront(turns, m, end);
      PunctualFront(c, turns);
      SilentTurn(c, turns);
      var turn := turns[|turns| - 1];
      var before := StandsOn(c, turns[..|turns| - 1], m, kind, ias, end, start);
      PassStands(before, turn, kind, ias, end);
      at := Round(before, turn.pending, turn.clk);
    }
  }

  lemma PrefixOfRun(turns: seq<Turn>, m: nat, n: nat, end: nat)
    requires Silent(turns) && m <= n <= |turns| && AllBefore(turns, m, n, end)
    ensures Silent(turns[..n]) && AllBefore(turns[..n], m, n, end) && turns[..n][..m] == turns[..m]
  {
  }

  lemma StandsThrough(c: Client, turns: seq<Turn>, m: nat, n: nat, kind: Kind, ias: seq<Iaid>, end: nat)
    returns (at: Client)
    requires Listed(c) && Silent(turns) && Punctual(c, turns) && m <= n <= |turns| && AllBefore(turns, m, n, end)
    requires Stands(RunOf(c, turns[..m]), kind, ias, end)
    ensures at == RunOf(c, turns[..n]) && Stands(at, kind, ias, end)
  {
    PunctualPrefix(c, turns, n);
    PrefixOfRun(turns, m, n, end);
    at := StandsOn(c, turns[..n], m, kind, ias, end, RunOf(c, turns[..m]));
  }

  lemma FirstNotBefore(turns: seq<Turn>, m: nat, end: nat) returns (n: nat)
    requires m <= |turns|
    ensures m <= n <= |turns| && AllBefore(turns, m, n, end) && (n < |turns| ==> turns[n].clk.now >= end)
  {
    n := m;
    while n < |turns| && turns[n].clk.now < end
      invariant m <= n <= |turns| && AllBefore(turns, m, n, end)
    {
      n := n + 1;
    }
  }

  /** It stands through every pass before its end, and if there is a later pass, the first one is at its end. */
  lemma StandsUntil(c: Client, turns: seq<Turn>, m: nat, kind: Kind, ias: seq<Iaid>, end: nat) returns (n: nat)
    requires Listed(c) && Silent(turns) && Punctual(c, turns) && m <= |turns|
    requires Stands(RunOf(c, turns[..m]), kind, ias, end)
    ensures m <= n <= |turns| && AllBefore(turns, m, n, end) && (n < |turns| ==> turns[n].clk.now == end)
    ensures Stands(RunOf(c, turns[..n]), kind, ias, end)
  {
    n := FirstNotBefore(turns, m, end);
    var at := StandsThrough(c, turns, m, n, kind, ias, end);
    if n < |turns| {
      OnTimeAt(c, turns, n);
      NotLater(at, kind, ias, end, turns[n].clk.now);
    }
  }

  lemma NotLater(c: Client, kind: Kind, ias: seq<Iaid>, end: nat, now: nat)
    requires Stands(c, kind, ias, end) && OnTime(c.trans, now)
    ensures now <= end
  {
  }

  // ---- exactly at T2, and exactly at the end ----------------------------------------------------------------------------

  /** When the duration is over that a REBIND started at `clk` has. */
  function RebindEnd(limit: nat, clk: Clock): nat {
    var t := Transmit(NewTimer(10, 600, 0, limit, clk), clk);
    t.last + t.rt + t.mrd
  }

  /** After its longest valid lifetime, if anything is left of that. */
  lemma RebindEndsWithLifetime(limit: nat, clk: Clock)
    ensures RebindEnd(limit, clk) == clk.now + limit <==> limit > 0
  {
    FirstWait(limit, clk);
  }

  /** No address of its IAs is valid for longer. */
  lemma NoneOutlasts(db: map<Iaid, IA>, ias: seq<Iaid>, now: nat, i: Iaid, l: Lease)
    requires i in ias && i in db && l in db[i].leases && l.stamp + l.valid <= ULONG_MAX
    ensures l.stamp + l.valid <= now + LongestLeft(db, ias, now)
  {
    assert ValidLeft(l, now) <= IAMaxValidLeft(db[i], now);
    assert IAMaxValidLeft(db[i], now) <= LongestLeft(db, ias, now);
  }

  lemma SomeLeaseLasts(ia: IA, now: nat) returns (l: Lease)
    requires IAMaxValidLeft(ia, now) > 0 && forall l :: l in ia.leases ==> l.stamp + l.valid <= ULONG_MAX
    ensures l in ia.leases && l.stamp + l.valid == now + IAMaxValidLeft(ia, now)
  {
    l :| l in ia.leases && IAMaxValidLeft(ia, now) == ValidLeft(l, now);
  }

  lemma SomeIALasts(db: map<Iaid, IA>, ias: seq<Iaid>, now: nat) returns (i: Iaid)
    requires LongestLeft(db, ias, now) > 0
    ensures i in ias && i in db && LongestLeft(db, ias, now) == IAMaxValidLeft(db[i], now)
  {
    i :| i in ias && LongestLeft(db, ias, now) == if i in db then IAMaxValidLeft(db[i], now) else 0;
  }

  /** And some address is valid exactly as long. */
  lemma SomeLasts(db: map<Iaid, IA>, ias: seq<Iaid>, now: nat) returns (i: Iaid, l: Lease)
    requires LongestLeft(db, ias, now) > 0
    requires forall i, l :: i in ias && i in db && l in db[i].leases ==> l.stamp + l.valid <= ULONG_MAX
    ensures i in ias && i in db && l in db[i].leases && l.stamp + l.valid == now + LongestLeft(db, ias, now)
  {
    i := SomeIALasts(db, ias, now);
    l := SomeLeaseLasts(db[i], now);
  }

  lemma TookOver(t: Trans, x: Trans, limit: nat, clk: Clock)
    requires TakesOver(t, x, limit, clk)
    ensures Standing(x, Rebind, t.ias, RebindEnd(limit, clk))
  {
    FirstTransmit(limit, clk);
  }

  lemma EndReached(c: Client, kind: Kind, ias: seq<Iaid>, end: nat) returns (k: nat)
    requires Stands(c, kind, ias, end) && OnTime(c.trans, end)
    ensures k < |c.trans| && Standing(c.trans[k], kind, ias, end) && c.trans[k].timer.mrd == 0
  {
    k :| 0 <= k < |c.trans| && Standing(c.trans[k], kind, ias, end);
  }

  /** The pass at the end of a RENEW's duration. */
  lemma RenewPasses(c: Client, turn: Turn, ias: seq<Iaid>)
    requires Owned(c) && Stands(c, Renew, ias, turn.clk.now) && OnTime(c.trans, turn.clk.now)
    ensures Stands(Round(c, turn.pending, turn.clk), Rebind, ias, RebindEnd(LongestLeft(c.db, ias, turn.clk.now), turn.clk))
  {
    var k := EndReached(c, Renew, ias, turn.clk.now);
    var x := PassRebinds(c, turn.pending, turn.clk, k);
    TookOver(c.trans[k], x, LongestLeft(c.db, ias, turn.clk.now), turn.clk);
    FoundAgain(Round(c, turn.pending, turn.clk), x, Rebind, ias, RebindEnd(LongestLeft(c.db, ias, turn.clk.now), turn.clk));
  }

  /** The pass at the end of a REBIND's duration. */
  lemma RebindPasses(c: Client, turn: Turn, ias: seq<Iaid>)
    requires Owned(c) && Stands(c, Rebind, ias, turn.clk.now) && OnTime(c.trans, turn.clk.now)
    ensures AllRediscovered(Round(c, turn.pending, turn.clk), ias)
  {
    var k := EndReached(c, Rebind, ias, turn.clk.now);
    forall i | i in ias
      ensures Rediscovered(Round(c, turn.pending, turn.clk), i)
    {
      PassReleases(c, turn.pending, turn.clk, k, i);
    }
  }

  lemma {:induction false} SilenceOwned(c: Client, turns: seq<Turn>) returns (end: Client)
    requires Owned(c) && Silent(turns)
    ensures end == RunOf(c, turns) && Owned(end)
  {
    if turns == [] {
      end := c;
    } else {
      SilentTurn(c, turns);
      var turn := turns[|turns| - 1];
      var front := SilenceOwned(c, turns[..|turns| - 1]);
      RoundKeeps(front, turn.pending, turn.clk);
      end := Round(front, turn.pending, turn.clk);
    }
  }

  lemma OwnedAt(c: Client, turns: seq<Turn>, n: nat) returns (at: Client)
    requires Owned(c) && Silent(turns) && n <= |turns|
    ensures at == RunOf(c, turns[..n]) && Owned(at)
  {
    at := SilenceOwned(c, turns[..n]);
  }

  lemma RenewTurn(c: Client, turns: seq<Turn>, n: nat, ias: seq<Iaid>) returns (at: Client)
    requires Owned(c) && Silent(turns) && Punctual(c, turns) && n < |turns|
    requires Stands(RunOf(c, turns[..n]), Renew, ias, turns[n].clk.now)
    ensures at == RunOf(c, turns[..n])
    ensures Stands(RunOf(c, turns[..n + 1]), Rebind, ias, RebindEnd(LongestLeft(at.db, ias, turns[n].clk.now), turns[n].clk))
  {
    at := OwnedAt(c, turns, n);
    OnTimeAt(c, turns, n);
    RunOfFront(c, turns, n);
    RenewPasses(at, turns[n], ias);
  }

  lemma RebindTurn(c: Client, turns: seq<Turn>, n: nat, ias: seq<Iaid>)
    requires Owned(c) && Silent(turns) && Punctual(c, turns) && n < |turns|
    requires Stands(RunOf(c, turns[..n]), Rebind, ias, turns[n].clk.now)
    ensures AllRediscovered(RunOf(c, turns[..n + 1]), ias)
  {
    var at := OwnedAt(c, turns, n);
    OnTimeAt(c, turns, n);
    RunOfFront(c, turns, n);
    RebindPasses(at, turns[n], ias);
  }

  /**
    A RENEW that nobody answers, in a run with a pass at the end of its duration or later: it stands
    through every earlier pass, and there is one exactly at that time, which makes a REBIND of it.
   */
  lemma RenewEndsExactly(c: Client, turns: seq<Turn>, ias: seq<Iaid>, end: nat) returns (n: nat)
    requires Owned(c) && Silent(turns) && Punctual(c, turns) && Stands(c, Renew, ias, end)
    requires turns != [] && turns[|turns| - 1].clk.now >= end
    ensures n < |turns| && turns[n].clk.now == end && AllBefore(turns, 0, n, end)
    ensures forall m :: 0 <= m <= n ==> Stands(RunOf(c, turns[..m]), Renew, ias, end)
    ensures Stands(RunOf(c, turns[..n + 1]), Rebind, ias, RebindEnd(LongestLeft(RunOf(c, turns[..n]).db, ias, end), turns[n].clk))
  {
    assert turns[..0] == [];
    n := StandsUntil(c, turns, 0, Renew, ias, end);
    forall m | 0 <= m <= n
      ensures Stands(RunOf(c, turns[..m]), Renew, ias, end)
    {
      var at := StandsThrough(c, turns, 0, m, Renew, ias, end);
    }
    var at := RenewTurn(c, turns, n, ias);
  }

  /**
    A REBIND that nobody answers stands through every pass before the end of its duration, and the
    pass exactly at that time takes all addresses of its IAs, which a SOLICIT asks for from then on.
   */
  lemma RebindEndsExactly(c: Client, turns: seq<Turn>, m: nat, ias: seq<Iaid>, end: nat) returns (n: nat)
    requires Owned(c) && Silent(turns) && Punctual(c, turns) && m < |turns| && Stands(RunOf(c, turns[..m]), Rebind, ias, end)
    requires turns[|turns| - 1].clk.now >= end
    ensures m <= n < |turns| && turns[n].clk.now == end && AllBefore(turns, m, n, end)
    ensures forall j :: m <= j <= n ==> Stands(RunOf(c, turns[..j]), Rebind, ias, end)
    ensures AllRediscovered(RunOf(c, turns[..n + 1]), ias)
  {
    n := StandsUntil(c, turns, m, Rebind, ias, end);
    forall j | m <= j <= n
      ensures Stands(RunOf(c, turns[..j]), Rebind, ias, end)
    {
      var at := StandsThrough(c, turns, m, j, Rebind, ias, end);
    }
    RebindTurn(c, turns, n, ias);
  }

  /**
    What becomes of a RENEW that nobody answers if no pass is late: it is given up exactly when its
    duration is over, the REBIND that follows exactly when its own is, and then its IAs have no
    addresses and are under discovery.
   */
  lemma UnansweredRenewal(c: Client, turns: seq<Turn>, ias: seq<Iaid>, end: nat) returns (n: nat, m: nat)
    requires Owned(c) && Silent(turns) && Punctual(c, turns) && Stands(c, Renew, ias, end)
    requires turns != [] && turns[|turns| - 1].clk.now >= end
    ensures n < m <= |turns| && turns[n].clk.now == end && AllBefore(turns, 0, n, end)
    ensures Stands(RunOf(c, turns[..n]), Renew, ias, end)
    ensures var over := RebindEnd(LongestLeft(RunOf(c, turns[..n]).db, ias, end), turns[n].clk);
            AllBefore(turns, n + 1, m, over) && Stands(RunOf(c, turns[..m]), Rebind, ias, over) &&
            (m < |turns| ==> turns[m].clk.now == over && AllRediscovered(RunOf(c, turns[..m + 1]), ias))
  {
    n := RenewEndsExactly(c, turns, ias, end);
    var over := RebindEnd(LongestLeft(RunOf(c, turns[..n]).db, ias, end), turns[n].clk);
    m := StandsUntil(c, turns, n + 1, Rebind, ias, over);
    if m < |turns| {
      RebindTurn(c, turns, m, ias);
    }
  }

  // ---- the end of a RENEW is T2 --------------------------------------------------------------------------------------

  lemma StartedRenewal(c: Client, ias: seq<Iaid>, clk: Clock)
    requires ias != [] && ias[0] in c.db && clk.now < c.db[ias[0]].stamp + c.db[ias[0]].t2 <= ULONG_MAX
    ensures Stands(StartRenew(c, ias, clk), Renew, ias, c.db[ias[0]].stamp + c.db[ias[0]].t2)
  {
    var ia, r := c.db[ias[0]], StartRenew(c, ias, clk);
    FirstWait(T2Left(ia, clk.now), clk);
    FirstTransmit(T2Left(ia, clk.now), clk);
    assert Standing(r.trans[|c.trans|], Renew, ias, ia.stamp + ia.t2);
  }

  /** The RENEW that a pass starts ends at T2 of its first IA, if that is still to come. */
  lemma RenewalEndsAtT2(c: Client, pending: set<Iaid>, clk: Clock, i: Iaid)
    requires Listed(c) && i in c.db
    requires var s := BeforeRenewal(c, clk);
             var ias := Pick(s.db, s.iaList, clk.now, pending);
             ias != [] && ias[0] == i && clk.now < s.db[i].stamp + s.db[i].t2 <= ULONG_MAX
    ensures var s := BeforeRenewal(c, clk);
            Stands(Round(c, pending, clk), Renew, Pick(s.db, s.iaList, clk.now, pending), s.db[i].stamp + s.db[i].t2)
  {
    var s := BeforeRenewal(c, clk);
    var ias := Pick(s.db, s.iaList, clk.now, pending);
    if T1Timeout(s.db, s.iaList, clk.now) > 0 {
      NothingToRenew(s.db, s.iaList, clk.now, pending);
    }
    StartedRenewal(s, ias, clk);
  }
}
