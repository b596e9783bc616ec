/**
  SOLICITs when nothing is received any more: once one is due, every ADVERTISE gets its REQUEST, and
  every advertised server is asked; if no pass is late, within a bounded time.
 */
module SilentSolicits {
  import opened Containers
  import opened Leases
  import opened Advertises
  import opened Retransmission
  import opened Protocol
  import opened Ownership
  import opened Runs
  import opened Failover
  import opened SilentRuns
  import opened Deadlines
  import opened Punctuality
  import opened Parameters
  import opened SolicitSteps

  predicate LiveSolicit(t: Trans) {
    t.kind == Solicit && !t.done
  }

  predicate DueSolicit(c: Client, now: nat) {
    exists k :: 0 <= k < |c.trans| && LiveSolicit(c.trans[k]) && DueAt(c.trans[k]) <= now
  }

  // ---- whenever a SOLICIT is due ------------------------------------------------------------------------------------

  lemma DueSolicitSearches(c: Client, k: nat, clk: Clock)
    requires k < |c.trans| && LiveSolicit(c.trans[k])
    ensures Searching(Duties(c, k, clk))
  {
    if c.ads != [] {
      HandOverSearching(c, k, clk);
    }
  }

  /** A pass with a due SOLICIT leaves a REQUEST under way, or no ADVERTISE. */
  lemma PassSearches(c: Client, pending: set<Iaid>, clk: Clock)
    requires Listed(c) && DueSolicit(c, clk.now)
    ensures Searching(Round(c, pending, clk))
  {
    var j :| 0 <= j < |c.trans| && LiveSolicit(c.trans[j]) && DueAt(c.trans[j]) <= clk.now;
    TurnComes(c, j, clk);
    DueSolicitSearches(Visited(c, j, clk), j, clk);
    DutiesFromSearching(Visit(c, j, clk), j + 1, |c.trans|, clk);
    PurgeSearching(DutiesFrom(c, 0, |c.trans|, clk));
    CheckSearching(Settle(c, clk), pending, clk);
  }

  lemma {:induction false} SearchesOn(c: Client, turns: seq<Turn>, m: nat) returns (end: Client)
    requires Listed(c) && Silent(turns) && m <= |turns| && Searching(RunOf(c, turns[..m]))
    ensures end == RunOf(c, turns) && Searching(end)
  {
    if m == |turns| {
      assert turns[..m] == turns;
      end := RunOf(c, turns);
    } else {
      var front, turn := turns[..|turns| - 1], turns[|turns| - 1];
      assert front[..m] == turns[..m];
      SilentTurn(c, turns);
      var before := SearchesOn(c, front, m);
      RoundSearching(before, turn.pending, turn.clk);
      end := Round(before, turn.pending, turn.clk);
    }
  }

  /** Nothing is left of REQUESTs and ADVERTISEs. */
  predicate Exhausted(c: Client) {
    c.ads == [] && NoRequests(c.trans)
  }

  /** By the end every advertised server was asked, in order of preference, MRC+1 times each. */
  predicate AllAsked(c: Client, turns: seq<Turn>)
    requires Listed(c)
  {
    AskedOver(c, turns) == Failover.Servers(SortByPreference(c.ads)) && SentOver(c, turns) == Budget(c)
  }

  lemma ExhaustedIsAsked(c: Client, turns: seq<Turn>)
    requires Listed(c) && Limited(c.trans) && Silent(turns) && Exhausted(RunOf(c, turns))
    ensures AllAsked(c, turns)
  {
    SilenceAsks(c, turns);
    SilenceSpends(c, turns);
    NothingMoreToDo(RunOf(c, turns));
    NothingLeftToDo(RunOf(c, turns));
    assert SilentRuns.Waiting(RunOf(c, turns)) == [];
  }

  /**
    A run without messages, from any client, with a pass at which a SOLICIT is due, to an end without
    REQUESTs: no ADVERTISE is left and every advertised server was asked.
   */
  lemma DueSolicitAsksAll(c: Client, turns: seq<Turn>, n: nat)
    requires Listed(c) && Limited(c.trans) && Silent(turns) && n < |turns|
    requires DueSolicit(RunOf(c, turns[..n]), turns[n].clk.now) && NoRequests(RunOf(c, turns).trans)
    ensures RunOf(c, turns).ads == [] && AllAsked(c, turns)
  {
    RunOfFront(c, turns, n);
    PassSearches(RunOf(c, turns[..n]), turns[n].pending, turns[n].clk);
    var end := SearchesOn(c, turns, n + 1);
    ExhaustedIsAsked(c, turns);
  }

  // ---- in bounded time ------------------------------------------------------------------------------------------------

  const LONGEST_SOLICIT: nat := 132

  lemma SolicitIsDueSoon(t: Trans, since: nat)
    requires t.kind == Solicit && Standard(t) && t.timer.last <= since
    ensures DueAt(t) <= since + LONGEST_SOLICIT
  {
  }

  /** The SOLICIT still waits, or REQUESTs are in time, or all is over. */
  predicate OnTheWay(c: Client, s: Trans, now: nat, over: int) {
    s in c.trans || Exhausted(c) || (Searching(c) && InTime(c, now, over))
  }

  lemma ExhaustedStays(c: Client, pending: set<Iaid>, clk: Clock)
    requires Listed(c) && Limited(c.trans) && Exhausted(c)
    ensures Exhausted(Round(c, pending, clk))
  {
    PassStartsNone(c, pending, clk);
    RoundSearching(c, pending, clk);
  }

  lemma StillInTime(c: Client, pending: set<Iaid>, clk: Clock, before: nat, over: int)
    requires Timed(c, before) && before <= clk.now && OnTime(c.trans, clk.now) && Searching(c) && InTime(c, before, over)
    ensures var r := Round(c, pending, clk);
            Exhausted(r) || (Searching(r) && InTime(r, clk.now, over))
  {
    PassInTime(c, pending, clk, before, over);
    RoundSearching(c, pending, clk);
  }

  lemma SolicitStays(c: Client, pending: set<Iaid>, clk: Clock, s: Trans)
    requires Listed(c) && s in c.trans && LiveSolicit(s) && clk.now < DueAt(s)
    ensures s in Round(c, pending, clk).trans
  {
    var k :| 0 <= k < |c.trans| && c.trans[k] == s;
    NotDueStays(c, pending, clk, k);
  }

  lemma SolicitEnds(c: Client, pending: set<Iaid>, clk: Clock, before: nat, s: Trans, over: int)
    requires Timed(c, before) && before <= clk.now == DueAt(s) && s in c.trans && LiveSolicit(s)
    requires clk.now + LONGEST_WAIT <= over - LONGEST_WAIT * Effort(c)
    ensures var r := Round(c, pending, clk);
            Exhausted(r) || (Searching(r) && InTime(r, clk.now, over))
  {
    var r := Round(c, pending, clk);
    var k :| 0 <= k < |c.trans| && c.trans[k] == s;
    PassSearches(c, pending, clk);
    PassTimed(c, pending, clk, before);
    RoundCosts(c, pending, clk);
    if !NoRequests(r.trans) {
      PacedRequest(r.trans, clk.now);
      RequestByLater(r.trans, clk.now + LONGEST_WAIT, over - LONGEST_WAIT * Effort(r));
    }
  }

  lemma OnTheWayOn(c: Client, pending: set<Iaid>, clk: Clock, before: nat, s: Trans, over: int)
    requires Timed(c, before) && before <= clk.now && OnTime(c.trans, clk.now) && LiveSolicit(s) && OnTheWay(c, s, before, over)
    requires DueAt(s) + LONGEST_WAIT <= over - LONGEST_WAIT * Effort(c)
    ensures OnTheWay(Round(c, pending, clk), s, clk.now, over)
  {
    if Exhausted(c) {
      ExhaustedStays(c, pending, clk);
    } else if Searching(c) && InTime(c, before, over) {
      StillInTime(c, pending, clk, before, over);
    } else {
      var k :| 0 <= k < |c.trans| && c.trans[k] == s;
      if clk.now < DueAt(s) {
        SolicitStays(c, pending, clk, s);
      } else {
        SolicitEnds(c, pending, clk, before, s, over);
      }
    }
  }

  lemma {:induction false} SilenceOnTheWay(c: Client, turns: seq<Turn>, since: nat, s: Trans, over: int) returns (end: Client)
    requires Timed(c, since) && Silent(turns) && Punctual(c, turns) && ForwardFrom(turns, since)
    requires s in c.trans && LiveSolicit(s) && DueAt(s) + LONGEST_WAIT <= over - LONGEST_WAIT * Effort(c)
    ensures end == RunOf(c, turns) && Timed(end, LastPass(turns, since)) && Effort(end) <= Effort(c)
    ensures OnTheWay(end, s, LastPass(turns, since), over)
  {
    if turns == [] {
      end := c;
    } else {
      var turn, rest := turns[|turns| - 1], turns[..|turns| - 1];
      SilentTurn(c, turns);
      PunctualFront(c, turns);
      var front := SilenceOnTheWay(c, rest, since, s, over);
      PassTimed(front, turn.pending, turn.clk, LastPass(rest, since));
      RoundCosts(front, turn.pending, turn.clk);
      OnTheWayOn(front, turn.pending, turn.clk, LastPass(rest, since), s, over);
      end := Round(front, turn.pending, turn.clk);
    }
  }

  lemma NoLongerWaits(c: Client, turns: seq<Turn>, s: Trans, since: nat)
    requires Listed(c) && AllClocked(c.trans) && Silent(turns) && turns != [] && !s.done && DueAt(s) <= LastPass(turns, since)
    ensures s !in RunOf(c, turns).trans
  {
    var front, turn := turns[..|turns| - 1], turns[|turns| - 1];
    SilentTurn(c, turns);
    RunClocked(c, front);
    PassLeavesNoneDue(RunOf(c, front), turn.pending, turn.clk);
    var r := RunOf(c, turns);
    if k :| 0 <= k < |r.trans| && r.trans[k] == s {
      assert false;
    }
  }

  /**
    A live SOLICIT, nothing received and no pass late: once 132 seconds and 33 for each unit of effort are over,
    no ADVERTISE and no REQUEST is left, and every advertised server was asked in order of preference.
   */
  lemma AllAskedInTime(c: Client, turns: seq<Turn>, since: nat, j: nat)
    requires Timed(c, since) && Silent(turns) && Punctual(c, turns) && ForwardFrom(turns, since)
    requires j < |c.trans| && LiveSolicit(c.trans[j]) && Standard(c.trans[j]) && c.trans[j].timer.last <= since
    requires LastPass(turns, since) > since + LONGEST_SOLICIT + LONGEST_WAIT * Effort(c)
    ensures Exhausted(RunOf(c, turns)) && AllAsked(c, turns)
  {
    var s := c.trans[j];
    var over := since + LONGEST_SOLICIT + LONGEST_WAIT * Effort(c) + LONGEST_WAIT;
    SolicitIsDueSoon(s, since);
    RemainsToDo(c);
    var end := SilenceOnTheWay(c, turns, since, s, over);
    NoLongerWaits(c, turns, s, since);
    if !Exhausted(end) {
      assert !NoRequests(end.trans);
      EffortLeft(end);
    }
    ExhaustedIsAsked(c, turns);
  }

  lemma SolicitIsSought(c: Client, j: nat, i: Iaid)
    requires Owned(c) && j < |c.trans| && LiveSolicit(c.trans[j]) && i in c.trans[j].ias
    ensures OwnedAndSought(c, i)
  {
    assert Placed(c.cfg, c.trans[j]);
    TotalAtLeast(c.trans, j, (t: Trans) => Seeks(t, i));
  }

  /** And the IAs of the SOLICIT are then under discovery again, by one SOLICIT. */
  lemma SolicitedIsDiscovered(c: Client, turns: seq<Turn>, j: nat, i: Iaid)
    requires Owned(c) && Silent(turns) && turns != [] && NoRequests(RunOf(c, turns).trans)
    requires j < |c.trans| && LiveSolicit(c.trans[j]) && i in c.trans[j].ias
    ensures Solicits(RunOf(c, turns).trans, i) && Holders(RunOf(c, turns).trans, i) == 1
  {
    SolicitIsSought(c, j, i);
    var end := SilenceSought(c, turns, i);
    OnlySolicitsSeek(end.trans, i);
    HeldByOne(end, i);
  }

  // ---- a client with one ADVERTISE -----------------------------------------------------------------------------------------

  const OFFERER := Server(3, 3)

  /** IA 1 is under discovery since 0 and due at 1; one server has offered, with preference 0. */
  function Offered(): Client {
    Client([CfgIface(1, false, false, [1])], map[1 := CfgIA(1, InProcess)], [1],
           map[1 := IA(1, 1, InProcess, 100, 200, 0, None, [])],
           multiset{}, [Advert(0, OFFERER)],
           [Trans(Solicit, 0, 1, [1], false, None, Timer(1, 120, 0, 0, 1, 1, 0), false)], (n: nat) => n + 1, 0)
  }

  lemma OfferedIsTimed()
    ensures Timed(Offered(), 0) && AllWait(Offered().trans, 0) && Effort(Offered()) == 22 && AllStandard(Offered().trans)
  {
    var c := Offered();
    assert c.trans == [] + [c.trans[0]];
    TotalSnoc([], c.trans[0], (t: Trans) => Weight(t));
  }

  lemma OfferedCounts()
    ensures Failover.Servers(SortByPreference(Offered().ads)) == [OFFERER] && Budget(Offered()) == TRIES
  {
    var c := Offered();
    SortOfSorted(c.ads);
    assert c.trans == [] + [c.trans[0]];
    TotalSnoc([], c.trans[0], (t: Trans) => Left(t));
    assert Failover.Servers(c.ads) == [OFFERER];
  }

  /** At 1 a pass sends the server a REQUEST for it. */
  lemma OfferedRequests(clk: Clock) returns (x: Trans)
    requires clk.now == 1
    ensures x in Round(Offered(), {}, clk).trans && x.kind == Request && !x.done && x.ias == [1] && x.server == Some(OFFERER)
  {
    var a;
    x, a := DueSolicitRequests(Offered(), {}, clk, 0);
  }

  /** With a pass every second the server was asked eleven times after at most 859 seconds. */
  lemma OfferedInTime() returns (turns: seq<Turn>)
    ensures turns == EverySecond(0, 859) && Exhausted(RunOf(Offered(), turns))
    ensures AskedOver(Offered(), turns) == [OFFERER] && SentOver(Offered(), turns) == 11
  {
    var c := Offered();
    turns := EverySecond(0, 859);
    OfferedIsTimed();
    OfferedCounts();
    EverySecondIsPunctual(c, 0, 859);
    AllAskedInTime(c, turns, 0, 0);
  }

  lemma RemainsToDo(c: Client)
    requires Limited(c.trans)
    ensures Effort(c) >= 0
  {
    TotalNonNegative(c.trans, (t: Trans) => Weight(t));
  }
}
