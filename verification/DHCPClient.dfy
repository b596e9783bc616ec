/**
  Start-up and main loop of the client (`populateAddrMgr` in ClntTransMgr/ClntTransMgr.cpp, `run`
  in Misc/DHCPClient.cpp): the transaction manager object follows the run of the model whatever is
  received, and what the model proves of runs holds of the object, up to the shutdown.
 */
module DHCPClient {
  import opened DHCPConst
  import opened Containers
  import opened Leases
  import opened LeaseDb
  import opened Protocol
  import opened Ownership
  import opened Runs
  import opened Agreement
  import opened AgreementRuns
  import opened Soundness
  import opened Servers
  import opened TransMgr
  import opened Manager
  import opened Shutdown

  // ---- start-up ----------------------------------------------------------------------------------------

  /** The configured T1 and T2 of an IA. */
  datatype Timing = Timing(t1: Iaid -> nat, t2: Iaid -> nat)

  function NewIA(i: Iaid, iface: IfaceId, timing: Timing, now: nat): IA {
    IA(i, iface, NotConfigured, timing.t1(i), timing.t2(i), now, None, [])
  }

  /** The IA list and the database list the same IAs, each once; all are new. */
  ghost predicate Populated(list: seq<Iaid>, db: map<Iaid, IA>, timing: Timing, now: nat) {
    NoDup(list) && (forall i :: i in list <==> i in db) &&
    forall i :: i in db ==> db[i] == NewIA(i, db[i].iface, timing, now)
  }

  /** `populateAddrMgr`: an IA for each one configured on the interface that is not in the list. */
  method PopulateIface(f: CfgIface, list: seq<Iaid>, db: map<Iaid, IA>, timing: Timing, now: nat)
    returns (l: seq<Iaid>, d: map<Iaid, IA>)
    requires Populated(list, db, timing, now)
    ensures Populated(l, d, timing, now)
    ensures forall i :: i in d <==> i in db || i in f.ias
    ensures forall i :: i in d ==> d[i].iface == if i in db then db[i].iface else f.id
  {
    l, d := list, db;
    for n := 0 to |f.ias|
      invariant Populated(l, d, timing, now)
      invariant forall i :: i in d <==> i in db || i in f.ias[..n]
      invariant forall i :: i in d ==> d[i].iface == if i in db then db[i].iface else f.id
    {
      var i := f.ias[n];
      assert f.ias[..n + 1] == f.ias[..n] + [i];
      if i !in l {
        var ia := new AddrIA(i, f.id, timing.t1(i), timing.t2(i), now);
        l, d := l + [i], d[i := ia.View()];
      }
    }
    assert f.ias[..|f.ias|] == f.ias;
  }

  /** An IA belongs to one interface only, which lists it once. */
  ghost predicate GoodConfig(ifaces: seq<CfgIface>, cfg: map<Iaid, CfgIA>) {
    (forall f :: f in ifaces ==> Hosts(f, cfg)) && Covered(ifaces, cfg.Keys) &&
    forall i :: i in cfg ==> cfg[i].state == NotConfigured
  }

  method PopulateAll(ifaces: seq<CfgIface>, cfg: map<Iaid, CfgIA>, timing: Timing, now: nat)
    returns (list: seq<Iaid>, db: map<Iaid, IA>)
    requires GoodConfig(ifaces, cfg)
    ensures Populated(list, db, timing, now) && db.Keys == cfg.Keys
    ensures forall i :: i in db ==> db[i].iface == cfg[i].iface
  {
    list, db := [], map[];
    for n := 0 to |ifaces|
      invariant Populated(list, db, timing, now)
      invariant forall i :: i in db <==> exists m :: 0 <= m < n && i in ifaces[m].ias
      invariant forall i :: i in db ==> i in cfg && db[i].iface == cfg[i].iface
    {
      assert Hosts(ifaces[n], cfg);
      list, db := PopulateIface(ifaces[n], list, db, timing, now);
    }
    forall i | i in cfg
      ensures i in db
    {
      var f :| f in ifaces && i in f.ias;
      var m :| 0 <= m < |ifaces| && ifaces[m] == f;
    }
  }

  /** What holds of a client that owns its IAs and whose interfaces carry what its database says. */
  ghost predicate Safe(c: Client) {
    Owned(c) && Agrees(c) && SoundDb(c.db)
  }

  /** A new client satisfies every invariant. */
  lemma StartIsSafe(c: Client, timing: Timing, now: nat)
    requires GoodConfig(c.ifaces, c.cfg) && Populated(c.iaList, c.db, timing, now) && c.db.Keys == c.cfg.Keys
    requires forall i :: i in c.db ==> c.db[i].iface == c.cfg[i].iface && timing.t1(i) <= timing.t2(i)
    requires c.trans == [] && c.installed == multiset{}
    ensures Initial(c) && Safe(c) && Equipped(c)
  {
    assert WellFormed(c);
    forall x
      ensures Leased(c.db, c.iaList, x) == 0
    {
      NothingLeased(c.db, c.iaList, x);
    }
  }

  // ---- main loop ---------------------------------------------------------------------------------------

  /** What the loops of the object need between two turns: distinct IAs and distinct addresses. */
  ghost predicate Usual(c: Client) {
    Listed(c) && NoDup(c.iaList) && SoundDb(c.db)
  }

  /** One turn of `run`: a pass, then a message if one arrives. */
  method OneTurn(mgr: ClntTransMgr, turn: Turn)
    requires mgr.Valid() && !mgr.shutdown && !mgr.isDone && Usual(mgr.View())
    modifies mgr, mgr.transactions, mgr.advertiseLst
    ensures mgr.Valid() && !mgr.shutdown && !mgr.isDone && Usual(mgr.View())
    ensures var r := Round(old(mgr.View()), turn.pending, turn.clk);
            mgr.View() == if turn.msg.Some? then Deliver(r, turn.msg.value, turn.arrival) else r
  {
    RoundKeepsSound(mgr.View(), turn.pending, turn.clk);
    mgr.DoDuties(turn.pending, turn.clk);
    if turn.msg.Some? {
      DeliverKeepsSound(mgr.View(), turn.msg.value, turn.arrival);
      mgr.RelayMsg(turn.msg.value, turn.arrival);
    }
  }

  /** `run`: whatever is received, the object follows the run. */
  method RunLoop(mgr: ClntTransMgr, turns: seq<Turn>)
    requires mgr.Valid() && !mgr.shutdown && !mgr.isDone && Usual(mgr.View())
    modifies mgr, mgr.transactions, mgr.advertiseLst
    ensures mgr.Valid() && Usual(mgr.View()) && mgr.View() == RunOf(old(mgr.View()), turns)
  {
    ghost var start := mgr.View();
    for n := 0 to |turns|
      invariant mgr.Valid() && !mgr.shutdown && !mgr.isDone && Usual(mgr.View())
      invariant mgr.View() == RunOf(start, turns[..n])
    {
      RunGrows(start, turns, n);
      OneTurn(mgr, turns[n]);
    }
    assert turns[..|turns|] == turns;
  }

  lemma RunGrows(c: Client, turns: seq<Turn>, n: nat)
    requires Listed(c) && n < |turns|
    ensures var r := Round(RunOf(c, turns[..n]), turns[n].pending, turns[n].clk);
            RunOf(c, turns[..n + 1]) == if turns[n].msg.Some? then Deliver(r, turns[n].msg.value, turns[n].arrival) else r
  {
    assert turns[..n + 1][..n] == turns[..n];
  }

  /** A run is safe to its end if every message is harmless and every received IA fits. */
  lemma RunIsSafe(c: Client, turns: seq<Turn>)
    requires Safe(c) && AllHarmless(c, turns) && AllTurnsFit(c, turns)
    ensures Safe(RunOf(c, turns))
  {
    RunKeepsIff(c, turns);
    RunAgreesIff(c, turns);
    RunKeepsSound(c, turns);
  }

  /** So it is if servers grant only what they were asked for. */
  lemma SolicitedRunIsSafe(c: Client, turns: seq<Turn>)
    requires Safe(c) && AllSolicited(c, turns)
    ensures Safe(RunOf(c, turns))
  {
    SolicitedRunIsHarmless(c, turns);
    SolicitedRunFits(c, turns);
    RunIsSafe(c, turns);
  }

  lemma SolicitedRunIsHarmless(c: Client, turns: seq<Turn>)
    requires Owned(c) && AllSolicited(c, turns)
    ensures AllHarmless(c, turns)
  {
    RunKeepsOwnership(c, turns);
    RunKeepsIff(c, turns);
  }

  /** How long `run` waits for a message. */
  function LoopSleep(c: Client, out: Outside, now: nat): nat
    requires Listed(c)
  {
    var timeout := SleepTime(c, out, now);
    if timeout == 0 then 1 else timeout
  }

  /** The loop oversleeps no deadline that is not due at once; for one that is, it waits a second. */
  lemma LoopSleepIsShort(c: Client, out: Outside, now: nat, d: nat)
    requires Listed(c) && Deadline(c, out, now, d)
    ensures LoopSleep(c, out, now) <= Max(d, 1) && LoopSleep(c, out, now) <= INFINITY
  {
    SleepBeforeAll(c, out, now, d);
  }

  /** It waits for a deadline that is to come, or for ever, and if one is due exactly a second. */
  lemma LoopSleepIsDeadline(c: Client, out: Outside, now: nat)
    requires Listed(c)
    ensures var sleep := LoopSleep(c, out, now);
            sleep > 0 && (sleep == INFINITY || Deadline(c, out, now, sleep) || (sleep == 1 && Deadline(c, out, now, 0)))
    ensures Deadline(c, out, now, 0) ==> LoopSleep(c, out, now) == 1
  {
    SleepIsDeadline(c, out, now);
    if Deadline(c, out, now, 0) {
      SleepBeforeAll(c, out, now, 0);
    }
  }

  // ---- shutdown ----------------------------------------------------------------------------------------

  /** The IAs as the list that `shutdown` works on. */
  function Listing(db: map<Iaid, IA>, list: seq<Iaid>): (r: seq<IA>)
    requires forall i :: i in list ==> i in db
    ensures |r| == |list| && forall j :: 0 <= j < |r| ==> r[j] == db[list[j]]
  {
    seq(|list|, j requires 0 <= j < |list| => db[list[j]])
  }

  lemma {:induction false} ListingHeld(db: map<Iaid, IA>, list: seq<Iaid>, x: Tag)
    requires forall i :: i in list ==> i in db
    ensures Held(Listing(db, list), x) == Leased(db, list, x)
  {
    if list != [] {
      var n := |list| - 1;
      ListingHeld(db, list[..n], x);
      assert Listing(db, list)[..n] == Listing(db, list[..n]);
    }
  }

  /**
    `shutdown` of a client whose interfaces carry what its database says: they keep exactly the
    addresses of IAs that are neither CONFIGURED nor INPROCESS, and are clean if there are none.
   */
  method ShutDown(c: Client) returns (batches: seq<seq<IA>>, left: Installed)
    requires WellFormed(c) && Agrees(c) && Served(Releasable(c))
    ensures batches == Batches(Releasable(c))
    ensures forall x :: left[x] == Held(PassedOver(Listing(c.db, c.iaList)), x)
    ensures left == multiset{} <==>
            forall i :: i in c.db && c.db[i].leases != [] ==> c.db[i].state == Configured || c.db[i].state == InProcess
  {
    var ias := Listing(c.db, c.iaList);
    var lst := new Container(ias);
    batches, left := Shutdown.ReleaseAll(lst, c.installed);
    forall x
      ensures left[x] == Held(PassedOver(ias), x)
    {
      ListingHeld(c.db, c.iaList, x);
      LeftBehind(ias, c.installed, left, x);
    }
    CleanIff(ias, left);
    ListingCovers(c);
  }

  /** The IAs that are released. */
  function Releasable(c: Client): seq<IA>
    requires Listed(c)
  {
    ToRelease(Listing(c.db, c.iaList))
  }

  lemma ReleasableAreServed(c: Client)
    requires Listed(c) && Equipped(c)
    ensures Served(Releasable(c))
  {
    forall x | x in Releasable(c)
      ensures x.server.Some?
    {
      var j :| 0 <= j < |c.iaList| && Listing(c.db, c.iaList)[j] == x;
      assert HasServer(c.db[c.iaList[j]]);
    }
  }

  /**
    Any run and the shutdown at its end: if every received IA fits and none that knows no server is
    granted empty-handed, exactly the addresses of the IAs passed over stay, whoever held what.
   */
  method RunAndShutDown(mgr: ClntTransMgr, turns: seq<Turn>) returns (batches: seq<seq<IA>>, left: Installed)
    requires mgr.Valid() && !mgr.shutdown && !mgr.isDone
    requires WellFormed(mgr.View()) && Agrees(mgr.View()) && SoundDb(mgr.db) && Equipped(mgr.View())
    requires AllTurnsFit(mgr.View(), turns) && AllFeed(mgr.View(), turns)
    modifies mgr, mgr.transactions, mgr.advertiseLst
    ensures mgr.View() == RunOf(old(mgr.View()), turns) && WellFormed(mgr.View())
    ensures Served(Releasable(mgr.View())) && batches == Batches(Releasable(mgr.View()))
    ensures forall x :: left[x] == Held(PassedOver(Listing(mgr.db, mgr.iaLst)), x)
    ensures left == multiset{} <==>
            forall i :: i in mgr.db && mgr.db[i].leases != [] ==> mgr.db[i].state == Configured || mgr.db[i].state == InProcess
  {
    ghost var end := ReadyToShutDown(mgr.View(), turns);
    RunLoop(mgr, turns);
    assert mgr.View() == end;
    batches, left := ShutDown(mgr.View());
  }

  lemma ReadyToShutDown(c: Client, turns: seq<Turn>) returns (end: Client)
    requires WellFormed(c) && Agrees(c) && SoundDb(c.db) && Equipped(c) && AllTurnsFit(c, turns) && AllFeed(c, turns)
    ensures end == RunOf(c, turns) && WellFormed(end) && Agrees(end) && Served(Releasable(end))
  {
    RunKeepsWellFormed(c, turns);
    RunAgreesIff(c, turns);
    RunEquipsIff(c, turns);
    ReleasableAreServed(RunOf(c, turns));
    end := RunOf(c, turns);
  }

  lemma ListingCovers(c: Client)
    requires WellFormed(c)
    ensures forall i :: i in c.db ==> c.db[i] in Listing(c.db, c.iaList)
    ensures forall x :: x in Listing(c.db, c.iaList) ==> x.iaid in c.db && c.db[x.iaid] == x
  {
    var ias := Listing(c.db, c.iaList);
    forall i | i in c.db
      ensures c.db[i] in ias
    {
      var j :| 0 <= j < |c.iaList| && c.iaList[j] == i;
      assert ias[j] == c.db[i];
    }
  }
}
