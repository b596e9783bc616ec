/**
  Database and interfaces over whole messages and runs: exactly which received IAs end their
  agreement. Who holds an IA, and whether it was asked for, does not matter.
 */
module AgreementRuns {
  import opened Containers
  import opened Leases
  import opened Advertises
  import opened Retransmission
  import opened Protocol
  import opened Soundness
  import opened Ownership
  import opened Replies
  import opened Runs
  import opened Agreement

  // ---- the received IAs of one message ---------------------------------------------------------------------

  /** A received IA that is merged at all fits. */
  predicate StepFits(c: Client, r: RecvIA, iface: IfaceId, now: nat) {
    r.status == STATUS_SUCCESS && r.iaid in c.db ==> Fits(c.db[r.iaid], r, iface, now)
  }

  /** Each one fits the database as those before it leave it. */
  predicate AllFit(c: Client, ias: seq<RecvIA>, iface: IfaceId, server: Option<Server>, now: nat) {
    ias == [] ||
    (AllFit(c, ias[..|ias| - 1], iface, server, now) &&
     StepFits(MergeAll(c, ias[..|ias| - 1], iface, server, now), ias[|ias| - 1], iface, now))
  }

  /** Database and interfaces agree after each one. */
  ghost predicate AgreesThroughout(c: Client, ias: seq<RecvIA>, iface: IfaceId, server: Option<Server>, now: nat)
    requires Listed(c)
  {
    Agrees(MergeAll(c, ias, iface, server, now)) &&
    (ias != [] ==> AgreesThroughout(c, ias[..|ias| - 1], iface, server, now))
  }

  lemma StepAgreesIff(c: Client, r: RecvIA, iface: IfaceId, server: Option<Server>, now: nat)
    requires Indexed(c) && Agrees(c) && SoundDb(c.db)
    ensures Agrees(if r.status == STATUS_SUCCESS then MergeIA(c, r, iface, server, now) else c) <==> StepFits(c, r, iface, now)
  {
    if r.status == STATUS_SUCCESS && r.iaid in c.db {
      MergeAgreesIff(c, r, iface, server, now);
    }
  }

  lemma {:induction false} MergeAllAgreesIff(c: Client, ias: seq<RecvIA>, iface: IfaceId, server: Option<Server>, now: nat)
    requires Indexed(c) && Agrees(c) && SoundDb(c.db) && forall r :: r in ias ==> IsValid(r)
    ensures AgreesThroughout(c, ias, iface, server, now) <==> AllFit(c, ias, iface, server, now)
  {
    if ias != [] {
      var front, last := ias[..|ias| - 1], ias[|ias| - 1];
      MergeAllAgreesIff(c, front, iface, server, now);
      MergeAllKeepsSound(c, front, iface, server, now);
      if AgreesThroughout(c, front, iface, server, now) {
        StepAgreesIff(MergeAll(c, front, iface, server, now), last, iface, server, now);
      }
    }
  }

  // ---- answers ------------------------------------------------------------------------------------------------

  /** The server that an answer stores with a new address. */
  function Storing(t: Trans, msg: Msg): Option<Server> {
    if t.kind == Renew then t.server else Some(msg.server)
  }

  /** The client with what the answered transaction merges, and nothing else. */
  function Configuring(c: Client, k: nat, msg: Msg, now: nat): (r: Client)
    requires k < |c.trans|
    ensures SameShape(c, r)
  {
    MergeAll(c, Considered(c.trans[k], msg), c.trans[k].iface, Storing(c.trans[k], msg), now)
  }

  lemma SendRequestSame(c: Client, ias: seq<Iaid>, iface: IfaceId, clk: Clock)
    ensures SameLeases(c, SendRequest(c, ias, iface, clk))
  {
  }

  lemma ReplySame(c: Client, k: nat, msg: Msg, clk: Clock)
    requires k < |c.trans|
    ensures SameLeases(MergeAll(c, msg.ias, c.trans[k].iface, Some(msg.server), clk.now), AnswerReply(c, k, msg, clk))
  {
    var g := Grant(c, k, msg, clk.now);
    SendRequestSame(g, g.trans[k].ias, c.trans[k].iface, clk);
  }

  lemma RenewSame(c: Client, k: nat, msg: Msg, clk: Clock)
    requires k < |c.trans|
    ensures SameLeases(Renewed(c, k, msg, clk.now), AnswerRenew(c, k, msg, clk))
  {
    SendRequestSame(Renewed(c, k, msg, clk.now), c.trans[k].ias, c.trans[k].iface, clk);
  }

  lemma AdvertiseSame(c: Client, k: nat, msg: Msg, clk: Clock)
    requires k < |c.trans|
    ensures SameLeases(c, AnswerAdvertise(c, k, msg, clk))
  {
    HandOverSame(c.(ads := c.ads + [Advert(msg.pref, msg.server)]), k, clk);
  }

  lemma SolicitAnswerSame(c: Client, k: nat, msg: Msg, clk: Clock)
    requires k < |c.trans| && c.trans[k].kind == Solicit
    ensures SameLeases(Configuring(c, k, msg, clk.now), Answer(c, k, msg, clk))
  {
    var t := c.trans[k];
    if !Rejects(t, msg) && msg.kind == Advertise {
      AdvertiseSame(c, k, msg, clk);
    } else if !Rejects(t, msg) && msg.kind == Reply && t.rapid && msg.rapid {
      ReplySame(c, k, msg, clk);
    }
  }

  /** Beyond the merge, an answer touches neither addresses nor interfaces. */
  lemma AnswerSame(c: Client, k: nat, msg: Msg, clk: Clock)
    requires k < |c.trans|
    ensures SameLeases(Configuring(c, k, msg, clk.now), Answer(c, k, msg, clk))
  {
    match c.trans[k].kind
    case Solicit => SolicitAnswerSame(c, k, msg, clk);
    case Request =>
      if !msg.notOnLink {
        ReplySame(c, k, msg, clk);
      }
    case Renew => RenewSame(c, k, msg, clk);
    case Rebind => ReplySame(c, k, msg, clk);
  }

  /** What the message makes its transaction merge fits, in order. */
  predicate MsgFits(c: Client, msg: Msg, now: nat) {
    var k := FindXid(c.trans, msg.xid);
    k >= 0 ==>
      AllFit(c, Considered(c.trans[k], Parsed(msg)), c.trans[k].iface, Storing(c.trans[k], Parsed(msg)), now)
  }

  /** Database and interfaces agree after each received IA of the message. */
  ghost predicate AgreesDuring(c: Client, msg: Msg, now: nat)
    requires Listed(c)
  {
    var k := FindXid(c.trans, msg.xid);
    k >= 0 ==>
      AgreesThroughout(c, Considered(c.trans[k], Parsed(msg)), c.trans[k].iface, Storing(c.trans[k], Parsed(msg)), now)
  }

  /** How many received IAs the message makes its transaction look at. */
  function Merges(c: Client, msg: Msg): nat {
    var k := FindXid(c.trans, msg.xid);
    if k >= 0 then |Considered(c.trans[k], Parsed(msg))| else 0
  }

  lemma AnswerAgreesIff(c: Client, k: nat, msg: Msg, clk: Clock)
    requires Listed(c) && k < |c.trans|
    ensures Agrees(Answer(c, k, msg, clk)) <==> Agrees(Configuring(c, k, msg, clk.now))
  {
    AnswerSame(c, k, msg, clk);
    SameLeasesKeep(Configuring(c, k, msg, clk.now), Answer(c, k, msg, clk));
  }

  lemma ConsideredAreValid(t: Trans, msg: Msg)
    ensures forall r :: r in Considered(t, Parsed(msg)) ==> IsValid(r)
  {
    forall r | r in Considered(t, Parsed(msg))
      ensures r in Parsed(msg).ias
    {
    }
  }

  /**
    A message keeps database and interfaces in agreement from one received IA to the next exactly
    when each one fits, and then they agree at its end; with a single received IA, exactly then.
   */
  lemma DeliverAgreesIff(c: Client, msg: Msg, clk: Clock)
    requires Indexed(c) && Agrees(c) && SoundDb(c.db)
    ensures AgreesDuring(c, msg, clk.now) <==> MsgFits(c, msg, clk.now)
    ensures MsgFits(c, msg, clk.now) ==> Agrees(Deliver(c, msg, clk))
    ensures Merges(c, msg) <= 1 ==> (Agrees(Deliver(c, msg, clk)) <==> MsgFits(c, msg, clk.now))
  {
    var k := FindXid(c.trans, msg.xid);
    if k >= 0 {
      var t, p := c.trans[k], Parsed(msg);
      ConsideredAreValid(t, msg);
      MergeAllAgreesIff(c, Considered(t, p), t.iface, Storing(t, p), clk.now);
      AnswerAgreesIff(c, k, p, clk);
      OnlyStep(c, Considered(t, p), t.iface, Storing(t, p), clk.now);
    }
  }

  lemma OnlyStep(c: Client, ias: seq<RecvIA>, iface: IfaceId, server: Option<Server>, now: nat)
    requires Listed(c) && Agrees(c)
    ensures |ias| <= 1 ==>
              (AgreesThroughout(c, ias, iface, server, now) <==> Agrees(MergeAll(c, ias, iface, server, now)))
  {
    if |ias| == 1 {
      assert ias[..0] == [];
    }
  }

  // ---- without withdrawals nothing is undone --------------------------------------------------------------------

  /** No address is received with a zero valid lifetime. */
  predicate WithdrawsNothing(r: RecvIA) {
    forall a :: a in r.addrs ==> a.valid != 0
  }

  predicate NoWithdrawals(ias: seq<RecvIA>) {
    forall r :: r in ias ==> WithdrawsNothing(r)
  }

  lemma {:induction false} MergeMapGrows(m: map<Ip, Lease>, recv: seq<RecvAddr>, now: nat)
    requires forall a :: a in recv ==> a.valid != 0
    ensures m.Keys <= MergeMap(m, recv, now).Keys
    decreases |recv|
  {
    if recv != [] {
      MergeMapGrows(m[recv[0].addr := Lease(recv[0].addr, recv[0].pref, recv[0].valid, now)], recv[1..], now);
    }
  }

  /** The addresses of the IA before and after. */
  lemma MergedCount(c: Client, r: RecvIA, iface: IfaceId, server: Option<Server>, now: nat, x: Tag)
    requires SoundDb(c.db) && r.iaid in c.db
    ensures var ia, after := c.db[r.iaid], MergeIA(c, r, iface, server, now);
            IATags(ia)[x] == (if x.0 == ia.iface && x.1 in Known(ia.leases) then 1 else 0) &&
            IATags(after.db[r.iaid])[x] ==
              if x.0 == ia.iface && x.1 in MergeMap(Known(ia.leases), r.addrs, now) then 1 else 0
  {
    var ia := c.db[r.iaid];
    var start := Merge(ia.leases, c.installed, false);
    var m := MergeAddrs(start, r.addrs, iface, now);
    MergedTags(ia, r, m, server, now);
    KnownRepresents(ia.leases);
    MergeRefinesMap(start, r.addrs, iface, now, Known(ia.leases));
    MergeKeepsDistinct(start, r.addrs, iface, now);
    TagCount(ia.iface, ia.leases, Known(ia.leases), x);
    TagCount(ia.iface, m.leases, MergeMap(Known(ia.leases), r.addrs, now), x);
  }

  lemma LeasedAfter(c: Client, r: RecvIA, iface: IfaceId, server: Option<Server>, now: nat, x: Tag)
    requires Indexed(c) && SoundDb(c.db) && r.iaid in c.db
    ensures var after := MergeIA(c, r, iface, server, now);
            Leased(after.db, after.iaList, x) + IATags(c.db[r.iaid])[x] ==
              Leased(c.db, c.iaList, x) + IATags(after.db[r.iaid])[x] &&
            (x.0 != iface ==> after.installed[x] == c.installed[x])
  {
    var after := MergeIA(c, r, iface, server, now);
    LeasedUpdate(c.db, c.iaList, r.iaid, after.db[r.iaid], x);
    if x.0 != iface {
      MergeElsewhere(Merge(c.db[r.iaid].leases, c.installed, false), r.addrs, iface, now, x);
    }
  }

  /** On some other interface the database has an address that the interface lacks. */
  ghost predicate Lacks(c: Client, iface: IfaceId)
    requires Listed(c)
  {
    exists x: Tag :: x.0 != iface && Leased(c.db, c.iaList, x) > c.installed[x]
  }

  lemma StillLacks(c: Client, r: RecvIA, iface: IfaceId, server: Option<Server>, now: nat)
    requires Indexed(c) && SoundDb(c.db) && r.iaid in c.db && WithdrawsNothing(r) && Lacks(c, iface)
    ensures Lacks(MergeIA(c, r, iface, server, now), iface)
  {
    var x: Tag :| x.0 != iface && Leased(c.db, c.iaList, x) > c.installed[x];
    LeasedAfter(c, r, iface, server, now, x);
    MergedCount(c, r, iface, server, now, x);
    MergeMapGrows(Known(c.db[r.iaid].leases), r.addrs, now);
  }

  lemma MisfitLacks(c: Client, r: RecvIA, iface: IfaceId, server: Option<Server>, now: nat)
    requires Indexed(c) && Agrees(c) && SoundDb(c.db) && r.iaid in c.db
    requires WithdrawsNothing(r) && !Fits(c.db[r.iaid], r, iface, now)
    ensures Lacks(MergeIA(c, r, iface, server, now), iface)
  {
    var ia := c.db[r.iaid];
    MergeMapGrows(Known(ia.leases), r.addrs, now);
    var a :| a in MergeMap(Known(ia.leases), r.addrs, now).Keys && a !in Known(ia.leases).Keys;
    LeasedAfter(c, r, iface, server, now, (ia.iface, a));
    MergedCount(c, r, iface, server, now, (ia.iface, a));
  }

  lemma {:induction false} MisfitsLack(c: Client, ias: seq<RecvIA>, iface: IfaceId, server: Option<Server>, now: nat)
    requires Indexed(c) && Agrees(c) && SoundDb(c.db) && (forall r :: r in ias ==> IsValid(r)) && NoWithdrawals(ias)
    requires !AllFit(c, ias, iface, server, now)
    ensures Lacks(MergeAll(c, ias, iface, server, now), iface)
  {
    var front, last := ias[..|ias| - 1], ias[|ias| - 1];
    var b := MergeAll(c, front, iface, server, now);
    MergeAllKeepsSound(c, front, iface, server, now);
    assert last in ias;
    if AllFit(c, front, iface, server, now) {
      MergeAllAgreesIff(c, front, iface, server, now);
      MisfitLacks(b, last, iface, server, now);
    } else {
      MisfitsLack(c, front, iface, server, now);
      if last.status == STATUS_SUCCESS && last.iaid in b.db {
        StillLacks(b, last, iface, server, now);
      }
    }
  }

  /** The message makes its transaction merge no withdrawal. */
  predicate MsgWithdrawsNothing(c: Client, msg: Msg) {
    var k := FindXid(c.trans, msg.xid);
    k >= 0 ==> NoWithdrawals(Considered(c.trans[k], Parsed(msg)))
  }

  lemma MergesAgreeIff(c: Client, ias: seq<RecvIA>, iface: IfaceId, server: Option<Server>, now: nat)
    requires Indexed(c) && Agrees(c) && SoundDb(c.db) && (forall r :: r in ias ==> IsValid(r)) && NoWithdrawals(ias)
    ensures Agrees(MergeAll(c, ias, iface, server, now)) <==> AllFit(c, ias, iface, server, now)
  {
    MergeAllAgreesIff(c, ias, iface, server, now);
    if !AllFit(c, ias, iface, server, now) {
      MisfitsLack(c, ias, iface, server, now);
    }
  }

  /** A message that withdraws no address leaves database and interfaces in agreement exactly when everything in it fits. */
  lemma DeliverAgreesAtEndIff(c: Client, msg: Msg, clk: Clock)
    requires Indexed(c) && Agrees(c) && SoundDb(c.db) && MsgWithdrawsNothing(c, msg)
    ensures Agrees(Deliver(c, msg, clk)) <==> MsgFits(c, msg, clk.now)
  {
    var k := FindXid(c.trans, msg.xid);
    if k >= 0 {
      var t, p := c.trans[k], Parsed(msg);
      ConsideredAreValid(t, msg);
      MergesAgreeIff(c, Considered(t, p), t.iface, Storing(t, p), clk.now);
      AnswerAgreesIff(c, k, p, clk);
    }
  }

  // ---- what does not fit may be undone by a withdrawal ----------------------------------------------------------

  /** An address granted, and the same address withdrawn. */
  function Offering(i: Iaid, a: RecvAddr): RecvIA { RecvIA(i, 0, 0, STATUS_SUCCESS, [a]) }
  function Withdrawal(i: Iaid, a: RecvAddr): RecvIA { RecvIA(i, 0, 0, STATUS_SUCCESS, [a.(pref := 0, valid := 0)]) }

  lemma MergeOne(m: Merge, a: RecvAddr, iface: IfaceId, now: nat)
    ensures MergeAddrs(m, [a], iface, now) == MergeAddr(m, a, iface, now).after
  {
    assert [a][1..] == [];
  }

  lemma NotOnList(leases: seq<Lease>, l: Lease, now: nat)
    requires IndexOf(leases, l.addr) < 0
    ensures IndexOf(Stamped(leases + [l], now), l.addr) == |leases|
  {
  }

  lemma AfterGrant(c: Client, i: Iaid, a: RecvAddr, iface: IfaceId, server: Option<Server>, now: nat)
    requires i in c.db && a.valid != 0 && IndexOf(c.db[i].leases, a.addr) < 0
    ensures var r, l := MergeIA(c, Offering(i, a), iface, server, now), Lease(a.addr, a.pref, a.valid, now);
            r.installed == c.installed + multiset{(iface, a.addr)} && r.db == c.db[i := r.db[i]] &&
            r.db[i].iface == c.db[i].iface && r.db[i].leases == Stamped(c.db[i].leases + [l], now)
  {
    MergeOne(Merge(c.db[i].leases, c.installed, false), a, iface, now);
  }

  lemma AfterWithdrawal(c: Client, i: Iaid, a: RecvAddr, iface: IfaceId, server: Option<Server>, now: nat)
    requires i in c.db && IndexOf(c.db[i].leases, a.addr) == |c.db[i].leases| - 1 >= 0
    ensures var r := MergeIA(c, Withdrawal(i, a), iface, server, now);
            r.installed == c.installed - multiset{(iface, a.addr)} && r.db == c.db[i := r.db[i]] &&
            r.db[i].iface == c.db[i].iface && r.db[i].leases == Stamped(c.db[i].leases[..|c.db[i].leases| - 1], now)
  {
    MergeOne(Merge(c.db[i].leases, c.installed, false), a.(pref := 0, valid := 0), iface, now);
  }

  lemma TwoMerges(c: Client, r: RecvIA, s: RecvIA, iface: IfaceId, server: Option<Server>, now: nat)
    requires r.status == s.status == STATUS_SUCCESS
    ensures MergeAll(c, [r], iface, server, now) == MergeIA(c, r, iface, server, now)
    ensures MergeAll(c, [r, s], iface, server, now) == MergeIA(MergeIA(c, r, iface, server, now), s, iface, server, now)
  {
    assert [r, s][..1] == [r] && [r][..0] == [];
  }

  lemma GrantDoesNotFit(c: Client, i: Iaid, a: RecvAddr, iface: IfaceId, now: nat)
    requires SoundDb(c.db) && i in c.db && c.db[i].iface != iface && a.valid != 0 && IndexOf(c.db[i].leases, a.addr) < 0
    ensures !StepFits(c, Offering(i, a), iface, now)
  {
    KnownRepresents(c.db[i].leases);
    assert [a][1..] == [];
    assert a.addr in MergeMap(Known(c.db[i].leases), [a], now);
  }

  /**
    Fitting is not needed for agreement at the very end: an IA of another interface that is granted an
    address, and has it withdrawn by a later option of the same message, ends the agreement and restores it.
   */
  lemma LaterUndoes(c: Client, i: Iaid, a: RecvAddr, iface: IfaceId, server: Option<Server>, now: nat)
    requires Indexed(c) && Agrees(c) && SoundDb(c.db) && i in c.db && c.db[i].iface != iface
    requires a.valid != 0 && IndexOf(c.db[i].leases, a.addr) < 0
    ensures var ias := [Offering(i, a), Withdrawal(i, a)];
            !AllFit(c, ias, iface, server, now) && !Agrees(MergeAll(c, ias[..1], iface, server, now)) &&
            Agrees(MergeAll(c, ias, iface, server, now))
  {
    var r, s := Offering(i, a), Withdrawal(i, a);
    assert [r, s][..1] == [r] && [r][..0] == [];
    TwoMerges(c, r, s, iface, server, now);
    GrantDoesNotFit(c, i, a, iface, now);
    MergeAgreesIff(c, r, iface, server, now);
    Restored(c, i, a, iface, server, now);
  }

  lemma Restored(c: Client, i: Iaid, a: RecvAddr, iface: IfaceId, server: Option<Server>, now: nat)
    requires Indexed(c) && Agrees(c) && i in c.db && a.valid != 0 && IndexOf(c.db[i].leases, a.addr) < 0
    ensures Agrees(MergeIA(MergeIA(c, Offering(i, a), iface, server, now), Withdrawal(i, a), iface, server, now))
  {
    var l := Lease(a.addr, a.pref, a.valid, now);
    var b := MergeIA(c, Offering(i, a), iface, server, now);
    AfterGrant(c, i, a, iface, server, now);
    NotOnList(c.db[i].leases, l, now);
    AfterWithdrawal(b, i, a, iface, server, now);
    var e := MergeIA(b, Withdrawal(i, a), iface, server, now);
    assert Tags(c.db[i].iface, e.db[i].leases) == Tags(c.db[i].iface, c.db[i].leases);
    forall x
      ensures Leased(e.db, e.iaList, x) == Leased(c.db, c.iaList, x)
    {
      LeasedSame(c.db, e.db, c.iaList, x);
    }
  }

  lemma ParsedWhole(msg: Msg, i: Iaid, a: RecvAddr)
    requires !LinkLocal(a.addr) && msg.ias == [Offering(i, a), Withdrawal(i, a)]
    ensures Parsed(msg) == msg
  {
    forall r | r in msg.ias
      ensures IsValid(r)
    {
    }
    FilterAll(msg.ias, (r: RecvIA) => IsValid(r));
  }

  lemma ReplyDecides(c: Client, k: nat, msg: Msg, clk: Clock)
    requires Listed(c) && FindXid(c.trans, msg.xid) == k && c.trans[k].kind == Request && !msg.notOnLink && Parsed(msg) == msg
    ensures MsgFits(c, msg, clk.now) <==> AllFit(c, msg.ias, c.trans[k].iface, Some(msg.server), clk.now)
    ensures Agrees(Deliver(c, msg, clk)) <==> Agrees(MergeAll(c, msg.ias, c.trans[k].iface, Some(msg.server), clk.now))
  {
    AnswerAgreesIff(c, k, msg, clk);
  }

  /** So does a REPLY with two such options to a REQUEST. */
  lemma LaterOptionUndoes(c: Client, msg: Msg, clk: Clock, i: Iaid, a: RecvAddr)
    requires Indexed(c) && Agrees(c) && SoundDb(c.db) && FindXid(c.trans, msg.xid) >= 0 && !msg.notOnLink
    requires var t := c.trans[FindXid(c.trans, msg.xid)];
             t.kind == Request && i in c.db && c.db[i].iface != t.iface
    requires a.valid != 0 && !LinkLocal(a.addr) && IndexOf(c.db[i].leases, a.addr) < 0
    requires msg.ias == [Offering(i, a), Withdrawal(i, a)]
    ensures !MsgFits(c, msg, clk.now) && !AgreesDuring(c, msg, clk.now) && Agrees(Deliver(c, msg, clk))
  {
    var k := FindXid(c.trans, msg.xid);
    ParsedWhole(msg, i, a);
    LaterUndoes(c, i, a, c.trans[k].iface, Some(msg.server), clk.now);
    ReplyDecides(c, k, msg, clk);
    DeliverAgreesIff(c, msg, clk);
  }

  // ---- whole runs ---------------------------------------------------------------------------------------------

  predicate AllTurnsFit(c: Client, turns: seq<Turn>)
    requires Listed(c)
  {
    turns == [] ||
    (AllTurnsFit(c, turns[..|turns| - 1]) &&
     (turns[|turns| - 1].msg.Some? ==>
        MsgFits(BeforeMessage(c, turns), turns[|turns| - 1].msg.value, turns[|turns| - 1].arrival.now)))
  }

  /** Database and interfaces agree after every pass, every received IA and every message. */
  ghost predicate AlwaysAgrees(c: Client, turns: seq<Turn>)
    requires Listed(c)
  {
    Agrees(RunOf(c, turns)) &&
    (turns != [] ==>
       AlwaysAgrees(c, turns[..|turns| - 1]) && Agrees(BeforeMessage(c, turns)) &&
       (turns[|turns| - 1].msg.Some? ==>
          AgreesDuring(BeforeMessage(c, turns), turns[|turns| - 1].msg.value, turns[|turns| - 1].arrival.now)))
  }

  lemma {:induction false} RunKeepsSound(c: Client, turns: seq<Turn>)
    requires Listed(c) && SoundDb(c.db)
    ensures SoundDb(RunOf(c, turns).db)
  {
    if turns != [] {
      var front, turn := turns[..|turns| - 1], turns[|turns| - 1];
      RunKeepsSound(c, front);
      RoundKeepsSound(RunOf(c, front), turn.pending, turn.clk);
      if turn.msg.Some? {
        DeliverKeepsSound(BeforeMessage(c, turns), turn.msg.value, turn.arrival);
      }
    }
  }

  /** One turn of a client whose interfaces carry what its database says. */
  lemma TurnAgreesIff(c: Client, turns: seq<Turn>)
    requires Indexed(c) && turns != []
    requires Agrees(RunOf(c, turns[..|turns| - 1])) && SoundDb(RunOf(c, turns[..|turns| - 1]).db)
    ensures var turn, b := turns[|turns| - 1], BeforeMessage(c, turns);
            Agrees(b) &&
            (turn.msg.Some? ==>
               (AgreesDuring(b, turn.msg.value, turn.arrival.now) <==> MsgFits(b, turn.msg.value, turn.arrival.now)) &&
               (MsgFits(b, turn.msg.value, turn.arrival.now) ==> Agrees(RunOf(c, turns)))) &&
            (turn.msg.None? ==> Agrees(RunOf(c, turns)))
  {
    var front, turn := RunOf(c, turns[..|turns| - 1]), turns[|turns| - 1];
    RoundAgrees(front, turn.pending, turn.clk);
    RoundKeepsSound(front, turn.pending, turn.clk);
    if turn.msg.Some? {
      DeliverAgreesIff(BeforeMessage(c, turns), turn.msg.value, turn.arrival);
    }
  }

  /** Database and interfaces agree throughout a run exactly when every received IA fits. */
  lemma {:induction false} RunAgreesIff(c: Client, turns: seq<Turn>)
    requires Indexed(c) && Agrees(c) && SoundDb(c.db)
    ensures AlwaysAgrees(c, turns) <==> AllTurnsFit(c, turns)
  {
    if turns != [] {
      var front := turns[..|turns| - 1];
      RunAgreesIff(c, front);
      RunKeepsSound(c, front);
      if AlwaysAgrees(c, front) {
        TurnAgreesIff(c, turns);
      }
    }
  }

  // ---- what fits anyway -----------------------------------------------------------------------------------------

  /** Every known IA that is granted belongs to the interface. */
  predicate AtHome(db: map<Iaid, IA>, ias: seq<RecvIA>, iface: IfaceId) {
    forall j :: 0 <= j < |ias| && ias[j].status == STATUS_SUCCESS && ias[j].iaid in db ==> db[ias[j].iaid].iface == iface
  }

  lemma {:induction false} AtHomeFits(c: Client, ias: seq<RecvIA>, iface: IfaceId, server: Option<Server>, now: nat)
    requires AtHome(c.db, ias, iface)
    ensures AllFit(c, ias, iface, server, now)
  {
    if ias != [] {
      var front, last := ias[..|ias| - 1], ias[|ias| - 1];
      AtHomeFits(c, front, iface, server, now);
      MergeAllStates(c, front, iface, server, now, last.iaid);
    }
  }

  lemma GrantedAtHome(c: Client, k: nat, ias: seq<RecvIA>)
    requires Owned(c) && k < |c.trans| && !c.trans[k].done
    requires forall i :: i in c.db && Granted(ias, i) ==> i in c.trans[k].ias
    ensures AtHome(c.db, ias, c.trans[k].iface)
  {
    assert Placed(c.cfg, c.trans[k]);
    forall j | 0 <= j < |ias| && ias[j].status == STATUS_SUCCESS && ias[j].iaid in c.db
      ensures c.db[ias[j].iaid].iface == c.trans[k].iface
    {
      assert Granted(ias, ias[j].iaid);
    }
  }

  lemma SolicitedFits(c: Client, msg: Msg, now: nat)
    requires Owned(c) && NoneDone(c.trans) && Solicited(c, msg)
    ensures MsgFits(c, msg, now)
  {
    var k := FindXid(c.trans, msg.xid);
    if k >= 0 {
      var t, ias := c.trans[k], Considered(c.trans[k], Parsed(msg));
      GrantedAtHome(c, k, ias);
      AtHomeFits(c, ias, t.iface, Storing(t, Parsed(msg)), now);
    }
  }

  /** Servers that grant only what they were asked for send nothing that does not fit. */
  lemma {:induction false} SolicitedRunFits(c: Client, turns: seq<Turn>)
    requires Owned(c) && AllSolicited(c, turns)
    ensures AllTurnsFit(c, turns)
  {
    if turns != [] {
      var front, turn := turns[..|turns| - 1], turns[|turns| - 1];
      SolicitedRunFits(c, front);
      RunKeepsOwnership(c, front);
      RoundKeeps(RunOf(c, front), turn.pending, turn.clk);
      if turn.msg.Some? {
        SolicitedFits(BeforeMessage(c, turns), turn.msg.value, turn.arrival.now);
      }
    }
  }
}
