/**
  Rapid commit: every SOLICIT carries it as its interface is configured, and then a REPLY may end the
  discovery at once; without it on either side no REPLY does.
 */
module RapidCommit {
  import opened Containers
  import opened Leases
  import opened Advertises
  import opened Retransmission
  import opened Protocol
  import opened Ownership
  import opened Replies
  import opened Runs
  import opened TransMgr
  import opened Hazards
  import opened Deadlines
  import opened SolicitSteps
  import opened NewTransactions

  // ---- over whole runs ------------------------------------------------------------------------------------------------

  /** A SOLICIT is on a configured interface that is to be configured, with that one's rapid commit. */
  ghost predicate AsConfigured(t: Trans, ifaces: seq<CfgIface>) {
    t.kind == Solicit ==> exists f :: f in ifaces && !f.noConfig && f.id == t.iface && f.rapid == t.rapid
  }

  ghost predicate AllAsConfigured(c: Client) {
    forall k :: 0 <= k < |c.trans| ==> AsConfigured(c.trans[k], c.ifaces)
  }

  /** Steps that start no SOLICIT and change neither kind, interface nor rapid commit of a message. */
  predicate KeepsHeaders(c: Client, r: Client) {
    r.ifaces == c.ifaces && |r.trans| >= |c.trans| &&
    (forall k :: 0 <= k < |c.trans| ==> SameHeader(c.trans[k], r.trans[k])) &&
    (forall k :: |c.trans| <= k < |r.trans| ==> r.trans[k].kind != Solicit)
  }

  predicate SameHeader(t: Trans, x: Trans) {
    x.kind == t.kind && x.iface == t.iface && x.rapid == t.rapid
  }

  lemma HeadersKeepConfigured(c: Client, r: Client)
    requires AllAsConfigured(c) && KeepsHeaders(c, r)
    ensures AllAsConfigured(r)
  {
    forall k | 0 <= k < |r.trans|
      ensures AsConfigured(r.trans[k], r.ifaces)
    {
      if k < |c.trans| {
        assert SameHeader(c.trans[k], r.trans[k]) && AsConfigured(c.trans[k], c.ifaces);
      }
    }
  }

  lemma HeadersTransitive(a: Client, b: Client, c: Client)
    requires KeepsHeaders(a, b) && KeepsHeaders(b, c)
    ensures KeepsHeaders(a, c)
  {
    forall k | 0 <= k < |a.trans|
      ensures SameHeader(a.trans[k], c.trans[k])
    {
      assert SameHeader(a.trans[k], b.trans[k]) && SameHeader(b.trans[k], c.trans[k]);
    }
    forall k | |a.trans| <= k < |c.trans|
      ensures c.trans[k].kind != Solicit
    {
      if k < |b.trans| {
        assert SameHeader(b.trans[k], c.trans[k]);
      }
    }
  }

  lemma SendRequestHeaders(c: Client, ias: seq<Iaid>, iface: IfaceId, clk: Clock)
    ensures KeepsHeaders(c, SendRequest(c, ias, iface, clk))
  {
  }

  lemma FinishHeaders(c: Client, k: nat)
    requires k < |c.trans|
    ensures KeepsHeaders(c, Finish(c, k))
  {
  }

  lemma RequestAndFinish(c: Client, k: nat, ias: seq<Iaid>, iface: IfaceId, clk: Clock)
    requires k < |c.trans|
    ensures KeepsHeaders(c, Finish(SendRequest(c, ias, iface, clk), k))
  {
    SendRequestHeaders(c, ias, iface, clk);
    FinishHeaders(SendRequest(c, ias, iface, clk), k);
    HeadersTransitive(c, SendRequest(c, ias, iface, clk), Finish(SendRequest(c, ias, iface, clk), k));
  }

  lemma DutiesHeaders(c: Client, k: nat, clk: Clock)
    requires k < |c.trans|
    ensures KeepsHeaders(c, Duties(c, k, clk))
  {
    var t := c.trans[k];
    if (t.kind == Solicit && c.ads != []) || (t.kind == Request && t.timer.rc > t.timer.mrc) {
      RequestAndFinish(c, k, t.ias, t.iface, clk);
    } else if t.kind == Rebind && t.timer.mrd == 0 {
      FinishHeaders(ReleaseAll(c, t.ias), k);
    }
  }

  lemma {:induction false} DutiesFromHeaders(c: Client, k: nat, n: nat, clk: Clock)
    requires k <= n <= |c.trans|
    ensures KeepsHeaders(c, DutiesFrom(c, k, n, clk))
    decreases n - k
  {
    if k < n {
      if Due(c.trans[k], clk.now) {
        var r := Duties(c, k, clk);
        DutiesHeaders(c, k, clk);
        DutiesFromHeaders(r, k + 1, n, clk);
        HeadersTransitive(c, r, DutiesFrom(r, k + 1, n, clk));
      } else {
        DutiesFromHeaders(c, k + 1, n, clk);
      }
    }
  }

  lemma SettleConfigured(c: Client, clk: Clock)
    requires Listed(c) && AllAsConfigured(c)
    ensures AllAsConfigured(Settle(c, clk))
  {
    var d, r := DutiesFrom(c, 0, |c.trans|, clk), Settle(c, clk);
    DutiesFromHeaders(c, 0, |c.trans|, clk);
    HeadersKeepConfigured(c, d);
    forall k | 0 <= k < |r.trans|
      ensures AsConfigured(r.trans[k], r.ifaces)
    {
      assert r.trans[k] in r.trans;
      var j :| 0 <= j < |d.trans| && d.trans[j] == r.trans[k];
      assert AsConfigured(d.trans[j], d.ifaces);
    }
  }

  lemma {:induction false} CheckSolicitConfigured(c: Client, ifaces: seq<CfgIface>, clk: Clock)
    requires AllAsConfigured(c) && forall f :: f in ifaces ==> f in c.ifaces
    ensures AllAsConfigured(CheckSolicit(c, ifaces, clk))
  {
    if ifaces != [] {
      CheckSolicitConfigured(c, ifaces[..|ifaces| - 1], clk);
      SolicitOnConfigured(CheckSolicit(c, ifaces[..|ifaces| - 1], clk), ifaces[|ifaces| - 1], clk);
    }
  }

  lemma SolicitOnConfigured(c: Client, f: CfgIface, clk: Clock)
    requires AllAsConfigured(c) && f in c.ifaces
    ensures AllAsConfigured(SolicitOn(c, f, clk))
  {
    var r := SolicitOn(c, f, clk);
    forall k | 0 <= k < |r.trans|
      ensures AsConfigured(r.trans[k], r.ifaces)
    {
      if k < |c.trans| {
        assert AsConfigured(c.trans[k], c.ifaces);
      }
    }
  }

  lemma CheckRenewHeaders(c: Client, pending: set<Iaid>, clk: Clock)
    requires Listed(c)
    ensures KeepsHeaders(c, CheckRenew(c, pending, clk))
  {
  }

  lemma RoundConfigured(c: Client, pending: set<Iaid>, clk: Clock)
    requires Listed(c) && AllAsConfigured(c)
    ensures AllAsConfigured(Round(c, pending, clk))
  {
    var e := Settle(c, clk);
    SettleConfigured(c, clk);
    CheckSolicitConfigured(e, e.ifaces, clk);
    CheckRenewHeaders(CheckSolicit(e, e.ifaces, clk), pending, clk);
    HeadersKeepConfigured(CheckSolicit(e, e.ifaces, clk), Round(c, pending, clk));
  }

  lemma ReplyHeaders(c: Client, k: nat, msg: Msg, clk: Clock)
    requires k < |c.trans|
    ensures KeepsHeaders(c, AnswerReply(c, k, msg, clk))
  {
    var g := Grant(c, k, msg, clk.now);
    assert KeepsHeaders(c, g);
    FinishHeaders(g, k);
    RequestAndFinish(g, k, g.trans[k].ias, c.trans[k].iface, clk);
    HeadersTransitive(c, g, AnswerReply(c, k, msg, clk));
  }

  lemma RenewReplyHeaders(c: Client, k: nat, msg: Msg, clk: Clock)
    requires k < |c.trans|
    ensures KeepsHeaders(c, AnswerRenew(c, k, msg, clk))
  {
    var g := Renewed(c, k, msg, clk.now);
    FinishHeaders(g, k);
    RequestAndFinish(g, k, c.trans[k].ias, c.trans[k].iface, clk);
    HeadersTransitive(c, g, AnswerRenew(c, k, msg, clk));
  }

  lemma AdvertiseHeaders(c: Client, k: nat, msg: Msg, clk: Clock)
    requires k < |c.trans|
    ensures KeepsHeaders(c, AnswerAdvertise(c, k, msg, clk))
  {
    var noted := c.(ads := c.ads + [Advert(msg.pref, msg.server)]);
    RequestAndFinish(noted, k, c.trans[k].ias, c.trans[k].iface, clk);
  }

  lemma SolicitAnswerHeaders(c: Client, k: nat, msg: Msg, clk: Clock)
    requires k < |c.trans| && c.trans[k].kind == Solicit
    ensures KeepsHeaders(c, Answer(c, k, msg, clk))
  {
    var t := c.trans[k];
    if !Rejects(t, msg) && msg.kind == Advertise {
      AdvertiseHeaders(c, k, msg, clk);
    } else if !Rejects(t, msg) && msg.kind == Reply && t.rapid && msg.rapid {
      ReplyHeaders(c, k, msg, clk);
    }
  }

  lemma AnswerHeaders(c: Client, k: nat, msg: Msg, clk: Clock)
    requires k < |c.trans|
    ensures KeepsHeaders(c, Answer(c, k, msg, clk))
  {
    match c.trans[k].kind
    case Solicit => SolicitAnswerHeaders(c, k, msg, clk);
    case Request => ReplyHeaders(c, k, msg, clk);
    case Renew => RenewReplyHeaders(c, k, msg, clk);
    case Rebind => ReplyHeaders(c, k, msg, clk);
  }

  /** Over every run whatsoever, every SOLICIT is on a configured interface, with its rapid commit. */
  lemma {:induction false} RunConfigured(c: Client, turns: seq<Turn>)
    requires Listed(c) && AllAsConfigured(c)
    ensures AllAsConfigured(RunOf(c, turns))
  {
    if turns != [] {
      var front, turn := turns[..|turns| - 1], turns[|turns| - 1];
      RunConfigured(c, front);
      RoundConfigured(RunOf(c, front), turn.pending, turn.clk);
      if turn.msg.Some? {
        var b := BeforeMessage(c, turns);
        if FindXid(b.trans, turn.msg.value.xid) >= 0 {
          AnswerHeaders(b, FindXid(b.trans, turn.msg.value.xid), Parsed(turn.msg.value), turn.arrival);
          HeadersKeepConfigured(b, RunOf(c, turns));
        }
      }
    }
  }

  lemma ConfiguredRapid(c: Client, k: nat, f: CfgIface)
    requires AllAsConfigured(c) && DistinctIds(c.ifaces) && f in c.ifaces
    requires k < |c.trans| && c.trans[k].kind == Solicit && c.trans[k].iface == f.id
    ensures c.trans[k].rapid == f.rapid
  {
    assert AsConfigured(c.trans[k], c.ifaces);
  }

  /** So with distinct interface identifiers, that is the one of any configured interface with its identifier. */
  lemma SolicitsCarryRapid(c: Client, turns: seq<Turn>, k: nat, f: CfgIface)
    requires Listed(c) && c.trans == [] && DistinctIds(c.ifaces) && f in c.ifaces
    requires var r := RunOf(c, turns);
             k < |r.trans| && r.trans[k].kind == Solicit && r.trans[k].iface == f.id
    ensures RunOf(c, turns).trans[k].rapid == f.rapid
  {
    RunConfigured(c, turns);
    ConfiguredRapid(RunOf(c, turns), k, f);
  }

  // ---- a rapid REPLY --------------------------------------------------------------------------------------------------

  /** The message grants the IA in an option that is not discarded. */
  predicate GrantsIA(msg: Msg, i: Iaid) {
    exists r :: r in msg.ias && IsValid(r) && r.iaid == i && r.status == STATUS_SUCCESS
  }

  lemma GrantsIsGranted(msg: Msg, i: Iaid)
    ensures GrantsIA(msg, i) <==> Granted(Parsed(msg).ias, i)
  {
    if GrantsIA(msg, i) {
      var r :| r in msg.ias && IsValid(r) && r.iaid == i && r.status == STATUS_SUCCESS;
      assert r in Parsed(msg).ias;
    }
    if Granted(Parsed(msg).ias, i) {
      var j :| 0 <= j < |Parsed(msg).ias| && Parsed(msg).ias[j].iaid == i && Parsed(msg).ias[j].status == STATUS_SUCCESS;
      assert Parsed(msg).ias[j] in Parsed(msg).ias;
    }
  }

  lemma NothingLeft(asked: seq<Iaid>, msg: Msg)
    requires NoDup(asked) && forall i :: i in asked ==> GrantsIA(msg, i)
    ensures Leftover(asked, Parsed(msg).ias) == []
  {
    forall i | i in asked
      ensures Granted(Parsed(msg).ias, i)
    {
      GrantsIsGranted(msg, i);
    }
    LeftoverExact(asked, Parsed(msg).ias);
    FilterNone(asked, (i: Iaid) => !Granted(Parsed(msg).ias, i));
  }

  /** The IA is CONFIGURED on both sides, and nothing that is live has it. */
  predicate Settled(c: Client, i: Iaid) {
    i in c.cfg && i in c.db && c.cfg[i].state == Configured && c.db[i].state == Configured && Holders(c.trans, i) == 0
  }

  lemma ReplyEndsIt(c: Client, k: nat, msg: Msg, clk: Clock)
    requires Core(c) && k < |c.trans| && !c.trans[k].done && forall i :: i in c.trans[k].ias ==> GrantsIA(msg, i)
    ensures var r, t := AnswerReply(c, k, Parsed(msg), clk), c.trans[k];
            r == MergeAll(c, Parsed(msg).ias, t.iface, Some(msg.server), clk.now)
                   .(trans := c.trans[k := t.(ias := [], done := true)])
  {
    HeldOnce(c, k);
    NothingLeft(c.trans[k].ias, msg);
  }

  lemma EndedHolds(c: Client, k: nat, i: Iaid)
    requires Core(c) && k < |c.trans| && !c.trans[k].done && i in c.trans[k].ias
    ensures Holders(c.trans[k := c.trans[k].(ias := [], done := true)], i) == 0
  {
    var t := c.trans[k];
    HoldersUpdate(c.trans, k, t.(ias := [], done := true), i);
    assert Exclusive(c, i);
    OccursIn(t.ias, i);
  }

  lemma ReplySettles(c: Client, k: nat, msg: Msg, clk: Clock, i: Iaid)
    requires Owned(c) && k < |c.trans| && !c.trans[k].done && i in c.trans[k].ias
    requires forall i :: i in c.trans[k].ias ==> GrantsIA(msg, i)
    ensures Settled(AnswerReply(c, k, Parsed(msg), clk), i)
  {
    var t := c.trans[k];
    ReplyEndsIt(c, k, msg, clk);
    GrantsIsGranted(msg, i);
    MergeAllStates(c, Parsed(msg).ias, t.iface, Some(msg.server), clk.now, i);
    assert Placed(c.cfg, t);
    EndedHolds(c, k, i);
  }

  lemma {:induction false} OccursIn(s: seq<Iaid>, i: Iaid)
    ensures Occurs(s, i) > 0 <==> i in s
  {
    if s != [] {
      OccursIn(s[..|s| - 1], i);
    }
  }

  /** A REPLY with rapid commit that offers something and grants all IAs of a SOLICIT that carries it. */
  predicate RapidReply(t: Trans, msg: Msg, j: nat) {
    t.kind == Solicit && !t.done && t.ias != [] && t.rapid && msg.rapid && msg.kind == Reply &&
    FirstValid(msg.ias, j) && HasOffer(msg, j) && forall i :: i in t.ias ==> GrantsIA(msg, i)
  }

  lemma RapidIsAnswered(c: Client, msg: Msg, clk: Clock, k: nat, j: nat)
    requires k == FindXid(c.trans, msg.xid) && RapidReply(c.trans[k], msg, j)
    ensures Deliver(c, msg, clk) == AnswerReply(c, k, Parsed(msg), clk)
  {
    ParsedFirst(msg, j);
  }

  /** It ends the SOLICIT, and leaves all its IAs CONFIGURED in configuration and database, held by nobody. */
  lemma RapidReplyConfigures(c: Client, msg: Msg, clk: Clock, k: nat, j: nat)
    requires Owned(c) && k == FindXid(c.trans, msg.xid) && RapidReply(c.trans[k], msg, j)
    ensures Deliver(c, msg, clk).trans == c.trans[k := c.trans[k].(ias := [], done := true)]
    ensures forall i :: i in c.trans[k].ias ==> Settled(Deliver(c, msg, clk), i)
  {
    RapidIsAnswered(c, msg, clk, k, j);
    ReplyEndsIt(c, k, msg, clk);
    forall i | i in c.trans[k].ias
      ensures Settled(Deliver(c, msg, clk), i)
    {
      ReplySettles(c, k, msg, clk, i);
    }
  }

  // ---- from start-up ----------------------------------------------------------------------------------------------------

  lemma SettleAtStart(c: Client, clk: Clock)
    requires Initial(c)
    ensures var e := Settle(c, clk);
            e.trans == [] && e.cfg == c.cfg && e.xids == c.xids && e.created == c.created
  {
  }

  lemma FirstSolicits(e: Client, clk: Clock, k: nat, f: CfgIface)
    requires HostsOwn(e, e.ifaces) && DistinctIds(e.ifaces) && f in e.ifaces && e.trans == [] && AllWaiting(e.cfg)
    requires k < |CheckSolicit(e, e.ifaces, clk).trans| && CheckSolicit(e, e.ifaces, clk).trans[k].iface == f.id
    ensures SolicitFor(CheckSolicit(e, e.ifaces, clk).trans[k], f, f.ias, clk.now)
  {
    OnlySolicitsStarted(e, e.ifaces, clk, k);
    var t := CheckSolicit(e, e.ifaces, clk).trans[k];
    var g :| g in e.ifaces && !g.noConfig && WaitingOn(e, g, t.ias) && SolicitFor(t, g, t.ias, clk.now);
    assert Hosts(f, e.cfg);
    FilterAll(f.ias, (i: Iaid) => i in e.cfg && e.cfg[i].state == NotConfigured);
  }

  predicate AllWaiting(cfg: map<Iaid, CfgIA>) {
    forall i :: i in cfg ==> cfg[i].state == NotConfigured
  }

  /** The SOLICIT that the first pass starts on an interface. */
  lemma FirstPassSolicits(c: Client, pending: set<Iaid>, clk: Clock, k: nat, f: CfgIface)
    requires Initial(c) && DistinctIds(c.ifaces) && f in c.ifaces
    requires var r := Round(c, pending, clk);
             k < |r.trans| && r.trans[k].kind == Solicit && r.trans[k].iface == f.id
    ensures SolicitFor(Round(c, pending, clk).trans[k], f, f.ias, clk.now)
  {
    var e := Settle(c, clk);
    SettleAtStart(c, clk);
    SettleKeepsWellFormed(c, clk);
    CheckRenewHeaders(CheckSolicit(e, e.ifaces, clk), pending, clk);
    CheckRenewAppends(CheckSolicit(e, e.ifaces, clk), pending, clk);
    FirstSolicits(e, clk, k, f);
  }

  lemma StartIsOwned(c: Client)
    requires Initial(c)
    ensures Owned(c)
  {
    forall i
      ensures Exclusive(c, i) && Idle(c, i)
    {
    }
  }

  /**
    From start-up, on an interface with rapid commit: one pass and one REPLY that carries it and grants the
    interface's IAs leave them all CONFIGURED in configuration and database, and no SOLICIT asks for them.
   */
  lemma RapidFromStart(c: Client, turn: Turn, msg: Msg, f: CfgIface, k: nat, j: nat)
    requires Initial(c) && DistinctIds(c.ifaces) && f in c.ifaces && f.rapid && f.ias != [] && turn.msg == Some(msg)
    requires var r := Round(c, turn.pending, turn.clk);
             k == FindXid(r.trans, msg.xid) && r.trans[k].kind == Solicit && r.trans[k].iface == f.id
    requires msg.kind == Reply && msg.rapid && FirstValid(msg.ias, j) && HasOffer(msg, j)
    requires forall i :: i in f.ias ==> GrantsIA(msg, i)
    ensures forall i :: i in f.ias ==> Settled(RunOf(c, [turn]), i)
  {
    StartIsOwned(c);
    RoundKeeps(c, turn.pending, turn.clk);
    FirstPassSolicits(c, turn.pending, turn.clk, k, f);
    RapidReplyConfigures(Round(c, turn.pending, turn.clk), msg, turn.arrival, k, j);
    RunOfOne(c, turn);
  }

  /** Without it on either side the REPLY changes nothing. */
  lemma SlowFromStart(c: Client, turn: Turn, msg: Msg, f: CfgIface, k: nat)
    requires Initial(c) && DistinctIds(c.ifaces) && f in c.ifaces && turn.msg == Some(msg) && msg.kind == Reply
    requires var r := Round(c, turn.pending, turn.clk);
             k == FindXid(r.trans, msg.xid) && r.trans[k].kind == Solicit && r.trans[k].iface == f.id
    requires !f.rapid || !msg.rapid
    ensures RunOf(c, [turn]) == Round(c, turn.pending, turn.clk)
  {
    FirstPassSolicits(c, turn.pending, turn.clk, k, f);
    OthersAreIgnored(Round(c, turn.pending, turn.clk), msg, turn.arrival, k);
    RunOfOne(c, turn);
  }

  // ---- such a client ------------------------------------------------------------------------------------------------------

  const FAST_LINK := CfgIface(1, false, true, [1])

  function Starting(): Client {
    Client([FAST_LINK], map[1 := CfgIA(1, NotConfigured)], [1], map[1 := IA(1, 1, NotConfigured, 100, 200, 0, None, [])],
           multiset{}, [], [], (n: nat) => n + 7, 0)
  }

  function Granting(): Msg {
    Msg(Reply, 7, Server(1, 1), 0, true, false, false, [RecvIA(1, 100, 200, STATUS_SUCCESS, [RecvAddr(1, 300, 400)])])
  }

  lemma StartingIsInitial()
    ensures Initial(Starting()) && DistinctIds(Starting().ifaces)
  {
    assert FAST_LINK in Starting().ifaces && 1 in FAST_LINK.ias;
  }

  /** A client with one interface starts its SOLICIT first, with the first identifier. */
  lemma OneSolicit(c: Client, pending: set<Iaid>, clk: Clock, f: CfgIface)
    requires Initial(c) && c.ifaces == [f] && f.ias != []
    ensures var r := Round(c, pending, clk);
            FindXid(r.trans, c.xids(c.created)) == 0 && r.trans[0].kind == Solicit && r.trans[0].iface == f.id
  {
    var e := Settle(c, clk);
    SettleAtStart(c, clk);
    assert Hosts(f, c.cfg);
    FilterAll(f.ias, (i: Iaid) => i in e.cfg && e.cfg[i].state == NotConfigured);
    OneSolicitOn(e, f, clk);
    var s := CheckSolicit(e, [f], clk);
    CheckRenewAppends(s, pending, clk);
    assert s.trans[0] == Round(c, pending, clk).trans[0];
    FirstXid(Round(c, pending, clk).trans, c.xids(c.created), 0);
  }

  lemma OneSolicitOn(e: Client, f: CfgIface, clk: Clock)
    requires e.trans == [] && !f.noConfig && NotConfiguredIAs(e, f) == f.ias != []
    ensures var s := CheckSolicit(e, [f], clk);
            |s.trans| == 1 && s.trans[0].kind == Solicit && s.trans[0].iface == f.id && s.trans[0].xid == e.xids(e.created)
  {
    assert [f][..0] == [];
  }

  lemma OneIsDistinct(c: Client, f: CfgIface)
    requires c.ifaces == [f]
    ensures DistinctIds(c.ifaces) && f in c.ifaces
  {
  }

  /** Its IAs are configured by a REPLY with rapid commit, if the interface has it, too. */
  lemma OneIfaceConfigured(c: Client, turn: Turn, msg: Msg, f: CfgIface, j: nat)
    requires Initial(c) && c.ifaces == [f] && f.rapid && f.ias != [] && turn.msg == Some(msg) && msg.xid == c.xids(c.created)
    requires msg.kind == Reply && msg.rapid && FirstValid(msg.ias, j) && HasOffer(msg, j)
    requires forall i :: i in f.ias ==> GrantsIA(msg, i)
    ensures forall i :: i in f.ias ==> Settled(RunOf(c, [turn]), i)
  {
    OneIsDistinct(c, f);
    OneSolicit(c, turn.pending, turn.clk, f);
    RapidFromStart(c, turn, msg, f, 0, j);
  }

  lemma GrantingFits()
    ensures var m := Granting();
            m.kind == Reply && m.rapid && FirstValid(m.ias, 0) && HasOffer(m, 0) && GrantsIA(m, 1)
  {
    assert Granting().ias[0] in Granting().ias;
  }

  /** One such client and REPLY. */
  lemma OneIsConfigured(clk: Clock, arrival: Clock)
    ensures Initial(Starting()) && Settled(RunOf(Starting(), [Turn({}, clk, Some(Granting()), arrival)]), 1)
  {
    StartingIsInitial();
    GrantingFits();
    OneIfaceConfigured(Starting(), Turn({}, clk, Some(Granting()), arrival), Granting(), FAST_LINK, 0);
    assert 1 in FAST_LINK.ias;
  }
}
