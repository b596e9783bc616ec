/**
  Which SOLICITs `checkSolicit` starts, which RENEW `checkRenew`, and which REQUEST a reply to a RENEW, with
  everything that they carry.
 */
module NewTransactions {
  import opened Containers
  import opened Leases
  import opened Advertises
  import opened Retransmission
  import opened Protocol
  import opened Ownership
  import opened Runs
  import opened TransMgr
  import opened Deadlines
  import opened SolicitSteps

  // ---- SOLICITs -----------------------------------------------------------------------------------------------------

  predicate DistinctIds(ifaces: seq<CfgIface>) {
    forall j, k :: 0 <= j < k < |ifaces| ==> ifaces[j].id != ifaces[k].id
  }

  /** The SOLICIT just started on an interface for some IAs. */
  predicate SolicitFor(t: Trans, f: CfgIface, ias: seq<Iaid>, now: nat) {
    t.kind == Solicit && !t.done && t.iface == f.id && t.rapid == f.rapid && t.ias == ias && t.server == None &&
    t.timer.rc == 1 && t.timer.last == now
  }

  /** The IAs of the interface that wait to be discovered, in order. */
  predicate WaitingOn(c: Client, f: CfgIface, ias: seq<Iaid>) {
    ias != [] && ias == Filter(f.ias, (i: Iaid) => i in c.cfg && c.cfg[i].state == NotConfigured)
  }

  predicate HostsOwn(c: Client, ifaces: seq<CfgIface>) {
    forall f :: f in ifaces ==> Hosts(f, c.cfg)
  }

  lemma {:induction false} OtherIfaces(c: Client, ifaces: seq<CfgIface>, clk: Clock, id: IfaceId, i: Iaid)
    requires HostsOwn(c, ifaces) && i in c.cfg && c.cfg[i].iface == id && forall f :: f in ifaces ==> f.id != id
    ensures CheckSolicit(c, ifaces, clk).cfg[i] == c.cfg[i]
  {
    if ifaces != [] {
      var front, last := ifaces[..|ifaces| - 1], ifaces[|ifaces| - 1];
      OtherIfaces(c, front, clk, id, i);
      assert Hosts(last, c.cfg);
    }
  }

  lemma {:induction false} SameFilter<T>(s: seq<T>, p: T -> bool, q: T -> bool)
    requires forall x :: x in s ==> (p(x) <==> q(x))
    ensures Filter(s, p) == Filter(s, q)
  {
    if s != [] {
      SameFilter(s[..|s| - 1], p, q);
    }
  }

  /** The interfaces before do not change who waits on the last one. */
  lemma LastWaits(c: Client, ifaces: seq<CfgIface>, clk: Clock)
    requires ifaces != [] && HostsOwn(c, ifaces) && DistinctIds(ifaces)
    ensures var b, f := CheckSolicit(c, ifaces[..|ifaces| - 1], clk), ifaces[|ifaces| - 1];
            NotConfiguredIAs(b, f) == NotConfiguredIAs(c, f)
  {
    var front, f := ifaces[..|ifaces| - 1], ifaces[|ifaces| - 1];
    var b := CheckSolicit(c, front, clk);
    assert Hosts(f, c.cfg);
    forall i | i in f.ias
      ensures i in b.cfg && b.cfg[i] == c.cfg[i]
    {
      OtherIfaces(c, front, clk, f.id, i);
    }
    SameFilter(f.ias, (i: Iaid) => i in b.cfg && b.cfg[i].state == NotConfigured,
               (i: Iaid) => i in c.cfg && c.cfg[i].state == NotConfigured);
  }

  /** What a SOLICIT is started for. */
  predicate StartedFor(c: Client, ifaces: seq<CfgIface>, t: Trans, now: nat) {
    exists f :: f in ifaces && !f.noConfig && WaitingOn(c, f, t.ias) && SolicitFor(t, f, t.ias, now)
  }

  lemma StartedForMore(c: Client, ifaces: seq<CfgIface>, t: Trans, now: nat)
    requires ifaces != [] && StartedFor(c, ifaces[..|ifaces| - 1], t, now)
    ensures StartedFor(c, ifaces, t, now)
  {
    var f :| f in ifaces[..|ifaces| - 1] && !f.noConfig && WaitingOn(c, f, t.ias) && SolicitFor(t, f, t.ias, now);
    assert f in ifaces;
  }

  /** Every transaction it starts is a SOLICIT of an interface that is to be configured, for exactly the IAs
      that wait there, with rapid commit as configured. */
  lemma {:induction false} OnlySolicitsStarted(c: Client, ifaces: seq<CfgIface>, clk: Clock, k: nat)
    requires HostsOwn(c, ifaces) && DistinctIds(ifaces) && |c.trans| <= k < |CheckSolicit(c, ifaces, clk).trans|
    ensures StartedFor(c, ifaces, CheckSolicit(c, ifaces, clk).trans[k], clk.now)
  {
    if ifaces != [] {
      var front, f := ifaces[..|ifaces| - 1], ifaces[|ifaces| - 1];
      var b := CheckSolicit(c, front, clk);
      if k < |b.trans| {
        OnlySolicitsStarted(c, front, clk, k);
        StartedForMore(c, ifaces, b.trans[k], clk.now);
      } else {
        LastWaits(c, ifaces, clk);
        assert f in ifaces && SolicitFor(SolicitOn(b, f, clk).trans[k], f, NotConfiguredIAs(c, f), clk.now);
      }
    }
  }

  lemma SolicitOnAppends(c: Client, f: CfgIface, clk: Clock)
    ensures c.trans <= SolicitOn(c, f, clk).trans
  {
  }

  lemma SolicitOnStarts(c: Client, f: CfgIface, clk: Clock) returns (t: Trans)
    requires !f.noConfig && NotConfiguredIAs(c, f) != []
    ensures t in SolicitOn(c, f, clk).trans && SolicitFor(t, f, NotConfiguredIAs(c, f), clk.now)
  {
    t := SolicitOn(c, f, clk).trans[|c.trans|];
  }

  /** And every interface that is to be configured and has IAs waiting gets one. */
  lemma {:induction false} SolicitStarted(c: Client, ifaces: seq<CfgIface>, clk: Clock, f: CfgIface) returns (t: Trans)
    requires HostsOwn(c, ifaces) && DistinctIds(ifaces) && f in ifaces && !f.noConfig && NotConfiguredIAs(c, f) != []
    ensures t in CheckSolicit(c, ifaces, clk).trans && SolicitFor(t, f, NotConfiguredIAs(c, f), clk.now)
  {
    var front, last := ifaces[..|ifaces| - 1], ifaces[|ifaces| - 1];
    var b := CheckSolicit(c, front, clk);
    if f == last {
      LastWaits(c, ifaces, clk);
      t := SolicitOnStarts(b, last, clk);
    } else {
      t := SolicitStarted(c, front, clk, f);
      SolicitOnAppends(b, last, clk);
    }
  }

  /** In discovery, in configuration and database. */
  predicate Marked(c: Client, i: Iaid) {
    i in c.cfg && i in c.db && c.cfg[i].state == InProcess && c.db[i].state == InProcess
  }

  lemma SolicitOnMarks(c: Client, f: CfgIface, clk: Clock, i: Iaid)
    requires !f.noConfig && i in NotConfiguredIAs(c, f) && i in c.db
    ensures Marked(SolicitOn(c, f, clk), i)
  {
  }

  lemma SolicitOnKeepsMarked(c: Client, f: CfgIface, clk: Clock, i: Iaid)
    requires Marked(c, i)
    ensures Marked(SolicitOn(c, f, clk), i)
  {
  }

  lemma StillListedThere(c: Client, b: Client, f: CfgIface, i: Iaid)
    requires i in NotConfiguredIAs(c, f) && i in b.cfg && b.cfg[i].state == NotConfigured
    ensures i in NotConfiguredIAs(b, f)
  {
  }

  /** The IAs of the SOLICITs started are so afterwards. */
  lemma {:induction false} SolicitedIsMarked(c: Client, ifaces: seq<CfgIface>, clk: Clock, f: CfgIface, i: Iaid)
    requires HostsOwn(c, ifaces) && f in ifaces && !f.noConfig && i in NotConfiguredIAs(c, f) && i in c.db
    ensures Marked(CheckSolicit(c, ifaces, clk), i)
  {
    var front, last := ifaces[..|ifaces| - 1], ifaces[|ifaces| - 1];
    var b := CheckSolicit(c, front, clk);
    MarkedOrWaiting(c, front, clk, i);
    if Marked(b, i) {
      SolicitOnKeepsMarked(b, last, clk, i);
    } else if f == last {
      StillListedThere(c, b, f, i);
      SolicitOnMarks(b, last, clk, i);
    } else {
      SolicitedIsMarked(c, front, clk, f, i);
      SolicitOnKeepsMarked(b, last, clk, i);
    }
  }

  lemma {:induction false} MarkedOrWaiting(c: Client, ifaces: seq<CfgIface>, clk: Clock, i: Iaid)
    requires i in c.cfg && i in c.db && c.cfg[i].state == NotConfigured
    ensures CheckSolicit(c, ifaces, clk).cfg[i].state == NotConfigured || Marked(CheckSolicit(c, ifaces, clk), i)
  {
    if ifaces != [] {
      MarkedOrWaiting(c, ifaces[..|ifaces| - 1], clk, i);
    }
  }

  /** After a pass, each interface that is to be configured has a SOLICIT for exactly the IAs that waited there. */
  lemma PassSolicits(c: Client, pending: set<Iaid>, clk: Clock, f: CfgIface) returns (t: Trans)
    requires WellFormed(c) && DistinctIds(c.ifaces) && f in c.ifaces && !f.noConfig && NotConfiguredIAs(Settle(c, clk), f) != []
    ensures t in Round(c, pending, clk).trans && SolicitFor(t, f, NotConfiguredIAs(Settle(c, clk), f), clk.now)
  {
    var e := Settle(c, clk);
    SettleKeepsWellFormed(c, clk);
    t := SolicitStarted(e, e.ifaces, clk, f);
    CheckRenewAppends(CheckSolicit(e, e.ifaces, clk), pending, clk);
  }

  // ---- the RENEW ----------------------------------------------------------------------------------------------------

  /** One RENEW is started, for the IAs picked, to the server of the first, on its interface; the IAs are INPROCESS
      in the database, and nothing else changes. */
  lemma RenewStarted(c: Client, pending: set<Iaid>, clk: Clock) returns (x: Trans)
    requires Listed(c) && Pick(c.db, c.iaList, clk.now, pending) != []
    ensures var r, ias := CheckRenew(c, pending, clk), Pick(c.db, c.iaList, clk.now, pending);
            r == c.(db := r.db, trans := c.trans + [x], created := c.created + 1) &&
            (forall i :: i in c.db ==> r.db[i] == if i in ias then c.db[i].(state := InProcess) else c.db[i]) &&
            x.kind == Renew && !x.done && x.ias == ias && x.iface == c.db[ias[0]].iface && x.server == c.db[ias[0]].server &&
            x.timer.rc == 1 && x.timer.last == clk.now
  {
    var ias := Pick(c.db, c.iaList, clk.now, pending);
    if T1Timeout(c.db, c.iaList, clk.now) > 0 {
      NothingToRenew(c.db, c.iaList, clk.now, pending);
    }
    x := StartRenew(c, ias, clk).trans[|c.trans|];
  }

  /** An IA needs to be renewed if it is CONFIGURED, its T1 is over and its addresses are not being checked. */
  lemma NeedsRenewIff(ia: IA, now: nat, pending: set<Iaid>)
    requires ia.t1 <= ULONG_MAX && ia.stamp <= ULONG_MAX
    ensures NeedsRenew(ia, now, pending) <==>
            ia.state == Configured && ia.iaid !in pending && ia.stamp + ia.t1 <= now && ia.stamp + ia.t1 <= ULONG_MAX
  {
  }

  /** If some listed IA is CONFIGURED, past its T1 and not being checked, a RENEW is started. It goes to the server
      of its first IA, on its interface, and takes that IA exactly if it has the same server and interface. */
  lemma OverdueIsRenewed(c: Client, pending: set<Iaid>, clk: Clock, i: Iaid) returns (x: Trans)
    requires Listed(c) && i in c.iaList && c.db[i].iaid == i && c.db[i].state == Configured && i !in pending
    requires c.db[i].stamp + c.db[i].t1 <= clk.now <= ULONG_MAX
    ensures x in CheckRenew(c, pending, clk).trans && x.kind == Renew && !x.done && x.ias != [] && x.ias[0] in c.db
    ensures x.server == c.db[x.ias[0]].server && x.iface == c.db[x.ias[0]].iface
    ensures i in x.ias <==> c.db[i].iface == x.iface && SameServer(c.db[i].server, x.server)
  {
    PickExact(c.db, c.iaList, clk.now, pending);
    NeedsRenewIff(c.db[i], clk.now, pending);
    x := RenewStarted(c, pending, clk);
  }

  // ---- what a reply to a RENEW starts -----------------------------------------------------------------------------------

  /** Without an ADVERTISE the IAs that are on the interface wait to be discovered, and nothing else is different. */
  lemma GivenBack(c: Client, ias: seq<Iaid>, iface: IfaceId, clk: Clock, i: Iaid)
    requires c.ads == [] && i in c.cfg
    ensures var r := SendRequest(c, ias, iface, clk);
            r.cfg[i] == (if i in ias && c.cfg[i].iface == iface then c.cfg[i].(state := NotConfigured) else c.cfg[i]) &&
            r.db == c.db && r.installed == c.installed && forall k :: |c.trans| <= k < |r.trans| ==> r.trans[k].done
  {
  }

  /** The client with what a RENEW merges of a message. */
  function AfterRenewal(c: Client, k: nat, msg: Msg, now: nat): Client
    requires k < |c.trans|
  {
    MergeAll(c, BeforeNoBinding(Parsed(msg).ias), c.trans[k].iface, c.trans[k].server, now)
  }

  /** An IA without binding, and a server that has offered: all IAs of the RENEW go to the best one, in one REQUEST. */
  lemma NoBindingRequests(c: Client, msg: Msg, clk: Clock, k: nat) returns (x: Trans, a: Advert)
    requires k == FindXid(c.trans, msg.xid) && c.trans[k].kind == Renew && c.ads != []
    requires exists r :: r in msg.ias && IsValid(r) && r.status == STATUS_NOBINDING
    ensures var t, r, m := c.trans[k], Deliver(c, msg, clk), AfterRenewal(c, k, msg, clk.now);
            r == m.(ads := r.ads, trans := c.trans[k := t.(done := true)] + [x], created := c.created + 1) &&
            a in c.ads && (forall b :: b in c.ads ==> b.pref <= a.pref) &&
            multiset(r.ads) == multiset(c.ads) - multiset{a} &&
            x.kind == Request && !x.done && x.ias == t.ias && x.iface == t.iface && x.server == Some(a.server) && x.timer.rc == 1
  {
    var t, m := c.trans[k], AfterRenewal(c, k, msg, clk.now);
    SomeWithoutBinding(msg);
    MergeKeepsCounter(c, BeforeNoBinding(Parsed(msg).ias), t.iface, t.server, clk.now);
    x, a := SentRequest(m, t.ias, t.iface, clk);
    assert (c.trans + [x])[k := t.(done := true)] == c.trans[k := t.(done := true)] + [x];
  }

  lemma SomeWithoutBinding(msg: Msg)
    ensures |BeforeNoBinding(Parsed(msg).ias)| < |Parsed(msg).ias| <==>
            exists r :: r in msg.ias && IsValid(r) && r.status == STATUS_NOBINDING
  {
    var ias := Parsed(msg).ias;
    var before := BeforeNoBinding(ias);
    if |before| < |ias| {
      assert ias[|before|] in ias;
    } else {
      assert ias[..|ias|] == ias;
      forall r | r in msg.ias && IsValid(r)
        ensures r.status != STATUS_NOBINDING
      {
        assert r in ias;
      }
    }
  }

  lemma {:induction false} MergeKeepsCounter(c: Client, ias: seq<RecvIA>, iface: IfaceId, server: Option<Server>, now: nat)
    ensures MergeAll(c, ias, iface, server, now).created == c.created
  {
    if ias != [] {
      MergeKeepsCounter(c, ias[..|ias| - 1], iface, server, now);
    }
  }

  /** Without such an IA the RENEW just ends. */
  lemma BindingEnds(c: Client, msg: Msg, clk: Clock, k: nat)
    requires k == FindXid(c.trans, msg.xid) && c.trans[k].kind == Renew
    requires forall r :: r in msg.ias && IsValid(r) ==> r.status != STATUS_NOBINDING
    ensures Deliver(c, msg, clk) == AfterRenewal(c, k, msg, clk.now).(trans := c.trans[k := c.trans[k].(done := true)])
  {
    SomeWithoutBinding(msg);
  }
}
