/**
  Who owns an IA: over every run at most one live transaction holds each IA, an IA that is to be
  discovered or renewed is held by none, and an IA in discovery is held by one.
 */
module Ownership {
  import opened Containers
  import opened Leases
  import opened Retransmission
  import opened Protocol

  // ---- the holders of an IA ------------------------------------------------------------------------

  /** How often `x` occurs in `s`. */
  function Occurs(s: seq<Iaid>, x: Iaid): (n: nat)
    ensures n > 0 <==> x in s
  {
    if s == [] then 0 else Occurs(s[..|s| - 1], x) + if s[|s| - 1] == x then 1 else 0
  }

  function Holds(t: Trans, i: Iaid): nat {
    if t.done then 0 else Occurs(t.ias, i)
  }

  /** How many live transactions hold an IA. */
  function Holders(trans: seq<Trans>, i: Iaid): nat {
    if trans == [] then 0 else Holders(trans[..|trans| - 1], i) + Holds(trans[|trans| - 1], i)
  }

  lemma HoldersSnoc(trans: seq<Trans>, t: Trans, i: Iaid)
    ensures Holders(trans + [t], i) == Holders(trans, i) + Holds(t, i)
  {
    assert (trans + [t])[..|trans|] == trans;
  }

  /** Replacing a transaction trades what it held for what the new one holds. */
  lemma {:induction false} HoldersUpdate(trans: seq<Trans>, k: nat, t: Trans, i: Iaid)
    requires k < |trans|
    ensures Holders(trans[k := t], i) == Holders(trans, i) - Holds(trans[k], i) + Holds(t, i)
    ensures Holds(trans[k], i) <= Holders(trans, i)
  {
    var n := |trans| - 1;
    if k == n {
      assert trans[k := t][..n] == trans[..n];
    } else {
      assert trans[k := t][..n] == trans[..n][k := t];
      HoldersUpdate(trans[..n], k, t, i);
    }
  }

  lemma {:induction false} HoldersPurge(trans: seq<Trans>, i: Iaid)
    ensures Holders(Filter(trans, (t: Trans) => !t.done), i) == Holders(trans, i)
  {
    if trans != [] {
      var front, last := trans[..|trans| - 1], trans[|trans| - 1];
      HoldersPurge(front, i);
      HoldersSnoc(Filter(front, (t: Trans) => !t.done), last, i);
    }
  }

  /** How many transactions other than the k-th hold an IA. */
  function Others(c: Client, k: nat, i: Iaid): int
    requires k < |c.trans|
  {
    Holders(c.trans, i) - Holds(c.trans[k], i)
  }

  // ---- invariants ----------------------------------------------------------------------------------

  /** Configuration and database list the same IAs, on the same interfaces, each once. */
  ghost predicate WellFormed(c: Client) {
    c.cfg.Keys == c.db.Keys && NoDup(c.iaList) && Listed(c) &&
    (forall i :: i in c.db ==> i in c.iaList && c.db[i].iaid == i && c.db[i].iface == c.cfg[i].iface) &&
    (forall f :: f in c.ifaces ==> Hosts(f, c.cfg)) && Covered(c.ifaces, c.cfg.Keys)
  }

  /** An interface lists IAs of its own, each once. */
  predicate Hosts(f: CfgIface, cfg: map<Iaid, CfgIA>) {
    NoDup(f.ias) && (f.noConfig ==> f.ias == []) && forall i :: i in f.ias ==> i in cfg && cfg[i].iface == f.id
  }

  ghost predicate Covered(ifaces: seq<CfgIface>, ids: set<Iaid>) {
    forall i :: i in ids ==> exists f :: f in ifaces && i in f.ias
  }

  /** A live transaction's IAs are configured, on its interface; those of a RENEW or REBIND are
      not being discovered. */
  predicate Placed(cfg: map<Iaid, CfgIA>, t: Trans) {
    !t.done ==>
      forall i :: i in t.ias ==>
        i in cfg && cfg[i].iface == t.iface &&
        (t.kind == Renew || t.kind == Rebind ==> cfg[i].state != InProcess)
  }

  predicate AllPlaced(cfg: map<Iaid, CfgIA>, trans: seq<Trans>) {
    forall k :: 0 <= k < |trans| ==> Placed(cfg, trans[k])
  }

  /** An IA has at most one holder; one that is to be discovered has none, one in discovery has one. */
  predicate Exclusive(c: Client, i: Iaid) {
    Holders(c.trans, i) <= 1 &&
    (i in c.cfg && c.cfg[i].state == NotConfigured ==> Holders(c.trans, i) == 0) &&
    (i in c.cfg && c.cfg[i].state == InProcess ==> Holders(c.trans, i) == 1)
  }

  /** An IA that is CONFIGURED in the database, so that it may be renewed, has no holder. */
  predicate Idle(c: Client, i: Iaid) {
    i in c.db && c.db[i].state == Configured ==> Holders(c.trans, i) == 0
  }

  ghost predicate Core(c: Client) {
    AllPlaced(c.cfg, c.trans) && forall i :: Exclusive(c, i)
  }

  ghost predicate AllIdle(c: Client) {
    forall i :: Idle(c, i)
  }

  ghost predicate Owned(c: Client) {
    WellFormed(c) && Core(c) && AllIdle(c)
  }

  /** No two live transactions hold the same IA. */
  lemma DistinctHolders(c: Client, j: nat, k: nat, i: Iaid)
    requires Core(c) && j < k < |c.trans| && !c.trans[j].done && !c.trans[k].done
    ensures !(i in c.trans[j].ias && i in c.trans[k].ias)
  {
    var t := c.trans[j].(done := true);
    HoldersUpdate(c.trans, j, t, i);
    HoldersUpdate(c.trans[j := t], k, t, i);
    assert c.trans[j := t][k] == c.trans[k];
    assert Exclusive(c, i);
  }

  lemma {:induction false} OccursNoDup(s: seq<Iaid>)
    requires forall x :: Occurs(s, x) <= 1
    ensures NoDup(s)
  {
    if s != [] {
      var n := |s| - 1;
      forall x
        ensures Occurs(s[..n], x) <= 1
      {
        assert Occurs(s, x) <= 1;
      }
      OccursNoDup(s[..n]);
      assert Occurs(s, s[n]) <= 1;
      assert s[n] !in s[..n];
      assert forall j :: 0 <= j < n ==> s[..n][j] == s[j];
    }
  }

  lemma {:induction false} NoDupOccurs(s: seq<Iaid>, x: Iaid)
    requires NoDup(s)
    ensures Occurs(s, x) == if x in s then 1 else 0
  {
    if s != [] {
      NoDupOccurs(s[..|s| - 1], x);
    }
  }

  // ---- transitions of single transactions ------------------------------------------------------------

  /** Only timers change. */
  lemma RetransmitKeeps(c: Client, k: nat, clk: Clock)
    requires Core(c) && k < |c.trans|
    ensures Core(Retransmit(c, k, clk))
    ensures AllIdle(c) ==> AllIdle(Retransmit(c, k, clk))
  {
    var r := Retransmit(c, k, clk);
    forall i
      ensures Holders(r.trans, i) == Holders(c.trans, i)
    {
      HoldersUpdate(c.trans, k, r.trans[k], i);
    }
    SameHolders(c, r);
  }

  lemma SameHolders(c: Client, r: Client)
    requires forall i :: Holders(r.trans, i) == Holders(c.trans, i)
    requires r.cfg == c.cfg && AllPlaced(r.cfg, r.trans)
    requires forall i :: i in r.db && r.db[i].state == Configured ==> i in c.db && c.db[i].state == Configured
    ensures Core(c) ==> Core(r)
    ensures AllIdle(c) ==> AllIdle(r)
  {
    forall i
      ensures Exclusive(c, i) ==> Exclusive(r, i)
      ensures Idle(c, i) ==> Idle(r, i)
    {
    }
    if Core(c) {
      forall i
        ensures Exclusive(r, i)
      {
        assert Exclusive(c, i);
      }
    }
    if AllIdle(c) {
      forall i
        ensures Idle(r, i)
      {
        assert Idle(c, i);
      }
    }
  }

  /** A sender hands its IAs to a new REQUEST and ends; without a server they are given back. */
  function HandOver(c: Client, k: nat, clk: Clock): Client
    requires k < |c.trans|
  {
    Finish(SendRequest(c, c.trans[k].ias, c.trans[k].iface, clk), k)
  }

  lemma SendRequestHolders(c: Client, ias: seq<Iaid>, iface: IfaceId, clk: Clock, i: Iaid)
    ensures var r := SendRequest(c, ias, iface, clk);
            |r.trans| == |c.trans| + 1 && r.trans[..|c.trans|] == c.trans &&
            Holders(r.trans, i) == Holders(c.trans, i) + if c.ads == [] then 0 else Occurs(ias, i)
  {
    var r := SendRequest(c, ias, iface, clk);
    HoldersSnoc(c.trans, r.trans[|c.trans|], i);
  }

  lemma FinishHolders(c: Client, k: nat, i: Iaid)
    requires k < |c.trans|
    ensures Holders(Finish(c, k).trans, i) == Others(c, k, i)
  {
    HoldersUpdate(c.trans, k, c.trans[k].(done := true), i);
  }

  lemma HandOverHolders(c: Client, k: nat, clk: Clock, i: Iaid)
    requires k < |c.trans| && !c.trans[k].done
    ensures Holders(HandOver(c, k, clk).trans, i) == if c.ads == [] then Others(c, k, i) else Holders(c.trans, i)
  {
    var s := SendRequest(c, c.trans[k].ias, c.trans[k].iface, clk);
    SendRequestHolders(c, c.trans[k].ias, c.trans[k].iface, clk, i);
    assert s.trans[k] == c.trans[k];
    FinishHolders(s, k, i);
  }

  lemma HandOverKeepsCore(c: Client, k: nat, clk: Clock)
    requires Core(c) && k < |c.trans| && !c.trans[k].done
    ensures Core(HandOver(c, k, clk))
  {
    var r, t := HandOver(c, k, clk), c.trans[k];
    forall i
      ensures Exclusive(r, i)
    {
      assert Exclusive(c, i);
      HandOverHolders(c, k, clk, i);
      HoldersUpdate(c.trans, k, t, i);
    }
  }

  lemma HandOverKeepsIdle(c: Client, k: nat, clk: Clock)
    requires AllIdle(c) && k < |c.trans| && !c.trans[k].done
    ensures AllIdle(HandOver(c, k, clk))
  {
    var r := HandOver(c, k, clk);
    forall i
      ensures Idle(r, i)
    {
      assert Idle(c, i);
      HandOverHolders(c, k, clk, i);
    }
  }

  /** A RENEW whose time is up becomes a REBIND for the same IAs. */
  lemma RebindKeeps(c: Client, k: nat, clk: Clock)
    requires Core(c) && AllIdle(c) && k < |c.trans| && !c.trans[k].done && c.trans[k].kind == Renew
    ensures var r := Finish(SendRebind(c, c.trans[k].ias, c.trans[k].iface, clk), k);
            Core(r) && AllIdle(r)
  {
    var r := Finish(SendRebind(c, c.trans[k].ias, c.trans[k].iface, clk), k);
    forall i
      ensures Holders(r.trans, i) == Holders(c.trans, i)
    {
      RebindHolders(c, k, clk, i);
    }
    assert Placed(c.cfg, c.trans[k]);
    SameHolders(c, r);
  }

  lemma RebindHolders(c: Client, k: nat, clk: Clock, i: Iaid)
    requires k < |c.trans| && !c.trans[k].done
    ensures Holders(Finish(SendRebind(c, c.trans[k].ias, c.trans[k].iface, clk), k).trans, i) == Holders(c.trans, i)
  {
    var s := SendRebind(c, c.trans[k].ias, c.trans[k].iface, clk);
    HoldersSnoc(c.trans, s.trans[|c.trans|], i);
    assert s.trans[k] == c.trans[k];
    FinishHolders(s, k, i);
  }

  lemma {:induction false} ReleaseAllStates(c: Client, ias: seq<Iaid>, i: Iaid)
    ensures var r := ReleaseAll(c, ias);
            (i in r.cfg ==> r.cfg[i] == if i in ias && i in c.db then c.cfg[i].(state := NotConfigured) else c.cfg[i]) &&
            (i in r.db ==> r.db[i].state == (if i in ias then NotConfigured else c.db[i].state) &&
                           r.db[i].iaid == c.db[i].iaid && r.db[i].iface == c.db[i].iface)
  {
    if ias != [] {
      ReleaseAllStates(c, ias[..|ias| - 1], i);
    }
  }

  /** A REBIND whose time is up gives its IAs back. */
  lemma ReleaseKeeps(c: Client, k: nat)
    requires WellFormed(c) && Core(c) && AllIdle(c) && k < |c.trans| && !c.trans[k].done
    ensures var r := Finish(ReleaseAll(c, c.trans[k].ias), k);
            Core(r) && AllIdle(r)
  {
    var t := c.trans[k];
    var r := Finish(ReleaseAll(c, t.ias), k);
    forall i
      ensures Exclusive(r, i) && Idle(r, i)
    {
      assert Exclusive(c, i) && Idle(c, i);
      ReleaseAllStates(c, t.ias, i);
      FinishHolders(ReleaseAll(c, t.ias), k, i);
    }
    forall j | 0 <= j < |r.trans|
      ensures Placed(r.cfg, r.trans[j])
    {
      assert Placed(c.cfg, c.trans[j]);
      forall i | i in r.trans[j].ias
        ensures i in c.cfg ==> i in r.cfg && r.cfg[i].iface == c.cfg[i].iface &&
                               (c.cfg[i].state != InProcess ==> r.cfg[i].state != InProcess)
      {
        ReleaseAllStates(c, t.ias, i);
      }
    }
  }

  /** A release leaves the IAs it does not name alone. */
  lemma {:induction false} ReleaseAllOthers(c: Client, ias: seq<Iaid>, i: Iaid)
    requires i !in ias
    ensures var r := ReleaseAll(c, ias);
            (i in r.cfg ==> r.cfg[i] == c.cfg[i]) && (i in r.db ==> r.db[i] == c.db[i])
  {
    if ias != [] {
      ReleaseAllOthers(c, ias[..|ias| - 1], i);
    }
  }

  lemma ShapeKeepsWellFormed(c: Client, r: Client)
    requires WellFormed(c) && SameShape(c, r)
    requires forall i :: i in r.cfg ==> r.cfg[i].iface == c.cfg[i].iface
    requires forall i :: i in r.db ==> r.db[i].iaid == c.db[i].iaid && r.db[i].iface == c.db[i].iface
    ensures WellFormed(r)
  {
  }

  lemma ReleaseKeepsWellFormed(c: Client, k: nat)
    requires WellFormed(c) && k < |c.trans|
    ensures WellFormed(Finish(ReleaseAll(c, c.trans[k].ias), k))
  {
    var r := Finish(ReleaseAll(c, c.trans[k].ias), k);
    forall i
      ensures i in r.cfg ==> r.cfg[i].iface == c.cfg[i].iface
      ensures i in r.db ==> r.db[i].iaid == c.db[i].iaid && r.db[i].iface == c.db[i].iface
    {
      ReleaseAllStates(c, c.trans[k].ias, i);
    }
    ShapeKeepsWellFormed(c, r);
  }

  lemma HandOverKeepsWellFormed(c: Client, k: nat, clk: Clock)
    requires WellFormed(c) && k < |c.trans|
    ensures WellFormed(HandOver(c, k, clk))
  {
    ShapeKeepsWellFormed(c, HandOver(c, k, clk));
  }

  lemma OnlyTransactionsChange(c: Client, r: Client)
    requires WellFormed(c) && SameShape(c, r) && r.cfg == c.cfg && r.db == c.db
    ensures WellFormed(r)
  {
  }

  /** `doDuties` of any message keeps the invariant. */
  lemma DutiesKeep(c: Client, k: nat, clk: Clock)
    requires Owned(c) && k < |c.trans| && !c.trans[k].done
    ensures Owned(Duties(c, k, clk))
  {
    var t, r := c.trans[k], Duties(c, k, clk);
    if r == Retransmit(c, k, clk) {
      RetransmitKeeps(c, k, clk);
      OnlyTransactionsChange(c, r);
    } else if t.kind == Solicit || t.kind == Request {
      HandOverKeepsCore(c, k, clk);
      HandOverKeepsIdle(c, k, clk);
      HandOverKeepsWellFormed(c, k, clk);
    } else if t.kind == Renew {
      RebindKeeps(c, k, clk);
      OnlyTransactionsChange(c, r);
    } else {
      ReleaseKeeps(c, k);
      ReleaseKeepsWellFormed(c, k);
    }
  }

  lemma VisitKeeps(c: Client, k: nat, clk: Clock)
    requires Owned(c) && k < |c.trans|
    ensures Owned(if Due(c.trans[k], clk.now) then Duties(c, k, clk) else c)
  {
    if Due(c.trans[k], clk.now) {
      DutiesKeep(c, k, clk);
    }
  }

  lemma {:induction false} DutiesFromKeep(c: Client, k: nat, n: nat, clk: Clock) returns (end: Client)
    requires Owned(c) && k <= n <= |c.trans|
    ensures end == DutiesFrom(c, k, n, clk) && Owned(end)
    decreases n - k
  {
    if k == n {
      end := c;
    } else {
      VisitKeeps(c, k, clk);
      end := DutiesFromKeep(if Due(c.trans[k], clk.now) then Duties(c, k, clk) else c, k + 1, n, clk);
    }
  }

  lemma PurgeKeeps(c: Client)
    requires Owned(c)
    ensures Owned(Purge(c)) && NoneDone(Purge(c).trans)
  {
    var r := Purge(c);
    forall i
      ensures Holders(r.trans, i) == Holders(c.trans, i)
    {
      HoldersPurge(c.trans, i);
    }
    forall k | 0 <= k < |r.trans|
      ensures Placed(r.cfg, r.trans[k]) && !r.trans[k].done
    {
      assert r.trans[k] in r.trans;
      assert r.trans[k] in c.trans;
    }
    SameHolders(c, r);
  }

  lemma ExpiryKeeps(c: Client, now: nat)
    requires Owned(c)
    ensures Owned(ExpireDb(RemoveExpired(c, now), now))
  {
    SameHolders(c, ExpireDb(RemoveExpired(c, now), now));
  }

  /** No configured IA is waiting to be discovered. */
  predicate NoneWaits(cfg: map<Iaid, CfgIA>) {
    forall i :: i in cfg ==> cfg[i].state != NotConfigured
  }

  // ---- new discoveries and renewals --------------------------------------------------------------------

  /** A SOLICIT is started only for IAs that no transaction holds, and then holds them. */
  lemma SolicitKeeps(c: Client, f: CfgIface, clk: Clock)
    requires Owned(c) && f in c.ifaces
    ensures Owned(SolicitOn(c, f, clk))
  {
    if !f.noConfig && NotConfiguredIAs(c, f) != [] {
      SolicitKeepsHolders(c, f, clk);
      SolicitKeepsWellFormed(c, f, NotConfiguredIAs(c, f), clk);
    }
  }

  lemma SolicitKeepsWellFormed(c: Client, f: CfgIface, ias: seq<Iaid>, clk: Clock)
    requires WellFormed(c)
    ensures WellFormed(StartSolicit(c, f, ias, clk))
  {
    ShapeKeepsWellFormed(c, StartSolicit(c, f, ias, clk));
  }

  lemma SolicitKeepsHolders(c: Client, f: CfgIface, clk: Clock)
    requires Owned(c) && f in c.ifaces
    ensures var r := StartSolicit(c, f, NotConfiguredIAs(c, f), clk);
            Core(r) && AllIdle(r)
  {
    SolicitPlaced(c, f, clk);
    forall i {
      SolicitHolders(c, f, clk, i);
    }
  }

  lemma SolicitHolders(c: Client, f: CfgIface, clk: Clock, i: Iaid)
    requires Hosts(f, c.cfg) && Exclusive(c, i) && Idle(c, i)
    ensures var r := StartSolicit(c, f, NotConfiguredIAs(c, f), clk);
            Exclusive(r, i) && Idle(r, i)
  {
    var ias := NotConfiguredIAs(c, f);
    var r := StartSolicit(c, f, ias, clk);
    FilterNoDup(f.ias, (i: Iaid) => i in c.cfg && c.cfg[i].state == NotConfigured);
    HoldersSnoc(c.trans, r.trans[|c.trans|], i);
    NoDupOccurs(ias, i);
  }

  lemma SolicitPlaced(c: Client, f: CfgIface, clk: Clock)
    requires Owned(c) && f in c.ifaces
    ensures AllPlaced(StartSolicit(c, f, NotConfiguredIAs(c, f), clk).cfg, StartSolicit(c, f, NotConfiguredIAs(c, f), clk).trans)
  {
    var ias := NotConfiguredIAs(c, f);
    var r := StartSolicit(c, f, ias, clk);
    forall k | 0 <= k < |r.trans|
      ensures Placed(r.cfg, r.trans[k])
    {
      if k < |c.trans| && !c.trans[k].done {
        assert Placed(c.cfg, c.trans[k]);
        forall i | i in c.trans[k].ias
          ensures i !in ias
        {
          assert Exclusive(c, i);
          HoldersUpdate(c.trans, k, c.trans[k], i);
        }
      }
    }
  }

  lemma {:induction false} CheckSolicitKeeps(c: Client, ifaces: seq<CfgIface>, clk: Clock)
    requires Owned(c) && forall f :: f in ifaces ==> f in c.ifaces
    ensures Owned(CheckSolicit(c, ifaces, clk))
  {
    if ifaces != [] {
      CheckSolicitKeeps(c, ifaces[..|ifaces| - 1], clk);
      SolicitKeeps(CheckSolicit(c, ifaces[..|ifaces| - 1], clk), ifaces[|ifaces| - 1], clk);
    }
  }

  /** After the check, no IA of the interfaces looked at is waiting to be discovered. */
  lemma {:induction false} CheckSolicitClears(c: Client, ifaces: seq<CfgIface>, clk: Clock, f: CfgIface, i: Iaid)
    requires forall f :: f in ifaces ==> Hosts(f, c.cfg)
    requires f in ifaces && i in f.ias && i in c.cfg
    ensures CheckSolicit(c, ifaces, clk).cfg[i].state != NotConfigured
  {
    var front, last := ifaces[..|ifaces| - 1], ifaces[|ifaces| - 1];
    CheckSolicitHosts(c, front, clk, last);
    SolicitClears(CheckSolicit(c, front, clk), last, clk, i);
    if f != last {
      CheckSolicitClears(c, front, clk, f, i);
    }
  }

  lemma {:induction false} CheckSolicitHosts(c: Client, ifaces: seq<CfgIface>, clk: Clock, f: CfgIface)
    requires Hosts(f, c.cfg)
    ensures Hosts(f, CheckSolicit(c, ifaces, clk).cfg)
  {
    if ifaces != [] {
      CheckSolicitHosts(c, ifaces[..|ifaces| - 1], clk, f);
    }
  }

  lemma AllDiscovered(c: Client, clk: Clock)
    requires Owned(c)
    ensures NoneWaits(CheckSolicit(c, c.ifaces, clk).cfg)
  {
    forall i | i in c.cfg
      ensures CheckSolicit(c, c.ifaces, clk).cfg[i].state != NotConfigured
    {
      var f :| f in c.ifaces && i in f.ias;
      assert Hosts(f, c.cfg);
      CheckSolicitClears(c, c.ifaces, clk, f, i);
    }
  }

  lemma SolicitClears(c: Client, f: CfgIface, clk: Clock, i: Iaid)
    requires i in c.cfg && Hosts(f, c.cfg)
    ensures i in SolicitOn(c, f, clk).cfg
    ensures c.cfg[i].state != NotConfigured ==> SolicitOn(c, f, clk).cfg[i].state != NotConfigured
    ensures i in f.ias ==> SolicitOn(c, f, clk).cfg[i].state != NotConfigured
  {
  }

  lemma {:induction false} PickedAreRenewable(db: map<Iaid, IA>, list: seq<Iaid>, now: nat, pending: set<Iaid>)
    requires NoDup(list) && forall i :: i in list ==> i in db
    ensures var p := Pick(db, list, now, pending);
            NoDup(p) &&
            forall i :: i in p ==> i in list && db[i].state == Configured && db[i].iface == db[p[0]].iface
  {
    if list != [] {
      PickedAreRenewable(db, list[..|list| - 1], now, pending);
    }
  }

  /** IAs that one RENEW may take. */
  predicate Renewable(db: map<Iaid, IA>, ias: seq<Iaid>) {
    ias != [] && NoDup(ias) && (forall i :: i in ias ==> i in db) &&
    forall i :: i in ias ==> db[i].state == Configured && db[i].iface == db[ias[0]].iface
  }

  lemma RenewPlaced(c: Client, ias: seq<Iaid>, clk: Clock)
    requires Owned(c) && Renewable(c.db, ias)
    ensures AllPlaced(StartRenew(c, ias, clk).cfg, StartRenew(c, ias, clk).trans)
  {
    var r := StartRenew(c, ias, clk);
    forall i | i in ias
      ensures c.cfg[i].state != InProcess
    {
      assert Exclusive(c, i) && Idle(c, i);
    }
    assert Placed(c.cfg, r.trans[|c.trans|]);
  }

  lemma RenewHolders(c: Client, ias: seq<Iaid>, clk: Clock, i: Iaid)
    requires Renewable(c.db, ias) && NoneWaits(c.cfg) && Exclusive(c, i) && Idle(c, i)
    requires i in ias ==> i in c.cfg
    ensures var r := StartRenew(c, ias, clk);
            Exclusive(r, i) && Idle(r, i)
  {
    HoldersSnoc(c.trans, StartRenew(c, ias, clk).trans[|c.trans|], i);
    NoDupOccurs(ias, i);
  }

  lemma StartRenewKeeps(c: Client, ias: seq<Iaid>, clk: Clock)
    requires Owned(c) && NoneWaits(c.cfg) && Renewable(c.db, ias)
    ensures Owned(StartRenew(c, ias, clk))
  {
    forall i
      ensures Exclusive(StartRenew(c, ias, clk), i) && Idle(StartRenew(c, ias, clk), i)
    {
      assert Exclusive(c, i) && Idle(c, i);
      RenewHolders(c, ias, clk, i);
    }
    RenewPlaced(c, ias, clk);
    ShapeKeepsWellFormed(c, StartRenew(c, ias, clk));
  }

  /** A RENEW is started only for IAs that no transaction holds, and then holds them. */
  lemma RenewKeeps(c: Client, pending: set<Iaid>, clk: Clock)
    requires Owned(c) && NoneWaits(c.cfg)
    ensures Owned(CheckRenew(c, pending, clk))
  {
    var ias := Pick(c.db, c.iaList, clk.now, pending);
    if T1Timeout(c.db, c.iaList, clk.now) == 0 && ias != [] {
      PickedAreRenewable(c.db, c.iaList, clk.now, pending);
      StartRenewKeeps(c, ias, clk);
    }
  }

  ghost predicate NoneDone(trans: seq<Trans>) {
    forall k :: 0 <= k < |trans| ==> !trans[k].done
  }

  lemma SettleKeeps(c: Client, clk: Clock)
    requires Owned(c)
    ensures Owned(Settle(c, clk)) && NoneDone(Settle(c, clk).trans)
  {
    var d := DutiesFromKeep(c, 0, |c.trans|, clk);
    PurgeKeeps(d);
    ExpiryKeeps(Purge(d), clk.now);
  }

  lemma CheckKeeps(c: Client, pending: set<Iaid>, clk: Clock)
    requires Owned(c)
    ensures Owned(Check(c, pending, clk)) && NoneWaits(Check(c, pending, clk).cfg)
  {
    CheckSolicitKeeps(c, c.ifaces, clk);
    AllDiscovered(c, clk);
    RenewKeeps(CheckSolicit(c, c.ifaces, clk), pending, clk);
  }

  lemma {:induction false} CheckSolicitNoneDone(c: Client, ifaces: seq<CfgIface>, clk: Clock)
    requires NoneDone(c.trans)
    ensures NoneDone(CheckSolicit(c, ifaces, clk).trans)
  {
    if ifaces != [] {
      CheckSolicitNoneDone(c, ifaces[..|ifaces| - 1], clk);
    }
  }

  lemma SettleNoneDone(c: Client, clk: Clock)
    requires Listed(c)
    ensures NoneDone(Settle(c, clk).trans)
  {
    var r := Settle(c, clk);
    forall k | 0 <= k < |r.trans|
      ensures !r.trans[k].done
    {
      assert r.trans[k] in r.trans;
    }
  }

  lemma RoundNoneDone(c: Client, pending: set<Iaid>, clk: Clock)
    requires Listed(c)
    ensures NoneDone(Round(c, pending, clk).trans)
  {
    SettleNoneDone(c, clk);
    CheckNoneDone(Settle(c, clk), pending, clk);
  }

  lemma CheckNoneDone(c: Client, pending: set<Iaid>, clk: Clock)
    requires Listed(c) && NoneDone(c.trans)
    ensures NoneDone(Check(c, pending, clk).trans)
  {
    CheckSolicitNoneDone(c, c.ifaces, clk);
  }

  /** One pass of the transaction manager keeps the invariant; afterwards no transaction is done
      and no configured IA is waiting to be discovered. */
  lemma RoundKeeps(c: Client, pending: set<Iaid>, clk: Clock)
    requires Owned(c)
    ensures var r := Round(c, pending, clk);
            Owned(r) && NoneDone(r.trans) && NoneWaits(r.cfg)
  {
    SettleKeeps(c, clk);
    CheckKeeps(Settle(c, clk), pending, clk);
    CheckNoneDone(Settle(c, clk), pending, clk);
  }
}
