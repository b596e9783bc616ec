/**
  The lease database and the interfaces agree: the addresses the client has put on interfaces are,
  with multiplicity, those of the IAs in the database.
 */
module Agreement {
  import opened Containers
  import opened Leases
  import opened Retransmission
  import opened Protocol
  import opened Ownership

  type Tag = (IfaceId, Ip)

  /** How many of the listed IAs' leases are for address `x.1` on interface `x.0`. */
  function Leased(db: map<Iaid, IA>, list: seq<Iaid>, x: Tag): nat
    requires forall i :: i in list ==> i in db
  {
    if list == [] then 0 else Leased(db, list[..|list| - 1], x) + IATags(db[list[|list| - 1]])[x]
  }

  ghost predicate Agrees(c: Client)
    requires Listed(c)
  {
    forall x :: c.installed[x] == Leased(c.db, c.iaList, x)
  }

  lemma {:induction false} LeasedSame(before: map<Iaid, IA>, after: map<Iaid, IA>, list: seq<Iaid>, x: Tag)
    requires forall i :: i in list ==> i in before && i in after && IATags(after[i])[x] == IATags(before[i])[x]
    ensures Leased(after, list, x) == Leased(before, list, x)
  {
    if list != [] {
      LeasedSame(before, after, list[..|list| - 1], x);
    }
  }

  /** Replacing one IA trades its leases. */
  lemma {:induction false} LeasedUpdate(db: map<Iaid, IA>, list: seq<Iaid>, i: Iaid, ia: IA, x: Tag)
    requires (forall j :: j in list ==> j in db) && NoDup(list) && i in list
    ensures Leased(db[i := ia], list, x) + IATags(db[i])[x] == Leased(db, list, x) + IATags(ia)[x]
    ensures IATags(db[i])[x] <= Leased(db, list, x)
  {
    var front, last := list[..|list| - 1], list[|list| - 1];
    if last == i {
      assert i !in front;
      LeasedSame(db, db[i := ia], front, x);
    } else {
      LeasedUpdate(db, front, i, ia, x);
    }
  }

  lemma {:induction false} NothingLeased(db: map<Iaid, IA>, list: seq<Iaid>, x: Tag)
    requires forall i :: i in list ==> i in db && db[i].leases == []
    ensures Leased(db, list, x) == 0
  {
    if list != [] {
      NothingLeased(db, list[..|list| - 1], x);
      assert Tags(db[list[|list| - 1]].iface, []) == [];
    }
  }

  // ---- steps that touch neither leases nor interfaces --------------------------------------------------

  predicate SameLeases(c: Client, r: Client) {
    SameShape(c, r) && r.installed == c.installed &&
    forall i :: i in c.db ==> r.db[i] == c.db[i].(state := r.db[i].state)
  }

  lemma SameLeasesKeep(c: Client, r: Client)
    requires Listed(c) && SameLeases(c, r)
    ensures Agrees(r) <==> Agrees(c)
  {
    forall x
      ensures Leased(r.db, r.iaList, x) == Leased(c.db, c.iaList, x)
    {
      LeasedSame(c.db, r.db, c.iaList, x);
    }
  }

  lemma {:induction false} CheckSolicitSame(c: Client, ifaces: seq<CfgIface>, clk: Clock)
    ensures SameLeases(c, CheckSolicit(c, ifaces, clk))
  {
    if ifaces != [] {
      CheckSolicitSame(c, ifaces[..|ifaces| - 1], clk);
      SolicitSame(CheckSolicit(c, ifaces[..|ifaces| - 1], clk), ifaces[|ifaces| - 1], clk);
      SameLeasesTransitive(c, CheckSolicit(c, ifaces[..|ifaces| - 1], clk), CheckSolicit(c, ifaces, clk));
    }
  }

  lemma SolicitSame(c: Client, f: CfgIface, clk: Clock)
    ensures SameLeases(c, SolicitOn(c, f, clk))
  {
    var ias := NotConfiguredIAs(c, f);
    if !f.noConfig && ias != [] {
      StartSolicitSame(c, f, ias, clk);
    }
  }

  lemma StartSolicitSame(c: Client, f: CfgIface, ias: seq<Iaid>, clk: Clock)
    ensures SameLeases(c, StartSolicit(c, f, ias, clk))
  {
  }

  lemma SameLeasesTransitive(a: Client, b: Client, c: Client)
    requires SameLeases(a, b) && SameLeases(b, c)
    ensures SameLeases(a, c)
  {
  }

  lemma CheckSame(c: Client, pending: set<Iaid>, clk: Clock)
    requires Listed(c)
    ensures SameLeases(c, Check(c, pending, clk))
  {
    CheckSolicitSame(c, c.ifaces, clk);
  }

  // ---- release -------------------------------------------------------------------------------------------

  /** The database lists every IA it has, once. */
  ghost predicate Indexed(c: Client) {
    Listed(c) && NoDup(c.iaList) && forall i :: i in c.db ==> i in c.iaList
  }

  lemma ReleaseAgrees(c: Client, i: Iaid)
    requires Indexed(c) && Agrees(c)
    ensures Agrees(ReleaseIA(c, i))
  {
    var r := ReleaseIA(c, i);
    if i in c.db {
      forall x
        ensures r.installed[x] == Leased(r.db, r.iaList, x)
      {
        LeasedUpdate(c.db, c.iaList, i, r.db[i], x);
        assert Tags(r.db[i].iface, []) == [];
      }
    }
  }

  lemma {:induction false} ReleaseAllAgrees(c: Client, ias: seq<Iaid>)
    requires Indexed(c) && Agrees(c)
    ensures Agrees(ReleaseAll(c, ias))
  {
    if ias != [] {
      ReleaseAllAgrees(c, ias[..|ias| - 1]);
      ReleaseAgrees(ReleaseAll(c, ias[..|ias| - 1]), ias[|ias| - 1]);
    }
  }

  lemma HandOverSame(c: Client, k: nat, clk: Clock)
    requires k < |c.trans|
    ensures SameLeases(c, HandOver(c, k, clk))
  {
  }

  lemma DutiesAgree(c: Client, k: nat, clk: Clock)
    requires Indexed(c) && Agrees(c) && k < |c.trans|
    ensures Agrees(Duties(c, k, clk))
  {
    var t := c.trans[k];
    if t.kind == Rebind && t.timer.mrd == 0 {
      ReleaseAllAgrees(c, t.ias);
      SameLeasesKeep(ReleaseAll(c, t.ias), Duties(c, k, clk));
    } else if t.kind == Solicit || t.kind == Request {
      HandOverSame(c, k, clk);
      SameLeasesKeep(c, Duties(c, k, clk));
    } else {
      SameLeasesKeep(c, Duties(c, k, clk));
    }
  }

  lemma VisitAgrees(c: Client, k: nat, clk: Clock)
    requires Indexed(c) && Agrees(c) && k < |c.trans|
    ensures var r := if Due(c.trans[k], clk.now) then Duties(c, k, clk) else c;
            Indexed(r) && Agrees(r)
  {
    if Due(c.trans[k], clk.now) {
      DutiesAgree(c, k, clk);
    }
  }

  lemma {:induction false} DutiesFromAgree(c: Client, k: nat, n: nat, clk: Clock) returns (end: Client)
    requires Indexed(c) && Agrees(c) && k <= n <= |c.trans|
    ensures end == DutiesFrom(c, k, n, clk) && Listed(end) && Agrees(end)
    decreases n - k
  {
    if k == n {
      end := c;
    } else {
      VisitAgrees(c, k, clk);
      end := DutiesFromAgree(if Due(c.trans[k], clk.now) then Duties(c, k, clk) else c, k + 1, n, clk);
    }
  }

  // ---- expiry ----------------------------------------------------------------------------------------------

  /** The database loses exactly what the interfaces lose. */
  lemma {:induction false} LeasedExpired(before: map<Iaid, IA>, after: map<Iaid, IA>, list: seq<Iaid>, now: nat, x: Tag)
    requires forall i :: i in list ==> i in before && i in after && after[i] == Expired(before[i], now)
    ensures Leased(before, list, x) == Leased(after, list, x) + DeadAddrs(before, list, now)[x]
  {
    if list != [] {
      LeasedExpired(before, after, list[..|list| - 1], now, x);
      ExpiredTags(before[list[|list| - 1]], now);
    }
  }

  /** `removeExpired` and the expiry of the database at the same instant keep the agreement. */
  lemma ExpiryAgrees(c: Client, now: nat)
    requires Listed(c) && Agrees(c)
    ensures Agrees(ExpireDb(RemoveExpired(c, now), now))
  {
    var r := ExpireDb(RemoveExpired(c, now), now);
    forall x
      ensures r.installed[x] == Leased(r.db, r.iaList, x)
    {
      LeasedExpired(c.db, r.db, c.iaList, now, x);
    }
  }

  /** One pass of the transaction manager keeps the agreement. */
  lemma RoundAgrees(c: Client, pending: set<Iaid>, clk: Clock)
    requires Indexed(c) && Agrees(c)
    ensures Agrees(Round(c, pending, clk))
  {
    var d := DutiesFromAgree(c, 0, |c.trans|, clk);
    SameLeasesKeep(d, Purge(d));
    ExpiryAgrees(Purge(d), clk.now);
    CheckSame(Settle(c, clk), pending, clk);
    SameLeasesKeep(Settle(c, clk), Round(c, pending, clk));
  }

  // ---- one received IA -------------------------------------------------------------------------------------

  lemma TagsElsewhere(iface: IfaceId, leases: seq<Lease>, x: Tag)
    requires x.0 != iface
    ensures multiset(Tags(iface, leases))[x] == 0
  {
  }

  /** Only the interface of the message is touched. */
  lemma {:induction false} MergeElsewhere(m: Merge, recv: seq<RecvAddr>, iface: IfaceId, now: nat, x: Tag)
    requires x.0 != iface
    ensures MergeAddrs(m, recv, iface, now).installed[x] == m.installed[x]
    decreases |recv|
  {
    if recv != [] {
      var step := MergeAddr(m, recv[0], iface, now);
      if !step.last {
        MergeElsewhere(step.after, recv[1..], iface, now, x);
      }
    }
  }

  /** The leases of before are still there, and what was added since is on the interface. */
  ghost predicate Extends(before: seq<Lease>, m: Merge, iface: IfaceId, base: Installed) {
    |before| <= |m.leases| && DistinctAddrs(m.leases) &&
    (forall k :: 0 <= k < |before| ==> m.leases[k].addr == before[k].addr) &&
    m.installed == base + multiset(Tags(iface, m.leases[|before|..]))
  }

  /** An address of before is gone, or the number of leases tells whether the interface changed. */
  ghost predicate Settled(before: seq<Lease>, m: Merge, base: Installed) {
    (exists k :: 0 <= k < |before| && forall l :: l in m.leases ==> l.addr != before[k].addr) ||
    (|m.leases| == |before| ==> m.installed == base)
  }

  lemma AddExtends(before: seq<Lease>, m: Merge, l: Lease, iface: IfaceId, base: Installed)
    requires Extends(before, m, iface, base) && forall x :: x in m.leases ==> x.addr != l.addr
    ensures Extends(before, Merge(m.leases + [l], m.installed + multiset{(iface, l.addr)}, true), iface, base)
  {
    assert (m.leases + [l])[|before|..] == m.leases[|before|..] + [l];
    TagsSnoc(iface, m.leases[|before|..], l);
  }

  lemma RefreshExtends(before: seq<Lease>, m: Merge, k: nat, l: Lease, iface: IfaceId, base: Installed)
    requires Extends(before, m, iface, base) && k < |m.leases| && l.addr == m.leases[k].addr
    ensures Extends(before, m.(leases := m.leases[k := l]), iface, base)
  {
    assert Tags(iface, m.leases[k := l][|before|..]) == Tags(iface, m.leases[|before|..]);
  }

  lemma RemoveSettles(before: seq<Lease>, m: Merge, k: nat, iface: IfaceId, base: Installed)
    requires Extends(before, m, iface, base) && k < |m.leases|
    ensures Settled(before, Merge(RemoveAt(m.leases, k), m.installed - multiset{(iface, m.leases[k].addr)}, m.added), base)
  {
    RemoveAtMembers(m.leases, k);
    if k >= |before| && |m.leases| == |before| + 1 {
      assert Tags(iface, m.leases[|before|..]) == [(iface, m.leases[k].addr)];
    }
  }

  lemma ExtendsSettled(before: seq<Lease>, m: Merge, iface: IfaceId, base: Installed)
    requires Extends(before, m, iface, base)
    ensures Settled(before, m, base)
  {
    if |m.leases| == |before| {
      assert Tags(iface, m.leases[|before|..]) == [];
    }
  }

  lemma {:induction false} MergeSettles(before: seq<Lease>, m: Merge, recv: seq<RecvAddr>, iface: IfaceId, now: nat, base: Installed)
    requires Extends(before, m, iface, base)
    ensures Settled(before, MergeAddrs(m, recv, iface, now), base)
    decreases |recv|
  {
    if recv == [] {
      ExtendsSettled(before, m, iface, base);
    } else {
      var a, step := recv[0], MergeAddr(m, recv[0], iface, now);
      var k := IndexOf(m.leases, a.addr);
      if k >= 0 && a.valid == 0 {
        RemoveSettles(before, m, k, iface, base);
      } else {
        StepExtends(before, m, a, iface, now, base);
        MergeSettles(before, step.after, recv[1..], iface, now, base);
      }
    }
  }

  lemma StepExtends(before: seq<Lease>, m: Merge, a: RecvAddr, iface: IfaceId, now: nat, base: Installed)
    requires Extends(before, m, iface, base) && !MergeAddr(m, a, iface, now).last
    ensures Extends(before, MergeAddr(m, a, iface, now).after, iface, base)
  {
    var k := IndexOf(m.leases, a.addr);
    if k >= 0 {
      RefreshExtends(before, m, k, Lease(a.addr, a.pref, a.valid, now), iface, base);
    } else if a.valid != 0 {
      AddExtends(before, m, Lease(a.addr, a.pref, a.valid, now), iface, base);
    }
  }

  /** If the addresses end as they began, the interfaces do, too. */
  lemma SameAddressesSameInterface(leases: seq<Lease>, installed: Installed, recv: seq<RecvAddr>, iface: IfaceId,
                                   home: IfaceId, now: nat)
    requires DistinctAddrs(leases)
    requires var r := MergeAddrs(Merge(leases, installed, false), recv, iface, now);
             multiset(Tags(home, r.leases)) == multiset(Tags(home, leases))
    ensures MergeAddrs(Merge(leases, installed, false), recv, iface, now).installed == installed
  {
    var m := Merge(leases, installed, false);
    var r := MergeAddrs(m, recv, iface, now);
    assert Tags(iface, leases[|leases|..]) == [];
    MergeSettles(leases, m, recv, iface, now, installed);
    forall k | 0 <= k < |leases| && forall l :: l in r.leases ==> l.addr != leases[k].addr
      ensures false
    {
      LostTag(leases, r.leases, k, home);
    }
    SameSize(Tags(home, r.leases), Tags(home, leases));
  }

  lemma LostTag(before: seq<Lease>, after: seq<Lease>, k: nat, home: IfaceId)
    requires k < |before| && forall l :: l in after ==> l.addr != before[k].addr
    ensures multiset(Tags(home, after)) != multiset(Tags(home, before))
  {
    assert Tags(home, before)[k] in multiset(Tags(home, before));
    assert (home, before[k].addr) !in Tags(home, after);
  }

  lemma SameSize<T>(a: seq<T>, b: seq<T>)
    requires multiset(a) == multiset(b)
    ensures |a| == |b|
  {
    assert |multiset(a)| == |multiset(b)|;
  }

  lemma OwnMergeBalance(c: Client, r: RecvIA, server: Option<Server>, now: nat, x: Tag)
    requires Indexed(c) && Agrees(c) && r.iaid in c.db
    ensures var after := MergeIA(c, r, c.db[r.iaid].iface, server, now);
            after.installed[x] + IATags(c.db[r.iaid])[x] == c.installed[x] + IATags(after.db[r.iaid])[x]
  {
    var ia := c.db[r.iaid];
    var mine := IATags(ia);
    forall y: Tag
      ensures mine[y] <= c.installed[y]
    {
      LeasedUpdate(c.db, c.iaList, r.iaid, ia, y);
    }
    var others := c.installed - mine;
    assert c.installed == others + mine;
    var m := MergeAddrs(Merge(ia.leases, c.installed, false), r.addrs, ia.iface, now);
    MergeBalanced(Merge(ia.leases, c.installed, false), r.addrs, ia.iface, now, others);
    MergedTags(ia, r, m, server, now);
  }

  /** A received IA on its own interface. */
  lemma OwnMergeAgrees(c: Client, r: RecvIA, server: Option<Server>, now: nat)
    requires Indexed(c) && Agrees(c) && r.iaid in c.db
    ensures Agrees(MergeIA(c, r, c.db[r.iaid].iface, server, now))
  {
    var after := MergeIA(c, r, c.db[r.iaid].iface, server, now);
    forall x
      ensures after.installed[x] == Leased(after.db, after.iaList, x)
    {
      OwnMergeBalance(c, r, server, now, x);
      LeasedUpdate(c.db, c.iaList, r.iaid, after.db[r.iaid], x);
    }
  }

  lemma ForeignMergeAgrees(c: Client, r: RecvIA, iface: IfaceId, server: Option<Server>, now: nat)
    requires Indexed(c) && Agrees(c) && SoundDb(c.db) && r.iaid in c.db
    requires IATags(MergeIA(c, r, iface, server, now).db[r.iaid]) == IATags(c.db[r.iaid])
    ensures Agrees(MergeIA(c, r, iface, server, now))
  {
    var ia, after := c.db[r.iaid], MergeIA(c, r, iface, server, now);
    var m := MergeAddrs(Merge(ia.leases, c.installed, false), r.addrs, iface, now);
    MergedTags(ia, r, m, server, now);
    SameAddressesSameInterface(ia.leases, c.installed, r.addrs, iface, ia.iface, now);
    forall x
      ensures Leased(after.db, after.iaList, x) == Leased(c.db, c.iaList, x)
    {
      LeasedUpdate(c.db, c.iaList, r.iaid, after.db[r.iaid], x);
    }
  }

  lemma AgreeingMergeIsNeutral(c: Client, r: RecvIA, iface: IfaceId, server: Option<Server>, now: nat)
    requires Indexed(c) && Agrees(c) && r.iaid in c.db && iface != c.db[r.iaid].iface
    requires Agrees(MergeIA(c, r, iface, server, now))
    ensures IATags(MergeIA(c, r, iface, server, now).db[r.iaid]) == IATags(c.db[r.iaid])
  {
    var ia, after := c.db[r.iaid], MergeIA(c, r, iface, server, now);
    forall x: Tag
      ensures IATags(after.db[r.iaid])[x] == IATags(ia)[x]
    {
      if x.0 == ia.iface {
        MergeElsewhere(Merge(ia.leases, c.installed, false), r.addrs, iface, now, x);
        LeasedUpdate(c.db, c.iaList, r.iaid, after.db[r.iaid], x);
      } else {
        TagsElsewhere(ia.iface, ia.leases, x);
        TagsElsewhere(ia.iface, after.db[r.iaid].leases, x);
      }
    }
  }

  lemma MergeAgreesIfSame(c: Client, r: RecvIA, iface: IfaceId, server: Option<Server>, now: nat)
    requires Indexed(c) && Agrees(c) && SoundDb(c.db) && r.iaid in c.db
    ensures var after := MergeIA(c, r, iface, server, now);
            Agrees(after) <==> iface == c.db[r.iaid].iface || IATags(after.db[r.iaid]) == IATags(c.db[r.iaid])
  {
    if iface == c.db[r.iaid].iface {
      OwnMergeAgrees(c, r, server, now);
    } else {
      if IATags(MergeIA(c, r, iface, server, now).db[r.iaid]) == IATags(c.db[r.iaid]) {
        ForeignMergeAgrees(c, r, iface, server, now);
      }
      if Agrees(MergeIA(c, r, iface, server, now)) {
        AgreeingMergeIsNeutral(c, r, iface, server, now);
      }
    }
  }

  lemma TagCount(home: IfaceId, leases: seq<Lease>, m: map<Ip, Lease>, x: Tag)
    requires DistinctAddrs(leases) && Represents(leases, m)
    ensures multiset(Tags(home, leases))[x] == if x.0 == home && x.1 in m then 1 else 0
  {
    var tags := Tags(home, leases);
    NoDupCount(tags, x);
    if x.0 == home && x.1 in m {
      var k :| 0 <= k < |leases| && leases[k] == m[x.1];
      assert tags[k] == x;
      assert x in multiset(tags);
    }
  }

  /** Two address lists put the same addresses on an interface exactly when they know the same. */
  lemma SameTagsIff(home: IfaceId, a: seq<Lease>, ma: map<Ip, Lease>, b: seq<Lease>, mb: map<Ip, Lease>)
    requires DistinctAddrs(a) && Represents(a, ma) && DistinctAddrs(b) && Represents(b, mb)
    ensures multiset(Tags(home, a)) == multiset(Tags(home, b)) <==> ma.Keys == mb.Keys
  {
    forall x: Tag
      ensures multiset(Tags(home, a))[x] == (if x.0 == home && x.1 in ma then 1 else 0)
      ensures multiset(Tags(home, b))[x] == (if x.0 == home && x.1 in mb then 1 else 0)
    {
      TagCount(home, a, ma, x);
      TagCount(home, b, mb, x);
    }
    if multiset(Tags(home, a)) == multiset(Tags(home, b)) {
      forall x: Ip
        ensures x in ma <==> x in mb
      {
        assert multiset(Tags(home, a))[(home, x)] == multiset(Tags(home, b))[(home, x)];
      }
    }
  }

  /** The message came for the interface of the IA, or its addresses, taken in order, leave the
      known ones as they were. */
  predicate Fits(ia: IA, r: RecvIA, iface: IfaceId, now: nat) {
    iface == ia.iface || MergeMap(Known(ia.leases), r.addrs, now).Keys == Known(ia.leases).Keys
  }

  /** Merging a received IA keeps database and interfaces in agreement exactly when it fits. */
  lemma MergeAgreesIff(c: Client, r: RecvIA, iface: IfaceId, server: Option<Server>, now: nat)
    requires Indexed(c) && Agrees(c) && SoundDb(c.db) && r.iaid in c.db
    ensures Agrees(MergeIA(c, r, iface, server, now)) <==> Fits(c.db[r.iaid], r, iface, now)
  {
    var ia := c.db[r.iaid];
    var start := Merge(ia.leases, c.installed, false);
    var m := MergeAddrs(start, r.addrs, iface, now);
    MergeAgreesIfSame(c, r, iface, server, now);
    MergedTags(ia, r, m, server, now);
    KnownRepresents(ia.leases);
    MergeRefinesMap(start, r.addrs, iface, now, Known(ia.leases));
    MergeKeepsDistinct(start, r.addrs, iface, now);
    SameTagsIff(ia.iface, m.leases, MergeMap(Known(ia.leases), r.addrs, now), ia.leases, Known(ia.leases));
  }
}
