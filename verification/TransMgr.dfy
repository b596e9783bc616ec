/**
  The transaction manager itself (ClntTransMgr/ClntTransMgr.cpp): its lists, its cursor loops and
  those of the message classes, each proved against the step functions of `Protocol`.
 */
module TransMgr {
  import opened DHCPConst
  import opened Containers
  import opened Leases
  import opened LeaseDb
  import opened Retransmission
  import opened Protocol

  // ---- loops over configuration and database ---------------------------------------------------------

  lemma Grow<T>(s: seq<T>, n: nat)
    requires n < |s|
    ensures s[..n + 1] == s[..n] + [s[n]] && s[..n + 1][..n] == s[..n] && s[..|s|] == s
  {
  }

  /** `setState` of a REQUEST without a server. */
  method GiveBack(cfg: map<Iaid, CfgIA>, ids: seq<Iaid>, iface: IfaceId) returns (r: map<Iaid, CfgIA>)
    ensures r == ResetCfg(cfg, ids, iface)
  {
    r := cfg;
    for n := 0 to |ids|
      invariant r == ResetCfg(cfg, ids[..n], iface)
    {
      Grow(ids, n);
      if ids[n] in r && r[ids[n]].iface == iface {
        r := r[ids[n] := r[ids[n]].(state := NotConfigured)];
      }
    }
    assert ids[..|ids|] == ids;
  }

  lemma MarkCfgMore(cfg: map<Iaid, CfgIA>, ids: seq<Iaid>, x: Iaid, s: EState)
    ensures var m := MarkCfg(cfg, ids, s);
            MarkCfg(cfg, ids + [x], s) == if x in m then m[x := m[x].(state := s)] else m
  {
  }

  lemma MarkDbMore(db: map<Iaid, IA>, ids: seq<Iaid>, x: Iaid, s: EState)
    ensures var m := MarkDb(db, ids, s);
            MarkDb(db, ids + [x], s) == if x in m then m[x := m[x].(state := s)] else m
  {
  }

  method MarkConfig(cfg: map<Iaid, CfgIA>, ids: seq<Iaid>, s: EState) returns (r: map<Iaid, CfgIA>)
    ensures r == MarkCfg(cfg, ids, s)
  {
    r := cfg;
    for n := 0 to |ids|
      invariant r == MarkCfg(cfg, ids[..n], s)
    {
      Grow(ids, n);
      MarkCfgMore(cfg, ids[..n], ids[n], s);
      if ids[n] in r {
        r := r[ids[n] := r[ids[n]].(state := s)];
      }
    }
    assert ids[..|ids|] == ids;
  }

  method MarkDatabase(db: map<Iaid, IA>, ids: seq<Iaid>, s: EState) returns (r: map<Iaid, IA>)
    ensures r == MarkDb(db, ids, s)
  {
    r := db;
    for n := 0 to |ids|
      invariant r == MarkDb(db, ids[..n], s)
    {
      Grow(ids, n);
      MarkDbMore(db, ids[..n], ids[n], s);
      if ids[n] in r {
        r := r[ids[n] := r[ids[n]].(state := s)];
      }
    }
    assert ids[..|ids|] == ids;
  }

  /** The collecting loop of `checkSolicit`. */
  method Waiting(cfg: map<Iaid, CfgIA>, ias: seq<Iaid>) returns (r: seq<Iaid>)
    ensures r == Filter(ias, (i: Iaid) => i in cfg && cfg[i].state == NotConfigured)
  {
    r := [];
    for n := 0 to |ias|
      invariant r == Filter(ias[..n], (i: Iaid) => i in cfg && cfg[i].state == NotConfigured)
    {
      Grow(ias, n);
      if ias[n] in cfg && cfg[ias[n]].state == NotConfigured {
        r := r + [ias[n]];
      }
    }
    assert ias[..|ias|] == ias;
  }

  /** The first loop of the REBIND constructor. */
  method LongestValid(db: map<Iaid, IA>, ias: seq<Iaid>, now: nat) returns (mrd: nat)
    ensures mrd == LongestLeft(db, ias, now)
  {
    mrd := 0;
    for n := 0 to |ias|
      invariant mrd == LongestLeft(db, ias[..n], now)
    {
      MaxOverSnoc(ias, n, (i: Iaid) => if i in db then IAMaxValidLeft(db[i], now) else 0);
      if ias[n] in db {
        var ia := new AddrIA.Load(db[ias[n]]);
        var ts := ia.GetMaxValidTimeout(now);
        if mrd < ts {
          mrd := ts;
        }
      }
    }
    assert ias[..|ias|] == ias;
  }

  // ---- expiry ------------------------------------------------------------------------------------------

  /** The least of what `f` gives for the listed IAs. */
  function LeastOf(db: map<Iaid, IA>, list: seq<Iaid>, f: IA -> nat): nat
    requires forall i :: i in list ==> i in db
  {
    if list == [] then ULONG_MAX else Min(LeastOf(db, list[..|list| - 1], f), f(db[list[|list| - 1]]))
  }

  lemma {:induction false} LeastIsBound(db: map<Iaid, IA>, list: seq<Iaid>, f: IA -> nat, i: Iaid)
    requires (forall i :: i in list ==> i in db) && i in list
    ensures LeastOf(db, list, f) <= f(db[i])
  {
    if i != list[|list| - 1] {
      LeastIsBound(db, list[..|list| - 1], f, i);
    }
  }

  /** The listed IA that is first to have the least value. */
  lemma {:induction false} LeastIsAttained(db: map<Iaid, IA>, list: seq<Iaid>, f: IA -> nat) returns (i: Iaid)
    requires (forall i :: i in list ==> i in db) && LeastOf(db, list, f) != ULONG_MAX
    ensures i in list && LeastOf(db, list, f) == f(db[i])
  {
    var front, last := list[..|list| - 1], list[|list| - 1];
    if LeastOf(db, list, f) == LeastOf(db, front, f) {
      i := LeastIsAttained(db, front, f);
    } else {
      i := last;
    }
  }

  /** `TAddrClient::getValidTimeout` */
  method GetValidTimeout(db: map<Iaid, IA>, list: seq<Iaid>, now: nat) returns (ts: nat)
    requires forall i :: i in list ==> i in db
    ensures ts == LeastOf(db, list, ia => IAValidLeft(ia, now))
  {
    ts := ULONG_MAX;
    for n := 0 to |list|
      invariant ts == LeastOf(db, list[..n], ia => IAValidLeft(ia, now))
    {
      Grow(list, n);
      var ia := new AddrIA.Load(db[list[n]]);
      var t := ia.GetValidTimeout(now);
      if ts > t {
        ts := t;
      }
    }
    assert list[..|list|] == list;
  }

  /** `removeExpired` may return early: while the shortest valid lifetime is not over, nothing is
      dead. */
  lemma {:induction false} NothingDead(db: map<Iaid, IA>, list: seq<Iaid>, now: nat)
    requires (forall i :: i in list ==> i in db) && LeastOf(db, list, ia => IAValidLeft(ia, now)) > 0
    ensures DeadAddrs(db, list, now) == multiset{}
  {
    if list != [] {
      NothingDead(db, list[..|list| - 1], now);
      NothingExpires(db[list[|list| - 1]], now);
    }
  }

  /** The inner loop of `removeExpired`. */
  method RemoveDead(ia: IA, now: nat, installed: Installed) returns (r: Installed)
    ensures r == installed - DeadTags(ia, now)
  {
    r := installed;
    for n := 0 to |ia.leases|
      invariant r == installed - DeadTags(ia.(leases := ia.leases[..n]), now)
    {
      Grow(ia.leases, n);
      var l := ia.leases[n];
      FilterSnoc(ia.leases[..n], l, l => !Alive(l, now));
      if ValidLeft(l, now) == 0 {
        TagsSnoc(ia.iface, Filter(ia.leases[..n], l => !Alive(l, now)), l);
        MinusMore(installed, DeadTags(ia.(leases := ia.leases[..n]), now), multiset{(ia.iface, l.addr)});
        r := r - multiset{(ia.iface, l.addr)};
      }
    }
    assert ia.leases[..|ia.leases|] == ia.leases;
  }

  lemma MinusMore<T>(a: multiset<T>, b: multiset<T>, c: multiset<T>)
    ensures a - (b + c) == (a - b) - c
  {
  }

  lemma DeadAddrsSnoc(db: map<Iaid, IA>, list: seq<Iaid>, n: nat, now: nat)
    requires n < |list| && forall i :: i in list ==> i in db
    ensures DeadAddrs(db, list[..n + 1], now) == DeadAddrs(db, list[..n], now) + DeadTags(db[list[n]], now)
  {
    Grow(list, n);
  }

  /** The loop body of `removeExpired`: an IA with no address to expire is passed over. */
  method RemoveIfDead(ia: IA, now: nat, installed: Installed) returns (r: Installed)
    ensures r == installed - DeadTags(ia, now)
  {
    var lst := new AddrIA.Load(ia);
    var t := lst.GetValidTimeout(now);
    if t > 0 {
      NothingExpires(ia, now);
      r := installed;
    } else {
      r := RemoveDead(ia, now, installed);
    }
  }

  /** `removeExpired` */
  method RemoveAllDead(db: map<Iaid, IA>, list: seq<Iaid>, now: nat, installed: Installed) returns (r: Installed)
    requires forall i :: i in list ==> i in db
    ensures r == installed - DeadAddrs(db, list, now)
  {
    var ts := GetValidTimeout(db, list, now);
    if ts > 0 {
      NothingDead(db, list, now);
      return installed;
    }
    r := installed;
    for n := 0 to |list|
      invariant r == installed - DeadAddrs(db, list[..n], now)
    {
      DeadAddrsSnoc(db, list, n, now);
      MinusMore(installed, DeadAddrs(db, list[..n], now), DeadTags(db[list[n]], now));
      r := RemoveIfDead(db[list[n]], now, r);
    }
    assert list[..|list|] == list;
  }

  /** The outer loop of `TClntAddrMgr::doDuties`. */
  method ExpireAll(db: map<Iaid, IA>, list: seq<Iaid>, now: nat) returns (r: map<Iaid, IA>)
    requires NoDup(list) && (forall i :: i in list ==> i in db) && SoundDb(db)
    ensures r == map i | i in db :: if i in list then Expired(db[i], now) else db[i]
  {
    r := db;
    for n := 0 to |list|
      invariant r == map i | i in db :: if i in list[..n] then Expired(db[i], now) else db[i]
    {
      Grow(list, n);
      assert list[n] !in list[..n];
      var ia := new AddrIA.Load(r[list[n]]);
      ia.Expire(now);
      r := r[list[n] := ia.View()];
    }
    assert list[..|list|] == list;
  }

  // ---- how long to sleep ---------------------------------------------------------------------------------

  const INACTIVE_MODE_INTERVAL: nat := 3

  function T1Of(ia: IA, now: nat): nat {
    if ia.state == Configured then T1Left(ia, now) else if ia.state == NotConfigured then 0 else ULONG_MAX
  }

  function T2Of(ia: IA, now: nat): nat {
    if ia.state == Configured then T2Left(ia, now) else ULONG_MAX
  }

  function PrefOf(ia: IA, now: nat): nat {
    if ia.state == Configured then IAPrefLeft(ia, now) else ULONG_MAX
  }

  /** `TAddrClient::getT2Timeout` */
  method GetT2Timeout(db: map<Iaid, IA>, list: seq<Iaid>, now: nat) returns (ts: nat)
    requires forall i :: i in list ==> i in db
    ensures ts == LeastOf(db, list, ia => T2Of(ia, now))
  {
    ts := ULONG_MAX;
    for n := 0 to |list|
      invariant ts == LeastOf(db, list[..n], ia => T2Of(ia, now))
      invariant ts <= ULONG_MAX
    {
      Grow(list, n);
      if db[list[n]].state != Configured {
        continue;
      }
      if ts > T2Left(db[list[n]], now) {
        ts := T2Left(db[list[n]], now);
      }
    }
    assert list[..|list|] == list;
  }

  /** `TAddrClient::getPrefTimeout` */
  method GetPrefTimeout(db: map<Iaid, IA>, list: seq<Iaid>, now: nat) returns (ts: nat)
    requires forall i :: i in list ==> i in db
    ensures ts == LeastOf(db, list, ia => PrefOf(ia, now))
  {
    ts := ULONG_MAX;
    for n := 0 to |list|
      invariant ts == LeastOf(db, list[..n], ia => PrefOf(ia, now))
      invariant ts <= ULONG_MAX
    {
      Grow(list, n);
      if db[list[n]].state != Configured {
        continue;
      }
      var t := IAPrefLeft(db[list[n]], now);
      if ts > t {
        ts := t;
      }
    }
    assert list[..|list|] == list;
  }

  /** What the sleep depends on besides the client: the time until duplicate address detection is
      over, until the options of an interface expire, and whether an interface is inactive. */
  datatype Outside = Outside(tentative: nat, options: nat, inactive: bool)

  /** The deadlines of one IA. */
  function Deadlines(ia: IA, now: nat): seq<nat> {
    [IAValidLeft(ia, now)] +
    (if ia.state == Configured then [T1Left(ia, now), T2Left(ia, now), IAPrefLeft(ia, now)] else []) +
    (if ia.state == NotConfigured then [0] else [])
  }

  /** Every moment the client has to wake up for. */
  ghost predicate Deadline(c: Client, out: Outside, now: nat, d: nat)
  {
    (exists i :: i in c.iaList && i in c.db && d in Deadlines(c.db[i], now)) ||
    (exists t :: t in c.trans && d == Timeout(t.timer, now)) ||
    d == out.tentative || d == out.options || (out.inactive && d == INACTIVE_MODE_INTERVAL)
  }

  /** `TClntAddrMgr::getTimeout` */
  function IATimeout(db: map<Iaid, IA>, list: seq<Iaid>, now: nat): nat
    requires forall i :: i in list ==> i in db
  {
    Min(Min(T1Timeout(db, list, now), LeastOf(db, list, ia => T2Of(ia, now))),
        Min(LeastOf(db, list, ia => PrefOf(ia, now)), LeastOf(db, list, ia => IAValidLeft(ia, now))))
  }

  /** The part of `getTimeout` for the transactions. */
  function MsgTimeout(trans: seq<Trans>, now: nat): nat {
    MinOver(trans, (t: Trans) => Timeout(t.timer, now), INFINITY)
  }

  lemma MsgTimeoutSnoc(trans: seq<Trans>, n: nat, now: nat)
    requires n < |trans|
    ensures MsgTimeout(trans[..n + 1], now) == Min(MsgTimeout(trans[..n], now), Timeout(trans[n].timer, now))
  {
    MinOverSnoc(trans, n, (t: Trans) => Timeout(t.timer, now), INFINITY);
  }

  /** The loop of `getTimeout` over the transactions. */
  method LeastTimeout(lst: Container<Trans>, now: nat) returns (t: nat)
    requires lst.Valid()
    modifies lst
    ensures lst.Valid() && lst.items == old(lst.items) && t == MsgTimeout(lst.items, now)
  {
    ghost var items := lst.items;
    t := INFINITY;
    lst.First();
    while true
      invariant lst.Valid() && lst.items == items && t == MsgTimeout(items[..lst.cursor], now)
      decreases |items| - lst.cursor
    {
      var msg := lst.Get();
      if msg.None? {
        break;
      }
      MsgTimeoutSnoc(items, lst.cursor - 1, now);
      if t > Timeout(msg.value.timer, now) {
        t := Timeout(msg.value.timer, now);
      }
    }
    assert items[..|items|] == items;
  }

  /** `getTimeout` while the client is not done. */
  function SleepTime(c: Client, out: Outside, now: nat): nat
    requires Listed(c)
  {
    var all := Min(Min(Min(IATimeout(c.db, c.iaList, now), out.tentative), out.options), MsgTimeout(c.trans, now));
    if out.inactive then Min(all, INACTIVE_MODE_INTERVAL) else all
  }

  lemma {:induction false} T1IsLeast(db: map<Iaid, IA>, list: seq<Iaid>, now: nat)
    requires forall i :: i in list ==> i in db
    ensures T1Timeout(db, list, now) == LeastOf(db, list, ia => T1Of(ia, now))
    ensures T1Timeout(db, list, now) <= ULONG_MAX
  {
    if list != [] {
      T1IsLeast(db, list[..|list| - 1], now);
    }
  }

  lemma InDeadlines(ia: IA, now: nat)
    ensures IAValidLeft(ia, now) in Deadlines(ia, now)
    ensures T1Of(ia, now) in Deadlines(ia, now) || T1Of(ia, now) == ULONG_MAX
    ensures T2Of(ia, now) in Deadlines(ia, now) || T2Of(ia, now) == ULONG_MAX
    ensures PrefOf(ia, now) in Deadlines(ia, now) || PrefOf(ia, now) == ULONG_MAX
  {
    var d := Deadlines(ia, now);
    assert d[0] == IAValidLeft(ia, now);
    if ia.state == Configured {
      assert d[1] == T1Left(ia, now) && d[2] == T2Left(ia, now) && d[3] == IAPrefLeft(ia, now);
    } else if ia.state == NotConfigured {
      assert d[1] == 0;
    }
  }

  lemma OnlyDeadlines(ia: IA, now: nat, d: nat)
    requires d in Deadlines(ia, now)
    ensures d == IAValidLeft(ia, now) || d == T1Of(ia, now) || d == T2Of(ia, now) || d == PrefOf(ia, now)
  {
  }

  lemma SleepBeforeIA(db: map<Iaid, IA>, list: seq<Iaid>, now: nat, i: Iaid, d: nat)
    requires (forall i :: i in list ==> i in db) && i in list && d in Deadlines(db[i], now)
    ensures IATimeout(db, list, now) <= d
  {
    OnlyDeadlines(db[i], now, d);
    T1IsLeast(db, list, now);
    LeastIsBound(db, list, ia => T1Of(ia, now), i);
    LeastIsBound(db, list, ia => T2Of(ia, now), i);
    LeastIsBound(db, list, ia => PrefOf(ia, now), i);
    LeastIsBound(db, list, ia => IAValidLeft(ia, now), i);
  }

  /** The sleep overshoots no deadline, and fits an unsigned 32-bit integer. */
  lemma SleepBeforeAll(c: Client, out: Outside, now: nat, d: nat)
    requires Listed(c) && Deadline(c, out, now, d)
    ensures SleepTime(c, out, now) <= d && SleepTime(c, out, now) <= INFINITY
  {
    if i :| i in c.iaList && i in c.db && d in Deadlines(c.db[i], now) {
      SleepBeforeIA(c.db, c.iaList, now, i, d);
    }
  }

  lemma IATimeoutIsDeadline(db: map<Iaid, IA>, list: seq<Iaid>, now: nat)
    requires (forall i :: i in list ==> i in db) && IATimeout(db, list, now) < ULONG_MAX
    ensures exists i :: i in list && IATimeout(db, list, now) in Deadlines(db[i], now)
  {
    T1IsLeast(db, list, now);
    var s := IATimeout(db, list, now);
    var i: Iaid;
    if s == T1Timeout(db, list, now) {
      i := LeastIsAttained(db, list, ia => T1Of(ia, now));
    } else if s == LeastOf(db, list, ia => T2Of(ia, now)) {
      i := LeastIsAttained(db, list, ia => T2Of(ia, now));
    } else if s == LeastOf(db, list, ia => PrefOf(ia, now)) {
      i := LeastIsAttained(db, list, ia => PrefOf(ia, now));
    } else {
      i := LeastIsAttained(db, list, ia => IAValidLeft(ia, now));
    }
    InDeadlines(db[i], now);
  }

  /** Nor does the client wake up for nothing: unless it sleeps for ever, it wakes at a deadline. */
  lemma SleepIsDeadline(c: Client, out: Outside, now: nat)
    requires Listed(c)
    ensures SleepTime(c, out, now) == INFINITY || Deadline(c, out, now, SleepTime(c, out, now))
  {
    if SleepTime(c, out, now) == IATimeout(c.db, c.iaList, now) < INFINITY {
      IATimeoutIsDeadline(c.db, c.iaList, now);
    }
  }

  // ---- renewal -------------------------------------------------------------------------------------------

  /** `TAddrClient::getT1Timeout` */
  method GetT1Timeout(db: map<Iaid, IA>, list: seq<Iaid>, now: nat) returns (ts: nat)
    requires forall i :: i in list ==> i in db
    ensures ts == T1Timeout(db, list, now)
  {
    ts := ULONG_MAX;
    for n := 0 to |list|
      invariant ts == T1Timeout(db, list[..n], now)
    {
      Grow(list, n);
      var ia := db[list[n]];
      if ia.state == Configured {
        if ts > T1Left(ia, now) {
          ts := T1Left(ia, now);
        }
      } else if ia.state == NotConfigured {
        ts := 0;
      }
    }
    assert list[..|list|] == list;
  }

  /** The collecting loop of `checkRenew`, which marks what it takes. */
  method PickForRenew(db: map<Iaid, IA>, list: seq<Iaid>, now: nat, pending: set<Iaid>)
    returns (picked: seq<Iaid>, r: map<Iaid, IA>)
    requires NoDup(list) && forall i :: i in list ==> i in db
    ensures picked == Pick(db, list, now, pending) && r == MarkDb(db, picked, InProcess)
  {
    picked, r := [], db;
    for n := 0 to |list|
      invariant picked == Pick(db, list[..n], now, pending)
      invariant r == MarkDb(db, picked, InProcess)
    {
      Grow(list, n);
      var ia := r[list[n]];
      assert list[n] !in list[..n] && ia == db[list[n]];
      assert picked != [] ==> picked[0] in list[..n];
      if T1Left(ia, now) != 0 || ia.state != Configured || ia.iaid in pending {
        continue;
      }
      if picked == [] ||
         (ia.iface == r[picked[0]].iface && SameServer(ia.server, r[picked[0]].server)) {
        MarkDbMore(db, picked, list[n], InProcess);
        picked := picked + [list[n]];
        r := r[list[n] := ia.(state := InProcess)];
      }
    }
    assert list[..|list|] == list;
  }

  /** `checkRenew` may return early: before T1 of every configured IA, none is to be renewed. */
  lemma {:induction false} NothingToRenew(db: map<Iaid, IA>, list: seq<Iaid>, now: nat, pending: set<Iaid>)
    requires (forall i :: i in list ==> i in db) && T1Timeout(db, list, now) > 0
    ensures Pick(db, list, now, pending) == []
    ensures forall i :: i in list && db[i].state == Configured ==> T1Left(db[i], now) > 0
  {
    if list != [] {
      NothingToRenew(db, list[..|list| - 1], now, pending);
    }
  }

  lemma SameServerClass(a: Option<Server>, b: Option<Server>, c: Option<Server>)
    ensures SameServer(a, a) && (SameServer(a, b) <==> SameServer(b, a))
    ensures SameServer(a, b) ==> (SameServer(a, c) <==> SameServer(b, c))
  {
  }

  /** A RENEW takes the first IA that needs one and, in order, every other that needs one on its
      interface from its server; it takes none only if none needs one. */
  lemma {:induction false} PickExact(db: map<Iaid, IA>, list: seq<Iaid>, now: nat, pending: set<Iaid>)
    requires forall i :: i in list ==> i in db
    ensures var p := Pick(db, list, now, pending);
            if p == [] then forall i :: i in list ==> !NeedsRenew(db[i], now, pending)
            else p[0] in list &&
                 p == Filter(list, (i: Iaid) => i in db && NeedsRenew(db[i], now, pending) && db[i].iface == db[p[0]].iface &&
                                                SameServer(db[i].server, db[p[0]].server))
  {
    if list != [] {
      var front, last := list[..|list| - 1], list[|list| - 1];
      PickExact(db, front, now, pending);
      var p := Pick(db, list, now, pending);
      if Pick(db, front, now, pending) == [] && p != [] {
        SameServerClass(db[last].server, None, None);
        FilterNone(front, (i: Iaid) => i in db && NeedsRenew(db[i], now, pending) && db[i].iface == db[p[0]].iface &&
                                       SameServer(db[i].server, db[p[0]].server));
      }
    }
  }

  /** `checkRenew` starts a RENEW exactly when some listed IA needs one. */
  lemma RenewStartedIff(c: Client, pending: set<Iaid>, clk: Clock)
    requires Listed(c)
    ensures |CheckRenew(c, pending, clk).trans| == |c.trans| + 1 <==>
            exists i :: i in c.iaList && NeedsRenew(c.db[i], clk.now, pending)
  {
    PickExact(c.db, c.iaList, clk.now, pending);
    if T1Timeout(c.db, c.iaList, clk.now) > 0 {
      NothingToRenew(c.db, c.iaList, clk.now, pending);
    }
  }

  // ---- received messages ----------------------------------------------------------------------------------

  lemma RemoveFirstAt(ids: seq<Iaid>, x: Iaid, k: nat)
    requires k < |ids| && ids[k] == x && forall j :: 0 <= j < k ==> ids[j] != x
    ensures RemoveFirst(ids, x) == ids[..k] + ids[k + 1..]
  {
    var n := |ids| - 1;
    if k < n {
      assert ids[..n][k] == x;
      RemoveFirstAt(ids[..n], x, k);
      assert ids[k + 1..] == ids[..n][k + 1..] + [ids[n]];
    } else {
      assert x !in ids[..n];
    }
  }

  lemma RemoveFirstNone(ids: seq<Iaid>, x: Iaid)
    requires x !in ids
    ensures RemoveFirst(ids, x) == ids
  {
  }

  /** The loop that takes a granted IA off the request. */
  method EraseIA(ids: seq<Iaid>, x: Iaid) returns (r: seq<Iaid>)
    ensures r == RemoveFirst(ids, x)
  {
    r := ids;
    for k := 0 to |ids|
      invariant r == ids && forall j :: 0 <= j < k ==> ids[j] != x
    {
      if ids[k] == x {
        RemoveFirstAt(ids, x, k);
        return ids[..k] + ids[k + 1..];
      }
    }
    RemoveFirstNone(ids, x);
  }

  lemma {:induction false} BeforeIs(ias: seq<RecvIA>, n: nat)
    requires n <= |ias| && forall j :: 0 <= j < n ==> ias[j].status != STATUS_NOBINDING
    requires n < |ias| ==> ias[n].status == STATUS_NOBINDING
    ensures BeforeNoBinding(ias) == ias[..n]
  {
    if n > 0 {
      BeforeIs(ias[1..], n - 1);
      assert ias[..n] == [ias[0]] + ias[1..][..n - 1];
    }
  }

  /** The message as parsed: invalid IA options are not put on the option list. */
  method ParseIAs(ias: seq<RecvIA>) returns (r: seq<RecvIA>)
    ensures r == Filter(ias, (x: RecvIA) => IsValid(x))
  {
    r := [];
    for n := 0 to |ias|
      invariant r == Filter(ias[..n], (x: RecvIA) => IsValid(x))
    {
      Grow(ias, n);
      if IsValid(ias[n]) {
        r := r + [ias[n]];
      }
    }
    assert ias[..|ias|] == ias;
  }

  lemma {:induction false} FirstXid(trans: seq<Trans>, xid: nat, k: nat)
    requires k < |trans| && trans[k].xid == xid && forall j :: 0 <= j < k ==> trans[j].xid != xid
    ensures FindXid(trans, xid) == k
  {
    if k < |trans| - 1 {
      FirstXid(trans[..|trans| - 1], xid, k);
    }
  }

  // ---- release -------------------------------------------------------------------------------------------

  /** The deleting loop of `TClntMsgRebind::releaseIA`: each deletion restarts the cursor. */
  method DropAll(ia: IA, installed: Installed) returns (r: IA, after: Installed)
    requires DistinctAddrs(ia.leases)
    ensures r == ia.(leases := [], state := NotConfigured) && after == installed - IATags(ia)
  {
    var obj := new AddrIA.Load(ia);
    after := installed;
    obj.addrLst.First();
    while true
      invariant obj.Valid() && fresh(obj) && fresh(obj.addrLst) && obj.addrLst.cursor == 0
      invariant DistinctAddrs(obj.addrLst.items) && obj.View() == ia.(leases := obj.addrLst.items)
      invariant after - multiset(Tags(ia.iface, obj.addrLst.items)) == installed - IATags(ia)
      decreases |obj.addrLst.items|
    {
      ghost var items := obj.addrLst.items;
      var l := obj.addrLst.Get();
      if l.None? {
        break;
      }
      IndexIsFirst(items, l.value.addr, 0);
      var _ := obj.DelAddr(l.value.addr);
      RemoveKeepsDistinct(items, 0);
      TagsRemoveAt(ia.iface, items, 0);
      MinusMore(after, multiset{(ia.iface, l.value.addr)}, multiset(Tags(ia.iface, obj.addrLst.items)));
      after := after - multiset{(ia.iface, l.value.addr)};
    }
    assert Tags(ia.iface, []) == [];
    obj.state := NotConfigured;
    r := obj.View();
  }

  /** The messages that are not done. */
  function NotDone(trans: seq<Trans>): seq<Trans> {
    Filter(trans, (t: Trans) => !t.done)
  }

  lemma NotDoneRemove(trans: seq<Trans>, k: nat)
    requires k < |trans| && trans[k].done
    ensures NotDone(RemoveAt(trans, k)) == NotDone(trans)
  {
    FilterRemoveAt(trans, k, (t: Trans) => !t.done);
  }

  lemma NotDoneAll(trans: seq<Trans>)
    requires forall j :: 0 <= j < |trans| ==> !trans[j].done
    ensures NotDone(trans) == trans
  {
    FilterAll(trans, (t: Trans) => !t.done);
  }

  /** The deleting loop of `doDuties`: each deletion restarts the cursor. */
  method KeepLive(lst: Container<Trans>)
    requires lst.Valid()
    modifies lst
    ensures lst.Valid() && lst.items == Filter(old(lst.items), (t: Trans) => !t.done)
  {
    ghost var live := NotDone(lst.items);
    lst.First();
    while true
      invariant lst.Valid() && NotDone(lst.items) == live
      invariant forall j :: 0 <= j < lst.cursor ==> !lst.items[j].done
      decreases |lst.items|, |lst.items| - lst.cursor
    {
      var msg := lst.Get();
      if msg.None? {
        break;
      }
      if msg.value.done {
        NotDoneRemove(lst.items, lst.cursor - 1);
        lst.Del();
      }
    }
    NotDoneAll(lst.items);
  }

  // ---- facts about the message loop ------------------------------------------------------------------

  lemma FirstNotDue(irt: nat, mrt: nat, mrc: nat, mrd: nat, clk: Clock)
    requires irt >= 1
    ensures Timeout(Transmit(NewTimer(irt, mrt, mrc, mrd, clk), clk), clk.now) > 0
  {
    TransmitKeepsRunning(NewTimer(irt, mrt, mrc, mrd, clk), clk);
  }

  /** What a message appends in its `doDuties` is not due at once. */
  lemma AppendedNotDue(c: Client, k: nat, clk: Clock)
    requires k < |c.trans|
    ensures var r := Duties(c, k, clk);
            |r.trans| == |c.trans| + 1 ==> !Due(r.trans[|c.trans|], clk.now)
  {
    var t := c.trans[k];
    if t.kind == Renew {
      FirstNotDue(10, 600, 0, LongestLeft(c.db, t.ias, clk.now), clk);
    } else {
      FirstNotDue(1, 30, REQ_MAX_RC, 0, clk);
    }
  }

  /** It appends at most one message and leaves the others alone. */
  lemma OthersLeftAlone(c: Client, k: nat, clk: Clock)
    requires k < |c.trans|
    ensures var r := Duties(c, k, clk);
            |c.trans| <= |r.trans| <= |c.trans| + 1 &&
            forall j :: 0 <= j < |c.trans| && j != k ==> r.trans[j] == c.trans[j]
  {
    var t, r := c.trans[k], Duties(c, k, clk);
    if r == Retransmit(c, k, clk) {
      assert r.trans == c.trans[k := r.trans[k]];
    } else if t.kind == Rebind {
      assert r.trans == c.trans[k := t.(done := true)];
    } else {
      assert r.trans == (c.trans + [r.trans[|c.trans|]])[k := t.(done := true)];
    }
  }

  lemma NoneNewlyDue(c: Client, k: nat, n: nat, clk: Clock)
    requires k < n <= |c.trans|
    requires forall j :: n <= j < |c.trans| ==> !Due(c.trans[j], clk.now)
    ensures forall j :: n <= j < |Duties(c, k, clk).trans| ==> !Due(Duties(c, k, clk).trans[j], clk.now)
  {
    AppendedNotDue(c, k, clk);
    OthersLeftAlone(c, k, clk);
    TailNotDue(c.trans, Duties(c, k, clk).trans, k, n, clk.now);
  }

  lemma TailNotDue(before: seq<Trans>, after: seq<Trans>, k: nat, n: nat, now: nat)
    requires k < n <= |before| <= |after| <= |before| + 1
    requires forall j :: 0 <= j < |before| && j != k ==> after[j] == before[j]
    requires |after| == |before| + 1 ==> !Due(after[|before|], now)
    requires forall j :: n <= j < |before| ==> !Due(before[j], now)
    ensures forall j :: n <= j < |after| ==> !Due(after[j], now)
  {
  }
}
