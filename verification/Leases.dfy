/**
  Identity associations and their leased addresses (AddrMgr/AddrAddr.cpp, AddrMgr/AddrIA.cpp)
  as values, and what a received IA option or the passing of time does to them
  (ClntOptions/ClntOptIA_NA.cpp, ClntAddrMgr/ClntAddrMgr.cpp).
 */
module Leases {
  import opened DHCPConst
  import opened Containers

  type Iaid = nat
  type IfaceId = nat
  type Ip = nat

  const ULONG_MAX: nat := 0xffff_ffff_ffff_ffff
  const STATUS_SUCCESS: nat := 0
  const STATUS_NOBINDING: nat := 3

  datatype EState = NotConfigured | InProcess | Configured | Failed | Disabled | ConfirmMe

  /** A server: the identity of the DUID object and the DUID itself. */
  datatype Server = Server(handle: nat, duid: nat)

  /** A leased address with its lifetimes and the time of the last refresh. */
  datatype Lease = Lease(addr: Ip, pref: nat, valid: nat, stamp: nat)

  datatype IA = IA(iaid: Iaid, iface: IfaceId, state: EState, t1: nat, t2: nat, stamp: nat,
                   server: Option<Server>, leases: seq<Lease>)

  /** The addresses that the client has put on interfaces and not taken off again. */
  type Installed = multiset<(IfaceId, Ip)>

  // ---- time ------------------------------------------------------------------------------------

  /** Time left of a lifetime; a sum beyond unsigned long wraps and counts as infinite. */
  function TimeLeft(stamp: nat, life: nat, now: nat): nat {
    var ts := if stamp + life > ULONG_MAX then stamp + life - (ULONG_MAX + 1) else stamp + life;
    if ts < stamp then INFINITY
    else if ts > now then ts - now
    else 0
  }

  /** The sum of stamp and lifetime is one of unsigned 64-bit numbers. */
  lemma TimeLeftWraps(stamp: nat, life: nat, now: nat)
    requires stamp <= ULONG_MAX && life <= ULONG_MAX
    ensures var end := (stamp + life) % 0x1_0000_0000_0000_0000;
            TimeLeft(stamp, life, now) == if end < stamp then 0xffff_ffff else if end <= now then 0 else end - now
  {
  }

  function ValidLeft(l: Lease, now: nat): nat { TimeLeft(l.stamp, l.valid, now) }
  function PrefLeft(l: Lease, now: nat): nat { TimeLeft(l.stamp, l.pref, now) }
  function T1Left(ia: IA, now: nat): nat { TimeLeft(ia.stamp, ia.t1, now) }
  function T2Left(ia: IA, now: nat): nat { TimeLeft(ia.stamp, ia.t2, now) }

  predicate Alive(l: Lease, now: nat) { ValidLeft(l, now) > 0 }

  function Min(a: nat, b: nat): nat { if a <= b then a else b }
  function Max(a: nat, b: nat): nat { if a >= b then a else b }

  /** The least of `start` and what `f` gives for the elements of `s`. */
  function MinOver<T>(s: seq<T>, f: T -> nat, start: nat): (m: nat)
    ensures m <= start && forall x | x in s :: m <= f(x)
    ensures m == start || exists x :: x in s && m == f(x)
  {
    if s == [] then start
    else
      var rest := MinOver(s[..|s| - 1], f, start);
      assert s == s[..|s| - 1] + [s[|s| - 1]];
      Min(rest, f(s[|s| - 1]))
  }

  function MaxOver<T>(s: seq<T>, f: T -> nat): (m: nat)
    ensures forall x | x in s :: f(x) <= m
    ensures m == 0 || exists x :: x in s && m == f(x)
  {
    if s == [] then 0
    else
      assert s == s[..|s| - 1] + [s[|s| - 1]];
      Max(MaxOver(s[..|s| - 1], f), f(s[|s| - 1]))
  }

  lemma MinOverSnoc<T>(s: seq<T>, n: nat, f: T -> nat, start: nat)
    requires n < |s|
    ensures MinOver(s[..n + 1], f, start) == Min(MinOver(s[..n], f, start), f(s[n]))
  {
    assert s[..n + 1][..n] == s[..n];
  }

  lemma MaxOverSnoc<T>(s: seq<T>, n: nat, f: T -> nat)
    requires n < |s|
    ensures MaxOver(s[..n + 1], f) == Max(MaxOver(s[..n], f), f(s[n]))
  {
    assert s[..n + 1][..n] == s[..n];
  }

  /** The least, and the greatest, time that is left of a valid lifetime. */
  function LeastValid(leases: seq<Lease>, now: nat): nat { MinOver(leases, l => ValidLeft(l, now), ULONG_MAX) }
  function GreatestValid(leases: seq<Lease>, now: nat): nat { MaxOver(leases, l => ValidLeft(l, now)) }

  lemma LeastValidSnoc(leases: seq<Lease>, n: nat, now: nat)
    requires n < |leases|
    ensures LeastValid(leases[..n + 1], now) == Min(LeastValid(leases[..n], now), ValidLeft(leases[n], now))
  {
    MinOverSnoc(leases, n, l => ValidLeft(l, now), ULONG_MAX);
  }

  lemma GreatestValidSnoc(leases: seq<Lease>, n: nat, now: nat)
    requires n < |leases|
    ensures GreatestValid(leases[..n + 1], now) == Max(GreatestValid(leases[..n], now), ValidLeft(leases[n], now))
  {
    MaxOverSnoc(leases, n, l => ValidLeft(l, now));
  }

  function IAValidLeft(ia: IA, now: nat): nat { LeastValid(ia.leases, now) }
  function IAPrefLeft(ia: IA, now: nat): nat { MinOver(ia.leases, l => PrefLeft(l, now), ULONG_MAX) }
  function IAMaxValidLeft(ia: IA, now: nat): nat { GreatestValid(ia.leases, now) }

  // ---- the address list ----------------------------------------------------------------------------

  /** Index of the first lease of `addr`, or -1. */
  function IndexOf(leases: seq<Lease>, addr: Ip): (k: int)
    ensures -1 <= k < |leases|
    ensures k >= 0 ==> leases[k].addr == addr
    ensures k < 0 ==> forall j :: 0 <= j < |leases| ==> leases[j].addr != addr
  {
    if leases == [] then -1
    else
      var k := IndexOf(leases[..|leases| - 1], addr);
      if k >= 0 then k else if leases[|leases| - 1].addr == addr then |leases| - 1 else -1
  }

  predicate DistinctAddrs(leases: seq<Lease>) {
    forall i, j :: 0 <= i < j < |leases| ==> leases[i].addr != leases[j].addr
  }

  /** The leases as interface addresses. */
  function Tags(iface: IfaceId, leases: seq<Lease>): seq<(IfaceId, Ip)> {
    seq(|leases|, i requires 0 <= i < |leases| => (iface, leases[i].addr))
  }

  function IATags(ia: IA): Installed {
    multiset(Tags(ia.iface, ia.leases))
  }

  lemma TagsSnoc(iface: IfaceId, leases: seq<Lease>, l: Lease)
    ensures multiset(Tags(iface, leases + [l])) == multiset(Tags(iface, leases)) + multiset{(iface, l.addr)}
  {
    assert Tags(iface, leases + [l]) == Tags(iface, leases) + [(iface, l.addr)];
  }

  lemma TagsRemoveAt(iface: IfaceId, leases: seq<Lease>, k: nat)
    requires k < |leases|
    ensures multiset(Tags(iface, leases)) ==
            multiset(Tags(iface, RemoveAt(leases, k))) + multiset{(iface, leases[k].addr)}
  {
    var all := Tags(iface, leases);
    assert Tags(iface, RemoveAt(leases, k)) == RemoveAt(all, k);
    RemoveAtCount(all, k);
    assert all[k] in multiset(all);
  }

  lemma TagsUpdate(iface: IfaceId, leases: seq<Lease>, k: nat, l: Lease)
    requires k < |leases| && l.addr == leases[k].addr
    ensures Tags(iface, leases[k := l]) == Tags(iface, leases)
  {
  }

  // ---- merging a received IA -------------------------------------------------------------------

  datatype RecvAddr = RecvAddr(addr: Ip, pref: nat, valid: nat)
  datatype RecvIA = RecvIA(iaid: Iaid, t1: nat, t2: nat, status: nat, addrs: seq<RecvAddr>)

  /** Where the merge stands: the address list, the interfaces, and whether any address was new. */
  datatype Merge = Merge(leases: seq<Lease>, installed: Installed, added: bool)

  /** One received address. An address that is on the list and comes with a zero valid lifetime
      is removed, and ends the merge (`last`). */
  datatype MergeStep = MergeStep(after: Merge, last: bool)

  function MergeAddr(m: Merge, a: RecvAddr, iface: IfaceId, now: nat): MergeStep {
    var k := IndexOf(m.leases, a.addr);
    if k < 0 then
      if a.valid == 0 then MergeStep(m, false)
      else MergeStep(Merge(m.leases + [Lease(a.addr, a.pref, a.valid, now)],
                           m.installed + multiset{(iface, a.addr)}, true), false)
    else if a.valid == 0 then
      MergeStep(Merge(RemoveAt(m.leases, k), m.installed - multiset{(iface, a.addr)}, m.added), true)
    else
      MergeStep(m.(leases := m.leases[k := Lease(a.addr, a.pref, a.valid, now)]), false)
  }

  function MergeAddrs(m: Merge, recv: seq<RecvAddr>, iface: IfaceId, now: nat): Merge
    decreases |recv|
  {
    if recv == [] then m
    else
      var step := MergeAddr(m, recv[0], iface, now);
      if step.last then step.after else MergeAddrs(step.after, recv[1..], iface, now)
  }

  /** `setTimestamp` on every address. */
  function Stamped(leases: seq<Lease>, now: nat): seq<Lease> {
    seq(|leases|, i requires 0 <= i < |leases| => leases[i].(stamp := now))
  }

  /** T1 and T2 of the option when both are set, else from the first address, else unchanged. */
  function NewT1(ia: IA, r: RecvIA): nat {
    if r.t1 != 0 && r.t2 != 0 then r.t1 else if r.addrs != [] then r.addrs[0].pref / 2 else ia.t1
  }

  function NewT2(ia: IA, r: RecvIA): nat {
    if r.t1 != 0 && r.t2 != 0 then r.t2 else if r.addrs != [] then r.addrs[0].pref * 7 / 10 else ia.t2
  }

  /** What `TClntOptIA_NA::doDuties` leaves of the IA it finds, given how the addresses merged. */
  function Merged(ia: IA, r: RecvIA, m: Merge, server: Option<Server>, now: nat): IA {
    IA(ia.iaid, ia.iface, Configured, NewT1(ia, r), NewT2(ia, r), now,
       if m.added then server else ia.server, Stamped(m.leases, now))
  }

  /** A link-local address starts with the octets fe 80. */
  predicate LinkLocal(a: Ip) {
    a / 0x1_0000_0000_0000_0000_0000_0000_0000 == 0xfe80
  }

  /** Received IAs that are not discarded when parsed (`isValid`): no link-local address, and T1
      does not exceed T2. */
  predicate IsValid(r: RecvIA) {
    (forall a :: a in r.addrs ==> !LinkLocal(a.addr)) && r.t1 <= r.t2
  }

  /** What every IA in the database keeps: distinct addresses, and T1 before T2. */
  predicate Sound(ia: IA) {
    DistinctAddrs(ia.leases) && ia.t1 <= ia.t2
  }

  // ---- expiry ----------------------------------------------------------------------------------

  /** `TClntAddrMgr::doDuties` on one IA: dead leases go, and with them the CONFIGURED state. */
  function Expired(ia: IA, now: nat): IA {
    var alive := Filter(ia.leases, l => Alive(l, now));
    ia.(leases := alive, state := if |alive| < |ia.leases| then NotConfigured else ia.state)
  }

  function DeadTags(ia: IA, now: nat): Installed {
    multiset(Tags(ia.iface, Filter(ia.leases, l => !Alive(l, now))))
  }

  // ---- lemmas ----------------------------------------------------------------------------------

  /** One received address keeps lists and interfaces in step, when they are the IA's own. */
  lemma MergeAddrBalanced(m: Merge, a: RecvAddr, iface: IfaceId, now: nat, others: Installed)
    requires m.installed == others + multiset(Tags(iface, m.leases))
    ensures var r := MergeAddr(m, a, iface, now).after;
            r.installed == others + multiset(Tags(iface, r.leases))
  {
    var k := IndexOf(m.leases, a.addr);
    var tag := (iface, a.addr);
    var before := multiset(Tags(iface, m.leases));
    if k < 0 {
      if a.valid != 0 {
        TagsSnoc(iface, m.leases, Lease(a.addr, a.pref, a.valid, now));
        AddBalanced(m.installed, others, before, tag);
      }
    } else if a.valid == 0 {
      TagsRemoveAt(iface, m.leases, k);
      RemoveBalanced(m.installed, others, multiset(Tags(iface, RemoveAt(m.leases, k))), tag);
    } else {
      TagsUpdate(iface, m.leases, k, Lease(a.addr, a.pref, a.valid, now));
    }
  }

  lemma AddBalanced<T>(all: multiset<T>, others: multiset<T>, mine: multiset<T>, x: T)
    requires all == others + mine
    ensures all + multiset{x} == others + (mine + multiset{x})
  {
  }

  lemma RemoveBalanced<T>(all: multiset<T>, others: multiset<T>, mine: multiset<T>, x: T)
    requires all == others + (mine + multiset{x})
    ensures all - multiset{x} == others + mine
  {
  }

  lemma {:induction false} MergeBalanced(m: Merge, recv: seq<RecvAddr>, iface: IfaceId, now: nat, others: Installed)
    requires m.installed == others + multiset(Tags(iface, m.leases))
    ensures var r := MergeAddrs(m, recv, iface, now);
            r.installed == others + multiset(Tags(iface, r.leases))
    decreases |recv|
  {
    if recv != [] {
      MergeAddrBalanced(m, recv[0], iface, now, others);
      var step := MergeAddr(m, recv[0], iface, now);
      if !step.last {
        MergeBalanced(step.after, recv[1..], iface, now, others);
      }
    }
  }

  lemma MergeAddrKeepsDistinct(m: Merge, a: RecvAddr, iface: IfaceId, now: nat)
    requires DistinctAddrs(m.leases)
    ensures DistinctAddrs(MergeAddr(m, a, iface, now).after.leases)
  {
  }

  lemma {:induction false} MergeKeepsDistinct(m: Merge, recv: seq<RecvAddr>, iface: IfaceId, now: nat)
    requires DistinctAddrs(m.leases)
    ensures DistinctAddrs(MergeAddrs(m, recv, iface, now).leases)
    decreases |recv|
  {
    if recv != [] {
      var step := MergeAddr(m, recv[0], iface, now);
      MergeAddrKeepsDistinct(m, recv[0], iface, now);
      if !step.last {
        MergeKeepsDistinct(step.after, recv[1..], iface, now);
      }
    }
  }

  lemma MergedIsSound(ia: IA, r: RecvIA, installed: Installed, iface: IfaceId, server: Option<Server>, now: nat)
    requires Sound(ia) && IsValid(r)
    ensures Sound(Merged(ia, r, MergeAddrs(Merge(ia.leases, installed, false), r.addrs, iface, now), server, now))
  {
    MergeKeepsDistinct(Merge(ia.leases, installed, false), r.addrs, iface, now);
  }

  lemma StampedTags(iface: IfaceId, leases: seq<Lease>, now: nat)
    ensures Tags(iface, Stamped(leases, now)) == Tags(iface, leases)
  {
  }

  lemma MergedTags(ia: IA, r: RecvIA, m: Merge, server: Option<Server>, now: nat)
    ensures IATags(Merged(ia, r, m, server, now)) == multiset(Tags(ia.iface, m.leases))
  {
    StampedTags(ia.iface, m.leases, now);
  }

  lemma {:induction false} TagsSplit(iface: IfaceId, leases: seq<Lease>, keep: Lease -> bool, drop: Lease -> bool)
    requires forall l :: drop(l) <==> !keep(l)
    ensures multiset(Tags(iface, leases)) ==
            multiset(Tags(iface, Filter(leases, keep))) + multiset(Tags(iface, Filter(leases, drop)))
  {
    if leases != [] {
      var front, last := leases[..|leases| - 1], leases[|leases| - 1];
      TagsSplit(iface, front, keep, drop);
      TagsSnoc(iface, front, last);
      assert leases == front + [last];
      FilterSnoc(front, last, keep);
      FilterSnoc(front, last, drop);
      TagsSnoc(iface, Filter(front, keep), last);
      TagsSnoc(iface, Filter(front, drop), last);
    }
  }

  /** Expiry takes exactly the dead leases. */
  lemma ExpiredTags(ia: IA, now: nat)
    ensures IATags(ia) == IATags(Expired(ia, now)) + DeadTags(ia, now)
  {
    TagsSplit(ia.iface, ia.leases, l => Alive(l, now), l => !Alive(l, now));
  }

  lemma {:induction false} FilterDistinct(leases: seq<Lease>, keep: Lease -> bool)
    requires DistinctAddrs(leases)
    ensures DistinctAddrs(Filter(leases, keep))
  {
    if leases != [] {
      var front, last := leases[..|leases| - 1], leases[|leases| - 1];
      FilterDistinct(front, keep);
      forall l | l in front
        ensures l.addr != last.addr
      {
        var i :| 0 <= i < |front| && front[i] == l;
        assert leases[i] == l && leases[|leases| - 1] == last;
      }
    }
  }

  lemma ExpiredIsSound(ia: IA, now: nat)
    requires Sound(ia)
    ensures Sound(Expired(ia, now))
  {
    FilterDistinct(ia.leases, l => Alive(l, now));
  }

  /** If the IA's shortest valid lifetime is not over, nothing expires. */
  lemma NothingExpires(ia: IA, now: nat)
    requires IAValidLeft(ia, now) > 0
    ensures Expired(ia, now) == ia && DeadTags(ia, now) == multiset{}
  {
    FilterAll(ia.leases, l => Alive(l, now));
    FilterNone(ia.leases, l => !Alive(l, now));
    assert Tags(ia.iface, []) == [];
  }

  // ---- the merge as an update of a finite map ----------------------------------------------------

  ghost predicate Represents(leases: seq<Lease>, m: map<Ip, Lease>) {
    (forall l :: l in leases ==> l.addr in m && m[l.addr] == l) &&
    (forall x :: x in m ==> m[x] in leases && m[x].addr == x)
  }

  /** The address list as a map. */
  function Known(leases: seq<Lease>): map<Ip, Lease> {
    if leases == [] then map[] else Known(leases[..|leases| - 1])[leases[|leases| - 1].addr := leases[|leases| - 1]]
  }

  lemma {:induction false} KnownRepresents(leases: seq<Lease>)
    requires DistinctAddrs(leases)
    ensures Represents(leases, Known(leases))
  {
    if leases != [] {
      var front, last := leases[..|leases| - 1], leases[|leases| - 1];
      KnownRepresents(front);
      assert leases == front + [last];
      forall l | l in front
        ensures l.addr != last.addr
      {
        var i :| 0 <= i < |front| && front[i] == l;
        assert leases[i] == l && leases[|leases| - 1] == last;
      }
      RepresentsNew(front, Known(front), last);
    }
  }

  /** The reference meaning of a received IA: later addresses win, a zero valid lifetime is
      ignored for an unknown address and otherwise removes the address and ends the processing. */
  function MergeMap(m: map<Ip, Lease>, recv: seq<RecvAddr>, now: nat): map<Ip, Lease>
    decreases |recv|
  {
    if recv == [] then m
    else
      var a := recv[0];
      if a.valid != 0 then MergeMap(m[a.addr := Lease(a.addr, a.pref, a.valid, now)], recv[1..], now)
      else if a.addr in m then m - {a.addr}
      else MergeMap(m, recv[1..], now)
  }

  lemma MergeAddrAsMap(m: Merge, a: RecvAddr, iface: IfaceId, now: nat, reference: map<Ip, Lease>)
    requires DistinctAddrs(m.leases) && Represents(m.leases, reference)
    ensures var step := MergeAddr(m, a, iface, now);
            (step.last <==> a.valid == 0 && a.addr in reference) &&
            Represents(step.after.leases,
                       if step.last then reference - {a.addr}
                       else if a.valid == 0 then reference
                       else reference[a.addr := Lease(a.addr, a.pref, a.valid, now)])
  {
    var k := IndexOf(m.leases, a.addr);
    assert a.addr in reference ==> reference[a.addr] in m.leases && reference[a.addr].addr == a.addr;
    if k >= 0 {
      assert m.leases[k] in m.leases;
      if a.valid == 0 {
        RepresentsRemoval(m.leases, reference, k);
      } else {
        RepresentsUpdate(m.leases, reference, k, Lease(a.addr, a.pref, a.valid, now));
      }
    } else if a.valid != 0 {
      RepresentsNew(m.leases, reference, Lease(a.addr, a.pref, a.valid, now));
    }
  }

  lemma RepresentsRemoval(leases: seq<Lease>, reference: map<Ip, Lease>, k: nat)
    requires DistinctAddrs(leases) && Represents(leases, reference) && k < |leases|
    ensures Represents(RemoveAt(leases, k), reference - {leases[k].addr})
  {
    RemoveAtMembers(leases, k);
  }

  lemma RepresentsUpdate(leases: seq<Lease>, reference: map<Ip, Lease>, k: nat, x: Lease)
    requires DistinctAddrs(leases) && Represents(leases, reference) && k < |leases| && x.addr == leases[k].addr
    ensures Represents(leases[k := x], reference[x.addr := x])
  {
    UpdateMembers(leases, k, x);
  }

  lemma RepresentsNew(leases: seq<Lease>, reference: map<Ip, Lease>, x: Lease)
    requires Represents(leases, reference) && x.addr !in reference
    ensures Represents(leases + [x], reference[x.addr := x])
  {
  }

  lemma RemoveAtMembers(leases: seq<Lease>, k: nat)
    requires k < |leases| && DistinctAddrs(leases)
    ensures forall l :: l in RemoveAt(leases, k) <==> l in leases && l.addr != leases[k].addr
  {
    var r := RemoveAt(leases, k);
    forall l | l in leases && l.addr != leases[k].addr
      ensures l in r
    {
      var i :| 0 <= i < |leases| && leases[i] == l;
      assert r[if i < k then i else i - 1] == l;
    }
    forall l | l in r
      ensures l in leases && l.addr != leases[k].addr
    {
      var i :| 0 <= i < |r| && r[i] == l;
      assert leases[if i < k then i else i + 1] == l;
    }
  }

  lemma UpdateMembers(leases: seq<Lease>, k: nat, x: Lease)
    requires k < |leases| && DistinctAddrs(leases) && x.addr == leases[k].addr
    ensures forall l :: l in leases[k := x] <==> l == x || (l in leases && l.addr != x.addr)
  {
    var r := leases[k := x];
    forall l | l in leases && l.addr != x.addr
      ensures l in r
    {
      var i :| 0 <= i < |leases| && leases[i] == l;
      assert r[i] == l;
    }
    assert r[k] == x;
  }

  lemma {:induction false} MergeRefinesMap(m: Merge, recv: seq<RecvAddr>, iface: IfaceId, now: nat, reference: map<Ip, Lease>)
    requires DistinctAddrs(m.leases) && Represents(m.leases, reference)
    ensures Represents(MergeAddrs(m, recv, iface, now).leases, MergeMap(reference, recv, now))
    decreases |recv|
  {
    if recv != [] {
      var a := recv[0];
      MergeAddrAsMap(m, a, iface, now, reference);
      MergeKeepsDistinct(m, [a], iface, now);
      var step := MergeAddr(m, a, iface, now);
      if !step.last {
        assert MergeAddrs(m, [a], iface, now) == step.after;
        MergeRefinesMap(step.after, recv[1..], iface, now,
                        if a.valid == 0 then reference
                        else reference[a.addr := Lease(a.addr, a.pref, a.valid, now)]);
      }
    }
  }
}
