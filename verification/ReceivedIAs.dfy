/**
  What a received IA makes of the IA in the database: its timers, addresses and server; which
  received IAs are discarded; and where the addresses of whole runs come from.
 */
module ReceivedIAs {
  import opened Containers
  import opened Leases
  import opened Advertises
  import opened Retransmission
  import opened Address128
  import opened Addresses
  import opened Protocol
  import opened Replies
  import opened Runs

  // ---- which IAs are discarded --------------------------------------------------------------------------------------

  /** The octets of an address start with fe 80. */
  predicate StartsFe80(s: seq<Octet>) {
    |s| == 16 && s[0] == 0xfe && s[1] == 0x80
  }

  /** The octets of the received addresses, one after the other. */
  predicate OctetsOf(r: RecvIA, octets: seq<seq<Octet>>) {
    |octets| == |r.addrs| && forall k :: 0 <= k < |octets| ==> |octets[k]| == 16 && Val(octets[k]) == r.addrs[k].addr
  }

  /** A received IA is discarded exactly if T1 exceeds T2 or the octets of some address start with fe 80. */
  lemma IsValidIff(r: RecvIA, octets: seq<seq<Octet>>)
    requires OctetsOf(r, octets)
    ensures IsValid(r) <==> r.t1 <= r.t2 && forall k :: 0 <= k < |octets| ==> !StartsFe80(octets[k])
  {
    forall k | 0 <= k < |octets|
      ensures LinkLocal(r.addrs[k].addr) <==> StartsFe80(octets[k])
    {
      LinkLocalIff(octets[k]);
    }
    if forall k :: 0 <= k < |octets| ==> !StartsFe80(octets[k]) {
      forall a | a in r.addrs
        ensures !LinkLocal(a.addr)
      {
        var k :| 0 <= k < |r.addrs| && r.addrs[k] == a;
        assert !StartsFe80(octets[k]);
      }
    } else {
      var k :| 0 <= k < |octets| && StartsFe80(octets[k]);
      assert r.addrs[k] in r.addrs;
    }
  }

  /** It is then as if it had not been in the message. */
  lemma DiscardedIsLeftOut(c: Client, msg: Msg, clk: Clock, front: seq<RecvIA>, bad: RecvIA, back: seq<RecvIA>)
    requires msg.ias == front + [bad] + back && !IsValid(bad)
    ensures Deliver(c, msg, clk) == Deliver(c, msg.(ias := front + back), clk)
  {
    var valid := (r: RecvIA) => IsValid(r);
    FilterConcat(front + [bad], back, valid);
    FilterSnoc(front, bad, valid);
    FilterConcat(front, back, valid);
    assert Parsed(msg).ias == Parsed(msg.(ias := front + back)).ias;
  }

  // ---- timers -------------------------------------------------------------------------------------------------------

  /** T1 and T2 are those received, if neither is zero, else a half and seven tenths of the first preferred
      lifetime, rounded down, else as before. */
  lemma MergedTimers(c: Client, r: RecvIA, iface: IfaceId, server: Option<Server>, now: nat)
    requires r.iaid in c.db
    ensures var before, after := c.db[r.iaid], MergeIA(c, r, iface, server, now).db[r.iaid];
            if r.t1 != 0 && r.t2 != 0 then after.t1 == r.t1 && after.t2 == r.t2
            else if r.addrs != [] then
              2 * after.t1 <= r.addrs[0].pref < 2 * (after.t1 + 1) && 10 * after.t2 <= 7 * r.addrs[0].pref < 10 * (after.t2 + 1)
            else after.t1 == before.t1 && after.t2 == before.t2
  {
  }

  // ---- addresses ----------------------------------------------------------------------------------------------------

  lemma {:induction false} MergeMapNamed(m: map<Ip, Lease>, recv: seq<RecvAddr>, now: nat)
    requires forall a :: a in m ==> m[a].addr == a
    ensures forall a :: a in MergeMap(m, recv, now) ==> MergeMap(m, recv, now)[a].addr == a
    decreases |recv|
  {
    if recv != [] {
      var a := recv[0];
      MergeMapNamed(if a.valid != 0 then m[a.addr := Lease(a.addr, a.pref, a.valid, now)] else m, recv[1..], now);
    }
  }

  /** The addresses afterwards are the map update of those before, all with the time of the message, and the IA is
      CONFIGURED; identifier and interface stay. */
  lemma MergedAddresses(c: Client, r: RecvIA, iface: IfaceId, server: Option<Server>, now: nat)
    requires SoundDb(c.db) && r.iaid in c.db
    ensures var before, after := c.db[r.iaid], MergeIA(c, r, iface, server, now).db[r.iaid];
            var m := MergeMap(Known(before.leases), r.addrs, now);
            after.iaid == before.iaid && after.iface == before.iface && after.state == Configured && after.stamp == now &&
            (forall l :: l in after.leases ==> l.addr in m && l == m[l.addr].(stamp := now)) &&
            (forall a :: a in m ==> m[a].(stamp := now) in after.leases)
  {
    var before := c.db[r.iaid];
    var start := Merge(before.leases, c.installed, false);
    var merged := MergeAddrs(start, r.addrs, iface, now);
    KnownRepresents(before.leases);
    MergeRefinesMap(start, r.addrs, iface, now, Known(before.leases));
    StampedLeases(merged.leases, MergeMap(Known(before.leases), r.addrs, now), now);
  }

  lemma StampedLeases(leases: seq<Lease>, m: map<Ip, Lease>, now: nat)
    requires Represents(leases, m)
    ensures forall l :: l in Stamped(leases, now) ==> l.addr in m && l == m[l.addr].(stamp := now)
    ensures forall a :: a in m ==> m[a].(stamp := now) in Stamped(leases, now)
  {
    forall a | a in m
      ensures m[a].(stamp := now) in Stamped(leases, now)
    {
      var k :| 0 <= k < |leases| && leases[k] == m[a];
      assert Stamped(leases, now)[k] == m[a].(stamp := now);
    }
  }

  // ---- servers ------------------------------------------------------------------------------------------------------

  function AddrsOf(leases: seq<Lease>): set<Ip> {
    set l | l in leases :: l.addr
  }

  /** Some address is new; before it only known ones are refreshed and unknown ones withdrawn. */
  predicate BringsNew(known: set<Ip>, recv: seq<RecvAddr>) {
    exists j :: 0 <= j < |recv| && NewAt(known, recv, j)
  }

  predicate NewAt(known: set<Ip>, recv: seq<RecvAddr>, j: nat)
    requires j < |recv|
  {
    recv[j].valid != 0 && recv[j].addr !in known && forall e :: 0 <= e < j ==> (recv[e].valid != 0 <==> recv[e].addr in known)
  }

  lemma BringsNewStep(known: set<Ip>, recv: seq<RecvAddr>)
    requires recv != []
    ensures BringsNew(known, recv) <==>
            (recv[0].valid != 0 && recv[0].addr !in known) ||
            ((recv[0].valid != 0 <==> recv[0].addr in known) && BringsNew(known, recv[1..]))
  {
    if recv[0].valid != 0 && recv[0].addr !in known {
      assert NewAt(known, recv, 0);
    }
    if (recv[0].valid != 0 <==> recv[0].addr in known) && BringsNew(known, recv[1..]) {
      var j :| 0 <= j < |recv[1..]| && NewAt(known, recv[1..], j);
      forall e | 0 <= e < j + 1
        ensures recv[e].valid != 0 <==> recv[e].addr in known
      {
        if e > 0 {
          assert recv[e] == recv[1..][e - 1];
        }
      }
      assert NewAt(known, recv, j + 1);
    }
    if BringsNew(known, recv) {
      var j :| 0 <= j < |recv| && NewAt(known, recv, j);
      if j > 0 {
        assert NewAt(known, recv[1..], j - 1);
      }
    }
  }

  lemma {:induction false} AddedStays(m: Merge, recv: seq<RecvAddr>, iface: IfaceId, now: nat)
    requires m.added
    ensures MergeAddrs(m, recv, iface, now).added
    decreases |recv|
  {
    if recv != [] {
      AddedStays(MergeAddr(m, recv[0], iface, now).after, recv[1..], iface, now);
    }
  }

  lemma RefreshKeepsAddrs(leases: seq<Lease>, k: nat, l: Lease)
    requires k < |leases| && leases[k].addr == l.addr
    ensures AddrsOf(leases[k := l]) == AddrsOf(leases)
  {
    forall a
      ensures a in AddrsOf(leases[k := l]) <==> a in AddrsOf(leases)
    {
      if a in AddrsOf(leases) {
        var x :| x in leases && x.addr == a;
        var j :| 0 <= j < |leases| && leases[j] == x;
        assert leases[k := l][j] in leases[k := l];
      }
      if a in AddrsOf(leases[k := l]) {
        var x :| x in leases[k := l] && x.addr == a;
        var j :| 0 <= j < |leases| && leases[k := l][j] == x;
        assert leases[j] in leases;
      }
    }
  }

  lemma IndexInAddrs(leases: seq<Lease>, a: Ip)
    ensures IndexOf(leases, a) >= 0 <==> a in AddrsOf(leases)
  {
    if IndexOf(leases, a) >= 0 {
      assert leases[IndexOf(leases, a)] in leases;
    }
  }

  lemma {:induction false} AddedIff(m: Merge, recv: seq<RecvAddr>, iface: IfaceId, now: nat)
    requires !m.added
    ensures MergeAddrs(m, recv, iface, now).added <==> BringsNew(AddrsOf(m.leases), recv)
    decreases |recv|
  {
    if recv != [] {
      var a, step := recv[0], MergeAddr(m, recv[0], iface, now);
      var k := IndexOf(m.leases, a.addr);
      IndexInAddrs(m.leases, a.addr);
      BringsNewStep(AddrsOf(m.leases), recv);
      if k < 0 && a.valid != 0 {
        AddedStays(step.after, recv[1..], iface, now);
      } else if !step.last {
        if k >= 0 {
          RefreshKeepsAddrs(m.leases, k, Lease(a.addr, a.pref, a.valid, now));
        }
        AddedIff(step.after, recv[1..], iface, now);
      }
    }
  }

  /** The server of the message is stored exactly with a new address; otherwise the server stays. */
  lemma MergedServer(c: Client, r: RecvIA, iface: IfaceId, server: Option<Server>, now: nat)
    requires r.iaid in c.db
    ensures var before, after := c.db[r.iaid], MergeIA(c, r, iface, server, now).db[r.iaid];
            after.server == if BringsNew(AddrsOf(before.leases), r.addrs) then server else before.server
  {
    AddedIff(Merge(c.db[r.iaid].leases, c.installed, false), r.addrs, iface, now);
  }

  // ---- one IA of a message --------------------------------------------------------------------------------------------

  lemma MergeIgnoresInterfaces(m: Merge, installed: Installed, recv: seq<RecvAddr>, iface: IfaceId, now: nat)
    ensures var a, b := MergeAddrs(m, recv, iface, now), MergeAddrs(m.(installed := installed), recv, iface, now);
            a.leases == b.leases && a.added == b.added
    decreases |recv|
  {
    if recv != [] {
      var step := MergeAddr(m, recv[0], iface, now);
      var other := MergeAddr(m.(installed := installed), recv[0], iface, now);
      if !step.last {
        MergeIgnoresInterfaces(step.after, other.after.installed, recv[1..], iface, now);
      }
    }
  }

  lemma SameMerge(c: Client, b: Client, r: RecvIA, iface: IfaceId, server: Option<Server>, now: nat)
    requires r.iaid in c.db && r.iaid in b.db && b.db[r.iaid] == c.db[r.iaid]
    ensures MergeIA(b, r, iface, server, now).db[r.iaid] == MergeIA(c, r, iface, server, now).db[r.iaid]
  {
    MergeIgnoresInterfaces(Merge(c.db[r.iaid].leases, c.installed, false), b.installed, r.addrs, iface, now);
  }

  /** None of the received IAs but perhaps the `j`-th is a success for the IA. */
  predicate OnlyAt(ias: seq<RecvIA>, i: Iaid, j: int) {
    forall m :: 0 <= m < |ias| && m != j && ias[m].status == STATUS_SUCCESS ==> ias[m].iaid != i
  }

  lemma {:induction false} MergedAt(c: Client, ias: seq<RecvIA>, iface: IfaceId, server: Option<Server>, now: nat,
                                    i: Iaid, j: int)
    requires i in c.db && OnlyAt(ias, i, j) && (0 <= j < |ias| ==> ias[j].status == STATUS_SUCCESS && ias[j].iaid == i)
    ensures MergeAll(c, ias, iface, server, now).db[i] ==
            if 0 <= j < |ias| then MergeIA(c, ias[j], iface, server, now).db[i] else c.db[i]
  {
    if ias != [] {
      var front, last := ias[..|ias| - 1], ias[|ias| - 1];
      MergedAt(c, front, iface, server, now, i, j);
      if j == |ias| - 1 {
        SameMerge(c, MergeAll(c, front, iface, server, now), last, iface, server, now);
      }
    }
  }

  /** The received IAs that the message makes its transaction merge. */
  function MergedIAs(c: Client, k: nat, msg: Msg): seq<RecvIA>
    requires k < |c.trans|
  {
    Considered(c.trans[k], Parsed(msg))
  }

  /** What is stored is the server of the message, except that a RENEW stores its own. */
  function StoredServer(t: Trans, msg: Msg): Option<Server> {
    if t.kind == Renew then t.server else Some(msg.server)
  }

  /** The client with what the answered transaction merges, and nothing else. */
  function Merging(c: Client, k: nat, msg: Msg, now: nat): Client
    requires k < |c.trans|
  {
    MergeAll(c, Considered(c.trans[k], msg), c.trans[k].iface, StoredServer(c.trans[k], msg), now)
  }

  /** The same addresses on the interfaces, and the same database. */
  predicate SameAddresses(c: Client, r: Client) {
    r.db == c.db && r.installed == c.installed
  }

  lemma SendRequestSameAddresses(c: Client, ias: seq<Iaid>, iface: IfaceId, clk: Clock)
    ensures SameAddresses(c, SendRequest(c, ias, iface, clk))
  {
  }

  lemma ReplyMerges(c: Client, k: nat, msg: Msg, clk: Clock)
    requires k < |c.trans|
    ensures SameAddresses(MergeAll(c, msg.ias, c.trans[k].iface, Some(msg.server), clk.now), AnswerReply(c, k, msg, clk))
  {
    var g := Grant(c, k, msg, clk.now);
    SendRequestSameAddresses(g, g.trans[k].ias, c.trans[k].iface, clk);
  }

  lemma RenewReplyMerges(c: Client, k: nat, msg: Msg, clk: Clock)
    requires k < |c.trans|
    ensures SameAddresses(Renewed(c, k, msg, clk.now), AnswerRenew(c, k, msg, clk))
  {
    SendRequestSameAddresses(Renewed(c, k, msg, clk.now), c.trans[k].ias, c.trans[k].iface, clk);
  }

  lemma AdvertiseMergesNothing(c: Client, k: nat, msg: Msg, clk: Clock)
    requires k < |c.trans|
    ensures SameAddresses(c, AnswerAdvertise(c, k, msg, clk))
  {
    SendRequestSameAddresses(c.(ads := c.ads + [Advert(msg.pref, msg.server)]), c.trans[k].ias, c.trans[k].iface, clk);
  }

  lemma SolicitAnswerMerges(c: Client, k: nat, msg: Msg, clk: Clock)
    requires k < |c.trans| && c.trans[k].kind == Solicit
    ensures SameAddresses(Merging(c, k, msg, clk.now), Answer(c, k, msg, clk))
  {
    var t := c.trans[k];
    if !Rejects(t, msg) && msg.kind == Advertise {
      AdvertiseMergesNothing(c, k, msg, clk);
    } else if !Rejects(t, msg) && msg.kind == Reply && t.rapid && msg.rapid {
      ReplyMerges(c, k, msg, clk);
    }
  }

  lemma AnswerMerges(c: Client, k: nat, msg: Msg, clk: Clock)
    requires k < |c.trans|
    ensures SameAddresses(Merging(c, k, msg, clk.now), Answer(c, k, msg, clk))
  {
    match c.trans[k].kind
    case Solicit => SolicitAnswerMerges(c, k, msg, clk);
    case Request =>
      if !msg.notOnLink {
        ReplyMerges(c, k, msg, clk);
      }
    case Renew => RenewReplyMerges(c, k, msg, clk);
    case Rebind => ReplyMerges(c, k, msg, clk);
  }

  /** An IA granted once is merged as it was before the message, on the interface of the transaction. */
  lemma DeliveredIA(c: Client, msg: Msg, clk: Clock, k: nat, i: Iaid, j: nat)
    requires k == FindXid(c.trans, msg.xid) && i in c.db
    requires var ias := MergedIAs(c, k, msg);
             j < |ias| && ias[j].status == STATUS_SUCCESS && ias[j].iaid == i && OnlyAt(ias, i, j)
    ensures Deliver(c, msg, clk).db[i] ==
            MergeIA(c, MergedIAs(c, k, msg)[j], c.trans[k].iface, StoredServer(c.trans[k], msg), clk.now).db[i]
  {
    AnswerMerges(c, k, Parsed(msg), clk);
    MergedAt(c, MergedIAs(c, k, msg), c.trans[k].iface, StoredServer(c.trans[k], msg), clk.now, i, j);
  }

  // ---- where addresses come from ----------------------------------------------------------------------------------------

  /** Neither an interface nor the database has the address. */
  ghost predicate Absent(c: Client, a: Ip) {
    (forall f: IfaceId :: (f, a) !in c.installed) && forall i :: i in c.db ==> LacksAddr(c.db[i].leases, a)
  }

  predicate LacksAddr(leases: seq<Lease>, a: Ip) {
    forall l :: l in leases ==> l.addr != a
  }

  /** The received IA grants the address. */
  predicate GrantsAddr(r: RecvIA, a: Ip) {
    r.status == STATUS_SUCCESS && exists x :: x in r.addrs && x.addr == a && x.valid != 0
  }

  lemma {:induction false} MergeAbsent(m: Merge, recv: seq<RecvAddr>, iface: IfaceId, now: nat, a: Ip)
    requires (forall f: IfaceId :: (f, a) !in m.installed) && LacksAddr(m.leases, a)
    requires forall x :: x in recv && x.addr == a ==> x.valid == 0
    ensures var r := MergeAddrs(m, recv, iface, now);
            (forall f: IfaceId :: (f, a) !in r.installed) && LacksAddr(r.leases, a)
    decreases |recv|
  {
    if recv != [] {
      var step := MergeAddr(m, recv[0], iface, now);
      if !step.last {
        MergeAbsent(step.after, recv[1..], iface, now, a);
      }
    }
  }

  lemma StampedLacks(leases: seq<Lease>, now: nat, a: Ip)
    requires LacksAddr(leases, a)
    ensures LacksAddr(Stamped(leases, now), a)
  {
    forall l | l in Stamped(leases, now)
      ensures l.addr != a
    {
      var k :| 0 <= k < |leases| && Stamped(leases, now)[k] == l;
      assert leases[k] in leases;
    }
  }

  lemma MergeIAAbsent(c: Client, r: RecvIA, iface: IfaceId, server: Option<Server>, now: nat, a: Ip)
    requires Absent(c, a) && r.status == STATUS_SUCCESS && !GrantsAddr(r, a)
    ensures Absent(MergeIA(c, r, iface, server, now), a)
  {
    if r.iaid in c.db {
      var start := Merge(c.db[r.iaid].leases, c.installed, false);
      MergeAbsent(start, r.addrs, iface, now, a);
      StampedLacks(MergeAddrs(start, r.addrs, iface, now).leases, now, a);
    }
  }

  lemma {:induction false} MergeAllAbsent(c: Client, ias: seq<RecvIA>, iface: IfaceId, server: Option<Server>, now: nat, a: Ip)
    requires Absent(c, a) && forall r :: r in ias ==> !GrantsAddr(r, a)
    ensures Absent(MergeAll(c, ias, iface, server, now), a)
  {
    if ias != [] {
      var front, last := ias[..|ias| - 1], ias[|ias| - 1];
      MergeAllAbsent(c, front, iface, server, now, a);
      if last.status == STATUS_SUCCESS {
        MergeIAAbsent(MergeAll(c, front, iface, server, now), last, iface, server, now, a);
      }
    }
  }

  lemma ConsideredWereReceived(t: Trans, msg: Msg)
    ensures forall r :: r in Considered(t, Parsed(msg)) ==> r in msg.ias && IsValid(r)
  {
    forall r | r in Considered(t, Parsed(msg))
      ensures r in msg.ias && IsValid(r)
    {
      assert r in Parsed(msg).ias;
    }
  }

  /** The message grants the address in an IA that is not discarded. */
  predicate MsgGrants(msg: Msg, a: Ip) {
    exists r :: r in msg.ias && IsValid(r) && GrantsAddr(r, a)
  }

  lemma DeliverAbsent(c: Client, msg: Msg, clk: Clock, a: Ip)
    requires Absent(c, a) && !MsgGrants(msg, a)
    ensures Absent(Deliver(c, msg, clk), a)
  {
    var k := FindXid(c.trans, msg.xid);
    if k >= 0 {
      var t := c.trans[k];
      ConsideredWereReceived(t, msg);
      MergeAllAbsent(c, MergedIAs(c, k, msg), t.iface, StoredServer(t, msg), clk.now, a);
      AnswerMerges(c, k, Parsed(msg), clk);
    }
  }

  // ---- a pass brings none ---------------------------------------------------------------------------------------------

  lemma {:induction false} ReleaseAbsent(c: Client, ias: seq<Iaid>, a: Ip)
    requires Absent(c, a)
    ensures Absent(ReleaseAll(c, ias), a)
  {
    if ias != [] {
      ReleaseAbsent(c, ias[..|ias| - 1], a);
    }
  }

  lemma DutiesSameAddresses(c: Client, k: nat, clk: Clock)
    requires k < |c.trans| && !(c.trans[k].kind == Rebind && c.trans[k].timer.mrd == 0)
    ensures SameAddresses(c, Duties(c, k, clk))
  {
  }

  lemma DutiesAbsent(c: Client, k: nat, clk: Clock, a: Ip)
    requires k < |c.trans| && Absent(c, a)
    ensures Absent(Duties(c, k, clk), a)
  {
    if c.trans[k].kind == Rebind && c.trans[k].timer.mrd == 0 {
      ReleaseAbsent(c, c.trans[k].ias, a);
    } else {
      DutiesSameAddresses(c, k, clk);
    }
  }

  lemma {:induction false} DutiesFromAbsent(c: Client, k: nat, n: nat, clk: Clock, a: Ip) returns (end: Client)
    requires k <= n <= |c.trans| && Absent(c, a)
    ensures end == DutiesFrom(c, k, n, clk) && Absent(end, a)
    decreases n - k
  {
    if k == n {
      end := c;
    } else if Due(c.trans[k], clk.now) {
      DutiesAbsent(c, k, clk, a);
      end := DutiesFromAbsent(Duties(c, k, clk), k + 1, n, clk, a);
    } else {
      end := DutiesFromAbsent(c, k + 1, n, clk, a);
    }
  }

  lemma ExpiryAbsent(c: Client, now: nat, a: Ip)
    requires Listed(c) && Absent(c, a)
    ensures Absent(ExpireDb(RemoveExpired(c, now), now), a)
  {
    var r := ExpireDb(RemoveExpired(c, now), now);
    forall i | i in r.db
      ensures LacksAddr(r.db[i].leases, a)
    {
      assert LacksAddr(c.db[i].leases, a);
    }
  }

  lemma {:induction false} CheckSolicitAbsent(c: Client, ifaces: seq<CfgIface>, clk: Clock, a: Ip)
    requires Absent(c, a)
    ensures Absent(CheckSolicit(c, ifaces, clk), a)
  {
    if ifaces != [] {
      CheckSolicitAbsent(c, ifaces[..|ifaces| - 1], clk, a);
    }
  }

  lemma CheckRenewAbsent(c: Client, pending: set<Iaid>, clk: Clock, a: Ip)
    requires Listed(c) && Absent(c, a)
    ensures Absent(CheckRenew(c, pending, clk), a)
  {
  }

  lemma RoundAbsent(c: Client, pending: set<Iaid>, clk: Clock, a: Ip)
    requires Listed(c) && Absent(c, a)
    ensures Absent(Round(c, pending, clk), a)
  {
    var e := Settle(c, clk);
    var d := DutiesFromAbsent(c, 0, |c.trans|, clk, a);
    ExpiryAbsent(Purge(d), clk.now, a);
    CheckSolicitAbsent(e, e.ifaces, clk, a);
    CheckRenewAbsent(CheckSolicit(e, e.ifaces, clk), pending, clk, a);
  }

  predicate NeverGrants(turns: seq<Turn>, a: Ip) {
    forall n :: 0 <= n < |turns| && turns[n].msg.Some? ==> !MsgGrants(turns[n].msg.value, a)
  }

  /** Over every run: an address that no message grants in an IA that is kept never comes to an interface or the database. */
  lemma {:induction false} AddressesAreGranted(c: Client, turns: seq<Turn>, a: Ip)
    requires Listed(c) && Absent(c, a) && NeverGrants(turns, a)
    ensures Absent(RunOf(c, turns), a)
  {
    if turns != [] {
      var front, turn := turns[..|turns| - 1], turns[|turns| - 1];
      AddressesAreGranted(c, front, a);
      RoundAbsent(RunOf(c, front), turn.pending, turn.clk, a);
      if turn.msg.Some? {
        DeliverAbsent(BeforeMessage(c, turns), turn.msg.value, turn.arrival, a);
      }
    }
  }

  lemma LinkLocalIsNotGranted(msg: Msg, s: seq<Octet>)
    requires StartsFe80(s)
    ensures !MsgGrants(msg, Val(s))
  {
    LinkLocalIff(s);
  }

  /** So a link-local address, whatever is received, never does. */
  lemma NeverLinkLocal(c: Client, turns: seq<Turn>, s: seq<Octet>)
    requires Listed(c) && StartsFe80(s) && Absent(c, Val(s))
    ensures Absent(RunOf(c, turns), Val(s))
  {
    forall n | 0 <= n < |turns| && turns[n].msg.Some?
      ensures !MsgGrants(turns[n].msg.value, Val(s))
    {
      LinkLocalIsNotGranted(turns[n].msg.value, s);
    }
    AddressesAreGranted(c, turns, Val(s));
  }
}
