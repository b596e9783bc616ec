/**
  What a pass makes of SOLICITs and REQUESTs that are due, and what a SOLICIT does with the messages
  it is answered with, in terms of the state before and after.
 */
module SolicitSteps {
  import opened Containers
  import opened Leases
  import opened Advertises
  import opened Retransmission
  import opened Protocol
  import opened Ownership
  import opened TransMgr
  import opened SilentRuns
  import opened Deadlines

  // ---- who uses an ADVERTISE ----------------------------------------------------------------------------------------

  /** A live message that is due and takes an ADVERTISE, if there is one. */
  predicate Uses(t: Trans, now: nat) {
    !t.done && t.timer.last + t.timer.rt <= now &&
    (t.kind == Solicit || (t.kind == Request && t.timer.rc > t.timer.mrc))
  }

  /** How many of the messages from `k` up to `j` do. */
  function Users(trans: seq<Trans>, k: nat, j: nat, now: nat): nat
    requires k <= j <= |trans|
    decreases j - k
  {
    if k == j then 0 else (if Uses(trans[k], now) then 1 else 0) + Users(trans, k + 1, j, now)
  }

  lemma {:induction false} SameUsers(before: seq<Trans>, after: seq<Trans>, k: nat, j: nat, now: nat)
    requires k <= j <= |before| && j <= |after| && forall m :: k <= m < j ==> after[m] == before[m]
    ensures Users(before, k, j, now) == Users(after, k, j, now)
    decreases j - k
  {
    if k < j {
      SameUsers(before, after, k + 1, j, now);
    }
  }

  lemma {:induction false} NoUsers(trans: seq<Trans>, k: nat, j: nat, now: nat)
    requires k <= j <= |trans| && forall m :: k <= m < j ==> !Uses(trans[m], now)
    ensures Users(trans, k, j, now) == 0
    decreases j - k
  {
    if k < j {
      NoUsers(trans, k + 1, j, now);
    }
  }

  lemma SendRequestTakes(c: Client, ias: seq<Iaid>, iface: IfaceId, clk: Clock)
    ensures |SendRequest(c, ias, iface, clk).ads| == if c.ads == [] then 0 else |c.ads| - 1
  {
    SortIsDescending(c.ads);
  }

  lemma VisitTakes(c: Client, k: nat, clk: Clock)
    requires k < |c.trans|
    ensures var r := if Due(c.trans[k], clk.now) then Duties(c, k, clk) else c;
            |r.ads| == if Uses(c.trans[k], clk.now) && c.ads != [] then |c.ads| - 1 else |c.ads|
  {
    SendRequestTakes(c, c.trans[k].ias, c.trans[k].iface, clk);
  }

  lemma VisitLeaves(c: Client, k: nat, clk: Clock)
    requires k < |c.trans|
    ensures var r := if Due(c.trans[k], clk.now) then Duties(c, k, clk) else c;
            |r.trans| >= |c.trans| && forall m :: k < m < |c.trans| ==> r.trans[m] == c.trans[m]
  {
    OthersLeftAlone(c, k, clk);
  }

  /** Each of them takes one, until none is left. */
  lemma {:induction false} AdsLeft(c: Client, k: nat, j: nat, clk: Clock)
    requires k <= j <= |c.trans|
    ensures var u := Users(c.trans, k, j, clk.now);
            |DutiesFrom(c, k, j, clk).ads| == if u <= |c.ads| then |c.ads| - u else 0
    decreases j - k
  {
    if k < j {
      var r := if Due(c.trans[k], clk.now) then Duties(c, k, clk) else c;
      VisitTakes(c, k, clk);
      VisitLeaves(c, k, clk);
      SameUsers(c.trans, r.trans, k + 1, j, clk.now);
      AdsLeft(r, k + 1, j, clk);
    }
  }

  lemma SuffixHead(front: seq<Server>, back: seq<Server>, all: seq<Server>)
    requires front + back == all && back != []
    ensures back[0] == all[|all| - |back|]
  {
  }

  /** The best ADVERTISE left when the `j`-th message's turn comes. */
  lemma NextServer(c: Client, j: nat, clk: Clock)
    requires j < |c.trans| && Users(c.trans, 0, j, clk.now) < |c.ads|
    ensures var mid, u := Visited(c, j, clk), Users(c.trans, 0, j, clk.now);
            mid.ads != [] && |SortByPreference(mid.ads)| == |mid.ads| && |SortByPreference(c.ads)| == |c.ads| &&
            SortByPreference(mid.ads)[0].server == SortByPreference(c.ads)[u].server
  {
    var mid := Visited(c, j, clk);
    AdsLeft(c, 0, j, clk);
    DutiesFromAsk(c, 0, j, clk);
    SortIsDescending(mid.ads);
    SortIsDescending(c.ads);
    SuffixHead(AskedBy(Appended(c, mid)), SilentRuns.Waiting(mid), SilentRuns.Waiting(c));
  }

  // ---- one message in one pass --------------------------------------------------------------------------------------

  /** A REQUEST just sent for the IAs of `t`. */
  predicate Requests(t: Trans, x: Trans, server: Server, now: nat) {
    x.kind == Request && !x.done && x.ias == t.ias && x.iface == t.iface && x.server == Some(server) &&
    x.timer.rc == 1 && x.timer.last == now
  }

  /** `t` sent once more, and nothing else of it changed. */
  predicate Resent(t: Trans, x: Trans, now: nat) {
    x == t.(timer := x.timer) && x.timer.rc == t.timer.rc + 1 && x.timer.last == now
  }

  lemma DutiesRequest(c: Client, k: nat, clk: Clock) returns (x: Trans)
    requires k < |c.trans| && Uses(c.trans[k], clk.now) && c.ads != []
    ensures SortByPreference(c.ads) != []
    ensures var r := Duties(c, k, clk);
            |r.trans| > |c.trans| && x == r.trans[|c.trans|] &&
            Requests(c.trans[k], x, SortByPreference(c.ads)[0].server, clk.now)
  {
    SortIsDescending(c.ads);
    x := Duties(c, k, clk).trans[|c.trans|];
  }

  /** A message that takes an ADVERTISE while one is left ends in a REQUEST to the next server in order. */
  lemma UserRequests(c: Client, pending: set<Iaid>, clk: Clock, j: nat) returns (x: Trans)
    requires Listed(c) && j < |c.trans| && Uses(c.trans[j], clk.now) && Users(c.trans, 0, j, clk.now) < |c.ads|
    ensures |SortByPreference(c.ads)| == |c.ads| && x in Round(c, pending, clk).trans
    ensures Requests(c.trans[j], x, SortByPreference(c.ads)[Users(c.trans, 0, j, clk.now)].server, clk.now)
  {
    TurnComes(c, j, clk);
    TurnCounts(c, j, clk);
    NextServer(c, j, clk);
    x := DutiesRequest(Visited(c, j, clk), j, clk);
    LiveStays(c, pending, clk, x);
  }

  lemma DutiesResend(c: Client, k: nat, clk: Clock) returns (x: Trans)
    requires k < |c.trans| && !c.trans[k].done
    requires (c.trans[k].kind == Solicit && c.ads == []) ||
             (c.trans[k].kind == Request && c.trans[k].timer.rc <= c.trans[k].timer.mrc)
    ensures x == Duties(c, k, clk).trans[k] && Resent(c.trans[k], x, clk.now)
  {
    x := Duties(c, k, clk).trans[k];
  }

  /** A due SOLICIT for which none is left is sent once more. */
  lemma SolicitResent(c: Client, pending: set<Iaid>, clk: Clock, j: nat) returns (x: Trans)
    requires Listed(c) && j < |c.trans| && Uses(c.trans[j], clk.now) && c.trans[j].kind == Solicit
    requires Users(c.trans, 0, j, clk.now) >= |c.ads|
    ensures x in Round(c, pending, clk).trans && Resent(c.trans[j], x, clk.now)
  {
    TurnComes(c, j, clk);
    TurnCounts(c, j, clk);
    AdsLeft(c, 0, j, clk);
    x := DutiesResend(Visited(c, j, clk), j, clk);
    LiveStays(c, pending, clk, x);
  }

  /** So is a due REQUEST that may still be sent to its server. */
  lemma RequestResent(c: Client, pending: set<Iaid>, clk: Clock, j: nat) returns (x: Trans)
    requires Listed(c) && j < |c.trans| && LiveRequest(c.trans[j]) && DueAt(c.trans[j]) <= clk.now
    requires c.trans[j].timer.rc <= c.trans[j].timer.mrc
    ensures x in Round(c, pending, clk).trans && Resent(c.trans[j], x, clk.now)
  {
    TurnComes(c, j, clk);
    TurnCounts(c, j, clk);
    x := DutiesResend(Visited(c, j, clk), j, clk);
    LiveStays(c, pending, clk, x);
  }

  lemma BestFirst(ads: seq<Advert>) returns (a: Advert)
    requires ads != []
    ensures SortByPreference(ads) != [] && a == SortByPreference(ads)[0] && a in ads
    ensures forall b :: b in ads ==> b.pref <= a.pref
  {
    SortIsDescending(ads);
    var sorted := SortByPreference(ads);
    a := sorted[0];
    assert a in multiset(sorted);
    forall b | b in ads
      ensures b.pref <= a.pref
    {
      assert b in multiset(ads);
      var k :| 0 <= k < |sorted| && sorted[k] == b;
    }
  }

  /**
    A live SOLICIT that is due, no message before it takes an ADVERTISE, and there are some: after the
    pass its IAs are those of a REQUEST to a server of which an ADVERTISE was known, none more preferred.
   */
  lemma DueSolicitRequests(c: Client, pending: set<Iaid>, clk: Clock, j: nat) returns (x: Trans, a: Advert)
    requires Listed(c) && j < |c.trans| && c.trans[j].kind == Solicit && !c.trans[j].done
    requires c.trans[j].timer.last + c.trans[j].timer.rt <= clk.now && c.ads != []
    requires forall m :: 0 <= m < j ==> !Uses(c.trans[m], clk.now)
    ensures x in Round(c, pending, clk).trans && x.kind == Request && !x.done
    ensures x.ias == c.trans[j].ias && x.iface == c.trans[j].iface && x.timer.rc == 1
    ensures a in c.ads && x.server == Some(a.server) && forall b :: b in c.ads ==> b.pref <= a.pref
  {
    NoUsers(c.trans, 0, j, clk.now);
    x := UserRequests(c, pending, clk, j);
    a := BestFirst(c.ads);
  }

  lemma OnlyHolder(c: Client, x: Trans, y: Trans, i: Iaid)
    requires Core(c) && x in c.trans && y in c.trans && !x.done && !y.done && i in x.ias && i in y.ias
    ensures x == y
  {
    var j :| 0 <= j < |c.trans| && c.trans[j] == x;
    var k :| 0 <= k < |c.trans| && c.trans[k] == y;
    if j < k {
      DistinctHolders(c, j, k, i);
    } else if k < j {
      DistinctHolders(c, k, j, i);
    }
  }

  /** And the SOLICIT is gone: nothing else that is live has any of its IAs. */
  lemma DueSolicitIsGone(c: Client, pending: set<Iaid>, clk: Clock, j: nat) returns (x: Trans)
    requires Owned(c) && j < |c.trans| && c.trans[j].kind == Solicit && !c.trans[j].done
    requires c.trans[j].timer.last + c.trans[j].timer.rt <= clk.now && Users(c.trans, 0, j, clk.now) < |c.ads|
    ensures var r := Round(c, pending, clk);
            x in r.trans && x.kind == Request && x.ias == c.trans[j].ias &&
            forall y, i :: y in r.trans && !y.done && i in y.ias && i in c.trans[j].ias ==> y == x
  {
    x := UserRequests(c, pending, clk, j);
    RoundKeeps(c, pending, clk);
    var r := Round(c, pending, clk);
    forall y, i | y in r.trans && !y.done && i in y.ias && i in c.trans[j].ias
      ensures y == x
    {
      OnlyHolder(r, x, y, i);
    }
  }

  // ---- the messages a SOLICIT is answered with ------------------------------------------------------------------------

  /** The `j`-th received IA is the first one that is not malformed. */
  predicate FirstValid(ias: seq<RecvIA>, j: nat) {
    j < |ias| && IsValid(ias[j]) && forall m :: 0 <= m < j ==> !IsValid(ias[m])
  }

  lemma ParsedFirst(msg: Msg, j: nat)
    requires FirstValid(msg.ias, j)
    ensures Parsed(msg).ias != [] && Parsed(msg).ias[0] == msg.ias[j]
  {
    var valid := (r: RecvIA) => IsValid(r);
    assert msg.ias == msg.ias[..j] + [msg.ias[j]] + msg.ias[j + 1..];
    FilterFirst(msg.ias[..j], msg.ias[j], msg.ias[j + 1..], valid);
  }

  lemma ParsedNone(msg: Msg)
    requires forall r :: r in msg.ias ==> !IsValid(r)
    ensures Parsed(msg).ias == []
  {
    FilterNone(msg.ias, (r: RecvIA) => IsValid(r));
  }

  /** The message offers something: its first IA has an address and no failure status, and its server is not rejected. */
  predicate HasOffer(msg: Msg, j: nat)
    requires FirstValid(msg.ias, j)
  {
    !msg.rejected && msg.ias[j].addrs != [] && msg.ias[j].status == STATUS_SUCCESS
  }

  lemma SentRequest(c: Client, ias: seq<Iaid>, iface: IfaceId, clk: Clock) returns (x: Trans, a: Advert)
    requires c.ads != []
    ensures var r := SendRequest(c, ias, iface, clk);
            r == c.(ads := r.ads, trans := c.trans + [x], created := c.created + 1) &&
            a in c.ads && (forall b :: b in c.ads ==> b.pref <= a.pref) && multiset(r.ads) == multiset(c.ads) - multiset{a} &&
            x.kind == Request && !x.done && x.ias == ias && x.iface == iface && x.server == Some(a.server) && x.timer.rc == 1
  {
    a := BestFirst(c.ads);
    SortIsDescending(c.ads);
    var sorted := SortByPreference(c.ads);
    assert sorted == [a] + sorted[1..];
    x := SendRequest(c, ias, iface, clk).trans[|c.trans|];
  }

  /**
    An ADVERTISE that offers something. If its preference is 255 or the SOLICIT was sent more than once, the
    SOLICIT ends in a REQUEST to a server of greatest preference among those known and the new one, whose
    ADVERTISE is used up. Otherwise only the list grows, by that ADVERTISE.
   */
  lemma AdvertiseDecides(c: Client, msg: Msg, clk: Clock, k: nat, j: nat) returns (x: Trans, a: Advert)
    requires k == FindXid(c.trans, msg.xid) && c.trans[k].kind == Solicit && c.trans[k].ias != []
    requires msg.kind == Advertise && FirstValid(msg.ias, j) && HasOffer(msg, j)
    ensures var t, r, known := c.trans[k], Deliver(c, msg, clk), c.ads + [Advert(msg.pref, msg.server)];
            if msg.pref == 255 || t.timer.rc > 1 then
              r == c.(ads := r.ads, trans := c.trans[k := t.(done := true)] + [x], created := c.created + 1) &&
              a in known && (forall b :: b in known ==> b.pref <= a.pref) &&
              multiset(r.ads) == multiset(known) - multiset{a} &&
              x.kind == Request && !x.done && x.ias == t.ias && x.iface == t.iface && x.server == Some(a.server) &&
              x.timer.rc == 1
            else r == c.(ads := known)
  {
    var t, noted := c.trans[k], c.(ads := c.ads + [Advert(msg.pref, msg.server)]);
    ParsedFirst(msg, j);
    x, a := SentRequest(noted, t.ias, t.iface, clk);
    assert (c.trans + [x])[k := t.(done := true)] == c.trans[k := t.(done := true)] + [x];
  }

  /** So it is ended if and only if that is so. */
  lemma AdvertiseEndsIff(c: Client, msg: Msg, clk: Clock, k: nat, j: nat)
    requires k == FindXid(c.trans, msg.xid) && c.trans[k].kind == Solicit && c.trans[k].ias != [] && !c.trans[k].done
    requires msg.kind == Advertise && FirstValid(msg.ias, j) && HasOffer(msg, j)
    ensures Deliver(c, msg, clk).trans[k].done <==> msg.pref == 255 || c.trans[k].timer.rc > 1
  {
    var x, a := AdvertiseDecides(c, msg, clk, k, j);
  }

  /** A message whose server is rejected, or that has no IA or whose first one has no address or a failure status,
      changes nothing. */
  lemma UselessIsIgnored(c: Client, msg: Msg, clk: Clock, k: nat)
    requires k == FindXid(c.trans, msg.xid) && c.trans[k].kind == Solicit
    requires msg.rejected || (forall r :: r in msg.ias ==> !IsValid(r)) ||
             exists j: nat :: FirstValid(msg.ias, j) && (msg.ias[j].addrs == [] || msg.ias[j].status != STATUS_SUCCESS)
    ensures Deliver(c, msg, clk) == c
  {
    if j: nat :| FirstValid(msg.ias, j) && (msg.ias[j].addrs == [] || msg.ias[j].status != STATUS_SUCCESS) {
      ParsedFirst(msg, j);
    } else if !msg.rejected {
      ParsedNone(msg);
    }
  }

  /** So does a message of another type, and a REPLY if SOLICIT or REPLY lack the rapid commit. */
  lemma OthersAreIgnored(c: Client, msg: Msg, clk: Clock, k: nat)
    requires k == FindXid(c.trans, msg.xid) && c.trans[k].kind == Solicit
    requires msg.kind != Advertise && !(msg.kind == Reply && c.trans[k].rapid && msg.rapid)
    ensures Deliver(c, msg, clk) == c
  {
  }
}
