/**
  What becomes of messages that nobody answers: a REQUEST is tried on every advertised server and
  then gives its IAs back; a RENEW becomes a REBIND and then releases its IAs.
 */
module Failover {
  import opened Containers
  import opened Leases
  import opened Advertises
  import opened Retransmission
  import opened Protocol
  import opened Ownership
  import opened Replies
  import opened Runs

  const TRIES: nat := REQ_MAX_RC + 1

  // ---- the number of transmissions over whole runs ------------------------------------------------------

  /** The transmissions a REQUEST has made. */
  function Made(t: Trans): nat {
    if t.kind == Request then t.timer.rc else 0
  }

  /** The transmissions a REQUEST may still make to its server. */
  function Left(t: Trans): int {
    if t.kind == Request && !t.done then TRIES - t.timer.rc else 0
  }

  function Total(trans: seq<Trans>, f: Trans -> int): int {
    if trans == [] then 0 else Total(trans[..|trans| - 1], f) + f(trans[|trans| - 1])
  }

  lemma TotalSnoc(trans: seq<Trans>, t: Trans, f: Trans -> int)
    ensures Total(trans + [t], f) == Total(trans, f) + f(t)
  {
    assert (trans + [t])[..|trans|] == trans;
  }

  lemma {:induction false} TotalUpdate(trans: seq<Trans>, k: nat, t: Trans, f: Trans -> int)
    requires k < |trans|
    ensures Total(trans[k := t], f) == Total(trans, f) - f(trans[k]) + f(t)
  {
    var n := |trans| - 1;
    if k == n {
      assert trans[k := t][..n] == trans[..n];
    } else {
      assert trans[k := t][..n] == trans[..n][k := t];
      TotalUpdate(trans[..n], k, t, f);
    }
  }

  lemma {:induction false} TotalPurge(trans: seq<Trans>, f: Trans -> int)
    requires forall t :: t in trans && t.done ==> f(t) == 0
    ensures Total(Filter(trans, (t: Trans) => !t.done), f) == Total(trans, f)
  {
    if trans != [] {
      var front, last := trans[..|trans| - 1], trans[|trans| - 1];
      TotalPurge(front, f);
      TotalSnoc(Filter(front, (t: Trans) => !t.done), last, f);
    }
  }

  lemma {:induction false} TotalNonNegative(trans: seq<Trans>, f: Trans -> int)
    requires forall t :: t in trans ==> f(t) >= 0
    ensures Total(trans, f) >= 0
  {
    if trans != [] {
      TotalNonNegative(trans[..|trans| - 1], f);
    }
  }

  /** Transmissions of REQUESTs so far, of those still on the list. */
  function Transmitted(c: Client): int {
    Total(c.trans, (t: Trans) => Made(t))
  }

  /** The transmissions that are left: for every live REQUEST to its server, and TRIES for every
      advertised server not yet used. */
  function Budget(c: Client): int {
    TRIES * |c.ads| + Total(c.trans, (t: Trans) => Left(t))
  }

  /** Every live REQUEST is within its limit. */
  predicate Limited(trans: seq<Trans>) {
    forall t :: t in trans && t.kind == Request && !t.done ==> t.timer.mrc == REQ_MAX_RC && 1 <= t.timer.rc <= TRIES
  }

  lemma BudgetNonNegative(c: Client)
    requires Limited(c.trans)
    ensures Budget(c) >= 0
  {
    TotalNonNegative(c.trans, (t: Trans) => Left(t));
  }

  /** Replacing the k-th transaction, and perhaps appending one. */
  lemma Exchange(trans: seq<Trans>, k: nat, t: Trans, extra: Option<Trans>, f: Trans -> int)
    requires k < |trans|
    ensures var r := if extra.Some? then (trans + [extra.value])[k := t] else trans[k := t];
            Total(r, f) == Total(trans, f) - f(trans[k]) + f(t) + if extra.Some? then f(extra.value) else 0
  {
    if extra.Some? {
      TotalSnoc(trans, extra.value, f);
      TotalUpdate(trans + [extra.value], k, t, f);
    } else {
      TotalUpdate(trans, k, t, f);
    }
  }

  lemma LimitedUpdate(trans: seq<Trans>, k: nat, t: Trans)
    requires k < |trans| && Limited(trans) && Limited([t])
    ensures Limited(trans[k := t])
  {
    assert t == [t][0];
    forall x | x in trans[k := t] && x != t
      ensures x in trans
    {
    }
  }

  lemma LimitedAppend(trans: seq<Trans>, t: Trans)
    requires Limited(trans) && Limited([t])
    ensures Limited(trans + [t])
  {
    assert t == [t][0];
  }

  lemma FinishSpends(c: Client, k: nat)
    requires k < |c.trans| && Limited(c.trans)
    ensures var r := Finish(c, k);
            Transmitted(r) == Transmitted(c) && Budget(r) <= Budget(c) && Limited(r.trans) &&
            (Left(c.trans[k]) == 0 ==> Budget(r) == Budget(c))
  {
    var t := c.trans[k].(done := true);
    assert c.trans[k] in c.trans;
    TotalUpdate(c.trans, k, t, (t: Trans) => Made(t));
    TotalUpdate(c.trans, k, t, (t: Trans) => Left(t));
    LimitedUpdate(c.trans, k, t);
  }

  lemma RequestSpends(c: Client, r: Client, x: Trans)
    requires r.trans == c.trans + [x] && x.kind == Request && Limited(c.trans)
    requires if c.ads == [] then r.ads == [] && x.done && x.timer.rc == 0
             else |r.ads| == |c.ads| - 1 && !x.done && x.timer.rc == 1 && x.timer.mrc == REQ_MAX_RC
    ensures Transmitted(r) - Transmitted(c) == Budget(c) - Budget(r) && Limited(r.trans)
  {
    TotalSnoc(c.trans, x, (t: Trans) => Made(t));
    TotalSnoc(c.trans, x, (t: Trans) => Left(t));
    LimitedAppend(c.trans, x);
  }

  lemma SendRequestSpends(c: Client, ias: seq<Iaid>, iface: IfaceId, clk: Clock)
    requires Limited(c.trans)
    ensures var r := SendRequest(c, ias, iface, clk);
            Transmitted(r) - Transmitted(c) == Budget(c) - Budget(r) && Limited(r.trans)
  {
    var r := SendRequest(c, ias, iface, clk);
    RequestSpends(c, r, r.trans[|c.trans|]);
  }

  lemma HandOverSpends(c: Client, k: nat, clk: Clock)
    requires k < |c.trans| && Left(c.trans[k]) == 0 && Limited(c.trans)
    ensures var r := HandOver(c, k, clk);
            Transmitted(r) - Transmitted(c) == Budget(c) - Budget(r) && Limited(r.trans)
  {
    var s := SendRequest(c, c.trans[k].ias, c.trans[k].iface, clk);
    SendRequestSpends(c, c.trans[k].ias, c.trans[k].iface, clk);
    assert s.trans[k] == c.trans[k];
    FinishSpends(s, k);
  }

  lemma RetransmitSpends(c: Client, k: nat, clk: Clock)
    requires k < |c.trans| && !c.trans[k].done
    ensures var r := Retransmit(c, k, clk);
            Transmitted(r) - Transmitted(c) == Budget(c) - Budget(r)
  {
    var t := c.trans[k].(timer := Transmit(c.trans[k].timer, clk));
    Exchange(c.trans, k, t, None, (t: Trans) => Made(t));
    Exchange(c.trans, k, t, None, (t: Trans) => Left(t));
  }

  lemma RebindSpends(c: Client, k: nat, clk: Clock)
    requires k < |c.trans| && c.trans[k].kind == Renew
    ensures var r := Finish(SendRebind(c, c.trans[k].ias, c.trans[k].iface, clk), k);
            Transmitted(r) == Transmitted(c) && Budget(r) == Budget(c)
  {
    var t, s := c.trans[k], SendRebind(c, c.trans[k].ias, c.trans[k].iface, clk);
    var extra := Some(s.trans[|c.trans|]);
    assert Finish(s, k).trans == (c.trans + [extra.value])[k := t.(done := true)];
    Exchange(c.trans, k, t.(done := true), extra, (t: Trans) => Made(t));
    Exchange(c.trans, k, t.(done := true), extra, (t: Trans) => Left(t));
  }

  lemma ReleaseSpends(c: Client, k: nat)
    requires k < |c.trans| && c.trans[k].kind == Rebind
    ensures var r := Finish(ReleaseAll(c, c.trans[k].ias), k);
            Transmitted(r) == Transmitted(c) && Budget(r) == Budget(c)
  {
    var t := c.trans[k].(done := true);
    Exchange(c.trans, k, t, None, (t: Trans) => Made(t));
    Exchange(c.trans, k, t, None, (t: Trans) => Left(t));
  }

  /** Every transmission of a REQUEST takes exactly one from the budget, and nothing else does. */
  lemma DutiesSpend(c: Client, k: nat, clk: Clock)
    requires k < |c.trans| && !c.trans[k].done && Limited(c.trans)
    ensures var r := Duties(c, k, clk);
            Transmitted(r) - Transmitted(c) == Budget(c) - Budget(r) && Limited(r.trans)
  {
    var t, r := c.trans[k], Duties(c, k, clk);
    assert t in c.trans;
    DutiesLimited(c, k, clk);
    if r == Retransmit(c, k, clk) {
      RetransmitSpends(c, k, clk);
    } else if t.kind == Solicit || t.kind == Request {
      HandOverSpends(c, k, clk);
    } else if t.kind == Renew {
      RebindSpends(c, k, clk);
    } else {
      ReleaseSpends(c, k);
    }
  }

  lemma RetransmitLimited(c: Client, k: nat, clk: Clock)
    requires k < |c.trans| && Limited(c.trans) && !c.trans[k].done
    requires c.trans[k].kind == Request ==> c.trans[k].timer.rc <= c.trans[k].timer.mrc
    ensures Limited(Retransmit(c, k, clk).trans)
  {
    assert c.trans[k] in c.trans;
    LimitedUpdate(c.trans, k, c.trans[k].(timer := Transmit(c.trans[k].timer, clk)));
  }

  lemma FinishLimited(c: Client, k: nat)
    requires k < |c.trans| && Limited(c.trans)
    ensures Limited(Finish(c, k).trans)
  {
    LimitedUpdate(c.trans, k, c.trans[k].(done := true));
  }

  lemma SendRebindLimited(c: Client, ias: seq<Iaid>, iface: IfaceId, clk: Clock)
    requires Limited(c.trans)
    ensures Limited(SendRebind(c, ias, iface, clk).trans)
  {
    LimitedAppend(c.trans, SendRebind(c, ias, iface, clk).trans[|c.trans|]);
  }

  lemma DutiesLimited(c: Client, k: nat, clk: Clock)
    requires k < |c.trans| && !c.trans[k].done && Limited(c.trans)
    ensures Limited(Duties(c, k, clk).trans)
  {
    var t := c.trans[k];
    if (t.kind == Solicit && c.ads != []) || (t.kind == Request && t.timer.rc > t.timer.mrc) {
      SendRequestSpends(c, t.ias, t.iface, clk);
      FinishLimited(SendRequest(c, t.ias, t.iface, clk), k);
    } else if t.kind == Renew && t.timer.mrd == 0 {
      SendRebindLimited(c, t.ias, t.iface, clk);
      FinishLimited(SendRebind(c, t.ias, t.iface, clk), k);
    } else if t.kind == Rebind && t.timer.mrd == 0 {
      FinishLimited(ReleaseAll(c, t.ias), k);
    } else {
      RetransmitLimited(c, k, clk);
    }
  }

  lemma {:induction false} DutiesFromSpend(c: Client, k: nat, n: nat, clk: Clock)
    requires k <= n <= |c.trans| && Limited(c.trans)
    ensures var r := DutiesFrom(c, k, n, clk);
            Transmitted(r) - Transmitted(c) == Budget(c) - Budget(r) && Limited(r.trans)
    decreases n - k
  {
    if k < n {
      if Due(c.trans[k], clk.now) {
        DutiesSpend(c, k, clk);
        DutiesFromSpend(Duties(c, k, clk), k + 1, n, clk);
      } else {
        DutiesFromSpend(c, k + 1, n, clk);
      }
    }
  }

  /** Steps that only start transactions other than REQUESTs. */
  lemma StartSpendsNothing(c: Client, r: Client, t: Trans)
    requires r.ads == c.ads && r.trans == c.trans + [t] && t.kind != Request && Limited(c.trans)
    ensures Budget(r) == Budget(c) && Limited(r.trans)
  {
    TotalSnoc(c.trans, t, (t: Trans) => Left(t));
    LimitedAppend(c.trans, t);
  }

  lemma {:induction false} CheckSolicitSpendsNothing(c: Client, ifaces: seq<CfgIface>, clk: Clock)
    requires Limited(c.trans)
    ensures var r := CheckSolicit(c, ifaces, clk);
            Budget(r) == Budget(c) && Limited(r.trans)
  {
    if ifaces != [] {
      CheckSolicitSpendsNothing(c, ifaces[..|ifaces| - 1], clk);
      var b, f := CheckSolicit(c, ifaces[..|ifaces| - 1], clk), ifaces[|ifaces| - 1];
      if !f.noConfig && NotConfiguredIAs(b, f) != [] {
        var r := StartSolicit(b, f, NotConfiguredIAs(b, f), clk);
        StartSpendsNothing(b, r, r.trans[|b.trans|]);
      }
    }
  }

  lemma CheckSpendsNothing(c: Client, pending: set<Iaid>, clk: Clock)
    requires Listed(c) && Limited(c.trans)
    ensures var r := Check(c, pending, clk);
            Budget(r) == Budget(c) && Limited(r.trans)
  {
    var s, r := CheckSolicit(c, c.ifaces, clk), Check(c, pending, clk);
    CheckSolicitSpendsNothing(c, c.ifaces, clk);
    if r != s {
      StartSpendsNothing(s, r, r.trans[|s.trans|]);
    }
  }

  lemma SettleSpends(c: Client, clk: Clock)
    requires Listed(c) && Limited(c.trans)
    ensures var r := Settle(c, clk);
            SentIn(c, clk) == Budget(c) - Budget(r) && Limited(r.trans)
  {
    var d := DutiesFrom(c, 0, |c.trans|, clk);
    DutiesFromSpend(c, 0, |c.trans|, clk);
    TotalPurge(d.trans, (t: Trans) => Left(t));
  }

  /** REQUESTs transmitted by one pass, before it purges what is done. */
  function SentIn(c: Client, clk: Clock): int {
    Transmitted(DutiesFrom(c, 0, |c.trans|, clk)) - Transmitted(c)
  }

  lemma RoundSpends(c: Client, pending: set<Iaid>, clk: Clock)
    requires Listed(c) && Limited(c.trans)
    ensures var r := Round(c, pending, clk);
            SentIn(c, clk) == Budget(c) - Budget(r) && Limited(r.trans)
  {
    SettleSpends(c, clk);
    CheckSpendsNothing(Settle(c, clk), pending, clk);
  }

  // ---- received messages ---------------------------------------------------------------------------------

  lemma GrantSpendsNothing(c: Client, k: nat, msg: Msg, now: nat)
    requires k < |c.trans| && Limited(c.trans)
    ensures var g := Grant(c, k, msg, now);
            Transmitted(g) == Transmitted(c) && Budget(g) == Budget(c) && Limited(g.trans)
  {
    var t := c.trans[k].(ias := Leftover(c.trans[k].ias, msg.ias));
    assert c.trans[k] in c.trans;
    TotalUpdate(c.trans, k, t, (t: Trans) => Made(t));
    TotalUpdate(c.trans, k, t, (t: Trans) => Left(t));
    LimitedUpdate(c.trans, k, t);
  }

  predicate Spends(c: Client, r: Client, allowance: int) {
    Transmitted(r) - Transmitted(c) <= Budget(c) - Budget(r) + allowance && Limited(r.trans)
  }

  lemma AnswerReplySpends(c: Client, k: nat, msg: Msg, clk: Clock)
    requires k < |c.trans| && Limited(c.trans)
    ensures Spends(c, AnswerReply(c, k, msg, clk), 0)
  {
    var g := Grant(c, k, msg, clk.now);
    GrantSpendsNothing(c, k, msg, clk.now);
    if g.trans[k].ias == [] {
      FinishSpends(g, k);
    } else {
      SendRequestSpends(g, g.trans[k].ias, c.trans[k].iface, clk);
      FinishSpends(SendRequest(g, g.trans[k].ias, c.trans[k].iface, clk), k);
    }
  }

  lemma AnswerRenewSpends(c: Client, k: nat, msg: Msg, clk: Clock)
    requires k < |c.trans| && Limited(c.trans)
    ensures Spends(c, AnswerRenew(c, k, msg, clk), 0)
  {
    var g := Renewed(c, k, msg, clk.now);
    if |BeforeNoBinding(msg.ias)| < |msg.ias| {
      SendRequestSpends(g, c.trans[k].ias, c.trans[k].iface, clk);
      FinishSpends(SendRequest(g, c.trans[k].ias, c.trans[k].iface, clk), k);
    } else {
      FinishSpends(g, k);
    }
  }

  lemma AdvertiseSpends(c: Client, k: nat, msg: Msg, clk: Clock)
    requires k < |c.trans| && Limited(c.trans)
    ensures Spends(c, AnswerAdvertise(c, k, msg, clk), TRIES)
  {
    var noted := c.(ads := c.ads + [Advert(msg.pref, msg.server)]);
    if msg.pref == 255 || c.trans[k].timer.rc > 1 {
      SendRequestSpends(noted, c.trans[k].ias, c.trans[k].iface, clk);
      FinishSpends(SendRequest(noted, c.trans[k].ias, c.trans[k].iface, clk), k);
    }
  }

  function Allowance(msg: Msg): int {
    if msg.kind == Advertise then TRIES else 0
  }

  lemma AnswerSpends(c: Client, k: nat, msg: Msg, clk: Clock)
    requires k < |c.trans| && Limited(c.trans)
    ensures Spends(c, Answer(c, k, msg, clk), Allowance(msg))
  {
    match c.trans[k].kind
    case Solicit =>
      AdvertiseSpends(c, k, msg, clk);
      AnswerReplySpends(c, k, msg, clk);
    case Request => AnswerReplySpends(c, k, msg, clk);
    case Renew => AnswerRenewSpends(c, k, msg, clk);
    case Rebind => AnswerReplySpends(c, k, msg, clk);
  }

  lemma DeliverSpends(c: Client, msg: Msg, clk: Clock)
    requires Limited(c.trans)
    ensures Spends(c, Deliver(c, msg, clk), Allowance(msg))
  {
    var k := FindXid(c.trans, msg.xid);
    if k >= 0 {
      AnswerSpends(c, k, Parsed(msg), clk);
    }
  }

  /** REQUESTs transmitted in the last turn of a run: by its pass, and in reaction to its message. */
  function SentInTurn(c: Client, turns: seq<Turn>): int
    requires Listed(c) && turns != []
  {
    SentIn(RunOf(c, turns[..|turns| - 1]), turns[|turns| - 1].clk) +
    Transmitted(RunOf(c, turns)) - Transmitted(BeforeMessage(c, turns))
  }

  function SentOver(c: Client, turns: seq<Turn>): int
    requires Listed(c)
  {
    if turns == [] then 0 else SentOver(c, turns[..|turns| - 1]) + SentInTurn(c, turns)
  }

  function TurnAllowance(turn: Turn): int {
    if turn.msg.Some? then Allowance(turn.msg.value) else 0
  }

  function Advertisements(turns: seq<Turn>): nat {
    if turns == [] then 0
    else Advertisements(turns[..|turns| - 1]) + if TurnAllowance(turns[|turns| - 1]) > 0 then 1 else 0
  }

  lemma TurnSpends(c: Client, turns: seq<Turn>)
    requires Listed(c) && turns != [] && Limited(RunOf(c, turns[..|turns| - 1]).trans)
    ensures SentInTurn(c, turns) <= Budget(RunOf(c, turns[..|turns| - 1])) - Budget(RunOf(c, turns)) +
                                    TurnAllowance(turns[|turns| - 1])
    ensures Limited(RunOf(c, turns).trans)
  {
    var front, turn := RunOf(c, turns[..|turns| - 1]), turns[|turns| - 1];
    RoundSpends(front, turn.pending, turn.clk);
    if turn.msg.Some? {
      DeliverSpends(BeforeMessage(c, turns), turn.msg.value, turn.arrival);
    }
  }

  lemma {:induction false} RunSpends(c: Client, turns: seq<Turn>) returns (end: Client)
    requires Listed(c) && Limited(c.trans)
    ensures end == RunOf(c, turns) && Limited(end.trans)
    ensures SentOver(c, turns) <= Budget(c) - Budget(end) + TRIES * Advertisements(turns)
  {
    if turns == [] {
      end := c;
    } else {
      var front := RunSpends(c, turns[..|turns| - 1]);
      TurnSpends(c, turns);
      end := RunOf(c, turns);
    }
  }

  /**
    Over every run whatsoever, the REQUESTs transmitted are at most TRIES for every ADVERTISE,
    counting those known at the start and those received, plus what live REQUESTs had left.
   */
  lemma RequestsAreBounded(c: Client, turns: seq<Turn>)
    requires Listed(c) && Limited(c.trans)
    ensures SentOver(c, turns) <= Budget(c) + TRIES * Advertisements(turns)
  {
    var end := RunSpends(c, turns);
    BudgetNonNegative(end);
  }

  // ---- one unanswered REQUEST ----------------------------------------------------------------------------

  /** How a chain of unanswered REQUESTs ends: the client, the further servers asked, in order,
      and the number of further transmissions. */
  datatype Outcome = Outcome(last: Client, asked: seq<Server>, sent: nat)

  predicate InChain(c: Client, k: nat) {
    k < |c.trans| && c.trans[k].kind == Request && !c.trans[k].done &&
    c.trans[k].timer.mrc == REQ_MAX_RC && 1 <= c.trans[k].timer.rc <= TRIES
  }

  /** The k-th message, a REQUEST, runs into one timeout after the other, and so do its successors. */
  function Chain(c: Client, k: nat, clks: nat -> Clock, n: nat): Outcome
    requires InChain(c, k)
    decreases |c.ads|, TRIES - c.trans[k].timer.rc
  {
    var r := Duties(c, k, clks(n));
    if c.trans[k].timer.rc < TRIES then
      var o := Chain(r, k, clks, n + 1);
      o.(sent := o.sent + 1)
    else if c.ads == [] then Outcome(r, [], 0)
    else
      var o := Chain(r, |c.trans|, clks, n + 1);
      Outcome(o.last, [SortByPreference(c.ads)[0].server] + o.asked, o.sent + 1)
  }

  function Servers(ads: seq<Advert>): seq<Server> {
    seq(|ads|, j requires 0 <= j < |ads| => ads[j].server)
  }

  lemma SortOfSorted(ads: seq<Advert>)
    requires Descending(ads)
    ensures SortByPreference(ads) == ads
  {
    SortIsDescending(ads);
    forall p: nat
      ensures OfPref(SortByPreference(ads), p) == OfPref(ads, p)
    {
      SortIsStable(ads, p);
    }
    StableOrderUnique(SortByPreference(ads), ads);
  }

  /** Sorting what is left of a sorted list changes nothing. */
  lemma SortedRest(ads: seq<Advert>)
    requires ads != []
    ensures SortByPreference(SortByPreference(ads)[1..]) == SortByPreference(ads)[1..]
  {
    SortIsDescending(ads);
    SortOfSorted(SortByPreference(ads)[1..]);
  }

  lemma ServersHead(ads: seq<Advert>)
    requires ads != []
    ensures Servers(ads) == [ads[0].server] + Servers(ads[1..])
  {
  }

  /** A timeout of a REQUEST that may still be sent to its server. */
  lemma ChainResends(c: Client, k: nat, clks: nat -> Clock, n: nat)
    requires InChain(c, k) && c.trans[k].timer.rc < TRIES
    ensures var r, o := Duties(c, k, clks(n)), Chain(c, k, clks, n);
            r == Retransmit(c, k, clks(n)) && InChain(r, k) && r.trans[k].timer.rc == c.trans[k].timer.rc + 1 &&
            o == Chain(r, k, clks, n + 1).(sent := Chain(r, k, clks, n + 1).sent + 1)
  {
  }

  /** Its last timeout while another server is known. */
  lemma ChainMovesOn(c: Client, k: nat, clks: nat -> Clock, n: nat)
    requires InChain(c, k) && c.trans[k].timer.rc == TRIES && c.ads != []
    ensures var r, o, x := Duties(c, k, clks(n)), Chain(c, k, clks, n), |c.trans|;
            InChain(r, x) && r.trans[x].timer.rc == 1 && r.trans[x].ias == c.trans[k].ias && r.trans[x].iface == c.trans[k].iface &&
            r.cfg == c.cfg && r.db == c.db && r.installed == c.installed &&
            r.ads == SortByPreference(c.ads)[1..] && |r.ads| == |c.ads| - 1 &&
            o == Outcome(Chain(r, x, clks, n + 1).last, [SortByPreference(c.ads)[0].server] + Chain(r, x, clks, n + 1).asked,
                         Chain(r, x, clks, n + 1).sent + 1)
  {
  }

  lemma {:induction false} ChainAsksInOrder(c: Client, k: nat, clks: nat -> Clock, n: nat) returns (o: Outcome)
    requires InChain(c, k)
    ensures o == Chain(c, k, clks, n) && o.asked == Servers(SortByPreference(c.ads))
    decreases |c.ads|, TRIES - c.trans[k].timer.rc
  {
    if c.trans[k].timer.rc < TRIES {
      ChainResends(c, k, clks, n);
      var p := ChainAsksInOrder(Duties(c, k, clks(n)), k, clks, n + 1);
      o := p.(sent := p.sent + 1);
    } else if c.ads != [] {
      ChainMovesOn(c, k, clks, n);
      var p := ChainAsksInOrder(Duties(c, k, clks(n)), |c.trans|, clks, n + 1);
      o := Outcome(p.last, [SortByPreference(c.ads)[0].server] + p.asked, p.sent + 1);
      SortedRest(c.ads);
      ServersHead(SortByPreference(c.ads));
    } else {
      o := Chain(c, k, clks, n);
    }
  }

  lemma OneServerMore(ads: nat)
    requires ads > 0
    ensures TRIES * (ads - 1) + TRIES == TRIES * ads
  {
  }

  lemma {:induction false} ChainSends(c: Client, k: nat, clks: nat -> Clock, n: nat) returns (o: Outcome)
    requires InChain(c, k)
    ensures o == Chain(c, k, clks, n)
    ensures o.last.ads == [] && o.sent == TRIES * |c.ads| + TRIES - c.trans[k].timer.rc
    decreases |c.ads|, TRIES - c.trans[k].timer.rc
  {
    if c.trans[k].timer.rc < TRIES {
      ChainResends(c, k, clks, n);
      var p := ChainSends(Duties(c, k, clks(n)), k, clks, n + 1);
      o := p.(sent := p.sent + 1);
    } else if c.ads != [] {
      ChainMovesOn(c, k, clks, n);
      var p := ChainSends(Duties(c, k, clks(n)), |c.trans|, clks, n + 1);
      o := Outcome(p.last, [SortByPreference(c.ads)[0].server] + p.asked, p.sent + 1);
      OneServerMore(|c.ads|);
    } else {
      o := Chain(c, k, clks, n);
    }
  }

  /**
    An unanswered REQUEST is transmitted MRC+1 times to each server: first to its own, then to
    every advertised one, once each, best preference first.
   */
  lemma ChainAsksAll(c: Client, k: nat, clks: nat -> Clock, n: nat)
    requires InChain(c, k)
    ensures var o := Chain(c, k, clks, n);
            o.asked == Servers(SortByPreference(c.ads)) && o.last.ads == [] &&
            o.sent == TRIES * |c.ads| + TRIES - c.trans[k].timer.rc
  {
    var o := ChainAsksInOrder(c, k, clks, n);
    o := ChainSends(c, k, clks, n);
  }

  /** Then its IAs are NOTCONFIGURED; nothing else in configuration, database or on interfaces changes. */
  lemma {:induction false} ChainGivesBack(c: Client, k: nat, clks: nat -> Clock, n: nat)
    requires InChain(c, k)
    ensures var last := Chain(c, k, clks, n).last;
            last.cfg == ResetCfg(c.cfg, c.trans[k].ias, c.trans[k].iface) &&
            last.db == c.db && last.installed == c.installed
    decreases |c.ads|, TRIES - c.trans[k].timer.rc
  {
    if c.trans[k].timer.rc < TRIES {
      ChainResends(c, k, clks, n);
      ChainGivesBack(Duties(c, k, clks(n)), k, clks, n + 1);
    } else if c.ads != [] {
      ChainMovesOn(c, k, clks, n);
      ChainGivesBack(Duties(c, k, clks(n)), |c.trans|, clks, n + 1);
    }
  }

  // ---- one unanswered RENEW ------------------------------------------------------------------------------

  predicate Refreshing(c: Client, k: nat) {
    k < |c.trans| && (c.trans[k].kind == Renew || c.trans[k].kind == Rebind) && !c.trans[k].done &&
    c.trans[k].timer.irt >= 1 && c.trans[k].timer.rc >= 1 && c.trans[k].timer.rt >= 1
  }

  /** How an unanswered RENEW ends: the client, the time waited as RENEW from now on, and then as
      REBIND, with the duration the REBIND started with. */
  datatype Silence = Silence(last: Client, renew: nat, rebind: nat, limit: nat)

  /** The duration of the REBIND that follows the k-th message. */
  function RebindLimit(c: Client, k: nat, now: nat): nat
    requires k < |c.trans|
  {
    LongestLeft(c.db, c.trans[k].ias, now)
  }

  /** The k-th message, a REBIND, runs into one timeout after the other. */
  function Rebinding(c: Client, k: nat, clks: nat -> Clock, n: nat): Silence
    requires Refreshing(c, k) && c.trans[k].kind == Rebind
    decreases c.trans[k].timer.mrd
  {
    var r := Duties(c, k, clks(n));
    if c.trans[k].timer.mrd > 0 then
      TransmitKeepsRunning(c.trans[k].timer, clks(n));
      var o := Rebinding(r, k, clks, n + 1);
      o.(rebind := o.rebind + r.trans[k].timer.rt)
    else Silence(r, 0, 0, 0)
  }

  /** The k-th message, a RENEW, runs into one timeout after the other, and so does its REBIND. */
  function Ignored(c: Client, k: nat, clks: nat -> Clock, n: nat): Silence
    requires Refreshing(c, k) && c.trans[k].kind == Renew
    decreases c.trans[k].timer.mrd
  {
    var r := Duties(c, k, clks(n));
    if c.trans[k].timer.mrd > 0 then
      TransmitKeepsRunning(c.trans[k].timer, clks(n));
      var o := Ignored(r, k, clks, n + 1);
      o.(renew := o.renew + r.trans[k].timer.rt)
    else
      TransmitKeepsRunning(NewTimer(10, 600, 0, RebindLimit(c, k, clks(n).now), clks(n)), clks(n));
      var o := Rebinding(r, |c.trans|, clks, n + 1);
      o.(rebind := o.rebind + r.trans[|c.trans|].timer.rt, limit := RebindLimit(c, k, clks(n).now))
  }

  /** The next timeout of a message that has some of its duration left. */
  lemma Resends(c: Client, k: nat, clk: Clock)
    requires Refreshing(c, k) && c.trans[k].timer.mrd > 0
    ensures var t, r := c.trans[k], Duties(c, k, clk);
            r == Retransmit(c, k, clk) && Refreshing(r, k) && r.trans[k].kind == t.kind && r.trans[k].ias == t.ias &&
            r.trans[k].timer.rt + r.trans[k].timer.mrd == t.timer.mrd && r.trans[k].timer.mrd < t.timer.mrd
  {
    TransmitKeepsRunning(c.trans[k].timer, clk);
  }

  /** The first timeout of a REBIND takes its share of the duration, if there is any. */
  lemma FirstWait(limit: nat, clk: Clock)
    ensures var t := Transmit(NewTimer(10, 600, 0, limit, clk), clk);
            t.rt >= 1 && (t.rt + t.mrd == limit <==> limit > 0)
  {
    TransmitKeepsRunning(NewTimer(10, 600, 0, limit, clk), clk);
  }

  lemma {:induction false} RebindingWaits(c: Client, k: nat, clks: nat -> Clock, n: nat)
    requires Refreshing(c, k) && c.trans[k].kind == Rebind
    ensures var o := Rebinding(c, k, clks, n);
            o.renew == 0 && o.rebind == c.trans[k].timer.mrd && o.limit == 0
    decreases c.trans[k].timer.mrd
  {
    if c.trans[k].timer.mrd > 0 {
      Resends(c, k, clks(n));
      RebindingWaits(Duties(c, k, clks(n)), k, clks, n + 1);
    }
  }

  /** The last timeout of a RENEW. */
  lemma Rebinds(c: Client, k: nat, clk: Clock)
    requires Refreshing(c, k) && c.trans[k].timer.mrd == 0 && c.trans[k].kind == Renew
    ensures var r, limit := Duties(c, k, clk), RebindLimit(c, k, clk.now);
            Refreshing(r, |c.trans|) && r.trans[|c.trans|].kind == Rebind && r.trans[|c.trans|].ias == c.trans[k].ias &&
            r.db == c.db && r.cfg == c.cfg && r.installed == c.installed &&
            var t := r.trans[|c.trans|].timer;
            (t.rt + t.mrd == limit <==> limit > 0)
  {
    TransmitKeepsRunning(NewTimer(10, 600, 0, RebindLimit(c, k, clk.now), clk), clk);
    FirstWait(RebindLimit(c, k, clk.now), clk);
  }

  /**
    An unanswered RENEW is retransmitted until exactly its duration is over; the REBIND that
    follows lasts exactly the longest valid lifetime its IAs had left at the hand-over, if any.
   */
  lemma {:induction false} IgnoredWaits(c: Client, k: nat, clks: nat -> Clock, n: nat)
    requires Refreshing(c, k) && c.trans[k].kind == Renew
    ensures var o := Ignored(c, k, clks, n);
            o.renew == c.trans[k].timer.mrd && (o.rebind == o.limit <==> o.limit > 0)
    decreases c.trans[k].timer.mrd
  {
    if c.trans[k].timer.mrd > 0 {
      Resends(c, k, clks(n));
      IgnoredWaits(Duties(c, k, clks(n)), k, clks, n + 1);
    } else {
      Rebinds(c, k, clks(n));
      RebindingWaits(Duties(c, k, clks(n)), |c.trans|, clks, n + 1);
    }
  }

  /** A RENEW that nobody answers is over exactly at T2, if T2 was not over when it was started. */
  lemma RenewLastsUntilT2(c: Client, ias: seq<Iaid>, clk: Clock, clks: nat -> Clock, n: nat)
    requires ias != [] && ias[0] in c.db
    ensures var r := StartRenew(c, ias, clk);
            var k, t2 := |c.trans|, T2Left(c.db[ias[0]], clk.now);
            Refreshing(r, k) && (r.trans[k].timer.rt + Ignored(r, k, clks, n).renew == t2 <==> t2 > 0)
  {
    var r := StartRenew(c, ias, clk);
    TransmitKeepsRunning(NewTimer(10, 600, 0, T2Left(c.db[ias[0]], clk.now), clk), clk);
    assert Refreshing(r, |c.trans|);
    IgnoredWaits(r, |c.trans|, clks, n);
  }

  /** Database, configuration and interfaces as after the release of some IAs. */
  predicate Released(c: Client, ias: seq<Iaid>, last: Client) {
    last.db == ReleaseAll(c, ias).db && last.cfg == ReleaseAll(c, ias).cfg && last.installed == ReleaseAll(c, ias).installed
  }

  lemma {:induction false} RebindingReleases(c: Client, k: nat, clks: nat -> Clock, n: nat)
    requires Refreshing(c, k) && c.trans[k].kind == Rebind
    ensures Released(c, c.trans[k].ias, Rebinding(c, k, clks, n).last)
    decreases c.trans[k].timer.mrd
  {
    if c.trans[k].timer.mrd > 0 {
      var r := Duties(c, k, clks(n));
      Resends(c, k, clks(n));
      RebindingReleases(r, k, clks, n + 1);
      ReleaseIgnoresTransactions(c, r, c.trans[k].ias);
    }
  }

  /** In the end its IAs are released: no address is left of them, and they wait to be discovered. */
  lemma {:induction false} IgnoredReleases(c: Client, k: nat, clks: nat -> Clock, n: nat)
    requires Refreshing(c, k) && c.trans[k].kind == Renew
    ensures Released(c, c.trans[k].ias, Ignored(c, k, clks, n).last)
    decreases c.trans[k].timer.mrd
  {
    var r := Duties(c, k, clks(n));
    if c.trans[k].timer.mrd > 0 {
      Resends(c, k, clks(n));
      IgnoredReleases(r, k, clks, n + 1);
    } else {
      Rebinds(c, k, clks(n));
      RebindingReleases(r, |c.trans|, clks, n + 1);
    }
    ReleaseIgnoresTransactions(c, r, c.trans[k].ias);
  }

  lemma {:induction false} ReleaseIgnoresTransactions(c: Client, r: Client, ias: seq<Iaid>)
    requires r.db == c.db && r.cfg == c.cfg && r.installed == c.installed
    ensures ReleaseAll(r, ias).db == ReleaseAll(c, ias).db && ReleaseAll(r, ias).cfg == ReleaseAll(c, ias).cfg &&
            ReleaseAll(r, ias).installed == ReleaseAll(c, ias).installed
  {
    if ias != [] {
      ReleaseIgnoresTransactions(c, r, ias[..|ias| - 1]);
    }
  }

  lemma {:induction false} ReleasedLeases(c: Client, ias: seq<Iaid>, i: Iaid)
    requires i in c.db
    ensures ReleaseAll(c, ias).db[i].leases == if i in ias then [] else c.db[i].leases
  {
    if ias != [] {
      ReleasedLeases(c, ias[..|ias| - 1], i);
    }
  }

  /** What a release leaves of an IA. */
  lemma ReleasedIA(c: Client, ias: seq<Iaid>, i: Iaid)
    requires i in ias && i in c.db
    ensures var r := ReleaseAll(c, ias);
            r.db[i].leases == [] && r.db[i].state == NotConfigured && (i in r.cfg ==> r.cfg[i].state == NotConfigured)
  {
    ReleasedLeases(c, ias, i);
    ReleaseAllStates(c, ias, i);
  }
}
