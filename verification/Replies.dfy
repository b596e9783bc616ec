/**
  What a received message does to the ownership of IAs: exactly when the invariant survives, and
  that no requested IA is lost. The main result is over whole runs of the client.
 */
module Replies {
  import opened Containers
  import opened Leases
  import opened Advertises
  import opened Retransmission
  import opened Protocol
  import opened Ownership

  // ---- what a reply grants ---------------------------------------------------------------------------

  /** The received IAs contain one of that identifier with status success. */
  predicate Granted(ias: seq<RecvIA>, i: Iaid) {
    exists j :: 0 <= j < |ias| && ias[j].iaid == i && ias[j].status == STATUS_SUCCESS
  }

  lemma GrantedSnoc(ias: seq<RecvIA>, i: Iaid)
    requires ias != []
    ensures var last := ias[|ias| - 1];
            Granted(ias, i) <==> Granted(ias[..|ias| - 1], i) || (last.iaid == i && last.status == STATUS_SUCCESS)
  {
    var front := ias[..|ias| - 1];
    if Granted(front, i) {
      var j :| 0 <= j < |front| && front[j].iaid == i && front[j].status == STATUS_SUCCESS;
      assert ias[j] == front[j];
    }
    if Granted(ias, i) {
      var j :| 0 <= j < |ias| && ias[j].iaid == i && ias[j].status == STATUS_SUCCESS;
      assert j < |front| ==> front[j] == ias[j];
    }
  }

  /** Known IAs that are granted become CONFIGURED in database and configuration; nothing else
      about states or places changes. */
  lemma {:induction false} MergeAllStates(c: Client, ias: seq<RecvIA>, iface: IfaceId, server: Option<Server>, now: nat, i: Iaid)
    ensures var r := MergeAll(c, ias, iface, server, now);
            (i in r.cfg ==> r.cfg[i] == if Granted(ias, i) && i in c.db then c.cfg[i].(state := Configured) else c.cfg[i]) &&
            (i in r.db ==> r.db[i].state == (if Granted(ias, i) then Configured else c.db[i].state) &&
                           r.db[i].iaid == c.db[i].iaid && r.db[i].iface == c.db[i].iface)
  {
    if ias != [] {
      GrantedSnoc(ias, i);
      MergeAllStates(c, ias[..|ias| - 1], iface, server, now, i);
    }
  }

  // ---- what a reply leaves to ask for ----------------------------------------------------------------

  lemma {:induction false} FilterWithout(s: seq<Iaid>, p: Iaid -> bool, q: Iaid -> bool, x: Iaid)
    requires NoDup(s) && forall i :: q(i) <==> p(i) && i != x
    ensures RemoveFirst(Filter(s, p), x) == Filter(s, q)
  {
    if s != [] {
      var front, last := s[..|s| - 1], s[|s| - 1];
      FilterWithout(front, p, q, x);
      if last == x {
        FilterSame(front, p, q);
      }
    }
  }

  lemma {:induction false} FilterSame(s: seq<Iaid>, p: Iaid -> bool, q: Iaid -> bool)
    requires forall i :: i in s ==> p(i) == q(i)
    ensures Filter(s, p) == Filter(s, q)
  {
    if s != [] {
      FilterSame(s[..|s| - 1], p, q);
    }
  }

  /** What is left is what was asked for and not granted, in the order asked. */
  lemma {:induction false} LeftoverExact(asked: seq<Iaid>, ias: seq<RecvIA>)
    requires NoDup(asked)
    ensures Leftover(asked, ias) == Filter(asked, (i: Iaid) => !Granted(ias, i))
  {
    if ias == [] {
      FilterAll(asked, (i: Iaid) => !Granted(ias, i));
    } else {
      var front, last := ias[..|ias| - 1], ias[|ias| - 1];
      LeftoverExact(asked, front);
      forall i {
        GrantedSnoc(ias, i);
      }
      if last.status == STATUS_SUCCESS {
        FilterWithout(asked, (i: Iaid) => !Granted(front, i), (i: Iaid) => !Granted(ias, i), last.iaid);
      } else {
        FilterSame(asked, (i: Iaid) => !Granted(front, i), (i: Iaid) => !Granted(ias, i));
      }
    }
  }

  lemma {:induction false} LeftoverWasAsked(asked: seq<Iaid>, ias: seq<RecvIA>, i: Iaid)
    requires i in Leftover(asked, ias)
    ensures i in asked
  {
    if ias != [] {
      var front := Leftover(asked, ias[..|ias| - 1]);
      if i !in front {
        RemoveFirstShrinks(front, ias[|ias| - 1].iaid, i);
      }
      LeftoverWasAsked(asked, ias[..|ias| - 1], i);
    }
  }

  lemma {:induction false} RemoveFirstShrinks(s: seq<Iaid>, x: Iaid, i: Iaid)
    requires i in RemoveFirst(s, x)
    ensures i in s
  {
    if s != [] && i !in s[..|s| - 1] && x in s[..|s| - 1] && i != s[|s| - 1] {
      RemoveFirstShrinks(s[..|s| - 1], x, i);
    }
  }

  lemma HeldOnce(c: Client, k: nat)
    requires Core(c) && k < |c.trans| && !c.trans[k].done
    ensures NoDup(c.trans[k].ias)
  {
    forall i
      ensures Occurs(c.trans[k].ias, i) <= 1
    {
      assert Exclusive(c, i);
      HoldersUpdate(c.trans, k, c.trans[k], i);
    }
    OccursNoDup(c.trans[k].ias);
  }

  lemma LeftoverOccurs(asked: seq<Iaid>, ias: seq<RecvIA>, i: Iaid)
    requires NoDup(asked)
    ensures Occurs(Leftover(asked, ias), i) == if Granted(ias, i) then 0 else Occurs(asked, i)
  {
    LeftoverExact(asked, ias);
    FilterNoDup(asked, (i: Iaid) => !Granted(ias, i));
    NoDupOccurs(asked, i);
    NoDupOccurs(Leftover(asked, ias), i);
  }

  // ---- configuring what is granted ---------------------------------------------------------------------

  /** The step of `answer` that configures the granted IAs and takes them off the request. */
  function Grant(c: Client, k: nat, msg: Msg, now: nat): Client
    requires k < |c.trans|
  {
    var t := c.trans[k];
    SetIAs(MergeAll(c, msg.ias, t.iface, Some(msg.server), now), k, Leftover(t.ias, msg.ias))
  }

  lemma GrantHolders(c: Client, k: nat, msg: Msg, now: nat, i: Iaid)
    requires Core(c) && k < |c.trans| && !c.trans[k].done
    ensures Holders(Grant(c, k, msg, now).trans, i) ==
            if Granted(msg.ias, i) then Others(c, k, i) else Holders(c.trans, i)
  {
    HeldOnce(c, k);
    LeftoverOccurs(c.trans[k].ias, msg.ias, i);
    HoldersUpdate(c.trans, k, c.trans[k].(ias := Leftover(c.trans[k].ias, msg.ias)), i);
  }

  lemma OthersBounds(c: Client, k: nat, i: Iaid)
    requires k < |c.trans|
    ensures 0 <= Others(c, k, i) <= Holders(c.trans, i)
  {
    HoldersUpdate(c.trans, k, c.trans[k], i);
  }

  /** States that may only move towards CONFIGURED keep every transaction in its place. */
  lemma StillPlaced(cfg: map<Iaid, CfgIA>, after: map<Iaid, CfgIA>, t: Trans)
    requires Placed(cfg, t)
    requires forall i :: i in cfg ==> i in after && after[i].iface == cfg[i].iface &&
                                      (cfg[i].state != InProcess ==> after[i].state != InProcess)
    ensures Placed(after, t)
  {
  }

  lemma MergeKeepsPlaces(c: Client, ias: seq<RecvIA>, iface: IfaceId, server: Option<Server>, now: nat)
    requires AllPlaced(c.cfg, c.trans)
    ensures AllPlaced(MergeAll(c, ias, iface, server, now).cfg, c.trans)
  {
    var r := MergeAll(c, ias, iface, server, now);
    forall i | i in c.cfg
      ensures i in r.cfg && r.cfg[i].iface == c.cfg[i].iface && (c.cfg[i].state != InProcess ==> r.cfg[i].state != InProcess)
    {
      MergeAllStates(c, ias, iface, server, now, i);
    }
    forall k | 0 <= k < |c.trans|
      ensures Placed(r.cfg, c.trans[k])
    {
      StillPlaced(c.cfg, r.cfg, c.trans[k]);
    }
  }

  lemma MergeKeepsWellFormed(c: Client, ias: seq<RecvIA>, iface: IfaceId, server: Option<Server>, now: nat)
    requires WellFormed(c)
    ensures WellFormed(MergeAll(c, ias, iface, server, now))
  {
    forall i {
      MergeAllStates(c, ias, iface, server, now, i);
    }
    ShapeKeepsWellFormed(c, MergeAll(c, ias, iface, server, now));
  }

  lemma GrantKeepsPlaces(c: Client, k: nat, msg: Msg, now: nat)
    requires Core(c) && k < |c.trans| && !c.trans[k].done
    ensures AllPlaced(Grant(c, k, msg, now).cfg, Grant(c, k, msg, now).trans)
  {
    MergeKeepsPlaces(c, msg.ias, c.trans[k].iface, Some(msg.server), now);
    HeldOnce(c, k);
    LeftoverExact(c.trans[k].ias, msg.ias);
  }

  /** Granting keeps holders exclusive; an IA it configures stays idle if nobody else holds it. */
  lemma GrantKeeps(c: Client, k: nat, msg: Msg, now: nat, i: Iaid)
    requires Core(c) && c.cfg.Keys == c.db.Keys && Idle(c, i) && k < |c.trans| && !c.trans[k].done
    ensures Exclusive(Grant(c, k, msg, now), i)
    ensures Idle(Grant(c, k, msg, now), i) <==> (i in c.db && Granted(msg.ias, i) ==> Others(c, k, i) == 0)
  {
    assert Exclusive(c, i);
    MergeAllStates(c, msg.ias, c.trans[k].iface, Some(msg.server), now, i);
    GrantHolders(c, k, msg, now, i);
    OthersBounds(c, k, i);
  }

  /** A transaction that ends without handing anything on keeps exclusive what it held of
      configured IAs. */
  lemma FinishIdle(c: Client, k: nat, i: Iaid)
    requires k < |c.trans| && !(i in c.trans[k].ias)
    ensures Exclusive(c, i) ==> Exclusive(Finish(c, k), i)
    ensures Idle(Finish(c, k), i) <==> Idle(c, i)
  {
    FinishHolders(c, k, i);
  }

  lemma HandOverIdle(c: Client, k: nat, clk: Clock, i: Iaid)
    requires k < |c.trans| && !c.trans[k].done && !(i in c.trans[k].ias)
    ensures Idle(HandOver(c, k, clk), i) <==> Idle(c, i)
  {
    HandOverHolders(c, k, clk, i);
  }

  /**
    A reply loses no IA: the answered transaction ends, and the IAs it asked for and did not get
    are, each once and in order, those of a new REQUEST to the best server left; without one they
    wait to be discovered again.
   */
  lemma NoIALost(c: Client, k: nat, msg: Msg, clk: Clock)
    requires Core(c) && k < |c.trans| && !c.trans[k].done
    ensures var r := AnswerReply(c, k, msg, clk);
            var left := Filter(c.trans[k].ias, (i: Iaid) => !Granted(msg.ias, i));
            r.trans[k].done && NoDup(left) &&
            (left == [] ==> |r.trans| == |c.trans| && r.ads == c.ads) &&
            (left != [] ==>
               |r.trans| == |c.trans| + 1 && r.trans[|c.trans|].kind == Request &&
               if c.ads == [] then r.trans[|c.trans|].done && (forall i :: i in left ==> r.cfg[i].state == NotConfigured)
               else !r.trans[|c.trans|].done && r.trans[|c.trans|].ias == left &&
                    r.trans[|c.trans|].server == Some(SortByPreference(c.ads)[0].server) &&
                    r.ads == SortByPreference(c.ads)[1..])
  {
    HeldOnce(c, k);
    LeftoverExact(c.trans[k].ias, msg.ias);
    FilterNoDup(c.trans[k].ias, (i: Iaid) => !Granted(msg.ias, i));
    assert Placed(c.cfg, c.trans[k]);
    forall i | i in Leftover(c.trans[k].ias, msg.ias)
      ensures var m := MergeAll(c, msg.ias, c.trans[k].iface, Some(msg.server), clk.now);
              i in m.cfg && m.cfg[i].iface == c.trans[k].iface
    {
      MergeAllStates(c, msg.ias, c.trans[k].iface, Some(msg.server), clk.now, i);
    }
  }

  // ---- TClntMsg::answer ----------------------------------------------------------------------------------

  /** Nobody but the answered transaction holds a known IA that the message grants. */
  ghost predicate OnlyOwn(c: Client, k: nat, ias: seq<RecvIA>)
    requires k < |c.trans|
  {
    forall i :: i in c.db && Granted(ias, i) ==> Others(c, k, i) == 0
  }

  lemma GrantKeepsAll(c: Client, k: nat, msg: Msg, now: nat)
    requires Owned(c) && k < |c.trans| && !c.trans[k].done
    ensures var g := Grant(c, k, msg, now);
            WellFormed(g) && Core(g) && (AllIdle(g) <==> OnlyOwn(c, k, msg.ias))
  {
    var t, g := c.trans[k], Grant(c, k, msg, now);
    MergeKeepsWellFormed(c, msg.ias, t.iface, Some(msg.server), now);
    OnlyTransactionsChange(MergeAll(c, msg.ias, t.iface, Some(msg.server), now), g);
    GrantKeepsPlaces(c, k, msg, now);
    forall i
      ensures Exclusive(g, i)
      ensures Idle(g, i) <==> (i in c.db && Granted(msg.ias, i) ==> Others(c, k, i) == 0)
    {
      assert Idle(c, i);
      GrantKeeps(c, k, msg, now, i);
    }
  }

  lemma AnswerReplyKeeps(c: Client, k: nat, msg: Msg, clk: Clock)
    requires Owned(c) && k < |c.trans| && !c.trans[k].done
    ensures var r := AnswerReply(c, k, msg, clk);
            WellFormed(r) && Core(r) && (AllIdle(r) <==> OnlyOwn(c, k, msg.ias))
  {
    var g, r := Grant(c, k, msg, clk.now), AnswerReply(c, k, msg, clk);
    GrantKeepsAll(c, k, msg, clk.now);
    if g.trans[k].ias == [] {
      assert r == Finish(g, k);
      FinishKeeps(g, k);
    } else {
      assert r == HandOver(g, k, clk);
      HandOverKeepsCore(g, k, clk);
      HandOverKeepsWellFormed(g, k, clk);
      HandOverIdleIff(c, k, msg, clk);
    }
  }

  /** Ending a transaction that holds nothing any more changes nothing. */
  lemma FinishKeeps(c: Client, k: nat)
    requires WellFormed(c) && Core(c) && k < |c.trans| && c.trans[k].ias == []
    ensures var r := Finish(c, k);
            WellFormed(r) && Core(r) && (AllIdle(r) <==> AllIdle(c))
  {
    var r := Finish(c, k);
    OnlyTransactionsChange(c, r);
    forall i
      ensures Exclusive(r, i) && (Idle(r, i) <==> Idle(c, i))
    {
      assert Exclusive(c, i);
      FinishIdle(c, k, i);
    }
  }

  /** Handing over what is left to ask for decides nothing about the granted IAs. */
  lemma HandOverIdleIff(c: Client, k: nat, msg: Msg, clk: Clock)
    requires Owned(c) && k < |c.trans| && !c.trans[k].done
    ensures AllIdle(HandOver(Grant(c, k, msg, clk.now), k, clk)) <==> OnlyOwn(c, k, msg.ias)
  {
    var g := Grant(c, k, msg, clk.now);
    GrantKeepsAll(c, k, msg, clk.now);
    if AllIdle(g) {
      HandOverKeepsIdle(g, k, clk);
    } else {
      var i :| i in c.db && Granted(msg.ias, i) && Others(c, k, i) != 0;
      assert Idle(c, i);
      GrantKeeps(c, k, msg, clk.now, i);
      HeldOnce(c, k);
      LeftoverExact(c.trans[k].ias, msg.ias);
      HandOverIdle(g, k, clk, i);
    }
  }

  // ---- TClntMsgRenew::answer -------------------------------------------------------------------------------

  /** After an IA without binding, the RENEW hands all its IAs to another server, also those
      that it has just configured. */
  ghost predicate NoneHandedOn(c: Client, k: nat, ias: seq<RecvIA>)
    requires k < |c.trans|
  {
    |BeforeNoBinding(ias)| == |ias| || c.ads == [] || forall i :: i in c.db && Granted(BeforeNoBinding(ias), i) ==> i !in c.trans[k].ias
  }

  /** What `TClntMsgRenew::answer` configures before it stops. */
  function Renewed(c: Client, k: nat, msg: Msg, now: nat): Client
    requires k < |c.trans|
  {
    MergeAll(c, BeforeNoBinding(msg.ias), c.trans[k].iface, c.trans[k].server, now)
  }

  lemma RenewedKeepsCore(c: Client, k: nat, msg: Msg, now: nat)
    requires Owned(c) && k < |c.trans|
    ensures WellFormed(Renewed(c, k, msg, now)) && Core(Renewed(c, k, msg, now))
  {
    var b, t, g := BeforeNoBinding(msg.ias), c.trans[k], Renewed(c, k, msg, now);
    MergeKeepsWellFormed(c, b, t.iface, t.server, now);
    MergeKeepsPlaces(c, b, t.iface, t.server, now);
    forall i
      ensures Exclusive(g, i)
    {
      assert Exclusive(c, i);
      MergeAllStates(c, b, t.iface, t.server, now, i);
    }
  }

  lemma FinishRenewKeepsCore(c: Client, k: nat)
    requires WellFormed(c) && Core(c) && k < |c.trans| && !c.trans[k].done && c.trans[k].kind == Renew
    ensures WellFormed(Finish(c, k)) && Core(Finish(c, k))
  {
    OnlyTransactionsChange(c, Finish(c, k));
    forall i
      ensures Exclusive(Finish(c, k), i)
    {
      assert Exclusive(c, i) && Placed(c.cfg, c.trans[k]);
      FinishHolders(c, k, i);
      OthersBounds(c, k, i);
    }
  }

  lemma RenewIdle(c: Client, k: nat, msg: Msg, clk: Clock, i: Iaid)
    requires Owned(c) && k < |c.trans| && !c.trans[k].done && c.trans[k].kind == Renew
    ensures var b := BeforeNoBinding(msg.ias);
            Idle(AnswerRenew(c, k, msg, clk), i) <==>
            (i in c.db && Granted(b, i) ==>
               Others(c, k, i) == 0 && (|b| == |msg.ias| || c.ads == [] || i !in c.trans[k].ias))
  {
    var b, t, g := BeforeNoBinding(msg.ias), c.trans[k], Renewed(c, k, msg, clk.now);
    MergeAllStates(c, b, t.iface, t.server, clk.now, i);
    OthersBounds(c, k, i);
    assert Idle(c, i);
    if |b| < |msg.ias| {
      assert AnswerRenew(c, k, msg, clk) == HandOver(g, k, clk);
      HandOverHolders(g, k, clk, i);
    } else {
      FinishHolders(g, k, i);
    }
  }

  lemma AnswerRenewKeeps(c: Client, k: nat, msg: Msg, clk: Clock)
    requires Owned(c) && k < |c.trans| && !c.trans[k].done && c.trans[k].kind == Renew
    ensures var r := AnswerRenew(c, k, msg, clk);
            WellFormed(r) && Core(r) &&
            (AllIdle(r) <==> OnlyOwn(c, k, BeforeNoBinding(msg.ias)) && NoneHandedOn(c, k, msg.ias))
  {
    var g, r := Renewed(c, k, msg, clk.now), AnswerRenew(c, k, msg, clk);
    RenewedKeepsCore(c, k, msg, clk.now);
    if |BeforeNoBinding(msg.ias)| < |msg.ias| {
      assert r == HandOver(g, k, clk);
      HandOverKeepsCore(g, k, clk);
      HandOverKeepsWellFormed(g, k, clk);
    } else {
      assert r == Finish(g, k);
      FinishRenewKeepsCore(g, k);
    }
    RenewIdleIff(c, k, msg, clk);
  }

  lemma RenewIdleIff(c: Client, k: nat, msg: Msg, clk: Clock)
    requires Owned(c) && k < |c.trans| && !c.trans[k].done && c.trans[k].kind == Renew
    ensures AllIdle(AnswerRenew(c, k, msg, clk)) <==>
            OnlyOwn(c, k, BeforeNoBinding(msg.ias)) && NoneHandedOn(c, k, msg.ias)
  {
    var r := AnswerRenew(c, k, msg, clk);
    forall i {
      RenewIdle(c, k, msg, clk, i);
    }
    if AllIdle(r) {
      forall i | i in c.db && Granted(BeforeNoBinding(msg.ias), i)
        ensures Others(c, k, i) == 0
        ensures |BeforeNoBinding(msg.ias)| == |msg.ias| || c.ads == [] || i !in c.trans[k].ias
      {
        assert Idle(r, i);
      }
    }
  }
}
