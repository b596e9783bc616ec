/**
  The transaction manager object (ClntTransMgr/ClntTransMgr.h): every operation changes the
  object as the step function of `Protocol` changes the client.
 */
module Manager {
  import opened Containers
  import opened Leases
  import opened LeaseDb
  import opened Advertises
  import opened Retransmission
  import opened Protocol
  import opened Soundness
  import opened TransMgr

  class ClntTransMgr {
    const ifaces: seq<CfgIface>
    const iaLst: seq<Iaid>
    const xids: nat -> nat
    const transactions: Container<Trans>
    const advertiseLst: Container<Advert>
    var cfg: map<Iaid, CfgIA>
    var db: map<Iaid, IA>
    var installed: Installed
    var created: nat
    var shutdown: bool
    var isDone: bool

    ghost predicate Valid()
      reads this, transactions, advertiseLst
    {
      transactions.Valid() && advertiseLst.Valid() && (transactions as object) != advertiseLst
    }

    function View(): Client
      reads this, transactions, advertiseLst
    {
      Client(ifaces, cfg, iaLst, db, installed, advertiseLst.items, transactions.items, xids, created)
    }

    /** `populateAddrMgr` and an empty list of transactions: the start of every run. */
    constructor (ifaces: seq<CfgIface>, iaLst: seq<Iaid>, cfg: map<Iaid, CfgIA>, db: map<Iaid, IA>, xids: nat -> nat)
      ensures Valid() && fresh(transactions) && fresh(advertiseLst)
      ensures View() == Client(ifaces, cfg, iaLst, db, multiset{}, [], [], xids, 0) && !shutdown && !isDone
    {
      this.ifaces, this.iaLst, this.cfg, this.db, this.xids := ifaces, iaLst, cfg, db, xids;
      installed, created, shutdown, isDone := multiset{}, 0, false, false;
      transactions := new Container([]);
      advertiseLst := new Container([]);
    }

    /** A cursor at the end stays at the end when a transaction is appended. */
    twostate predicate CursorKept()
      reads this, transactions
    {
      transactions.Valid() && old(transactions.cursor <= |transactions.items|) &&
      |transactions.items| >= old(|transactions.items|) &&
      transactions.cursor == if old(transactions.cursor < |transactions.items|) then old(transactions.cursor)
                             else |transactions.items|
    }

    // ---- new transactions ------------------------------------------------------------------------------

    static method FirstSend(irt: nat, mrt: nat, mrc: nat, mrd: nat, clk: Clock) returns (t: Timer)
      ensures t == Transmit(NewTimer(irt, mrt, mrc, mrd, clk), clk)
    {
      var msg := new Message(irt, mrt, mrc, mrd, clk.now);
      msg.Send(clk);
      t := msg.View();
    }

    method AppendMsg(kind: Kind, iface: IfaceId, ias: seq<Iaid>, rapid: bool, server: Option<Server>, timer: Timer, done: bool)
      requires Valid()
      modifies `created, transactions
      ensures Valid() && CursorKept()
      ensures View() == Append(old(View()), kind, iface, ias, rapid, server, timer, done)
    {
      transactions.Append(Trans(kind, xids(created), iface, ias, rapid, server, timer, done));
      created := created + 1;
    }

    /** `sendRequest` with the REQUEST constructor. */
    method SendRequest(ias: seq<Iaid>, iface: IfaceId, clk: Clock)
      requires Valid()
      modifies `cfg, `created, transactions, advertiseLst
      ensures Valid() && CursorKept()
      ensures View() == Protocol.SendRequest(old(View()), ias, iface, clk)
    {
      SortAdvertiseLst(advertiseLst);
      if advertiseLst.Count() == 0 {
        cfg := GiveBack(cfg, ias, iface);
        AppendMsg(Request, iface, [], false, None, NewTimer(1, 30, REQ_MAX_RC, 0, clk), true);
      } else {
        advertiseLst.First();
        var first := advertiseLst.Get();
        advertiseLst.DelFirst();
        var timer := FirstSend(1, 30, REQ_MAX_RC, 0, clk);
        AppendMsg(Request, iface, ias, false, Some(first.value.server), timer, false);
      }
    }

    /** `sendRebind` with the REBIND constructor. */
    method SendRebind(ias: seq<Iaid>, iface: IfaceId, clk: Clock)
      requires Valid()
      modifies `created, transactions
      ensures Valid() && CursorKept()
      ensures View() == Protocol.SendRebind(old(View()), ias, iface, clk)
    {
      var mrd := LongestValid(db, ias, clk.now);
      var timer := FirstSend(10, 600, 0, mrd, clk);
      AppendMsg(Rebind, iface, ias, false, None, timer, false);
    }

    // ---- timeouts ----------------------------------------------------------------------------------------

    /** `send` on the k-th message. */
    method Resend(k: nat, clk: Clock)
      requires Valid() && k < |transactions.items|
      modifies transactions
      ensures Valid() && CursorKept() && View() == Retransmit(old(View()), k, clk)
    {
      var t := transactions.items[k];
      transactions.Set(k, t.(timer := Transmit(t.timer, clk)));
    }

    /** `IsDone = true` on the k-th message. */
    method SetDone(k: nat)
      requires Valid() && k < |transactions.items|
      modifies transactions
      ensures Valid() && View() == Finish(old(View()), k)
      ensures transactions.cursor == old(transactions.cursor) && |transactions.items| == |old(transactions.items)|
    {
      transactions.Set(k, transactions.items[k].(done := true));
    }

    /** `releaseIA` of REBIND */
    method ReleaseOne(i: Iaid)
      requires i in db ==> DistinctAddrs(db[i].leases)
      modifies `db, `installed, `cfg
      ensures View() == ReleaseIA(old(View()), i)
    {
      if i in db {
        var ia, after := DropAll(db[i], installed);
        db, installed := db[i := ia], after;
        if i in cfg {
          cfg := cfg[i := cfg[i].(state := NotConfigured)];
        }
      }
    }

    method ReleaseMany(ias: seq<Iaid>)
      requires SoundDb(db)
      modifies `db, `installed, `cfg
      ensures View() == ReleaseAll(old(View()), ias)
    {
      for n := 0 to |ias|
        invariant View() == ReleaseAll(old(View()), ias[..n])
        invariant SoundDb(db)
      {
        Grow(ias, n);
        ReleaseOne(ias[n]);
      }
      assert ias[..|ias|] == ias;
    }

    /** `doDuties` of the k-th message. */
    method MsgDuties(k: nat, clk: Clock)
      requires Valid() && k < |transactions.items| && SoundDb(db)
      modifies `db, `installed, `cfg, `created, transactions, advertiseLst
      ensures Valid() && CursorKept() && View() == Duties(old(View()), k, clk)
    {
      var t := transactions.items[k];
      match t.kind {
        case Solicit =>
          if advertiseLst.Count() > 0 {
            SendRequest(t.ias, t.iface, clk);
            SetDone(k);
          } else {
            Resend(k, clk);
          }
        case Request =>
          if t.timer.rc > t.timer.mrc {
            SendRequest(t.ias, t.iface, clk);
            SetDone(k);
          } else {
            Resend(k, clk);
          }
        case Renew =>
          if t.timer.mrd == 0 {
            SendRebind(t.ias, t.iface, clk);
            SetDone(k);
          } else {
            Resend(k, clk);
          }
        case Rebind =>
          if t.timer.mrd == 0 {
            ReleaseMany(t.ias);
            SetDone(k);
          } else {
            Resend(k, clk);
          }
      }
    }

    /** The loop over the messages has reached the cursor, on its way to `goal`; `n` messages were
        there at its start. */
    ghost predicate Visiting(goal: Client, n: nat, clk: Clock)
      reads this, transactions, advertiseLst
    {
      Valid() && n <= |transactions.items| && SoundDb(db) &&
      (forall j :: n <= j < |transactions.items| ==> !Due(transactions.items[j], clk.now)) &&
      goal == DutiesFrom(View(), Min(transactions.cursor, n), n, clk)
    }

    /** One turn of the first loop of `doDuties`. */
    method VisitNext(clk: Clock, ghost goal: Client, ghost n: nat) returns (more: bool)
      requires Visiting(goal, n, clk)
      modifies `db, `installed, `cfg, `created, transactions, advertiseLst
      ensures Visiting(goal, n, clk) && (!more ==> transactions.cursor == |transactions.items|)
      ensures more ==> if old(transactions.cursor) < n then old(transactions.cursor) < transactions.cursor
                       else transactions.cursor == old(transactions.cursor) + 1 && transactions.items == old(transactions.items)
    {
      var msg := transactions.Get();
      more := msg.Some?;
      if more && Timeout(msg.value.timer, clk.now) == 0 && !msg.value.done {
        VisitDue(transactions.cursor - 1, clk, goal, n);
      }
    }

    /** The message just returned by the cursor is due. */
    method VisitDue(k: nat, clk: Clock, ghost goal: Client, ghost n: nat)
      requires Valid() && k < n <= |transactions.items| && transactions.cursor == k + 1 && SoundDb(db)
      requires Due(transactions.items[k], clk.now) && goal == DutiesFrom(View(), k, n, clk)
      requires forall j :: n <= j < |transactions.items| ==> !Due(transactions.items[j], clk.now)
      modifies `db, `installed, `cfg, `created, transactions, advertiseLst
      ensures Visiting(goal, n, clk) && transactions.cursor > k
    {
      DutiesKeepSound(View(), k, clk);
      NoneNewlyDue(View(), k, n, clk);
      MsgDuties(k, clk);
      assert Min(transactions.cursor, n) == k + 1;
    }

    /**
      The first loop of `doDuties`. It may reach transactions appended on the way, unless the
      cursor stood at the end; either way they are not due yet.
     */
    method DoMessages(clk: Clock)
      requires Valid() && SoundDb(db)
      modifies `db, `installed, `cfg, `created, transactions, advertiseLst
      ensures Valid() && View() == DutiesFrom(old(View()), 0, |old(transactions.items)|, clk)
      ensures SoundDb(db)
    {
      ghost var n := |transactions.items|;
      ghost var goal := DutiesFrom(View(), 0, n, clk);
      transactions.First();
      var more := true;
      while more
        invariant Visiting(goal, n, clk) && (!more ==> transactions.cursor == |transactions.items|)
        decreases more, n - Min(transactions.cursor, n), |transactions.items| - transactions.cursor
      {
        more := VisitNext(clk, goal, n);
      }
    }

    /** The second loop of `doDuties`: each deletion restarts the cursor. */
    method PurgeDone()
      requires Valid()
      modifies transactions
      ensures Valid() && View() == Purge(old(View()))
    {
      KeepLive(transactions);
    }

    // ---- expiry ------------------------------------------------------------------------------------------

    /** `removeExpired`, then `TClntAddrMgr::doDuties`, at the same instant. */
    method Expire(now: nat)
      requires Valid() && NoDup(iaLst) && Listed(View()) && SoundDb(db)
      modifies `db, `installed
      ensures Valid() && View() == ExpireDb(RemoveExpired(old(View()), now), now)
    {
      installed := RemoveAllDead(db, iaLst, now, installed);
      db := ExpireAll(db, iaLst, now);
    }

    // ---- periodic checks -----------------------------------------------------------------------------------

    /** The loop body of `checkSolicit`, with the SOLICIT constructor. */
    method CheckIface(f: CfgIface, clk: Clock)
      requires Valid()
      modifies `cfg, `db, `created, transactions
      ensures Valid() && View() == SolicitOn(old(View()), f, clk)
    {
      if f.noConfig {
        return;
      }
      var waiting := Waiting(cfg, f.ias);
      if waiting != [] {
        cfg := MarkConfig(cfg, waiting, InProcess);
        db := MarkDatabase(db, waiting, InProcess);
        var timer := FirstSend(1, 120, 0, 0, clk);
        AppendMsg(Solicit, f.id, waiting, f.rapid, None, timer, false);
      }
    }

    method CheckSolicit(clk: Clock)
      requires Valid()
      modifies `cfg, `db, `created, transactions
      ensures Valid() && View() == Protocol.CheckSolicit(old(View()), ifaces, clk)
    {
      for n := 0 to |ifaces|
        invariant Valid() && View() == Protocol.CheckSolicit(old(View()), ifaces[..n], clk)
      {
        Grow(ifaces, n);
        CheckIface(ifaces[n], clk);
      }
      assert ifaces[..|ifaces|] == ifaces;
    }

    /** `checkRenew` with the RENEW constructor. */
    method CheckRenew(pending: set<Iaid>, clk: Clock)
      requires Valid() && NoDup(iaLst) && Listed(View())
      modifies `db, `created, transactions
      ensures Valid() && View() == Protocol.CheckRenew(old(View()), pending, clk)
    {
      var ts := GetT1Timeout(db, iaLst, clk.now);
      if ts > 0 {
        return;
      }
      var picked, marked := PickForRenew(db, iaLst, clk.now, pending);
      if picked != [] {
        var first := db[picked[0]];
        db := marked;
        var timer := FirstSend(10, 600, 0, T2Left(first, clk.now), clk);
        AppendMsg(Renew, first.iface, picked, false, first.server, timer, false);
      }
    }

    /** First half of `doDuties`. */
    method SettleAll(clk: Clock)
      requires Valid() && NoDup(iaLst) && Listed(View()) && SoundDb(db)
      modifies `db, `installed, `cfg, `created, transactions, advertiseLst
      ensures Valid() && View() == Settle(old(View()), clk)
    {
      DoMessages(clk);
      PurgeDone();
      Expire(clk.now);
    }

    /** Second half of `doDuties`. */
    method CheckAll(pending: set<Iaid>, clk: Clock)
      requires Valid() && NoDup(iaLst) && Listed(View())
      modifies `cfg, `db, `created, transactions
      ensures Valid() && View() == Check(old(View()), pending, clk)
    {
      CheckSolicit(clk);
      CheckRenew(pending, clk);
    }

    /** `doDuties`. With `shutdown` set, no new transactions are started. */
    method DoDuties(pending: set<Iaid>, clk: Clock)
      requires Valid() && NoDup(iaLst) && Listed(View()) && SoundDb(db)
      modifies `db, `installed, `cfg, `created, `isDone, transactions, advertiseLst
      ensures Valid()
      ensures View() == if old(shutdown || isDone) then Settle(old(View()), clk) else Round(old(View()), pending, clk)
      ensures isDone == (old(isDone) || (shutdown && transactions.items == []))
    {
      SettleAll(clk);
      if !shutdown && !isDone {
        CheckAll(pending, clk);
      }
      if shutdown && transactions.Count() == 0 {
        isDone := true;
      }
    }

    /** `getTimeout` */
    method GetTimeout(out: Outside, now: nat) returns (timeout: nat)
      requires Valid() && Listed(View())
      modifies transactions
      ensures Valid() && View() == old(View())
      ensures timeout == if isDone then 0 else SleepTime(View(), out, now)
    {
      if isDone {
        return 0;
      }
      timeout := GetT1Timeout(db, iaLst, now);
      var t := GetT2Timeout(db, iaLst, now);
      timeout := Min(timeout, t);
      t := GetPrefTimeout(db, iaLst, now);
      timeout := Min(timeout, t);
      t := GetValidTimeout(db, iaLst, now);
      timeout := Min(Min(Min(timeout, t), out.tentative), out.options);
      t := GetMsgTimeout(now);
      timeout := Min(timeout, t);
      if out.inactive {
        timeout := Min(timeout, INACTIVE_MODE_INTERVAL);
      }
    }

    method GetMsgTimeout(now: nat) returns (t: nat)
      requires Valid()
      modifies transactions
      ensures Valid() && View() == old(View()) && t == MsgTimeout(transactions.items, now)
    {
      t := LeastTimeout(transactions, now);
    }

    // ---- received messages -----------------------------------------------------------------------------------

    /** `TClntOptIA_NA::doDuties`: finds the IA and merges what was received. */
    method MergeReceived(r: RecvIA, iface: IfaceId, server: Option<Server>, now: nat)
      modifies `db, `installed, `cfg
      ensures View() == MergeIA(old(View()), r, iface, server, now)
    {
      if r.iaid in db {
        var ia := new AddrIA.Load(db[r.iaid]);
        installed := ia.Merge(r, server, iface, now, installed);
        db := db[r.iaid := ia.View()];
        if r.iaid in cfg {
          cfg := cfg[r.iaid := cfg[r.iaid].(state := Configured)];
        }
      }
    }

    /** The option loop of `TClntMsg::answer`. */
    method GrantAll(k: nat, msg: Msg, now: nat)
      requires Valid() && k < |transactions.items|
      modifies `db, `installed, `cfg, transactions
      ensures Valid() && CursorKept()
      ensures var t := old(transactions.items[k]);
              View() == SetIAs(MergeAll(old(View()), msg.ias, t.iface, Some(msg.server), now), k, Leftover(t.ias, msg.ias))
    {
      ghost var before := View();
      var t := transactions.items[k];
      var left := t.ias;
      for n := 0 to |msg.ias|
        invariant Valid() && transactions.items == before.trans && transactions.cursor == old(transactions.cursor)
        invariant View() == MergeAll(before, msg.ias[..n], t.iface, Some(msg.server), now)
        invariant left == Leftover(t.ias, msg.ias[..n])
      {
        Grow(msg.ias, n);
        if msg.ias[n].status == STATUS_SUCCESS {
          MergeReceived(msg.ias[n], t.iface, Some(msg.server), now);
          left := EraseIA(left, msg.ias[n].iaid);
        }
      }
      assert msg.ias[..|msg.ias|] == msg.ias;
      transactions.Set(k, t.(ias := left));
    }

    /** `TClntMsg::answer` */
    method AnswerReply(k: nat, msg: Msg, clk: Clock)
      requires Valid() && k < |transactions.items|
      modifies `db, `installed, `cfg, `created, transactions, advertiseLst
      ensures Valid() && View() == Protocol.AnswerReply(old(View()), k, msg, clk)
    {
      GrantAll(k, msg, clk.now);
      var t := transactions.items[k];
      if t.ias != [] {
        SendRequest(t.ias, t.iface, clk);
      }
      SetDone(k);
    }

    /** The option loop of `TClntMsgRenew::answer`, up to an IA without binding. */
    method RenewAll(k: nat, msg: Msg, now: nat) returns (n: nat)
      requires Valid() && k < |transactions.items|
      modifies `db, `installed, `cfg
      ensures Valid() && n <= |msg.ias| && (forall j :: 0 <= j < n ==> msg.ias[j].status != STATUS_NOBINDING)
      ensures n < |msg.ias| ==> msg.ias[n].status == STATUS_NOBINDING
      ensures var t := transactions.items[k];
              View() == MergeAll(old(View()), msg.ias[..n], t.iface, t.server, now)
    {
      var t := transactions.items[k];
      n := 0;
      while n < |msg.ias| && msg.ias[n].status != STATUS_NOBINDING
        invariant Valid() && n <= |msg.ias| && View() == MergeAll(old(View()), msg.ias[..n], t.iface, t.server, now)
        invariant forall j :: 0 <= j < n ==> msg.ias[j].status != STATUS_NOBINDING
      {
        Grow(msg.ias, n);
        if msg.ias[n].status == STATUS_SUCCESS {
          MergeReceived(msg.ias[n], t.iface, t.server, now);
        }
        n := n + 1;
      }
    }

    /** `TClntMsgRenew::answer` */
    method AnswerRenew(k: nat, msg: Msg, clk: Clock)
      requires Valid() && k < |transactions.items|
      modifies `db, `installed, `cfg, `created, transactions, advertiseLst
      ensures Valid() && View() == Protocol.AnswerRenew(old(View()), k, msg, clk)
    {
      var t := transactions.items[k];
      var n := RenewAll(k, msg, clk.now);
      BeforeIs(msg.ias, n);
      if n < |msg.ias| {
        SendRequest(t.ias, t.iface, clk);
      }
      SetDone(k);
    }

    /** `TClntMsgSolicit::answer` */
    method AnswerSolicit(k: nat, msg: Msg, clk: Clock)
      requires Valid() && k < |transactions.items| && transactions.items[k].kind == Solicit
      modifies `db, `installed, `cfg, `created, transactions, advertiseLst
      ensures Valid() && View() == Protocol.Answer(old(View()), k, msg, clk)
    {
      var t := transactions.items[k];
      if Rejects(t, msg) {
        return;
      }
      if msg.kind == Advertise {
        advertiseLst.Append(Advert(msg.pref, msg.server));
        if msg.pref == 255 || t.timer.rc > 1 {
          SendRequest(t.ias, t.iface, clk);
          SetDone(k);
        }
      } else if msg.kind == Reply && t.rapid && msg.rapid {
        AnswerReply(k, msg, clk);
      }
    }

    /** `handleResponse` */
    method Answer(k: nat, msg: Msg, clk: Clock)
      requires Valid() && k < |transactions.items|
      modifies `db, `installed, `cfg, `created, transactions, advertiseLst
      ensures Valid() && View() == Protocol.Answer(old(View()), k, msg, clk)
    {
      match transactions.items[k].kind {
        case Solicit => AnswerSolicit(k, msg, clk);
        case Request =>
          if !msg.notOnLink {
            AnswerReply(k, msg, clk);
          }
        case Renew => AnswerRenew(k, msg, clk);
        case Rebind => AnswerReply(k, msg, clk);
      }
    }

    /** The search of `relayMsg`: the cursor stops behind the first transaction of that identifier. */
    method FindQuestion(xid: nat) returns (found: bool)
      requires Valid()
      modifies transactions
      ensures Valid() && View() == old(View())
      ensures if found then transactions.cursor == FindXid(transactions.items, xid) + 1 && transactions.cursor > 0
              else FindXid(transactions.items, xid) == -1
    {
      transactions.First();
      while true
        invariant Valid() && View() == old(View())
        invariant forall j :: 0 <= j < transactions.cursor ==> transactions.items[j].xid != xid
        decreases |transactions.items| - transactions.cursor
      {
        var question := transactions.Get();
        if question.None? {
          return false;
        }
        if question.value.xid == xid {
          FirstXid(transactions.items, xid, transactions.cursor - 1);
          return true;
        }
      }
    }

    /** `relayMsg` */
    method RelayMsg(msg: Msg, clk: Clock)
      requires Valid()
      modifies `db, `installed, `cfg, `created, transactions, advertiseLst
      ensures Valid() && View() == Deliver(old(View()), msg, clk)
    {
      var ias := ParseIAs(msg.ias);
      var found := FindQuestion(msg.xid);
      if found {
        Answer(transactions.cursor - 1, msg.(ias := ias), clk);
      }
    }
  }
}
