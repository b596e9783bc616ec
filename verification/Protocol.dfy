/**
  The client's transactions as steps (ClntTransMgr/ClntTransMgr.cpp and the message classes in
  ClntMessages): SOLICIT, REQUEST, RENEW and REBIND for non-temporary addresses. Every function
  maps the state before a step to the state after it.
 */
module Protocol {
  import opened Containers
  import opened Leases
  import opened Advertises
  import opened Retransmission

  const REQ_MAX_RC: nat := 10

  datatype Kind = Solicit | Request | Renew | Rebind

  /** A transaction: the message being retransmitted, with the IAs among its options. */
  datatype Trans = Trans(kind: Kind, xid: nat, iface: IfaceId, ias: seq<Iaid>, rapid: bool,
                         server: Option<Server>, timer: Timer, done: bool)

  /** The configured state of an IA, and an interface with its configured IAs. */
  datatype CfgIA = CfgIA(iface: IfaceId, state: EState)
  datatype CfgIface = CfgIface(id: IfaceId, noConfig: bool, rapid: bool, ias: seq<Iaid>)

  datatype MsgType = Advertise | Reply | Other

  /** A received message. `rejected`: the server is on the interface's reject list. */
  datatype Msg = Msg(kind: MsgType, xid: nat, server: Server, pref: nat, rapid: bool,
                     notOnLink: bool, rejected: bool, ias: seq<RecvIA>)

  /** The whole client. `xids` are the transaction identifiers that rand() yields, in order. */
  datatype Client = Client(
    ifaces: seq<CfgIface>,
    cfg: map<Iaid, CfgIA>,
    iaList: seq<Iaid>,
    db: map<Iaid, IA>,
    installed: Installed,
    ads: seq<Advert>,
    trans: seq<Trans>,
    xids: nat -> nat,
    created: nat)

  /** The parts that no step changes. */
  predicate SameShape(c: Client, r: Client) {
    r.ifaces == c.ifaces && r.iaList == c.iaList && r.db.Keys == c.db.Keys && r.cfg.Keys == c.cfg.Keys
  }

  // ---- small steps -----------------------------------------------------------------------------

  function MarkCfg(cfg: map<Iaid, CfgIA>, ids: seq<Iaid>, s: EState): map<Iaid, CfgIA> {
    map i | i in cfg :: if i in ids then cfg[i].(state := s) else cfg[i]
  }

  function MarkDb(db: map<Iaid, IA>, ids: seq<Iaid>, s: EState): map<Iaid, IA> {
    map i | i in db :: if i in ids then db[i].(state := s) else db[i]
  }

  /** `setState`: the requested IAs that the interface has. */
  function ResetCfg(cfg: map<Iaid, CfgIA>, ids: seq<Iaid>, iface: IfaceId): map<Iaid, CfgIA> {
    map i | i in cfg :: if i in ids && cfg[i].iface == iface then cfg[i].(state := NotConfigured) else cfg[i]
  }

  function NewTimer(irt: nat, mrt: nat, mrc: nat, mrd: nat, clk: Clock): Timer {
    Timer(irt, mrt, mrc, mrd, 0, 0, clk.now)
  }

  function Append(c: Client, kind: Kind, iface: IfaceId, ias: seq<Iaid>, rapid: bool,
                  server: Option<Server>, timer: Timer, done: bool): (r: Client)
    ensures SameShape(c, r)
  {
    c.(trans := c.trans + [Trans(kind, c.xids(c.created), iface, ias, rapid, server, timer, done)],
       created := c.created + 1)
  }

  /** The SOLICIT constructor: its IAs become IN PROCESS in configuration and database. */
  function StartSolicit(c: Client, f: CfgIface, ias: seq<Iaid>, clk: Clock): (r: Client)
    ensures SameShape(c, r)
  {
    Append(c.(cfg := MarkCfg(c.cfg, ias, InProcess), db := MarkDb(c.db, ias, InProcess)),
           Solicit, f.id, ias, f.rapid, None, Transmit(NewTimer(1, 120, 0, 0, clk), clk), false)
  }

  /** `sendRequest`: uses up the best advertised server; without one the IAs are given back. */
  function SendRequest(c: Client, ias: seq<Iaid>, iface: IfaceId, clk: Clock): (r: Client)
    ensures SameShape(c, r)
  {
    var ads := SortByPreference(c.ads);
    if ads == [] then
      Append(c.(cfg := ResetCfg(c.cfg, ias, iface), ads := []),
             Request, iface, [], false, None, NewTimer(1, 30, REQ_MAX_RC, 0, clk), true)
    else
      Append(c.(ads := ads[1..]), Request, iface, ias, false, Some(ads[0].server),
             Transmit(NewTimer(1, 30, REQ_MAX_RC, 0, clk), clk), false)
  }

  /** The longest valid lifetime that is left of the IAs the database has. */
  function LongestLeft(db: map<Iaid, IA>, ias: seq<Iaid>, now: nat): nat {
    MaxOver(ias, (i: Iaid) => if i in db then IAMaxValidLeft(db[i], now) else 0)
  }

  /** `sendRebind`: transmitted until the longest valid lifetime of its IAs is over. */
  function SendRebind(c: Client, ias: seq<Iaid>, iface: IfaceId, clk: Clock): (r: Client)
    ensures SameShape(c, r)
  {
    var mrd := LongestLeft(c.db, ias, clk.now);
    Append(c, Rebind, iface, ias, false, None, Transmit(NewTimer(10, 600, 0, mrd, clk), clk), false)
  }

  /** The RENEW constructor, for IAs that the database lists: transmitted until T2. */
  function StartRenew(c: Client, ias: seq<Iaid>, clk: Clock): (r: Client)
    requires ias != [] && ias[0] in c.db
    ensures SameShape(c, r)
  {
    var first := c.db[ias[0]];
    Append(c.(db := MarkDb(c.db, ias, InProcess)), Renew, first.iface, ias, false, first.server,
           Transmit(NewTimer(10, 600, 0, T2Left(first, clk.now), clk), clk), false)
  }

  function Retransmit(c: Client, k: nat, clk: Clock): (r: Client)
    requires k < |c.trans|
    ensures SameShape(c, r)
  {
    c.(trans := c.trans[k := c.trans[k].(timer := Transmit(c.trans[k].timer, clk))])
  }

  function Finish(c: Client, k: nat): (r: Client)
    requires k < |c.trans|
    ensures SameShape(c, r)
  {
    c.(trans := c.trans[k := c.trans[k].(done := true)])
  }

  /** `releaseIA` of REBIND: the IA's addresses leave the interface and the database. */
  function ReleaseIA(c: Client, i: Iaid): (r: Client)
    ensures SameShape(c, r)
  {
    if i !in c.db then c
    else
      c.(db := c.db[i := c.db[i].(leases := [], state := NotConfigured)],
         installed := c.installed - IATags(c.db[i]),
         cfg := if i in c.cfg then c.cfg[i := c.cfg[i].(state := NotConfigured)] else c.cfg)
  }

  function ReleaseAll(c: Client, ias: seq<Iaid>): (r: Client)
    ensures r.trans == c.trans && r.ads == c.ads
    ensures SameShape(c, r)
  {
    if ias == [] then c else ReleaseIA(ReleaseAll(c, ias[..|ias| - 1]), ias[|ias| - 1])
  }

  // ---- timeouts --------------------------------------------------------------------------------

  predicate Due(t: Trans, now: nat) {
    !t.done && Timeout(t.timer, now) == 0
  }

  /** `doDuties` of the four message classes. */
  function Duties(c: Client, k: nat, clk: Clock): (r: Client)
    requires k < |c.trans|
    ensures |r.trans| >= |c.trans|
    ensures SameShape(c, r)
  {
    var t := c.trans[k];
    match t.kind
    case Solicit =>
      if c.ads != [] then Finish(SendRequest(c, t.ias, t.iface, clk), k) else Retransmit(c, k, clk)
    case Request =>
      if t.timer.rc > t.timer.mrc then Finish(SendRequest(c, t.ias, t.iface, clk), k) else Retransmit(c, k, clk)
    case Renew =>
      if t.timer.mrd == 0 then Finish(SendRebind(c, t.ias, t.iface, clk), k) else Retransmit(c, k, clk)
    case Rebind =>
      if t.timer.mrd == 0 then Finish(ReleaseAll(c, t.ias), k) else Retransmit(c, k, clk)
  }

  /** The due transactions among the first `n`, in order from index `k`. */
  function DutiesFrom(c: Client, k: nat, n: nat, clk: Clock): (r: Client)
    requires k <= n <= |c.trans|
    decreases n - k
    ensures SameShape(c, r)
  {
    if k == n then c
    else DutiesFrom(if Due(c.trans[k], clk.now) then Duties(c, k, clk) else c, k + 1, n, clk)
  }

  function Purge(c: Client): (r: Client)
    ensures SameShape(c, r)
  {
    c.(trans := Filter(c.trans, (t: Trans) => !t.done))
  }

  // ---- expiry ----------------------------------------------------------------------------------

  predicate Listed(c: Client) {
    forall i :: i in c.iaList ==> i in c.db
  }

  /** Every IA has distinct addresses, and T1 does not exceed T2. */
  predicate SoundDb(db: map<Iaid, IA>) {
    forall i :: i in db ==> Sound(db[i])
  }

  /** The dead addresses of the listed IAs. */
  function DeadAddrs(db: map<Iaid, IA>, list: seq<Iaid>, now: nat): Installed
    requires forall i :: i in list ==> i in db
  {
    if list == [] then multiset{}
    else DeadAddrs(db, list[..|list| - 1], now) + DeadTags(db[list[|list| - 1]], now)
  }

  /** `removeExpired`: dead addresses leave the interfaces. */
  function RemoveExpired(c: Client, now: nat): (r: Client)
    requires Listed(c)
    ensures SameShape(c, r)
  {
    c.(installed := c.installed - DeadAddrs(c.db, c.iaList, now))
  }

  /** `TClntAddrMgr::doDuties`: dead addresses leave the database. */
  function ExpireDb(c: Client, now: nat): (r: Client)
    ensures SameShape(c, r)
  {
    c.(db := map i | i in c.db :: if i in c.iaList then Expired(c.db[i], now) else c.db[i])
  }

  // ---- periodic checks ---------------------------------------------------------------------------

  function NotConfiguredIAs(c: Client, f: CfgIface): seq<Iaid> {
    Filter(f.ias, (i: Iaid) => i in c.cfg && c.cfg[i].state == NotConfigured)
  }

  function SolicitOn(c: Client, f: CfgIface, clk: Clock): (r: Client)
    ensures SameShape(c, r)
  {
    if f.noConfig || NotConfiguredIAs(c, f) == [] then c
    else StartSolicit(c, f, NotConfiguredIAs(c, f), clk)
  }

  /** `checkSolicit` over the interfaces. */
  function CheckSolicit(c: Client, ifaces: seq<CfgIface>, clk: Clock): (r: Client)
    ensures SameShape(c, r)
  {
    if ifaces == [] then c
    else SolicitOn(CheckSolicit(c, ifaces[..|ifaces| - 1], clk), ifaces[|ifaces| - 1], clk)
  }

  /** `getT1Timeout` over the listed IAs: one that is not configured counts as due. */
  function T1Timeout(db: map<Iaid, IA>, list: seq<Iaid>, now: nat): nat
    requires forall i :: i in list ==> i in db
  {
    if list == [] then ULONG_MAX
    else
      var rest := T1Timeout(db, list[..|list| - 1], now);
      var ia := db[list[|list| - 1]];
      if ia.state == Configured then Min(rest, T1Left(ia, now))
      else if ia.state == NotConfigured then 0
      else rest
  }

  predicate NeedsRenew(ia: IA, now: nat, pending: set<Iaid>) {
    T1Left(ia, now) == 0 && ia.state == Configured && ia.iaid !in pending
  }

  predicate SameServer(a: Option<Server>, b: Option<Server>) {
    (a.None? && b.None?) || (a.Some? && b.Some? && a.value.handle == b.value.handle)
  }

  /** The IAs a RENEW takes: the first that needs one, and those on its interface with its
      server's DUID object. */
  function Pick(db: map<Iaid, IA>, list: seq<Iaid>, now: nat, pending: set<Iaid>): (r: seq<Iaid>)
    requires forall i :: i in list ==> i in db
    ensures forall i :: i in r ==> i in list
  {
    if list == [] then []
    else
      var picked := Pick(db, list[..|list| - 1], now, pending);
      var i := list[|list| - 1];
      if NeedsRenew(db[i], now, pending) &&
         (picked == [] || (db[i].iface == db[picked[0]].iface && SameServer(db[i].server, db[picked[0]].server)))
      then picked + [i]
      else picked
  }

  /** `checkRenew`. `pending`: the IAs whose duplicate address detection is not finished. */
  function CheckRenew(c: Client, pending: set<Iaid>, clk: Clock): (r: Client)
    requires Listed(c)
    ensures SameShape(c, r)
  {
    var picked := Pick(c.db, c.iaList, clk.now, pending);
    if T1Timeout(c.db, c.iaList, clk.now) > 0 || picked == [] then c else StartRenew(c, picked, clk)
  }

  /** First half of `doDuties` of the transaction manager: due messages, then what is done or
      expired goes. */
  function Settle(c: Client, clk: Clock): (r: Client)
    requires Listed(c)
    ensures SameShape(c, r)
  {
    var d := Purge(DutiesFrom(c, 0, |c.trans|, clk));
    ExpireDb(RemoveExpired(d, clk.now), clk.now)
  }

  /** Second half: new discoveries, then a renewal. */
  function Check(c: Client, pending: set<Iaid>, clk: Clock): (r: Client)
    requires Listed(c)
    ensures SameShape(c, r)
  {
    CheckRenew(CheckSolicit(c, c.ifaces, clk), pending, clk)
  }

  /** `doDuties` of the transaction manager (not shut down). */
  function Round(c: Client, pending: set<Iaid>, clk: Clock): (r: Client)
    requires Listed(c)
    ensures SameShape(c, r)
  {
    Check(Settle(c, clk), pending, clk)
  }

  // ---- received messages ---------------------------------------------------------------------------

  /** Index of the first transaction with the identifier, or -1. */
  function FindXid(trans: seq<Trans>, xid: nat): (k: int)
    ensures -1 <= k < |trans|
    ensures k >= 0 ==> trans[k].xid == xid && forall j :: 0 <= j < k ==> trans[j].xid != xid
    ensures k < 0 ==> forall j :: 0 <= j < |trans| ==> trans[j].xid != xid
  {
    if trans == [] then -1
    else
      var k := FindXid(trans[..|trans| - 1], xid);
      if k >= 0 then k else if trans[|trans| - 1].xid == xid then |trans| - 1 else -1
  }

  /** One received IA with status success: merged into the IA of that identifier, if there is
      one, which becomes CONFIGURED in database and configuration. */
  function MergeIA(c: Client, r: RecvIA, iface: IfaceId, server: Option<Server>, now: nat): (after: Client)
    ensures SameShape(c, after)
  {
    if r.iaid !in c.db then c
    else
      var ia := c.db[r.iaid];
      var m := MergeAddrs(Merge(ia.leases, c.installed, false), r.addrs, iface, now);
      c.(db := c.db[r.iaid := Merged(ia, r, m, server, now)],
         installed := m.installed,
         cfg := if r.iaid in c.cfg then c.cfg[r.iaid := c.cfg[r.iaid].(state := Configured)] else c.cfg)
  }

  /** All received IAs with status success, in order. */
  function MergeAll(c: Client, ias: seq<RecvIA>, iface: IfaceId, server: Option<Server>, now: nat): (r: Client)
    ensures r.trans == c.trans && r.ads == c.ads
    ensures SameShape(c, r)
  {
    if ias == [] then c
    else
      var front := MergeAll(c, ias[..|ias| - 1], iface, server, now);
      var last := ias[|ias| - 1];
      if last.status == STATUS_SUCCESS then MergeIA(front, last, iface, server, now) else front
  }

  /** The list without its first `x`. */
  function RemoveFirst(s: seq<Iaid>, x: Iaid): seq<Iaid> {
    if s == [] then []
    else
      var n := |s| - 1;
      if x in s[..n] then RemoveFirst(s[..n], x) + [s[n]] else if s[n] == x then s[..n] else s
  }

  /** The requested IAs still without a successful answer. */
  function Leftover(asked: seq<Iaid>, ias: seq<RecvIA>): seq<Iaid> {
    if ias == [] then asked
    else
      var front := Leftover(asked, ias[..|ias| - 1]);
      var last := ias[|ias| - 1];
      if last.status == STATUS_SUCCESS then RemoveFirst(front, last.iaid) else front
  }

  function SetIAs(c: Client, k: nat, ias: seq<Iaid>): (r: Client)
    requires k < |c.trans|
    ensures SameShape(c, r)
  {
    c.(trans := c.trans[k := c.trans[k].(ias := ias)])
  }

  /** `TClntMsg::answer`: configure what was granted, ask another server for the rest. */
  function AnswerReply(c: Client, k: nat, msg: Msg, clk: Clock): (r: Client)
    requires k < |c.trans|
    ensures SameShape(c, r)
  {
    var t := c.trans[k];
    var left := Leftover(t.ias, msg.ias);
    var granted := SetIAs(MergeAll(c, msg.ias, t.iface, Some(msg.server), clk.now), k, left);
    Finish(if left != [] then SendRequest(granted, left, t.iface, clk) else granted, k)
  }

  /** The IAs before the first one with status NOBINDING. */
  function BeforeNoBinding(ias: seq<RecvIA>): (r: seq<RecvIA>)
    ensures |r| <= |ias| && r == ias[..|r|]
    ensures forall x :: x in r ==> x.status != STATUS_NOBINDING
    ensures |r| < |ias| ==> ias[|r|].status == STATUS_NOBINDING
  {
    if ias == [] || ias[0].status == STATUS_NOBINDING then []
    else
      assert ias == [ias[0]] + ias[1..];
      [ias[0]] + BeforeNoBinding(ias[1..])
  }

  /** `TClntMsgRenew::answer`: an IA without binding sends all its IAs to another server. */
  function AnswerRenew(c: Client, k: nat, msg: Msg, clk: Clock): (r: Client)
    requires k < |c.trans|
    ensures SameShape(c, r)
  {
    var t := c.trans[k];
    var before := BeforeNoBinding(msg.ias);
    var granted := MergeAll(c, before, t.iface, t.server, clk.now);
    Finish(if |before| < |msg.ias| then SendRequest(granted, t.ias, t.iface, clk) else granted, k)
  }

  /** `shallRejectAnswer`, for a SOLICIT that asked for IAs only. */
  predicate Rejects(t: Trans, msg: Msg) {
    msg.rejected || t.ias == [] ||
    msg.ias == [] || msg.ias[0].addrs == [] || msg.ias[0].status != STATUS_SUCCESS
  }

  /** `TClntMsgSolicit::answer` for an ADVERTISE that is not rejected. */
  function AnswerAdvertise(c: Client, k: nat, msg: Msg, clk: Clock): (r: Client)
    requires k < |c.trans|
    ensures SameShape(c, r)
  {
    var t := c.trans[k];
    var noted := c.(ads := c.ads + [Advert(msg.pref, msg.server)]);
    if msg.pref == 255 || t.timer.rc > 1
    then Finish(SendRequest(noted, t.ias, t.iface, clk), k)
    else noted
  }

  /** What a transaction does with a message that carries its identifier. */
  function Answer(c: Client, k: nat, msg: Msg, clk: Clock): (r: Client)
    requires k < |c.trans|
    ensures SameShape(c, r)
  {
    var t := c.trans[k];
    match t.kind
    case Solicit =>
      if Rejects(t, msg) then c
      else if msg.kind == Advertise then AnswerAdvertise(c, k, msg, clk)
      else if msg.kind == Reply && t.rapid && msg.rapid then AnswerReply(c, k, msg, clk)
      else c
    case Request => if msg.notOnLink then c else AnswerReply(c, k, msg, clk)
    case Renew => AnswerRenew(c, k, msg, clk)
    case Rebind => AnswerReply(c, k, msg, clk)
  }

  /** The message as parsed: invalid IA options are left out. */
  function Parsed(msg: Msg): Msg {
    msg.(ias := Filter(msg.ias, (r: RecvIA) => IsValid(r)))
  }

  /** `relayMsg` */
  function Deliver(c: Client, msg: Msg, clk: Clock): (r: Client)
    ensures SameShape(c, r)
  {
    var k := FindXid(c.trans, msg.xid);
    if k < 0 then c else Answer(c, k, Parsed(msg), clk)
  }
}
