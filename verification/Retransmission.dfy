/**
  The retransmission timer of `TClntMsg::send` (ClntMessages/ClntMsg.cpp), section 14 of
  RFC 3315. The random factor of a step is a real number between -0.1 and 0.1; the C++ casts
  truncate positive numbers, so they are floors here.
 */
module Retransmission {

  type Jitter = r: real | -0.1 <= r <= 0.1 witness 0.0

  /** One step of the client: the time, and the numbers rand() gives after srand(now()): the
      first one scales the timeout, a second one is drawn only when the timeout is capped. */
  datatype Clock = Clock(now: nat, first: Jitter, second: Jitter)

  /** The fields of TClntMsg that `send` reads and writes. MRT, MRC, MRD of 0 mean no limit. */
  datatype Timer = Timer(irt: nat, mrt: nat, mrc: nat, mrd: nat, rc: nat, rt: nat, last: nat)

  /** `x*RAND`, a random share of at most a tenth of `x` either way, as a repeated sum: the
      proofs about timeouts then stay linear. */
  function Share(x: nat, j: Jitter): (s: real)
    ensures -0.1 * x as real <= s <= 0.1 * x as real
  {
    if x == 0 then 0.0 else Share(x - 1, j) + j
  }

  lemma {:induction false} ShareIsProduct(x: nat, j: Jitter)
    ensures Share(x, j) == x as real * j
  {
    if x > 0 {
      ShareIsProduct(x - 1, j);
      assert x as real == (x - 1) as real + 1.0;
      assert x as real * j == (x - 1) as real * j + j;
    }
  }

  /** `(int)(0.5 + x + x*RAND)` */
  function Once(x: nat, j: Jitter): (n: nat)
    ensures 0.9 * x as real - 0.5 < n as real <= 1.1 * x as real + 0.5
  {
    RoundedBounds(x as real + Share(x, j));
    (0.5 + (x as real + Share(x, j))).Floor
  }

  /** `(int)(0.5 + 2.0*x + x*RAND)` */
  function Twice(x: nat, j: Jitter): (n: nat)
    ensures 1.9 * x as real - 0.5 < n as real <= 2.1 * x as real + 0.5
  {
    RoundedBounds(2.0 * x as real + Share(x, j));
    (0.5 + (2.0 * x as real + Share(x, j))).Floor
  }

  lemma RoundedBounds(y: real)
    ensures y - 0.5 < (0.5 + y).Floor as real <= y + 0.5
  {
  }

  /** The timeout before MRT and MRD are applied. */
  function NextRT(t: Timer, clk: Clock): nat {
    if t.rc == 0 then Once(t.irt, clk.first) else Twice(t.rt, clk.first)
  }

  function CappedRT(t: Timer, clk: Clock): nat {
    if t.mrt != 0 && NextRT(t, clk) > t.mrt then Once(t.mrt, clk.second) else NextRT(t, clk)
  }

  /** The state after one transmission. */
  function Transmit(t: Timer, clk: Clock): Timer {
    var capped := CappedRT(t, clk);
    var rt := if t.mrd != 0 && capped > t.mrd then t.mrd else capped;
    t.(rt := rt, mrd := if t.mrd != 0 then t.mrd - rt else 0, rc := t.rc + 1, last := clk.now)
  }

  /** `getTimeout`: time left until the retransmission, 0 when it is due. */
  function Timeout(t: Timer, now: nat): nat {
    if t.last + t.rt < now then 0 else t.last + t.rt - now
  }

  /** The imperative timer: the fields of a message, updated by `send`. */
  class Message {
    var irt: nat
    var mrt: nat
    var mrc: nat
    var mrd: nat
    var rc: nat
    var rt: nat
    var lastTimeStamp: nat

    function View(): Timer
      reads this
    {
      Timer(irt, mrt, mrc, mrd, rc, rt, lastTimeStamp)
    }

    constructor (irt: nat, mrt: nat, mrc: nat, mrd: nat, now: nat)
      ensures View() == Timer(irt, mrt, mrc, mrd, 0, 0, now)
    {
      this.irt, this.mrt, this.mrc, this.mrd := irt, mrt, mrc, mrd;
      rc, rt, lastTimeStamp := 0, 0, now;
    }

    method Send(clk: Clock)
      modifies this
      ensures View() == Transmit(old(View()), clk)
    {
      if rc == 0 {
        rt := Once(irt, clk.first);
      } else {
        rt := Twice(rt, clk.first);
      }
      if mrt != 0 && rt > mrt {
        rt := Once(mrt, clk.second);
      }
      if mrd != 0 && rt > mrd {
        rt := mrd;
      }
      if mrd != 0 {
        mrd := mrd - rt;
      }
      rc := rc + 1;
      lastTimeStamp := clk.now;
    }
  }

  // ---- the random factor ------------------------------------------------------------------

  /** `n` is `x` rounded by adding one half and cutting the fraction off. */
  predicate Rounds(n: nat, x: real) {
    n as real <= 0.5 + x < n as real + 1.0
  }

  lemma OnceRounds(x: nat, j: Jitter)
    ensures Rounds(Once(x, j), x as real * (1.0 + j))
  {
    ShareIsProduct(x, j);
  }

  lemma TwiceRounds(x: nat, j: Jitter)
    ensures Rounds(Twice(x, j), x as real * (2.0 + j))
  {
    ShareIsProduct(x, j);
  }

  /**
    The next timeout as section 14 of RFC 3315 defines it, rounded: IRT + RAND*IRT at first, then
    2*RTprev + RAND*RTprev, and MRT + RAND*MRT if that is more than MRT; and never more than what is left of MRD.
   */
  lemma TimeoutIsDrawn(t: Timer, clk: Clock)
    ensures var drawn := if t.rc == 0 then t.irt as real * (1.0 + clk.first) else t.rt as real * (2.0 + clk.first);
            var wanted := if t.mrt != 0 && 0.5 + drawn >= t.mrt as real + 1.0 then t.mrt as real * (1.0 + clk.second)
                          else drawn;
            var rt := Transmit(t, clk).rt;
            if t.mrd != 0 && 0.5 + wanted >= t.mrd as real + 1.0 then rt == t.mrd
            else rt as real <= 0.5 + wanted < rt as real + 1.0
  {
    OnceRounds(t.irt, clk.first);
    TwiceRounds(t.rt, clk.first);
    OnceRounds(t.mrt, clk.second);
  }

  /** The first timeout, when nothing cuts it. */
  lemma FirstTimeout(t: Timer, clk: Clock)
    requires t.rc == 0 && (t.mrt == 0 || 0.5 + t.irt as real * (1.0 + clk.first) < t.mrt as real + 1.0)
    requires t.mrd == 0 || 0.5 + t.irt as real * (1.0 + clk.first) < t.mrd as real + 1.0
    ensures var rt := Transmit(t, clk).rt as real;
            rt <= 0.5 + t.irt as real * (1.0 + clk.first) < rt + 1.0
  {
    TimeoutIsDrawn(t, clk);
  }

  /** What else a transmission changes. */
  lemma TransmitCounts(t: Timer, clk: Clock)
    ensures var r := Transmit(t, clk);
            r.rc == t.rc + 1 && r.last == clk.now && r.irt == t.irt && r.mrt == t.mrt && r.mrc == t.mrc &&
            if t.mrd == 0 then r.mrd == 0 else r.rt <= t.mrd && r.rt + r.mrd == t.mrd
  {
  }

  // ---- one transmission ------------------------------------------------------------------

  /** What the timer holds between transmissions of a run that started with a positive IRT. */
  predicate Running(t: Timer) {
    t.irt >= 1 && (t.rc > 0 ==> t.rt >= 1)
  }

  lemma TransmitKeepsRunning(t: Timer, clk: Clock)
    requires Running(t)
    ensures Running(Transmit(t, clk)) && Transmit(t, clk).rt >= 1
  {
  }

  /** The largest timeout the cap allows. */
  predicate AtMostCeiling(rt: nat, mrt: nat) {
    rt as real <= 1.1 * mrt as real + 0.5
  }

  /** Within rounding of ten percent of MRT. */
  predicate AroundCap(rt: nat, mrt: nat) {
    0.9 * mrt as real - 0.5 < rt as real <= 1.1 * mrt as real + 0.5
  }

  /** With a cap, no timeout ever exceeds floor(0.5 + 1.1 * MRT). */
  lemma BelowCeiling(t: Timer, clk: Clock)
    requires t.mrt > 0
    ensures AtMostCeiling(Transmit(t, clk).rt, t.mrt)
  {
  }

  /** While neither MRT nor MRD cuts it, the timeout grows strictly: at least 1.9 times, rounded. */
  lemma GrowsUntilCapped(t: Timer, clk: Clock)
    requires Running(t) && t.rc > 0 && Transmit(t, clk).rt == NextRT(t, clk)
    ensures Transmit(t, clk).rt > t.rt
    ensures Transmit(t, clk).rt as real > 1.9 * t.rt as real - 0.5
  {
  }

  /** Once around the cap the timeout is drawn from the cap again and stays around it. */
  lemma StaysAtCap(t: Timer, clk: Clock)
    requires Running(t) && t.mrt > 0 && t.rc > 0 && AroundCap(t.rt, t.mrt)
    ensures AroundCap(CappedRT(t, clk), t.mrt)
  {
    var next := Twice(t.rt, clk.first);
    assert next as real > 1.9 * t.rt as real - 0.5;
    assert next > t.mrt;
  }

  // ---- whole runs of unanswered transmissions -------------------------------------------------

  /** The timer after one transmission per clock. */
  function Run(t: Timer, clks: seq<Clock>): Timer {
    if clks == [] then t else Transmit(Run(t, clks[..|clks| - 1]), clks[|clks| - 1])
  }

  /** The timeouts of those transmissions. */
  function Waits(t: Timer, clks: seq<Clock>): (w: seq<nat>)
    ensures |w| == |clks|
  {
    if clks == [] then [] else Waits(t, clks[..|clks| - 1]) + [Run(t, clks).rt]
  }

  function Sum(w: seq<nat>): nat {
    if w == [] then 0 else Sum(w[..|w| - 1]) + w[|w| - 1]
  }

  predicate Fresh(t: Timer) {
    t.irt >= 1 && t.rc == 0 && t.rt == 0
  }

  /** Whatever the limits: every timeout of a run is at least 1. */
  lemma {:induction false} RunKeepsRunning(t: Timer, clks: seq<Clock>)
    requires Fresh(t)
    ensures Running(Run(t, clks)) && Run(t, clks).rc == |clks|
    ensures Run(t, clks) == t.(rc := Run(t, clks).rc, rt := Run(t, clks).rt,
                               mrd := Run(t, clks).mrd, last := Run(t, clks).last)
    ensures t.mrd == 0 ==> Run(t, clks).mrd == 0
    ensures forall i :: 0 <= i < |clks| ==> Waits(t, clks)[i] >= 1
  {
    if clks != [] {
      var n := |clks| - 1;
      RunKeepsRunning(t, clks[..n]);
      TransmitKeepsRunning(Run(t, clks[..n]), clks[n]);
    }
  }

  /** MRT bounds every timeout of every run. */
  lemma {:induction false} RunBelowCeiling(t: Timer, clks: seq<Clock>)
    requires Fresh(t) && t.mrt > 0
    ensures forall i :: 0 <= i < |clks| ==> AtMostCeiling(Waits(t, clks)[i], t.mrt)
  {
    if clks != [] {
      var n := |clks| - 1;
      RunBelowCeiling(t, clks[..n]);
      RunKeepsRunning(t, clks[..n]);
      BelowCeiling(Run(t, clks[..n]), clks[n]);
    }
  }

  /** What is left of MRD, if there is a limit at all, does not cut the next timeout. */
  predicate Uncut(t: Timer, clk: Clock) {
    t.mrd == 0 || CappedRT(t, clk) <= t.mrd
  }

  lemma UncutIff(t: Timer, clk: Clock)
    ensures Uncut(t, clk) <==> Transmit(t, clk).rt == CappedRT(t, clk)
  {
  }

  /** No timeout of the run is cut by what is left of MRD. */
  ghost predicate Untruncated(t: Timer, clks: seq<Clock>) {
    forall i :: 0 <= i < |clks| ==> Uncut(Run(t, clks[..i]), clks[i])
  }

  lemma UntruncatedPrefix(t: Timer, clks: seq<Clock>, m: nat)
    requires Untruncated(t, clks) && m <= |clks|
    ensures Untruncated(t, clks[..m])
  {
    forall i | 0 <= i < m
      ensures Uncut(Run(t, clks[..m][..i]), clks[..m][i])
    {
      assert clks[..m][..i] == clks[..i] && clks[..m][i] == clks[i];
    }
  }

  lemma NextAtCap(t: Timer, clk: Clock)
    requires Running(t) && t.mrt > 0 && t.rc > 0 && AroundCap(t.rt, t.mrt) && Uncut(t, clk)
    ensures AroundCap(Transmit(t, clk).rt, t.mrt)
  {
    StaysAtCap(t, clk);
    UncutIff(t, clk);
  }

  lemma UntruncatedAt(t: Timer, clks: seq<Clock>, i: nat)
    requires Untruncated(t, clks) && i < |clks|
    ensures Uncut(Run(t, clks[..i]), clks[i])
  {
  }

  lemma RunStarted(t: Timer, clks: seq<Clock>)
    requires Fresh(t) && clks != []
    ensures var r := Run(t, clks);
            Running(r) && r.rc > 0 && r.mrt == t.mrt
  {
    RunKeepsRunning(t, clks);
  }

  lemma LastAtCap(t: Timer, clks: seq<Clock>, n: nat)
    requires Fresh(t) && t.mrt > 0 && Untruncated(t, clks) && 0 < n == |clks| - 1
    requires AroundCap(Run(t, clks[..n]).rt, t.mrt)
    ensures AroundCap(Run(t, clks).rt, t.mrt)
  {
    UntruncatedAt(t, clks, n);
    RunStarted(t, clks[..n]);
    NextAtCap(Run(t, clks[..n]), clks[n]);
  }

  /** While MRD does not cut it, a timeout at the cap is followed only by timeouts at the cap. */
  lemma {:induction false} RunStaysAtCap(t: Timer, clks: seq<Clock>, m: nat)
    requires Fresh(t) && t.mrt > 0 && Untruncated(t, clks) && 0 < m <= |clks|
    requires AroundCap(Run(t, clks[..m]).rt, t.mrt)
    ensures AroundCap(Run(t, clks).rt, t.mrt)
  {
    if m == |clks| {
      assert clks[..m] == clks;
    } else {
      var n := |clks| - 1;
      assert clks[..n][..m] == clks[..m];
      UntruncatedPrefix(t, clks, n);
      RunStaysAtCap(t, clks[..n], m);
      LastAtCap(t, clks, n);
    }
  }

  /** The first timeout that MRT cuts is at the cap; before it they grow strictly, as long as MRD
      does not cut them. */
  lemma FirstCut(t: Timer, clks: seq<Clock>, clk: Clock)
    requires Fresh(t) && t.mrt > 0 && Untruncated(t, clks + [clk])
    ensures var before, after := Run(t, clks), Run(t, clks + [clk]);
            if NextRT(before, clk) > t.mrt then AroundCap(after.rt, t.mrt)
            else after.rt == NextRT(before, clk) && (clks != [] ==> after.rt > before.rt)
  {
    var all, n := clks + [clk], |clks|;
    assert all[..n] == clks && all[n] == clk;
    assert Uncut(Run(t, all[..n]), all[n]);
    RunKeepsRunning(t, clks);
    if clks != [] && NextRT(Run(t, clks), clk) <= t.mrt {
      GrowsUntilCapped(Run(t, clks), clk);
    }
  }

  /** The duration budget: waits so far plus what is left of MRD equal the initial MRD, as long
      as the timer is not used after the budget is spent. */
  lemma {:induction false} BudgetIsKept(t: Timer, clks: seq<Clock>)
    requires Fresh(t)
    requires forall i :: 0 <= i < |clks| ==> Run(t, clks[..i]).mrd > 0
    ensures Sum(Waits(t, clks)) + Run(t, clks).mrd == t.mrd
  {
    if clks != [] {
      var n := |clks| - 1;
      forall i | 0 <= i < n
        ensures Run(t, clks[..n][..i]).mrd > 0
      {
        assert clks[..n][..i] == clks[..i];
      }
      BudgetIsKept(t, clks[..n]);
      assert Waits(t, clks)[..n] == Waits(t, clks[..n]);
    }
  }

  /** How many transmissions of a run it takes to use up MRD; the first one is always made. */
  ghost function Transmissions(t: Timer, clks: nat -> Clock): nat
    requires Running(t)
    decreases t.mrd
  {
    TransmitKeepsRunning(t, clks(t.rc));
    var next := Transmit(t, clks(t.rc));
    if next.mrd == 0 then 1 else 1 + Transmissions(next, clks)
  }

  /** The time an unanswered message waits until its duration is used up (RENEW, REBIND). */
  ghost function TotalWait(t: Timer, clks: nat -> Clock): nat
    requires Running(t)
    decreases t.mrd
  {
    TransmitKeepsRunning(t, clks(t.rc));
    var next := Transmit(t, clks(t.rc));
    if next.mrd == 0 then next.rt else next.rt + TotalWait(next, clks)
  }

  /**
    An unanswered RENEW or REBIND gives up after finitely many transmissions (at most one per
    second of its budget), and its waits sum exactly to the budget, if there is one at all: with
    a budget of zero the first timeout is still waited for.
   */
  lemma {:induction false} WaitsExactlyIff(t: Timer, clks: nat -> Clock)
    requires Running(t)
    ensures TotalWait(t, clks) == t.mrd <==> t.mrd > 0
    ensures t.mrd > 0 ==> Transmissions(t, clks) <= t.mrd
    decreases t.mrd
  {
    TransmitKeepsRunning(t, clks(t.rc));
    var next := Transmit(t, clks(t.rc));
    if next.mrd != 0 {
      WaitsExactlyIff(next, clks);
    }
  }
}
