/**
  Address pools (CfgMgr/HostRange.cpp): membership, random choice and counting.
 */
module HostRange {
  import opened DHCPConst
  import opened Address128

  const UNSIGNED_LONG: int := 0x1_0000_0000_0000_0000

  /** A 32-bit signed int after wrap-around, as the machine's arithmetic leaves it. */
  function Int32(x: int): int {
    (x + 0x8000_0000) % 0x1_0000_0000 - 0x8000_0000
  }

  class AddressRange {
    const left: seq<Octet>
    const right: seq<Octet>

    ghost predicate Valid() {
      |left| == |right| == 16
    }

    constructor (l: seq<Octet>, r: seq<Octet>)
      requires |l| == |r| == 16
      ensures Valid() && left == l && right == r
    {
      left, right := l, r;
    }

    /** `in`: the endpoints, and what lies strictly between them. */
    method In(a: seq<Octet>) returns (r: bool)
      requires Valid() && |a| == 16
      ensures r <==> Val(a) == Val(left) || Val(a) == Val(right) || Val(left) < Val(a) < Val(right)
    {
      var belowL := AtMost(a, left);
      var aboveL := AtMost(left, a);
      if belowL && aboveL { return true; }
      var belowR := AtMost(a, right);
      var aboveR := AtMost(right, a);
      if belowR && aboveR { return true; }
      if belowL { return false; }
      if aboveR { return false; }
      return true;
    }

    /** `getRandomAddr` and `getRandomPrefix`; `draws` are the numbers rand() returns. */
    method RandomAddr(draws: seq<nat>) returns (r: seq<Octet>, ghost diff: seq<Octet>)
      requires Valid() && |draws| == |left|
      ensures |r| == |diff| == |left| && Val(diff) == Wrapped(Val(right) - Val(left), Pow256(|left|))
      ensures Val(r) == Wrapped(Val(RandomDecrement(diff, draws)) + Val(left), Pow256(|left|))
      ensures Val(left) <= Val(right) ==> Val(left) <= Val(r) <= Val(right)
    {
      r, diff := ShiftedRandomly(left, right, draws);
    }

    /** `rangeCount`, with the widths of the C++ expression: int, then unsigned long. */
    method Count() returns (n: nat)
      requires Valid()
      ensures n == CountOf(Wrapped(Val(right) - Val(left), Pow256(|left|)))
    {
      n := CountBetween(left, right);
    }
  }

  method CountBetween(l: seq<Octet>, r: seq<Octet>) returns (n: nat)
    requires |l| == |r| == 16
    ensures n == CountOf(Wrapped(Val(r) - Val(l), Pow256(|l|)))
  {
    var diff := Sub(r, l);
    n := CountOctets(diff);
  }

  /** The octets of the difference, scanned and combined as `rangeCount` does. */
  method CountOctets(diff: seq<Octet>) returns (n: nat)
    requires |diff| == 16
    ensures n == CountOf(Val(diff))
  {
    for i := 0 to 12
      invariant forall k :: 0 <= k < i ==> diff[k] == 0
    {
      if diff[i] > 0 {
        NonZeroTop(diff, i);
        return INFINITY;
      }
    }
    ZeroTop(diff);
    n := CountLow(LowWord(diff));
  }

  /** Octets 12 to 15 of an address as one number. */
  function LowWord(d: seq<Octet>): nat
    requires |d| == 16
  {
    d[12] as int * 256 * 256 * 256 + d[13] as int * 256 * 256 + d[14] as int * 256 + d[15]
  }

  /** `operator--` on a fresh address. */
  method DecreasedAtRandom(s: seq<Octet>, draws: seq<nat>) returns (r: seq<Octet>)
    requires |draws| == |s|
    ensures |r| == |s| && r == RandomDecrement(s, draws)
  {
    var buffer := new Octet[|s|](i requires 0 <= i < |s| => s[i]);
    assert buffer[..] == s;
    Decrement(buffer, draws);
    r := buffer[..];
  }

  /** The pool's difference, decreased at random and added to the left end. */
  method ShiftedRandomly(l: seq<Octet>, r: seq<Octet>, draws: seq<nat>)
    returns (a: seq<Octet>, ghost diff: seq<Octet>)
    requires |l| == |r| == |draws|
    ensures |a| == |diff| == |l| && Val(diff) == Wrapped(Val(r) - Val(l), Pow256(|l|))
    ensures Val(a) == Wrapped(Val(RandomDecrement(diff, draws)) + Val(l), Pow256(|l|))
    ensures Val(l) <= Val(r) ==> Val(l) <= Val(a) <= Val(r)
  {
    var difference := Sub(r, l);
    var offset := DecreasedAtRandom(difference, draws);
    a := Add(offset, l);
    diff := difference;
    BelowIsAtMost(diff, draws);
    ValBound(l);
    ValBound(r);
    StaysInPool(Val(l), Val(r), Val(offset), Pow256(|l|));
  }

  /** The last lines of `rangeCount`, on the four low octets combined as an int. */
  function CountLow(low: int): nat {
    var retVal := Int32(low) % UNSIGNED_LONG;
    if retVal != INFINITY then (retVal + 1) % UNSIGNED_LONG else retVal
  }

  /** What `rangeCount` returns for a pool whose endpoints differ by `d`. */
  function CountOf(d: int): nat {
    if d >= 0x1_0000_0000 then INFINITY else CountLow(d)
  }

  /**
    The pool size is reported correctly (and capped at INFINITY) exactly when the difference
    of the endpoints does not set the sign bit of the 32-bit expression.
   */
  lemma CountIsSizeIff(d: nat)
    ensures CountOf(d) == (if d + 1 < INFINITY then d + 1 else INFINITY)
       <==> !(0x8000_0000 <= d < 0x1_0000_0000)
  {
    if 0x8000_0000 <= d < 0x1_0000_0000 {
      assert Int32(d) == d - 0x1_0000_0000;
      assert Int32(d) % UNSIGNED_LONG == UNSIGNED_LONG + d - 0x1_0000_0000;
    }
  }

  /** A pool of 2^32 addresses is reported as empty. */
  lemma CountOfFullWord()
    ensures CountOf(0xffff_ffff) == 0
  {
    assert Int32(0xffff_ffff) == -1;
  }

  /** An offset of at most R - L, added to L, neither wraps nor passes R. */
  lemma StaysInPool(l: nat, r: nat, offset: nat, m: nat)
    requires l < m && r < m && offset <= Wrapped(r - l, m)
    ensures l <= r ==> l <= Wrapped(offset + l, m) <= r
  {
  }

  lemma BelowIsAtMost(s: seq<Octet>, draws: seq<nat>)
    requires |draws| >= |s|
    ensures Val(RandomDecrement(s, draws)) <= Val(s)
  {
    DecrementStaysBelow(s, draws);
    if s != [] {
      ComparedByHead(RandomDecrement(s, draws), s);
    }
  }

  /** Comparing octet strings: first octet, then the rest. */
  lemma ComparedByHead(t: seq<Octet>, s: seq<Octet>)
    requires |t| == |s| > 0
    ensures Val(t) <= Val(s) <==> t[0] < s[0] || (t[0] == s[0] && Val(t[1..]) <= Val(s[1..]))
  {
    if t[0] < s[0] {
      FirstDifferenceDecides(t, s, 0);
    } else if t[0] > s[0] {
      FirstDifferenceDecides(s, t, 0);
    } else {
      ValHead(t);
      ValHead(s);
    }
  }

  lemma NonZeroTop(d: seq<Octet>, i: nat)
    requires |d| == 16 && i < 12 && d[i] > 0
    ensures Val(d) >= 0x1_0000_0000
  {
    TopAndLow(d);
    AllZeroes(d[..12]);
    assert d[..12][i] != 0;
  }

  lemma ZeroTop(d: seq<Octet>)
    requires |d| == 16 && forall k :: 0 <= k < 12 ==> d[k] == 0
    ensures Val(d) == LowWord(d) < 0x1_0000_0000
  {
    TopAndLow(d);
    AllZeroes(d[..12]);
  }

  lemma TopAndLow(d: seq<Octet>)
    requires |d| == 16
    ensures Val(d) == 0x1_0000_0000 * Val(d[..12]) + LowWord(d)
  {
    assert d[..15][..14] == d[..14] && d[..14][..13] == d[..13] && d[..13][..12] == d[..12];
    assert Val(d) == 256 * Val(d[..15]) + d[15];
    assert Val(d[..15]) == 256 * Val(d[..14]) + d[14];
    assert Val(d[..14]) == 256 * Val(d[..13]) + d[13];
    assert Val(d[..13]) == 256 * Val(d[..12]) + d[12];
  }

  // ---- which addresses of a pool can be chosen ----------------------------------------------

  /** `v` can be drawn from a pool whose endpoints differ by the octet string `d`. */
  ghost predicate CanDraw(d: seq<Octet>, v: nat) {
    exists draws: seq<nat> :: |draws| == |d| && Val(RandomDecrement(d, draws)) == v
  }

  /**
    The values `operator--` can produce: those whose first octet and whose remaining octets,
    as a number, are each at most those of the original (the first octet never lends).
   */
  lemma DrawableIff(d: seq<Octet>, t: seq<Octet>)
    requires |t| == |d| > 0
    ensures CanDraw(d, Val(t)) <==> t[0] <= d[0] && Val(t[1..]) <= Val(d[1..])
  {
    if CanDraw(d, Val(t)) {
      var draws: seq<nat> :| |draws| == |d| && Val(RandomDecrement(d, draws)) == Val(t);
      DecrementStaysBelow(d, draws);
      ValInjective(RandomDecrement(d, draws), t);
    }
    if t[0] <= d[0] && Val(t[1..]) <= Val(d[1..]) {
      var draws := EveryValueBelowIsReached(d, t);
    }
  }

  ghost predicate WholePoolDrawable(d: seq<Octet>) {
    forall t: seq<Octet> :: |t| == |d| && Val(t) <= Val(d) ==> CanDraw(d, Val(t))
  }

  /**
    Every offset of the pool can be drawn exactly when the first octet of the difference is 0
    or all its other octets are 255.
   */
  lemma WholePoolDrawableIff(d: seq<Octet>)
    requires |d| > 0
    ensures WholePoolDrawable(d) <==> d[0] == 0 || Val(d[1..]) == Pow256(|d| - 1) - 1
  {
    if d[0] == 0 || Val(d[1..]) == Pow256(|d| - 1) - 1 {
      forall t: seq<Octet> | |t| == |d| && Val(t) <= Val(d)
        ensures CanDraw(d, Val(t))
      {
        WithinReach(d, t);
      }
    } else {
      var t := OutOfReach(d);
    }
  }

  lemma WithinReach(d: seq<Octet>, t: seq<Octet>)
    requires |t| == |d| > 0 && Val(t) <= Val(d)
    requires d[0] == 0 || Val(d[1..]) == Pow256(|d| - 1) - 1
    ensures CanDraw(d, Val(t))
  {
    ComparedByHead(t, d);
    ValBound(t[1..]);
    DrawableIff(d, t);
  }

  /** An offset that cannot be drawn: one less in the first octet, 255 everywhere else. */
  lemma OutOfReach(d: seq<Octet>) returns (t: seq<Octet>)
    requires |d| > 0 && d[0] != 0 && Val(d[1..]) != Pow256(|d| - 1) - 1
    ensures |t| == |d| && Val(t) <= Val(d) && !CanDraw(d, Val(t))
  {
    var ones: seq<Octet> := seq(|d| - 1, _ => 255);
    t := [d[0] - 1] + ones;
    AllOnes(ones);
    ValBound(d[1..]);
    assert t[1..] == ones;
    ComparedByHead(t, d);
    DrawableIff(d, t);
  }
}
