/**
  IPv6 addresses as big-endian octet arrays and the byte loops of Misc/IPv6Addr.cpp, for any
  number of octets (an address has 16).
  Octets are unsigned, as the build's -funsigned-char makes them.
 */
module Address128 {

  type Octet = x: int | 0 <= x < 256

  /** The number a big-endian octet string denotes. */
  function Val(s: seq<Octet>): nat {
    if s == [] then 0 else 256 * Val(s[..|s| - 1]) + s[|s| - 1]
  }

  function Pow256(n: nat): (p: nat)
    ensures p >= 1
  {
    if n == 0 then 1 else 256 * Pow256(n - 1)
  }

  /** `x` reduced modulo `m`, for the sums and differences of two numbers below `m`. */
  function Wrapped(x: int, m: nat): int {
    if x < 0 then x + m else if x >= m then x - m else x
  }

  lemma WrapSum(v: nat, x: nat, y: nat, carry: nat, m: nat)
    requires v < m && carry <= 1 && x + y == v + carry * m
    ensures v == Wrapped(x + y, m)
  {
  }

  lemma WrapDifference(v: nat, x: nat, y: nat, carry: nat, m: nat)
    requires v < m && x < m && carry <= 1 && y + v == x + carry * m
    ensures v == Wrapped(x - y, m)
  {
  }

  lemma {:induction false} ValBound(s: seq<Octet>)
    ensures Val(s) < Pow256(|s|)
  {
    if s != [] {
      ValBound(s[..|s| - 1]);
    }
  }

  /** The first octet is the most significant one. */
  lemma {:induction false} ValHead(s: seq<Octet>)
    requires s != []
    ensures Val(s) == s[0] * Pow256(|s| - 1) + Val(s[1..])
  {
    var n := |s| - 1;
    if n > 0 {
      ValHead(s[..n]);
      assert s[..n][1..] == s[1..][..n - 1];
      assert 256 * (s[0] * Pow256(n - 1)) == s[0] * Pow256(n);
    } else {
      assert s[1..] == [];
    }
  }

  lemma {:induction false} ValInjective(a: seq<Octet>, b: seq<Octet>)
    requires |a| == |b| && Val(a) == Val(b)
    ensures a == b
  {
    if a != [] {
      ValInjective(a[..|a| - 1], b[..|b| - 1]);
      assert a == a[..|a| - 1] + [a[|a| - 1]];
    }
  }

  // ---- order ---------------------------------------------------------------------------

  /** If two strings agree before `i` and differ there, that octet decides the order. */
  lemma {:induction false} FirstDifferenceDecides(a: seq<Octet>, b: seq<Octet>, i: nat)
    requires |a| == |b| && i < |a| && a[..i] == b[..i] && a[i] < b[i]
    ensures Val(a) < Val(b)
  {
    var n := |a| - 1;
    if i < n {
      assert a[..n][..i] == a[..i] && b[..n][..i] == b[..i];
      FirstDifferenceDecides(a[..n], b[..n], i);
    }
  }

  /** `operator<=` */
  method AtMost(a: seq<Octet>, b: seq<Octet>) returns (r: bool)
    requires |a| == |b|
    ensures r <==> Val(a) <= Val(b)
  {
    for i := 0 to |a|
      invariant a[..i] == b[..i]
    {
      if a[i] < b[i] {
        FirstDifferenceDecides(a, b, i);
        return true;
      }
      if a[i] > b[i] {
        FirstDifferenceDecides(b, a, i);
        return false;
      }
    }
    assert a == a[..|a|] == b[..|b|] == b;
    return true;
  }

  // ---- addition and subtraction ----------------------------------------------------------

  lemma PrependVal(x: Octet, s: seq<Octet>)
    ensures Val([x] + s) == x * Pow256(|s|) + Val(s)
  {
    ValHead([x] + s);
    assert ([x] + s)[1..] == s;
  }

  /** One octet of an addition on numbers: `p` is the weight of the octet. */
  lemma AddDigit(x: int, y: int, c: int, d: int, out: int, p: int, a: int, b: int, r: int)
    requires x + y + c == d + 256 * out && a + b == r + c * p
    ensures (x * p + a) + (y * p + b) == (d * p + r) + out * (256 * p)
  {
    calc {
      (x * p + a) + (y * p + b);
      (x + y + c) * p + r;
      (d + 256 * out) * p + r;
      (d * p + r) + out * (256 * p);
    }
  }

  /** One octet of an addition: `x` and `y` join the tails, `d` joins their sum. */
  lemma AddRound(x: Octet, y: Octet, a: seq<Octet>, b: seq<Octet>, r: seq<Octet>, c: nat, d: Octet, out: nat)
    requires |a| == |b| == |r|
    requires Val(a) + Val(b) == Val(r) + c * Pow256(|r|)
    requires x as int + y + c == d as int + 256 * out
    ensures Val([x] + a) + Val([y] + b) == Val([d] + r) + out * Pow256(|r| + 1)
  {
    PrependVal(x, a);
    PrependVal(y, b);
    PrependVal(d, r);
    AddDigit(x, y, c, d, out, Pow256(|r|), Val(a), Val(b), Val(r));
  }

  /** The octets behind `i` are added up. */
  ghost predicate Adding(a: seq<Octet>, b: seq<Octet>, i: int, r: seq<Octet>, carry: int) {
    |a| == |b| && -1 <= i < |a| && 0 <= carry <= 1 && |r| == |a| - i - 1 &&
    Val(a[i + 1..]) + Val(b[i + 1..]) == Val(r) + carry * Pow256(|r|)
  }

  lemma AddNext(a: seq<Octet>, b: seq<Octet>, i: nat, r: seq<Octet>, carry: nat, d: Octet, out: nat)
    requires Adding(a, b, i, r, carry) && a[i] as int + b[i] + carry == d as int + 256 * out && out <= 1
    ensures Adding(a, b, i - 1, [d] + r, out)
  {
    AddRound(a[i], b[i], a[i + 1..], b[i + 1..], r, carry, d, out);
    assert a[i..] == [a[i]] + a[i + 1..] && b[i..] == [b[i]] + b[i + 1..];
  }

  /** `operator+`: addition modulo 2^128. */
  method Add(a: seq<Octet>, b: seq<Octet>) returns (r: seq<Octet>)
    requires |a| == |b|
    ensures |r| == |a|
    ensures Val(r) == Wrapped(Val(a) + Val(b), Pow256(|a|))
  {
    r := [];
    var carry := 0;
    var i := |a| - 1;
    while i >= 0
      invariant Adding(a, b, i, r, carry)
    {
      var left: int, right: int := a[i], b[i];
      var sum, carryOut := left + right + carry, 0;
      if sum > 255 {
        sum, carryOut := sum - 256, 1;
      }
      AddNext(a, b, i, r, carry, sum, carryOut);
      r, carry := [sum] + r, carryOut;
      i := i - 1;
    }
    assert a[0..] == a && b[0..] == b;
    Bounds(a, b, r);
    WrapSum(Val(r), Val(a), Val(b), carry, Pow256(|a|));
  }

  /** `operator-`: subtraction modulo 2^128. */
  method Sub(a: seq<Octet>, b: seq<Octet>) returns (r: seq<Octet>)
    requires |a| == |b|
    ensures |r| == |a|
    ensures Val(r) == Wrapped(Val(a) - Val(b), Pow256(|a|))
  {
    r := [];
    var carry := 0;
    var i := |a| - 1;
    while i >= 0
      invariant -1 <= i < |a| && 0 <= carry <= 1 && |r| == |a| - i - 1
      invariant Val(b[i + 1..]) + Val(r) == Val(a[i + 1..]) + carry * Pow256(|r|)
    {
      var left: int, right: int := a[i], b[i];
      var difference, carryOut := left - right - carry, 0;
      if left < right + carry {
        difference, carryOut := difference + 256, 1;
      }
      AddRound(right, difference, b[i + 1..], r, a[i + 1..], carry, left, carryOut);
      r, carry := [difference] + r, carryOut;
      assert a[i..] == [a[i]] + a[i + 1..] && b[i..] == [b[i]] + b[i + 1..];
      i := i - 1;
    }
    assert a[0..] == a && b[0..] == b;
    Bounds(a, b, r);
    WrapDifference(Val(r), Val(a), Val(b), carry, Pow256(|a|));
  }

  lemma Bounds(a: seq<Octet>, b: seq<Octet>, r: seq<Octet>)
    requires |a| == |b| == |r|
    ensures Val(a) < Pow256(|a|) && Val(b) < Pow256(|a|) && Val(r) < Pow256(|a|)
  {
    ValBound(a);
    ValBound(b);
    ValBound(r);
  }

  /** `operator++`: adds one modulo 2^128, in place, stopping at the first octet without carry. */
  method Increment(a: array<Octet>)
    modifies a
    ensures Val(a[..]) == Wrapped(Val(old(a[..])) + 1, Pow256(a.Length))
  {
    ghost var before := a[..];
    var i := a.Length - 1;
    while i >= 0
      invariant -1 <= i < a.Length
      invariant a[..i + 1] == before[..i + 1]
      invariant forall k :: i < k < a.Length ==> a[k] == 0 && before[k] == 255
    {
      var carry := a[i] == 255;
      a[i] := if carry then 0 else a[i] + 1;
      assert a[..i] == before[..i + 1][..i] == before[..i];
      if !carry {
        IncrementModulo(before, a[..], i);
        return;
      }
      i := i - 1;
    }
    IncrementModulo(before, a[..], -1);
  }

  lemma IncrementModulo(s: seq<Octet>, t: seq<Octet>, i: int)
    requires |s| == |t| && -1 <= i < |s|
    requires forall k :: i < k < |s| ==> t[k] == 0 && s[k] == 255
    requires i >= 0 ==> s[..i] == t[..i] && t[i] == s[i] as int + 1
    ensures Val(t) == Wrapped(Val(s) + 1, Pow256(|s|))
  {
    ValBound(t);
    if i >= 0 {
      TailCarry(s, t, i);
    } else {
      AllOnes(s);
      AllZeroes(t);
    }
  }

  lemma {:induction false} TailCarry(s: seq<Octet>, t: seq<Octet>, i: nat)
    requires |s| == |t| && i < |s| && s[..i] == t[..i] && t[i] == s[i] as int + 1
    requires forall k :: i < k < |s| ==> t[k] == 0 && s[k] == 255
    ensures Val(t) == Val(s) + 1
  {
    var n := |s| - 1;
    if i < n {
      assert s[..n][..i] == s[..i] && t[..n][..i] == t[..i];
      TailCarry(s[..n], t[..n], i);
    }
  }

  lemma {:induction false} AllOnes(s: seq<Octet>)
    requires forall k :: 0 <= k < |s| ==> s[k] == 255
    ensures Val(s) == Pow256(|s|) - 1
  {
    if s != [] {
      AllOnes(s[..|s| - 1]);
    }
  }

  lemma {:induction false} AllZeroes(s: seq<Octet>)
    ensures Val(s) == 0 <==> forall k :: 0 <= k < |s| ==> s[k] == 0
  {
    if s != [] {
      var n := |s| - 1;
      AllZeroes(s[..n]);
      if Val(s) == 0 {
        assert forall k :: 0 <= k < n ==> s[..n][k] == s[k];
      }
    }
  }

  // ---- random decrement --------------------------------------------------------------------

  /** Index of the last non-zero octet, or -1. */
  function LastNonZero(s: seq<Octet>): (j: int)
    ensures -1 <= j < |s|
    ensures 0 <= j ==> s[j] != 0
    ensures forall k :: j < k < |s| ==> s[k] == 0
  {
    if s == [] then -1
    else if s[|s| - 1] != 0 then |s| - 1
    else LastNonZero(s[..|s| - 1])
  }

  /** Taking one from octet `j` when everything after it is zero. */
  function Borrow(s: seq<Octet>, j: nat): (r: seq<Octet>)
    requires j < |s| && s[j] != 0
    ensures |r| == |s|
  {
    s[..j] + [s[j] - 1] + seq(|s| - j - 1, _ => 255)
  }

  lemma BorrowMeaning(s: seq<Octet>, j: nat)
    requires j < |s| && s[j] != 0
    requires forall k :: j < k < |s| ==> s[k] == 0
    ensures Val(Borrow(s, j)) == Val(s) - 1
  {
    var r := Borrow(s, j);
    assert r[..j] == s[..j];
    TailCarry(r, s, j);
  }

  /** The number drawn for an octet: any octet, or one that does not exceed `top`. */
  function Draw(random: nat, top: Octet, wide: bool): (x: Octet)
    ensures !wide ==> x <= top
  {
    if wide then random % 256 else random % (top as int + 1)
  }

  lemma SmallModulo(x: nat, m: nat)
    requires x < m
    ensures x % m == x
  {
    assert x / m == 0;
  }

  lemma DrawAny(x: Octet, top: Octet, wide: bool)
    requires wide || x <= top
    ensures Draw(x, top, wide) == x
  {
    if !wide {
      SmallModulo(x, top as int + 1);
    }
  }

  lemma BorrowTail(s: seq<Octet>, j: nat)
    requires 0 < j < |s| && s[j] != 0
    ensures Borrow(s, j)[0] == s[0]
    ensures Borrow(s, j)[1..] == Borrow(s[1..], j - 1)
  {
    var l, r := Borrow(s, j)[1..], Borrow(s[1..], j - 1);
    forall k | 0 <= k < |l|
      ensures l[k] == r[k]
    {
    }
  }

  /** One octet processed by `operator--`: the octets before it, and the octet itself. */
  datatype Step = Step(before: seq<Octet>, last: Octet)

  /**
    The last octet of `s` becomes the number drawn for it. Only a non-zero octet at a positive
    index lets the draw range over 0..255, and only a draw above the octet takes a borrow.
   */
  function DecrementLast(s: seq<Octet>, random: nat): (r: Step)
    requires s != []
    ensures |r.before| == |s| - 1
  {
    var i := |s| - 1;
    var j := LastNonZero(s[..i]);
    var x := Draw(random, s[i], j > 0);
    if x > s[i] then Step(Borrow(s[..i], j), s[i] as int + 256 - x) else Step(s[..i], x)
  }

  /** `operator--`, from the last octet; `draws[i]` is the number rand() returns for octet i. */
  function RandomDecrement(s: seq<Octet>, draws: seq<nat>): (r: seq<Octet>)
    requires |draws| >= |s|
    ensures |r| == |s|
    decreases |s|
  {
    if s == [] then []
    else
      var step := DecrementLast(s, draws[|s| - 1]);
      RandomDecrement(step.before, draws) + [step.last]
  }

  /** The borrow loop: octet `j` gives up one and the zeroes up to octet `i` become 255. */
  method TakeBorrow(a: array<Octet>, j: nat, i: nat)
    requires j < i < a.Length && a[j] != 0
    modifies a
    ensures a[..i] == Borrow(old(a[..i]), j)
    ensures forall m :: i <= m < a.Length ==> a[m] == old(a[m])
  {
    a[j] := a[j] - 1;
    var k := j + 1;
    while k < i
      invariant j < k <= i
      invariant a[..j] == old(a[..j]) && a[j] == old(a[j]) - 1
      invariant forall m :: j < m < k ==> a[m] == 255
      invariant forall m :: i <= m < a.Length ==> a[m] == old(a[m])
    {
      a[k] := 255;
      k := k + 1;
    }
  }

  lemma DecrementRound(target: seq<Octet>, draws: seq<nat>, s: seq<Octet>, t: seq<Octet>, i: nat)
    requires i < |s| == |t| <= |draws|
    requires target == RandomDecrement(s[..i + 1], draws) + s[i + 1..]
    requires DecrementLast(s[..i + 1], draws[i]) == Step(t[..i], t[i]) && t[i + 1..] == s[i + 1..]
    ensures target == RandomDecrement(t[..i], draws) + t[i..]
  {
    DecrementUnfold(s[..i + 1], draws, t[..i], t[i]);
    MoveOver(target, RandomDecrement(s[..i + 1], draws), RandomDecrement(t[..i], draws), t, i);
  }

  lemma DecrementUnfold(s: seq<Octet>, draws: seq<nat>, before: seq<Octet>, last: Octet)
    requires 0 < |s| <= |draws| && DecrementLast(s, draws[|s| - 1]) == Step(before, last)
    ensures RandomDecrement(s, draws) == RandomDecrement(before, draws) + [last]
  {
  }

  lemma MoveOver<T>(target: seq<T>, whole: seq<T>, front: seq<T>, t: seq<T>, i: nat)
    requires i < |t| && target == whole + t[i + 1..] && whole == front + [t[i]]
    ensures target == front + t[i..]
  {
    assert t[i..] == [t[i]] + t[i + 1..];
  }

  /** One round of the loop in `operator--`. */
  method DecrementOctet(a: array<Octet>, i: nat, random: nat)
    requires i < a.Length
    modifies a
    ensures DecrementLast(old(a[..][..i + 1]), random) == Step(a[..][..i], a[..][i])
    ensures a[..][i + 1..] == old(a[..][i + 1..])
  {
    ghost var s, done := a[..][..i + 1], a[..][i + 1..];
    assert s == a[..i + 1] && done == a[i + 1..];
    assert s[..i] == a[..i];
    var j := i - 1;
    while j >= 0 && a[j] == 0
      invariant -1 <= j < i
      invariant forall k :: j < k < i ==> s[k] == 0
    {
      j := j - 1;
    }
    LastNonZeroUnique(s[..i], j);
    var r := Draw(random, a[i], j > 0);
    if r > a[i] {
      TakeBorrow(a, j, i);
      assert a[i + 1..] == done;
      ghost var p := a[..i];
      a[i] := a[i] as int + 256 - r;
      assert a[..i] == p;
    } else {
      a[i] := r;
      assert a[..i] == s[..i];
    }
  }

  /** `operator--`, in place. No octet is ever taken below zero or above 255. */
  method Decrement(a: array<Octet>, draws: seq<nat>)
    requires |draws| == a.Length
    modifies a
    ensures a[..] == RandomDecrement(old(a[..]), draws)
  {
    ghost var target := RandomDecrement(a[..], draws);
    var i := a.Length - 1;
    assert a[..][..i + 1] == a[..] && a[..][i + 1..] == [];
    while i >= 0
      invariant -1 <= i < a.Length
      invariant target == RandomDecrement(a[..][..i + 1], draws) + a[..][i + 1..]
    {
      ghost var before := a[..];
      DecrementOctet(a, i, draws[i]);
      DecrementRound(target, draws, before, a[..], i);
      i := i - 1;
    }
    assert a[..][0..] == a[..];
  }

  lemma {:induction false} LastNonZeroUnique(s: seq<Octet>, j: int)
    requires -1 <= j < |s|
    requires 0 <= j ==> s[j] != 0
    requires forall k :: j < k < |s| ==> s[k] == 0
    ensures LastNonZero(s) == j
  {
    if j < |s| - 1 {
      LastNonZeroUnique(s[..|s| - 1], j);
    }
  }

  /** What a random decrement can produce: the first octet and the remaining fifteen, as a
      number, are each at most what they were. */
  ghost predicate Below(t: seq<Octet>, s: seq<Octet>) {
    |t| == |s| && (s != [] ==> t[0] <= s[0] && Val(t[1..]) <= Val(s[1..]))
  }

  lemma BelowSplit(t: seq<Octet>, s: seq<Octet>)
    requires |t| == |s| > 1
    ensures var i := |s| - 1;
            t[1..][..i - 1] == t[..i][1..] && s[1..][..i - 1] == s[..i][1..]
    ensures Val(t[1..]) == 256 * Val(t[..|s| - 1][1..]) + t[|s| - 1]
    ensures Val(s[1..]) == 256 * Val(s[..|s| - 1][1..]) + s[|s| - 1]
  {
    var i := |s| - 1;
    assert t[1..][..i - 1] == t[..i][1..] && s[1..][..i - 1] == s[..i][1..];
  }

  lemma DecrementLastMeaning(s: seq<Octet>, random: nat)
    requires |s| > 1
    ensures var r := DecrementLast(s, random);
            r.before[0] == s[0] &&
            256 * Val(r.before[1..]) + r.last <= Val(s[1..])
  {
    var i := |s| - 1;
    BelowSplit(s, s);
    var j := LastNonZero(s[..i]);
    if Draw(random, s[i], j > 0) > s[i] {
      BorrowTail(s[..i], j);
      BorrowMeaning(s[..i][1..], j - 1);
    }
  }

  lemma {:induction false} DecrementStaysBelow(s: seq<Octet>, draws: seq<nat>)
    requires |draws| >= |s|
    ensures Below(RandomDecrement(s, draws), s)
    decreases |s|
  {
    if s != [] {
      var step := DecrementLast(s, draws[|s| - 1]);
      var r := RandomDecrement(s, draws);
      DecrementStaysBelow(step.before, draws);
      if |s| == 1 {
        assert r[1..] == [] && s[1..] == [];
      } else {
        assert r[..|s| - 1] == RandomDecrement(step.before, draws);
        BelowSplit(r, s);
        DecrementLastMeaning(s, draws[|s| - 1]);
      }
    }
  }

  /** A random number after which the last octet of `s` becomes the last octet of `t`. */
  ghost function DrawFor(s: seq<Octet>, t: seq<Octet>): nat
    requires |s| == |t| > 0
  {
    var i := |s| - 1;
    if t[i] > s[i] then s[i] as int + 256 - t[i] else t[i]
  }

  lemma DrawForWorks(s: seq<Octet>, t: seq<Octet>)
    requires Below(t, s) && s != []
    ensures var r := DecrementLast(s, DrawFor(s, t));
            r.last == t[|s| - 1] && Below(t[..|s| - 1], r.before)
  {
    var i := |s| - 1;
    var j := LastNonZero(s[..i]);
    if i > 0 {
      BelowSplit(t, s);
      if t[i] > s[i] {
        // the tail of s exceeds that of t, so an octet between the first and the last can lend
        var tail := s[..i][1..];
        assert Val(t[..i][1..]) < Val(tail);
        AllZeroes(tail);
        var k :| 0 <= k < |tail| && tail[k] != 0;
        assert s[..i][k + 1] != 0;
        BorrowTail(s[..i], j);
        BorrowMeaning(tail, j - 1);
      }
    }
    DrawAny(DrawFor(s, t), s[i], j > 0);
  }

  lemma {:induction false} DrawsPrefix(s: seq<Octet>, d: seq<nat>, e: seq<nat>)
    requires |d| >= |s| && |e| >= |s| && d[..|s|] == e[..|s|]
    ensures RandomDecrement(s, d) == RandomDecrement(s, e)
    decreases |s|
  {
    if s != [] {
      var i := |s| - 1;
      assert d[i] == d[..|s|][i] == e[..|s|][i] == e[i];
      assert d[..i] == d[..|s|][..i] == e[..|s|][..i] == e[..i];
      DrawsPrefix(DecrementLast(s, d[i]).before, d, e);
    }
  }

  /** Every value a random decrement can stay below is one it can produce. */
  lemma {:induction false} EveryValueBelowIsReached(s: seq<Octet>, t: seq<Octet>) returns (draws: seq<nat>)
    requires Below(t, s)
    ensures |draws| == |s| && RandomDecrement(s, draws) == t
    decreases |s|
  {
    if s == [] {
      draws := [];
    } else {
      var i := |s| - 1;
      var step := DecrementLast(s, DrawFor(s, t));
      DrawForWorks(s, t);
      var earlier := EveryValueBelowIsReached(step.before, t[..i]);
      draws := earlier + [DrawFor(s, t)];
      assert draws[..i] == earlier == earlier[..i];
      DrawsPrefix(step.before, draws, earlier);
      assert t == t[..i] + [t[i]];
    }
  }
}
