/**
  Bit-level operations on addresses: `truncate` and the prefix-plus-host constructor of
  Misc/IPv6Addr.cpp, and the splitting of a delegated prefix in ClntIfaceMgr/ClntIfaceMgr.cpp.
  Bit 0 is the most significant bit of the first octet, as in a prefix length.
 */
module AddressBits {

  type Octets = seq<bv8>

  /** The mask that selects bit `i` of an octet. */
  function BitMask(i: nat): bv8
    requires i < 8
  {
    match i
    case 0 => 0x80
    case 1 => 0x40
    case 2 => 0x20
    case 3 => 0x10
    case 4 => 0x08
    case 5 => 0x04
    case 6 => 0x02
    case 7 => 0x01
  }

  predicate OctetBit(b: bv8, i: nat)
    requires i < 8
  {
    b & BitMask(i) != 0
  }

  predicate Bit(s: Octets, k: nat)
    requires k < 8 * |s|
  {
    OctetBit(s[k / 8], k % 8)
  }

  /** truncLeft[n]: all but the first `n` bits. */
  function TruncLeft(n: nat): bv8
    requires n <= 8
  {
    match n
    case 0 => 0xff
    case 1 => 0x7f
    case 2 => 0x3f
    case 3 => 0x1f
    case 4 => 0x0f
    case 5 => 0x07
    case 6 => 0x03
    case 7 => 0x01
    case 8 => 0x00
  }

  /** truncRight[n]: the first `n` bits. */
  function TruncRight(n: nat): bv8
    requires n <= 8
  {
    match n
    case 0 => 0x00
    case 1 => 0x80
    case 2 => 0xc0
    case 3 => 0xe0
    case 4 => 0xf0
    case 5 => 0xf8
    case 6 => 0xfc
    case 7 => 0xfe
    case 8 => 0xff
  }

  lemma MaskedBit(b: bv8, n: nat, i: nat)
    requires n < 8 && i < 8
    ensures OctetBit(b & TruncLeft(n), i) <==> n <= i && OctetBit(b, i)
    ensures OctetBit(b & TruncRight(n), i) <==> i < n && OctetBit(b, i)
  {
  }

  /** A bit of a masked and joined octet comes from one side or the other. */
  lemma JoinedBit(p: bv8, h: bv8, n: nat, i: nat)
    requires n < 8 && i < 8
    ensures OctetBit((p & TruncRight(n)) | (h & TruncLeft(n)), i)
       <==> if i < n then OctetBit(p, i) else OctetBit(h, i)
  {
  }

  /** The octets agree when all their bits do. */
  lemma OctetFromBits(a: bv8, b: bv8)
    requires forall i: nat | i < 8 :: OctetBit(a, i) == OctetBit(b, i)
    ensures a == b
  {
    assert OctetBit(a, 0) == OctetBit(b, 0) && OctetBit(a, 1) == OctetBit(b, 1);
    assert OctetBit(a, 2) == OctetBit(b, 2) && OctetBit(a, 3) == OctetBit(b, 3);
    assert OctetBit(a, 4) == OctetBit(b, 4) && OctetBit(a, 5) == OctetBit(b, 5);
    assert OctetBit(a, 6) == OctetBit(b, 6) && OctetBit(a, 7) == OctetBit(b, 7);
  }

  // ---- truncate and prefix + host --------------------------------------------------------

  /** `memset(a + from, 0, to - from)` */
  method Zero(a: array<bv8>, from: nat, to: nat)
    requires from <= to <= a.Length
    modifies a
    ensures forall k :: 0 <= k < a.Length ==> a[k] == if from <= k < to then 0 else old(a[k])
  {
    var k := from;
    while k < to
      invariant from <= k <= to
      invariant forall m :: 0 <= m < a.Length ==> a[m] == if from <= m < k then 0 else old(a[m])
    {
      a[k] := 0;
      k := k + 1;
    }
  }

  /** Octet `j` after the left truncation at bit `n`. */
  function KeepFrom(b: bv8, j: nat, n: nat): bv8 {
    if j < n / 8 then 0 else if j == n / 8 then b & TruncLeft(n % 8) else b
  }

  /** Octet `j` after the right truncation at bit `n`. */
  function KeepUpTo(b: bv8, j: nat, n: nat): bv8 {
    if j > n / 8 then 0 else if j == n / 8 then b & TruncRight(n % 8) else b
  }

  lemma KeepFromBit(b: bv8, k: nat, n: nat)
    ensures OctetBit(KeepFrom(b, k / 8, n), k % 8) <==> n <= k && OctetBit(b, k % 8)
  {
    MaskedBit(b, n % 8, k % 8);
    NoBit(k % 8);
  }

  lemma KeepUpToBit(b: bv8, k: nat, n: nat)
    ensures OctetBit(KeepUpTo(b, k / 8, n), k % 8) <==> k < n && OctetBit(b, k % 8)
  {
    MaskedBit(b, n % 8, k % 8);
    NoBit(k % 8);
  }

  lemma NoBit(i: nat)
    requires i < 8
    ensures !OctetBit(0, i)
  {
  }

  lemma AllMask(b: bv8)
    ensures b & TruncLeft(0) == b && b & TruncRight(0) == 0
  {
  }

  /** `truncate`: keeps bits minPrefix to maxPrefix - 1; out-of-range arguments change nothing. */
  method Truncate(a: array<bv8>, minPrefix: int, maxPrefix: int)
    requires a.Length == 16
    modifies a
    ensures minPrefix > 128 || minPrefix < 0 || maxPrefix > 128 || maxPrefix < 0 ==> a[..] == old(a[..])
    ensures 0 <= minPrefix <= 128 && 0 <= maxPrefix <= 128 ==>
              forall k: nat | k < 128 :: Bit(a[..], k) <==> minPrefix <= k < maxPrefix && Bit(old(a[..]), k)
  {
    if minPrefix > 128 || minPrefix < 0 || maxPrefix > 128 || maxPrefix < 0 {
      return;
    }
    ghost var before := a[..];
    TruncateLeft(a, minPrefix);
    ghost var middle := a[..];
    TruncateRight(a, maxPrefix);
    TruncatedBits(before, middle, a[..], minPrefix, maxPrefix);
  }

  lemma TruncatedBits(before: Octets, middle: Octets, after: Octets, minPrefix: nat, maxPrefix: nat)
    requires |before| == |middle| == |after| == 16
    requires forall j :: 0 <= j < 16 ==> middle[j] == KeepFrom(before[j], j, minPrefix)
    requires forall j :: 0 <= j < 16 ==> after[j] == KeepUpTo(middle[j], j, maxPrefix)
    ensures forall k: nat | k < 128 :: Bit(after, k) <==> minPrefix <= k < maxPrefix && Bit(before, k)
  {
    forall k: nat | k < 128
      ensures Bit(after, k) <==> minPrefix <= k < maxPrefix && Bit(before, k)
    {
      KeepFromBit(before[k / 8], k, minPrefix);
      KeepUpToBit(middle[k / 8], k, maxPrefix);
    }
  }

  method TruncateLeft(a: array<bv8>, minPrefix: nat)
    requires a.Length == 16 && minPrefix <= 128
    modifies a
    ensures forall j :: 0 <= j < 16 ==> a[j] == KeepFrom(old(a[j]), j, minPrefix)
  {
    var x := minPrefix / 8;
    Zero(a, 0, x);
    if minPrefix % 8 != 0 {
      a[x] := a[x] & TruncLeft(minPrefix % 8);
    } else if x < 16 {
      AllMask(a[x]);
    }
  }

  method TruncateRight(a: array<bv8>, maxPrefix: nat)
    requires a.Length == 16 && maxPrefix <= 128
    modifies a
    ensures forall j :: 0 <= j < 16 ==> a[j] == KeepUpTo(old(a[j]), j, maxPrefix)
  {
    var x := maxPrefix / 8;
    if x < 16 {
      AllMask(a[x]);
    }
    if maxPrefix % 8 != 0 {
      x := x + 1;
    }
    Zero(a, x, 16);
    if maxPrefix % 8 != 0 {
      x := maxPrefix / 8;
      a[x] := a[x] & TruncRight(maxPrefix % 8);
    }
  }

  /** The constructor that joins the first `length` bits of a prefix with the rest of a host. */
  method PrefixAndHost(prefix: Octets, host: Octets, length: nat) returns (r: Octets)
    requires |prefix| == |host| == 16 && length <= 128
    ensures |r| == 16
    ensures forall k: nat | k < 128 :: Bit(r, k) <==> if k < length then Bit(prefix, k) else Bit(host, k)
  {
    var offset := length / 8;
    r := prefix[..offset] + host[offset..];
    if length % 8 != 0 {
      var p, h := prefix[offset], host[offset];
      r := r[offset := (p & TruncRight(length % 8)) | (h & TruncLeft(length % 8))];
    }
    JoinedBits(prefix, host, length, r);
  }

  /** Octet `j` of an address whose bits before bit `part` of octet `whole` come from `p`. */
  function JoinOctet(p: bv8, h: bv8, j: nat, whole: nat, part: nat): bv8
    requires part < 8
  {
    if j < whole then p
    else if j == whole && part != 0 then (p & TruncRight(part)) | (h & TruncLeft(part))
    else h
  }

  lemma JoinOctetBit(p: bv8, h: bv8, j: nat, i: nat, whole: nat, part: nat)
    requires i < 8 && part < 8
    ensures OctetBit(JoinOctet(p, h, j, whole, part), i)
       <==> if 8 * j + i < 8 * whole + part then OctetBit(p, i) else OctetBit(h, i)
  {
    if j == whole && part != 0 {
      JoinedBit(p, h, part, i);
    }
  }

  lemma JoinedBits(prefix: Octets, host: Octets, length: nat, r: Octets)
    requires |prefix| == |host| == |r| == 16
    requires forall j :: 0 <= j < 16 ==> r[j] == JoinOctet(prefix[j], host[j], j, length / 8, length % 8)
    ensures forall k: nat | k < 128 :: Bit(r, k) <==> if k < length then Bit(prefix, k) else Bit(host, k)
  {
    forall k: nat | k < 128
      ensures Bit(r, k) <==> if k < length then Bit(prefix, k) else Bit(host, k)
    {
      JoinOctetBit(prefix[k / 8], host[k / 8], k / 8, k % 8, length / 8, length % 8);
    }
  }

  // ---- splitting a delegated prefix --------------------------------------------------------

  datatype Prefix = Prefix(addr: Octets, length: nat)

  /** The octet a 32-bit interface index contributes: its value modulo 256. */
  function IdOctet(id: bv32): bv8 {
    (id & 0xff) as bv8
  }

  function ShiftRight(w: bv16, n: nat): bv16
    requires n < 8
  {
    match n
    case 0 => w
    case 1 => w >> 1
    case 2 => w >> 2
    case 3 => w >> 3
    case 4 => w >> 4
    case 5 => w >> 5
    case 6 => w >> 6
    case 7 => w >> 7
  }

  /** The masks of `modifyPrefix` on the 16-bit word that holds the eight inserted bits. */
  function SplitWord(existing: bv16, id: bv8, shift: nat): bv16
    requires shift < 8
  {
    var bitmask := ShiftRight(0xff00, shift);
    var infixmask := ShiftRight((id as bv16) << 8, shift);
    (existing & !bitmask) | (bitmask & infixmask)
  }

  function ReadUint16(hi: bv8, lo: bv8): bv16 {
    ((hi as bv16) << 8) + (lo as bv16)
  }

  function High(w: bv16): bv8 {
    ((w >> 8) & 0xff) as bv8
  }

  function Low(w: bv16): bv8 {
    (w & 0xff) as bv8
  }

  function IdRight(id: bv8, n: nat): bv8
    requires n < 8
  {
    match n
    case 0 => id
    case 1 => id >> 1
    case 2 => id >> 2
    case 3 => id >> 3
    case 4 => id >> 4
    case 5 => id >> 5
    case 6 => id >> 6
    case 7 => id >> 7
  }

  function IdLeft(id: bv8, n: nat): bv8
    requires n < 8
  {
    match n
    case 0 => 0
    case 1 => id << 7
    case 2 => id << 6
    case 3 => id << 5
    case 4 => id << 4
    case 5 => id << 3
    case 6 => id << 2
    case 7 => id << 1
  }

  lemma SplitWordBy1To2(hi: bv8, lo: bv8, id: bv8, shift: nat)
    requires 1 <= shift <= 2
    ensures var w := SplitWord(ReadUint16(hi, lo), id, shift);
            High(w) == (hi & TruncRight(shift)) | IdRight(id, shift) &&
            Low(w) == IdLeft(id, shift) | (lo & TruncLeft(shift))
  {
  }

  lemma SplitWordBy3To5(hi: bv8, lo: bv8, id: bv8, shift: nat)
    requires 3 <= shift <= 5
    ensures var w := SplitWord(ReadUint16(hi, lo), id, shift);
            High(w) == (hi & TruncRight(shift)) | IdRight(id, shift) &&
            Low(w) == IdLeft(id, shift) | (lo & TruncLeft(shift))
  {
  }

  lemma SplitWordBy6To7(hi: bv8, lo: bv8, id: bv8, shift: nat)
    requires 6 <= shift <= 7
    ensures var w := SplitWord(ReadUint16(hi, lo), id, shift);
            High(w) == (hi & TruncRight(shift)) | IdRight(id, shift) &&
            Low(w) == IdLeft(id, shift) | (lo & TruncLeft(shift))
  {
  }

  lemma SplitWordOctets(hi: bv8, lo: bv8, id: bv8, shift: nat)
    requires 0 < shift < 8
    ensures var w := SplitWord(ReadUint16(hi, lo), id, shift);
            High(w) == (hi & TruncRight(shift)) | IdRight(id, shift) &&
            Low(w) == IdLeft(id, shift) | (lo & TruncLeft(shift))
  {
    if shift <= 2 {
      SplitWordBy1To2(hi, lo, id, shift);
    } else if shift <= 5 {
      SplitWordBy3To5(hi, lo, id, shift);
    } else {
      SplitWordBy6To7(hi, lo, id, shift);
    }
  }

  lemma OrBit(a: bv8, b: bv8, i: nat)
    requires i < 8
    ensures OctetBit(a | b, i) <==> OctetBit(a, i) || OctetBit(b, i)
  {
  }

  lemma IdRightBit(id: bv8, n: nat, i: nat)
    requires 0 < n < 8 && i < 8
    ensures OctetBit(IdRight(id, n), i) <==> n <= i && OctetBit(id, i - n)
  {
  }

  lemma IdLeftBit(id: bv8, n: nat, i: nat)
    requires 0 < n < 8 && i < 8
    ensures OctetBit(IdLeft(id, n), i) <==> i < n && OctetBit(id, i + 8 - n)
  {
  }

  /** Octet `j` of a sub-prefix: the identifier's eight bits start at bit `part` of octet `whole`. */
  function SubOctet(p: bv8, id: bv8, j: nat, whole: nat, part: nat): bv8
    requires part < 8
  {
    if part == 0 then
      if j == whole then id else p
    else if j == whole then (p & TruncRight(part)) | IdRight(id, part)
    else if j == whole + 1 then IdLeft(id, part) | (p & TruncLeft(part))
    else p
  }

  lemma FirstSubOctetBit(p: bv8, id: bv8, part: nat, i: nat)
    requires 0 < part < 8 && i < 8
    ensures OctetBit((p & TruncRight(part)) | IdRight(id, part), i)
       <==> if part <= i then OctetBit(id, i - part) else OctetBit(p, i)
  {
    OrBit(p & TruncRight(part), IdRight(id, part), i);
    MaskedBit(p, part, i);
    IdRightBit(id, part, i);
  }

  lemma SecondSubOctetBit(p: bv8, id: bv8, part: nat, i: nat)
    requires 0 < part < 8 && i < 8
    ensures OctetBit(IdLeft(id, part) | (p & TruncLeft(part)), i)
       <==> if i < part then OctetBit(id, i + 8 - part) else OctetBit(p, i)
  {
    OrBit(IdLeft(id, part), p & TruncLeft(part), i);
    MaskedBit(p, part, i);
    IdLeftBit(id, part, i);
  }

  lemma SubOctetBit(p: bv8, id: bv8, j: nat, i: nat, whole: nat, part: nat)
    requires i < 8 && part < 8
    ensures OctetBit(SubOctet(p, id, j, whole, part), i)
       <==> if 0 <= (8 * j + i) - (8 * whole + part) < 8 then OctetBit(id, (8 * j + i) - (8 * whole + part))
            else OctetBit(p, i)
  {
    if part != 0 && j == whole {
      FirstSubOctetBit(p, id, part, i);
    } else if part != 0 && j == whole + 1 {
      SecondSubOctetBit(p, id, part, i);
    }
  }

  /** `sub` is `prefix` with bits length to length + 7 replaced by the octet `id`. */
  ghost predicate IsSubPrefix(sub: Prefix, prefix: Octets, length: nat, id: bv8)
    requires |prefix| == 16
  {
    |sub.addr| == 16 && sub.length == length + 8 &&
    forall k: nat | k < 128 ::
      Bit(sub.addr, k) <==> if length <= k < length + 8 then OctetBit(id, k - length) else Bit(prefix, k)
  }

  /** One interface's share of the delegated prefix. */
  method SubPrefix(prefix: Octets, length: nat, id: bv32) returns (sub: Prefix)
    requires |prefix| == 16 && length <= 120
    ensures IsSubPrefix(sub, prefix, length, IdOctet(id))
  {
    var buf := prefix;
    var offset := length / 8;
    if length % 8 == 0 {
      buf := buf[offset := IdOctet(id)];
    } else {
      var existing := ReadUint16(buf[offset], buf[offset + 1]);
      var word := SplitWord(existing, IdOctet(id), length % 8);
      SplitWordOctets(buf[offset], buf[offset + 1], IdOctet(id), length % 8);
      buf := buf[offset := High(word)][offset + 1 := Low(word)];
    }
    sub := Prefix(buf, length + 8);
    SubPrefixBits(prefix, length, IdOctet(id), buf);
  }

  lemma SubPrefixBits(prefix: Octets, length: nat, id: bv8, buf: Octets)
    requires |prefix| == |buf| == 16
    requires forall j :: 0 <= j < 16 ==> buf[j] == SubOctet(prefix[j], id, j, length / 8, length % 8)
    ensures IsSubPrefix(Prefix(buf, length + 8), prefix, length, id)
  {
    forall k: nat | k < 128
      ensures Bit(buf, k) <==> if length <= k < length + 8 then OctetBit(id, k - length) else Bit(prefix, k)
    {
      SubOctetBit(prefix[k / 8], id, k / 8, k % 8, length / 8, length % 8);
    }
  }

  /**
    `modifyPrefix`: every interface of `ids` gets its share of the prefix; `accepted[i]` says
    whether the operating system took the i-th one. Reports whether any was taken (or none
    was needed).
   */
  method ModifyPrefix(prefix: Octets, length: nat, ids: seq<bv32>, accepted: seq<bool>)
    returns (ok: bool, subs: seq<Prefix>)
    requires |prefix| == 16 && |accepted| == |ids|
    ensures length > 120 || |ids| >= 256 ==> !ok && subs == []
    ensures length <= 120 && |ids| == 0 ==> ok && subs == []
    ensures length <= 120 && |ids| == 1 ==> subs == [Prefix(prefix, length)]
    ensures length <= 120 && 1 < |ids| < 256 ==>
              |subs| == |ids| &&
              forall i :: 0 <= i < |ids| ==> IsSubPrefix(subs[i], prefix, length, IdOctet(ids[i]))
    ensures length <= 120 && 0 < |ids| < 256 ==> (ok <==> true in accepted)
  {
    subs := [];
    if length > 120 {
      return false, [];
    }
    if |ids| == 0 {
      return true, [];
    }
    var conf := 0;
    for i := 0 to |ids|
      invariant |ids| < 256 || i == 0
      invariant |subs| == i
      invariant |ids| == 1 && i == 1 ==> subs == [Prefix(prefix, length)]
      invariant |ids| > 1 ==> forall m :: 0 <= m < i ==> IsSubPrefix(subs[m], prefix, length, IdOctet(ids[m]))
      invariant conf > 0 <==> true in accepted[..i]
    {
      var sub;
      if |ids| == 1 {
        sub := Prefix(prefix, length);
      } else if |ids| < 256 {
        sub := SubPrefix(prefix, length, ids[i]);
      } else {
        return false, [];
      }
      subs := subs + [sub];
      if accepted[i] {
        conf := conf + 1;
      }
    }
    assert accepted[..|ids|] == accepted;
    ok := conf > 0;
  }

  /** `x` is an address of the prefix: they agree on all the prefix's bits. */
  ghost predicate Inside(x: Octets, p: Prefix)
    requires |p.addr| == 16 && p.length <= 128
  {
    |x| == 16 && forall k: nat | k < p.length :: Bit(x, k) == Bit(p.addr, k)
  }

  lemma SubPrefixInsideDelegated(sub: Prefix, prefix: Octets, length: nat, id: bv8, x: Octets)
    requires |prefix| == 16 && length <= 120 && IsSubPrefix(sub, prefix, length, id) && Inside(x, sub)
    ensures Inside(x, Prefix(prefix, length))
  {
    forall k: nat | k < length
      ensures Bit(x, k) == Bit(prefix, k)
    {
      assert Bit(x, k) == Bit(sub.addr, k);
    }
  }

  /** Two shares have no common address exactly when the interface indices differ modulo 256. */
  lemma SubPrefixesDisjointIff(a: Prefix, b: Prefix, prefix: Octets, length: nat, idA: bv32, idB: bv32)
    requires |prefix| == 16 && length <= 120
    requires IsSubPrefix(a, prefix, length, IdOctet(idA)) && IsSubPrefix(b, prefix, length, IdOctet(idB))
    ensures (forall x: Octets :: !(Inside(x, a) && Inside(x, b))) <==> idA & 0xff != idB & 0xff
  {
    if idA & 0xff != idB & 0xff {
      forall x: Octets
        ensures !(Inside(x, a) && Inside(x, b))
      {
        if Inside(x, a) && Inside(x, b) {
          forall i: nat | i < 8
            ensures OctetBit(IdOctet(idA), i) == OctetBit(IdOctet(idB), i)
          {
            assert Bit(x, length + i) == Bit(a.addr, length + i);
            assert Bit(x, length + i) == Bit(b.addr, length + i);
          }
          OctetFromBits(IdOctet(idA), IdOctet(idB));
        }
      }
    } else {
      forall k: nat | k < b.length
        ensures Bit(a.addr, k) == Bit(b.addr, k)
      {
      }
      assert Inside(a.addr, a) && Inside(a.addr, b);
    }
  }
}
