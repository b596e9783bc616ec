/**
  The hexadecimal form of a DUID (Misc/DUID.cpp): `packedToPlain` prints octets as pairs of
  lower-case digits separated by colons, `plainToPacked` reads such a text back.
 */
module Duid {
  import opened Containers

  type Bytes = seq<bv8>

  function HexChar(n: bv8): char
    requires n < 16
  {
    match n
    case 0 => '0' case 1 => '1' case 2 => '2' case 3 => '3'
    case 4 => '4' case 5 => '5' case 6 => '6' case 7 => '7'
    case 8 => '8' case 9 => '9' case 10 => 'a' case 11 => 'b'
    case 12 => 'c' case 13 => 'd' case 14 => 'e' case _ => 'f'
  }

  function HexPair(b: bv8): string {
    [HexChar(b >> 4), HexChar(b & 0x0f)]
  }

  function Plain(d: Bytes): string {
    if d == [] then ""
    else if |d| == 1 then HexPair(d[0])
    else Plain(d[..|d| - 1]) + ":" + HexPair(d[|d| - 1])
  }

  /** The value a character contributes: letters count from 10, everything else from '0'. */
  function Digit(c: char): bv8 {
    var code := c as int;
    var value := if 'a' <= c <= 'z' then code - 97 + 10
                 else if 'A' <= c <= 'Z' then code - 65 + 10
                 else code - 48;
    (value % 256) as bv8
  }

  /** The characters read as digits: one colon may precede each; past the end a NUL is read. */
  function DigitChars(s: string): (r: string) {
    if s == "" then []
    else if s[0] != ':' then [s[0]] + DigitChars(s[1..])
    else if |s| == 1 then ['\0']
    else [s[1]] + DigitChars(s[2..])
  }

  /** Two digits in one octet; bits that do not fit are lost. */
  function Join(high: bv8, low: bv8): bv8 {
    (high << 4) | low
  }

  /** Pairs of digits as octets; a last single digit is not counted. */
  function Pack(cs: string): Bytes {
    seq(|cs| / 2, j requires 0 <= j < |cs| / 2 => Join(Digit(cs[2 * j]), Digit(cs[2 * j + 1])))
  }

  /** The digits in order. */
  lemma HexDigits()
    ensures [HexChar(0), HexChar(1), HexChar(2), HexChar(3), HexChar(4), HexChar(5), HexChar(6), HexChar(7),
             HexChar(8), HexChar(9), HexChar(10), HexChar(11), HexChar(12), HexChar(13), HexChar(14), HexChar(15)] ==
            "0123456789abcdef"
  {
  }

  lemma PlainSnoc(d: Bytes)
    requires |d| > 1
    ensures Plain(d) == Plain(d[..|d| - 1]) + ":" + HexPair(d[|d| - 1])
  {
  }

  /** The `k`-th octet is printed as two digits, the higher first, then a colon, except after the last. */
  lemma {:induction false} PlainLayout(d: Bytes, k: nat)
    requires k < |d|
    ensures |Plain(d)| == 3 * |d| - 1
    ensures Plain(d)[3 * k] == HexChar(d[k] >> 4) && Plain(d)[3 * k + 1] == HexChar(d[k] & 0x0f)
    ensures k < |d| - 1 ==> Plain(d)[3 * k + 2] == ':'
  {
    if |d| > 1 {
      PlainSnoc(d);
      PlainLayout(d[..|d| - 1], if k < |d| - 1 then k else 0);
    }
  }

  /** Letters are read alike in both cases. */
  lemma CaseIsIgnored(c: char)
    requires 'a' <= c <= 'z'
    ensures Digit(c) == Digit((c as int - 32) as char)
  {
  }

  /** The text's digits fit into a buffer of half the text's length. */
  predicate FitsHalfBuffer(s: string) {
    |DigitChars(s)| <= 2 * (|s| / 2)
  }

  function Front(s: string): string {
    if s == "" then "" else s[..|s| - 1]
  }

  /** Only a colon with a character behind it makes the digits fewer than the characters. */
  lemma {:induction false} DigitCount(s: string)
    ensures |DigitChars(s)| <= |s|
    ensures |DigitChars(s)| == |s| <==> ':' !in Front(s)
  {
    if s != "" {
      if s[0] != ':' {
        DigitCount(s[1..]);
        assert |s| > 1 ==> Front(s) == [s[0]] + Front(s[1..]);
      } else if |s| > 1 {
        DigitCount(s[2..]);
        assert Front(s)[0] == ':';
      }
    }
  }

  /** The texts that overrun the buffer are those of odd length with no colon before the last character. */
  lemma FitsHalfBufferIff(s: string)
    ensures FitsHalfBuffer(s) <==> |s| % 2 == 0 || ':' in Front(s)
  {
    DigitCount(s);
  }

  /** Three digits do not fit into one octet. */
  lemma OddTextOverruns()
    ensures !FitsHalfBuffer("012")
  {
    FitsHalfBufferIff("012");
  }

  class DUID {
    var bytes: Bytes
    var plain: string

    constructor FromPacked(d: Bytes)
      ensures bytes == d && plain == Plain(d)
    {
      bytes, plain := d, "";
      new;
      PackedToPlain();
    }

    constructor FromPlain(text: string)
      ensures plain == text && (FitsHalfBuffer(text) ==> bytes == Pack(DigitChars(text)))
    {
      plain, bytes := text, [];
      new;
      var fits := PlainToPacked();
    }

    method PackedToPlain()
      modifies this
      ensures bytes == old(bytes) && plain == Plain(bytes)
    {
      var tmp := "";
      for i := 0 to |bytes|
        invariant bytes == old(bytes)
        invariant tmp == Plain(bytes[..i])
      {
        assert bytes[..i + 1][..i] == bytes[..i];
        if i != 0 {
          tmp := tmp + ":";
        }
        tmp := tmp + HexPair(bytes[i]);
      }
      assert bytes[..|bytes|] == bytes;
      plain := tmp;
    }

    /**
      The buffer's initial contents are arbitrary; every octet is written twice. `fits` is false when
      a digit would be written behind the end of the buffer, where the C++ code has no meaning.
     */
    method PlainToPacked() returns (fits: bool)
      modifies this
      ensures plain == old(plain) && (fits <==> FitsHalfBuffer(plain))
      ensures fits ==> bytes == Pack(DigitChars(plain))
    {
      var tmp := new bv8[|plain| / 2];
      var j;
      j, fits := ReadDigits(plain, tmp);
      bytes := tmp[..j];
    }
  }

  /** The buffer after the digits `seen`: `j` octets are complete, and a further one is half done
      when the number of digits is odd. */
  ghost predicate Written(buffer: Bytes, j: nat, seen: string) {
    j == |seen| / 2 <= |buffer| && buffer[..j] == Pack(seen) &&
    (|seen| % 2 == 1 ==> j < |buffer| && buffer[j] << 4 == Digit(seen[2 * j]) << 4)
  }

  lemma WriteStep(buffer: Bytes, j: nat, seen: string, c: char)
    requires Written(buffer, j, seen) && j < |buffer|
    ensures Written(buffer[j := (buffer[j] << 4) | Digit(c)], if |seen| % 2 == 1 then j + 1 else j, seen + [c])
  {
    var after := buffer[j := (buffer[j] << 4) | Digit(c)];
    Shifted(buffer[j], Digit(c));
    if |seen| % 2 == 1 {
      var l, r := Pack(seen + [c]), after[..j + 1];
      forall m | 0 <= m < j + 1
        ensures l[m] == r[m]
      {
        if m < j {
          assert Pack(seen)[m] == buffer[..j][m];
        }
      }
    } else {
      assert Pack(seen + [c]) == Pack(seen);
      assert after[..j] == buffer[..j];
    }
  }

  /** The state of the reading loop: `seen` was read before position `i` and written. */
  ghost predicate Reading(plain: string, buffer: Bytes, i: nat, j: nat, twoNibbles: bool, seen: string) {
    DigitChars(plain) == seen + CharsFrom(plain, i) &&
    Written(buffer, j, seen) && (twoNibbles <==> |seen| % 2 == 1)
  }

  /** The second half of a round of the loop of `plainToPacked`: one digit goes into the buffer. */
  method WriteNext(tmp: array<bv8>, j: nat, c: char, ghost seen: string)
    requires Written(tmp[..], j, seen) && j < tmp.Length
    modifies tmp
    ensures Written(tmp[..], if |seen| % 2 == 1 then j + 1 else j, seen + [c])
  {
    WriteStep(tmp[..], j, seen, c);
    WriteDigit(tmp, j, Digit(c));
  }

  /** One round of the loop of `plainToPacked`. */
  method ReadDigit(plain: string, tmp: array<bv8>, i: nat, j: nat, twoNibbles: bool, ghost seen: string)
    returns (i': nat, j': nat, twoNibbles': bool, ghost seen': string)
    requires i < |plain| && Reading(plain, tmp[..], i, j, twoNibbles, seen) && j < tmp.Length
    modifies tmp
    ensures i < i' <= |plain| + 1 && Reading(plain, tmp[..], i', j', twoNibbles', seen')
  {
    ReadOne(plain, i);
    i' := if plain[i] == ':' then i + 1 else i;
    var c := if i' < |plain| then plain[i'] else '\0';
    i' := i' + 1;
    MoveOne(DigitChars(plain), seen, c, CharsFrom(plain, i'));
    WriteNext(tmp, j, c, seen);
    j' := if twoNibbles then j + 1 else j;
    twoNibbles' := !twoNibbles;
    seen' := seen + [c];
  }

  /** The loop of `plainToPacked`: fills `tmp` and returns how many octets are complete, and whether
      all digits found room. */
  method ReadDigits(plain: string, tmp: array<bv8>) returns (j: nat, fits: bool)
    modifies tmp
    ensures j <= tmp.Length && (fits <==> |DigitChars(plain)| <= 2 * tmp.Length)
    ensures fits ==> tmp[..j] == Pack(DigitChars(plain))
  {
    var i, twoNibbles := 0, false;
    ghost var seen := "";
    j := 0;
    assert plain[0..] == plain;
    while i < |plain|
      invariant 0 <= i <= |plain| + 1 && Reading(plain, tmp[..], i, j, twoNibbles, seen)
      decreases |plain| + 1 - i
    {
      if j == tmp.Length {
        ReadOne(plain, i);
        return j, false;
      }
      i, j, twoNibbles, seen := ReadDigit(plain, tmp, i, j, twoNibbles, seen);
    }
    fits := true;
    assert tmp[..][..j] == tmp[..j];
  }

  /** The characters still to be read from position `i`. */
  ghost function CharsFrom(plain: string, i: nat): string {
    if i < |plain| then DigitChars(plain[i..]) else ""
  }

  lemma MoveOne(all: string, seen: string, c: char, rest: string)
    requires all == seen + ([c] + rest)
    ensures all == (seen + [c]) + rest
  {
  }

  lemma ReadOne(plain: string, i: nat)
    requires i < |plain|
    ensures var k := if plain[i] == ':' then i + 1 else i;
            CharsFrom(plain, i) == [if k < |plain| then plain[k] else '\0'] + CharsFrom(plain, k + 1)
  {
    var rest := plain[i..];
    if plain[i] != ':' {
      assert rest[1..] == plain[i + 1..];
      assert DigitChars(rest) == [rest[0]] + DigitChars(rest[1..]);
    } else if |rest| > 1 {
      assert rest[2..] == plain[i + 2..];
      assert DigitChars(rest) == [rest[1]] + DigitChars(rest[2..]);
    } else {
      assert DigitChars(rest) == ['\0'];
    }
  }

  /** Shifts a digit into an octet of the buffer. */
  method WriteDigit(tmp: array<bv8>, j: nat, digit: bv8)
    requires j < tmp.Length
    modifies tmp
    ensures tmp[..] == old(tmp[..])[j := (old(tmp[j]) << 4) | digit]
  {
    tmp[j] := tmp[j] << 4;
    tmp[j] := tmp[j] | digit;
  }

  // ---- round trip ----------------------------------------------------------------------------

  /** Shifting an octet again leaves only the digit written last. */
  lemma Shifted(garbage: bv8, digit: bv8)
    ensures ((garbage << 4) | digit) << 4 == digit << 4
  {
  }

  lemma HexDigit(n: bv8)
    requires n < 16
    ensures HexChar(n) != ':' && Digit(HexChar(n)) == n
  {
    if n < 10 {
      DecimalDigit(n);
    } else {
      LetterDigits();
      assert n == 10 || n == 11 || n == 12 || n == 13 || n == 14 || n == 15;
    }
  }

  lemma DecimalDigit(n: bv8)
    requires n < 10
    ensures HexChar(n) != ':' && Digit(HexChar(n)) == n
  {
  }

  lemma LetterDigits()
    ensures Digit('a') == 10 && Digit('b') == 11 && Digit('c') == 12
    ensures Digit('d') == 13 && Digit('e') == 14 && Digit('f') == 15
  {
    Letter('a', 10);
    Letter('b', 11);
    Letter('c', 12);
    Letter('d', 13);
    Letter('e', 14);
    Letter('f', 15);
  }

  lemma Letter(c: char, v: int)
    requires 'a' <= c <= 'f' && v == c as int - 87
    ensures Digit(c) == v as bv8
  {
  }

  lemma NibblesRejoin(b: bv8)
    ensures b >> 4 < 16 && b & 0x0f < 16 && Join(b >> 4, b & 0x0f) == b
  {
  }

  lemma PairRejoins(b: bv8)
    ensures var p := HexPair(b);
            p[0] != ':' && p[1] != ':' && Join(Digit(p[0]), Digit(p[1])) == b
  {
    NibblesRejoin(b);
    HexDigit(b >> 4);
    HexDigit(b & 0x0f);
  }

  lemma DigitsStep(s: string, t: string, n: nat, digits: string)
    requires 0 < n <= |s| && n == if s[0] != ':' then 1 else 2
    requires DigitChars(s[n..] + t) == DigitChars(s[n..]) + digits
    ensures DigitChars(s + t) == DigitChars(s) + digits
  {
    assert (s + t)[n..] == s[n..] + t;
    assert DigitChars(s + t) == [s[n - 1]] + DigitChars(s[n..] + t);
  }

  /** Reading a text that does not end in a colon, then more. */
  lemma {:induction false} DigitsConcat(s: string, t: string)
    requires s == "" || s[|s| - 1] != ':'
    ensures DigitChars(s + t) == DigitChars(s) + DigitChars(t)
    decreases |s|
  {
    if s == "" {
      assert s + t == t;
    } else {
      var n := if s[0] != ':' then 1 else 2;
      DigitsConcat(s[n..], t);
      DigitsStep(s, t, n, DigitChars(t));
    }
  }

  lemma TwoDigits(p: string)
    requires |p| == 2 && p[0] != ':' && p[1] != ':'
    ensures DigitChars(p) == p && DigitChars(":" + p) == p
  {
    assert p[1..] == [p[1]] && [p[1]][1..] == "";
    assert DigitChars([p[1]]) == [p[1]];
    assert (":" + p)[2..] == [p[1]];
  }

  /** The printed form ends in a digit and is read as the concatenated pairs. */
  lemma {:induction false} PlainDigits(d: Bytes)
    ensures |Plain(d)| == if d == [] then 0 else 3 * |d| - 1
    ensures d != [] ==> Plain(d)[|Plain(d)| - 1] != ':'
    ensures DigitChars(Plain(d)) == Flat(d, HexPair)
  {
    if d != [] {
      var n := |d| - 1;
      var pair := HexPair(d[n]);
      PairRejoins(d[n]);
      TwoDigits(pair);
      if n == 0 {
        assert d[..n] == [];
      } else {
        PlainDigits(d[..n]);
        assert Plain(d) == Plain(d[..n]) + (":" + pair);
        DigitsConcat(Plain(d[..n]), ":" + pair);
      }
    }
  }

  lemma {:induction false} FlatPairs(d: Bytes)
    ensures |Flat(d, HexPair)| == 2 * |d|
    ensures Pack(Flat(d, HexPair)) == d
  {
    if d != [] {
      var n := |d| - 1;
      FlatPairs(d[..n]);
      PairRejoins(d[n]);
      PackSnoc(Flat(d[..n], HexPair), HexPair(d[n]));
      assert d == d[..n] + [d[n]];
    }
  }

  lemma PackSnoc(front: string, pair: string)
    requires |front| % 2 == 0 && |pair| == 2
    ensures Pack(front + pair) == Pack(front) + [Join(Digit(pair[0]), Digit(pair[1]))]
  {
    var l, r := Pack(front + pair), Pack(front) + [Join(Digit(pair[0]), Digit(pair[1]))];
    forall m | 0 <= m < |l|
      ensures l[m] == r[m]
    {
    }
  }

  /** Reading back a printed DUID gives the same octets, within the half-length buffer. */
  lemma RoundTrip(d: Bytes)
    ensures FitsHalfBuffer(Plain(d)) && Pack(DigitChars(Plain(d))) == d
  {
    PlainDigits(d);
    FlatPairs(d);
  }

  /** The same, on the objects. */
  method Reparse(d: Bytes) returns (copy: DUID)
    ensures copy.bytes == d
  {
    var original := new DUID.FromPacked(d);
    RoundTrip(d);
    copy := new DUID.FromPlain(original.plain);
  }
}
