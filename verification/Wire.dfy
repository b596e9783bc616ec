/**
  Message framing: the header and option layout written by `TMsg::storeSelf`
  (Messages/Msg.cpp) and read back by the constructors of `TMsg` and `TClntMsg`
  (ClntMessages/ClntMsg.cpp); sections 6 and 22.1 of RFC 3315.
 */
module Wire {
  import opened Containers
  import opened Address128

  const OPTION_SERVERID: nat := 2

  datatype Tlv = Tlv(code: nat, payload: seq<Octet>)

  predicate WellFormed(t: Tlv) {
    t.code < 0x1_0000 && |t.payload| < 0x1_0000
  }

  predicate AllWellFormed(ts: seq<Tlv>) {
    forall i :: 0 <= i < |ts| ==> WellFormed(ts[i])
  }

  function Uint16(v: nat): (s: seq<Octet>)
    ensures |s| == 2
  {
    [(v / 256) % 256, v % 256]
  }

  function ReadUint16(s: seq<Octet>, pos: nat): (v: nat)
    requires pos + 2 <= |s|
    ensures v < 0x1_0000
  {
    s[pos] as int * 256 + s[pos + 1]
  }

  /** The three octets of a transaction identifier. */
  function ReadTransId(s: seq<Octet>): nat
    requires |s| >= 4
  {
    s[1] as int * 0x1_0000 + s[2] as int * 256 + s[3]
  }

  /** One option: code, length and payload. */
  function Encode(t: Tlv): (s: seq<Octet>)
    ensures |s| == 4 + |t.payload|
  {
    Uint16(t.code) + Uint16(|t.payload|) + t.payload
  }

  function EncodeAll(ts: seq<Tlv>): seq<Octet> {
    Flat(ts, Encode)
  }

  /** The header: message type and three octets of transaction identifier. */
  function Header(msgType: nat, transId: nat): (s: seq<Octet>)
    ensures |s| == 4
  {
    [msgType % 256, (transId / 0x1_0000) % 256, (transId / 256) % 256, transId % 256]
  }

  function Serialize(msgType: nat, transId: nat, options: seq<Tlv>): seq<Octet> {
    Header(msgType, transId) + EncodeAll(options)
  }

  /** Code and length take two octets each, the more significant first, and the payload follows. */
  lemma EncodeLayout(t: Tlv)
    requires WellFormed(t)
    ensures var s := Encode(t);
            256 * s[0] as int + s[1] as int == t.code && 256 * s[2] as int + s[3] as int == |t.payload| && s[4..] == t.payload
  {
  }

  lemma ThreeDigits(v: nat)
    requires v < 0x100_0000
    ensures 0x1_0000 * ((v / 0x1_0000) % 256) + 256 * ((v / 256) % 256) + v % 256 == v
  {
    var a := v / 256;
    var b := a / 256;
    assert v == 256 * a + v % 256 && a == 256 * b + a % 256 && b < 256;
    assert v / 0x1_0000 == b;
  }

  /** The type takes the first octet and the identifier the next three, the most significant first. */
  lemma HeaderLayout(msgType: nat, transId: nat)
    requires msgType < 0x100 && transId < 0x100_0000
    ensures var s := Header(msgType, transId);
            s[0] == msgType && 0x1_0000 * s[1] as int + 0x100 * s[2] as int + s[3] as int == transId
  {
    ThreeDigits(transId);
  }

  // ---- writing -----------------------------------------------------------------------------

  /** `getSize` (not a bulk message) */
  function Size(options: seq<Tlv>): nat {
    4 + |EncodeAll(options)|
  }

  /** Writes `s` at `pos`. */
  method StoreAt(buffer: array<Octet>, pos: nat, s: seq<Octet>)
    requires pos + |s| <= buffer.Length
    modifies buffer
    ensures buffer[..pos + |s|] == old(buffer[..pos]) + s
  {
    var i := 0;
    while i < |s|
      invariant 0 <= i <= |s|
      invariant buffer[..pos] == old(buffer[..pos])
      invariant buffer[pos..pos + i] == s[..i]
    {
      buffer[pos + i] := s[i];
      assert buffer[pos..pos + i + 1] == buffer[pos..pos + i] + [s[i]];
      assert s[..i + 1] == s[..i] + [s[i]];
      i := i + 1;
    }
    assert s[..|s|] == s;
    assert buffer[..pos + |s|] == buffer[..pos] + buffer[pos..pos + |s|];
  }

  /** The option loop of `storeSelf`. */
  method StoreOptions(buffer: array<Octet>, pos: nat, options: seq<Tlv>) returns (n: nat)
    requires pos + |EncodeAll(options)| <= buffer.Length
    modifies buffer
    ensures n == pos + |EncodeAll(options)|
    ensures buffer[..n] == old(buffer[..pos]) + EncodeAll(options)
  {
    n := pos;
    var i := 0;
    while i < |options|
      invariant 0 <= i <= |options|
      invariant n == pos + |EncodeAll(options[..i])| <= pos + |EncodeAll(options)|
      invariant buffer[..n] == old(buffer[..pos]) + EncodeAll(options[..i])
    {
      EncodedPrefix(options, i);
      StoreAt(buffer, n, Encode(options[i]));
      ConcatAssociative(old(buffer[..pos]), EncodeAll(options[..i]), Encode(options[i]));
      n := n + |Encode(options[i])|;
      i := i + 1;
    }
    assert options[..|options|] == options;
  }

  /** `storeSelf` (not a bulk message): the header octet by octet, then every option. */
  method StoreSelf(buffer: array<Octet>, msgType: nat, transId: nat, options: seq<Tlv>) returns (n: nat)
    requires Size(options) <= buffer.Length
    modifies buffer
    ensures n == Size(options)
    ensures buffer[..n] == Serialize(msgType, transId, options)
  {
    buffer[0] := msgType % 256;
    var tmp := transId;
    buffer[3] := tmp % 256; tmp := tmp / 256;
    buffer[2] := tmp % 256; tmp := tmp / 256;
    buffer[1] := tmp % 256; tmp := tmp / 256;
    assert buffer[..4] == Header(msgType, transId);
    n := StoreOptions(buffer, 4, options);
  }

  lemma EncodedPrefix(ts: seq<Tlv>, n: nat)
    requires n < |ts|
    ensures EncodeAll(ts[..n + 1]) == EncodeAll(ts[..n]) + Encode(ts[n])
    ensures |EncodeAll(ts[..n + 1])| <= |EncodeAll(ts)|
  {
    assert ts[..n + 1] == ts[..n] + [ts[n]];
    FlatSnoc(ts[..n], ts[n], Encode);
    assert ts == ts[..n + 1] + ts[n + 1..];
    FlatConcat(ts[..n + 1], ts[n + 1..], Encode);
  }

  // ---- reading -----------------------------------------------------------------------------

  /** Nothing more can be parsed: no octets, no room for a header, or a payload that overruns. */
  predicate Stuck(rest: seq<Octet>) {
    |rest| < 4 || 4 + ReadUint16(rest, 2) > |rest|
  }

  /** The last case drops the message. */
  predicate Overrun(rest: seq<Octet>) {
    |rest| >= 4 && 4 + ReadUint16(rest, 2) > |rest|
  }

  /** Walking `buf` visits the options `ts` and stops at `rest`. */
  predicate IsWalk(buf: seq<Octet>, ts: seq<Tlv>, rest: seq<Octet>) {
    buf == EncodeAll(ts) + rest && AllWellFormed(ts) && Stuck(rest)
  }

  function Front(s: seq<Octet>): Tlv
    requires !Stuck(s)
  {
    Tlv(ReadUint16(s, 0), s[4..4 + ReadUint16(s, 2)])
  }

  lemma FrontEncodes(s: seq<Octet>)
    requires !Stuck(s)
    ensures WellFormed(Front(s)) && |Encode(Front(s))| <= |s|
    ensures Encode(Front(s)) == s[..|Encode(Front(s))|]
  {
    TwoOctets(s, 0);
    TwoOctets(s, 2);
    var n := ReadUint16(s, 2);
    assert s[..4 + n] == s[0..2] + s[2..4] + s[4..4 + n];
  }

  lemma TwoOctets(s: seq<Octet>, pos: nat)
    requires pos + 2 <= |s|
    ensures Uint16(ReadUint16(s, pos)) == s[pos..pos + 2]
  {
    var v := ReadUint16(s, pos);
    assert v / 256 == s[pos] as int && v % 256 == s[pos + 1] as int;
  }

  lemma EncodeFront(t: Tlv, tail: seq<Octet>)
    requires WellFormed(t)
    ensures !Stuck(Encode(t) + tail) && Front(Encode(t) + tail) == t
  {
    var s := Encode(t) + tail;
    assert s[0] == t.code / 256 && s[1] == t.code % 256;
    assert s[2] == |t.payload| / 256 && s[3] == |t.payload| % 256;
    assert s[4..4 + |t.payload|] == t.payload;
  }

  lemma WalkHead(buf: seq<Octet>, ts: seq<Tlv>, rest: seq<Octet>)
    requires IsWalk(buf, ts, rest) && ts != []
    ensures !Stuck(buf) && Front(buf) == ts[0] && |Encode(ts[0])| <= |buf|
    ensures IsWalk(buf[|Encode(ts[0])|..], ts[1..], rest)
  {
    assert ts == [ts[0]] + ts[1..];
    FlatConcat([ts[0]], ts[1..], Encode);
    FlatSnoc([], ts[0], Encode);
    assert buf == Encode(ts[0]) + (EncodeAll(ts[1..]) + rest);
    EncodeFront(ts[0], EncodeAll(ts[1..]) + rest);
  }

  /** A buffer has only one walk. */
  lemma {:induction false} WalkUnique(buf: seq<Octet>, ts: seq<Tlv>, rest: seq<Octet>, us: seq<Tlv>, rest': seq<Octet>)
    requires IsWalk(buf, ts, rest) && IsWalk(buf, us, rest')
    ensures ts == us && rest == rest'
    decreases |ts|
  {
    if ts != [] {
      WalkHead(buf, ts, rest);
    }
    if us != [] {
      WalkHead(buf, us, rest');
    }
    if ts != [] && us != [] {
      WalkUnique(buf[|Encode(ts[0])|..], ts[1..], rest, us[1..], rest');
      assert ts == [ts[0]] + ts[1..] && us == [us[0]] + us[1..];
    } else {
      assert ts == [] ==> buf == rest;
      assert us == [] ==> buf == rest';
    }
  }

  /** The options that walking `buf` visits, and where it stops. */
  function Walked(buf: seq<Octet>): seq<Tlv>
    decreases |buf|
  {
    if Stuck(buf) then []
    else
      FrontEncodes(buf);
      [Front(buf)] + Walked(buf[|Encode(Front(buf))|..])
  }

  function Remainder(buf: seq<Octet>): seq<Octet>
    decreases |buf|
  {
    if Stuck(buf) then buf
    else
      FrontEncodes(buf);
      Remainder(buf[|Encode(Front(buf))|..])
  }

  lemma ConsEncode(t: Tlv, ts: seq<Tlv>)
    ensures EncodeAll([t] + ts) == Encode(t) + EncodeAll(ts)
  {
    FlatConcat([t], ts, Encode);
    assert [t] == [] + [t];
    FlatSnoc([], t, Encode);
  }

  /** They are a walk of the buffer, and the only one. */
  lemma {:induction false} WalkedIsWalk(buf: seq<Octet>)
    ensures IsWalk(buf, Walked(buf), Remainder(buf))
    decreases |buf|
  {
    if !Stuck(buf) {
      FrontEncodes(buf);
      var n := |Encode(Front(buf))|;
      WalkedIsWalk(buf[n..]);
      ConsEncode(Front(buf), Walked(buf[n..]));
      assert buf == buf[..n] + buf[n..];
      ConcatAssociative(Encode(Front(buf)), EncodeAll(Walked(buf[n..])), Remainder(buf[n..]));
    }
  }

  predicate HasCode(options: seq<Tlv>, code: nat) {
    exists t :: t in options && t.code == code
  }

  /** The option at `pos`, if its header and payload lie inside the buffer; `dropped` reports a
      payload that overruns it. */
  method ParseOption(buf: seq<Octet>, pos: nat) returns (option: Option<Tlv>, dropped: bool)
    requires pos <= |buf|
    ensures option == if Stuck(buf[pos..]) then None else Some(Front(buf[pos..]))
    ensures dropped <==> Overrun(buf[pos..])
  {
    AtPosition(buf, pos);
    if pos + 4 > |buf| {
      return None, false;
    }
    var code := ReadUint16(buf, pos);
    var length := ReadUint16(buf, pos + 2);
    if pos + 4 + length > |buf| {
      return None, true;
    }
    return Some(Tlv(code, buf[pos + 4..pos + 4 + length])), false;
  }

  /**
    The parse loop: every option whose payload lies inside the buffer is visited in order, and
    kept if `keep` finds it allowed, known and valid. `dropped` reports an overrunning payload.
   */
  method ParseOptions(buf: seq<Octet>, keep: Tlv -> bool)
    returns (options: seq<Tlv>, dropped: bool)
    ensures options == Filter(Walked(buf), keep)
    ensures dropped <==> Overrun(Remainder(buf))
  {
    options, dropped := [], false;
    ghost var ts: seq<Tlv> := [];
    var pos := 0;
    while pos < |buf|
      invariant 0 <= pos <= |buf|
      invariant buf[..pos] == EncodeAll(ts) && AllWellFormed(ts)
      invariant options == Filter(ts, keep) && !dropped
      decreases |buf| - pos
    {
      var option: Option<Tlv>;
      option, dropped := ParseOption(buf, pos);
      if option.None? {
        WalkEnds(buf, pos, ts);
        return;
      }
      Visited(buf, pos, ts, option.value);
      FilterSnoc(ts, option.value, keep);
      if keep(option.value) {
        options := options + [option.value];
      }
      ts := ts + [option.value];
      pos := pos + |Encode(option.value)|;
    }
    WalkEnds(buf, pos, ts);
  }

  lemma WalkEnds(buf: seq<Octet>, pos: nat, ts: seq<Tlv>)
    requires pos <= |buf| && buf[..pos] == EncodeAll(ts) && AllWellFormed(ts) && Stuck(buf[pos..])
    ensures ts == Walked(buf) && buf[pos..] == Remainder(buf)
  {
    assert buf == buf[..pos] + buf[pos..];
    WalkedIsWalk(buf);
    WalkUnique(buf, ts, buf[pos..], Walked(buf), Remainder(buf));
  }

  /** Reading at `pos` is reading the front of what is left there. */
  lemma AtPosition(buf: seq<Octet>, pos: nat)
    requires pos <= |buf|
    ensures pos + 4 <= |buf| ==>
              ReadUint16(buf, pos) == ReadUint16(buf[pos..], 0) &&
              ReadUint16(buf, pos + 2) == ReadUint16(buf[pos..], 2)
    ensures !Stuck(buf[pos..]) ==>
              Front(buf[pos..]).payload == buf[pos + 4..pos + 4 + ReadUint16(buf, pos + 2)]
  {
  }

  lemma Visited(buf: seq<Octet>, pos: nat, ts: seq<Tlv>, option: Tlv)
    requires pos <= |buf| && buf[..pos] == EncodeAll(ts) && AllWellFormed(ts)
    requires !Stuck(buf[pos..]) && option == Front(buf[pos..])
    ensures pos < pos + |Encode(option)| <= |buf| && AllWellFormed(ts + [option])
    ensures buf[..pos + |Encode(option)|] == EncodeAll(ts + [option])
  {
    FrontEncodes(buf[pos..]);
    FlatSnoc(ts, option, Encode);
    assert buf[..pos + |Encode(option)|] == buf[..pos] + buf[pos..][..|Encode(option)|];
  }

  /** What the receiving constructor makes of a buffer, given which options it stores. */
  predicate IsReceived(buf: seq<Octet>, keep: Tlv -> bool,
                       msgType: nat, transId: nat, options: seq<Tlv>, done: bool)
  {
    var tail := if |buf| < 4 then buf else buf[4..];
    (if |buf| < 4 then msgType == 0 && transId == 0 else msgType == buf[0] && transId == ReadTransId(buf)) &&
    options == Filter(Walked(tail), keep) &&
    (done <==> Overrun(Remainder(tail)) || !HasCode(options, OPTION_SERVERID))
  }

  /** A received message: the fields of `TMsg` that its constructor fills from the buffer. */
  class ClntMsg {
    var msgType: nat
    var transId: nat
    var options: seq<Tlv>
    var isDone: bool

    constructor (buf: seq<Octet>, keep: Tlv -> bool)
      ensures IsReceived(buf, keep, msgType, transId, options, isDone)
    {
      msgType, transId := 0, 0;
      if |buf| >= 4 {
        msgType, transId := buf[0], ReadTransId(buf);
      }
      var kept, dropped := ParseOptions(if |buf| < 4 then buf else buf[4..], keep);
      options := kept;
      isDone := dropped || !HasCode(kept, OPTION_SERVERID);
    }
  }

  /** A stored message is received unchanged, but for the options the receiver does not keep. */
  lemma StoredIsReceived(msgType: nat, transId: nat, sent: seq<Tlv>, keep: Tlv -> bool,
                         msgType': nat, transId': nat, options: seq<Tlv>, done: bool)
    requires AllWellFormed(sent)
    requires IsReceived(Serialize(msgType, transId, sent), keep, msgType', transId', options, done)
    ensures options == Filter(sent, keep)
    ensures done <==> !HasCode(options, OPTION_SERVERID)
    ensures msgType' == msgType && transId' == transId <==> msgType < 256 && transId < 0x100_0000
  {
    var buf := Serialize(msgType, transId, sent);
    assert buf[4..] == EncodeAll(sent) == EncodeAll(sent) + [];
    WalkedIsWalk(buf[4..]);
    WalkUnique(buf[4..], Walked(buf[4..]), Remainder(buf[4..]), sent, []);
    assert buf[..4] == Header(msgType, transId);
    assert ReadTransId(buf) == ReadTransId(Header(msgType, transId));
    HeaderRoundTrip(msgType, transId);
  }

  lemma HeaderRoundTrip(msgType: nat, transId: nat)
    ensures Header(msgType, transId)[0] == msgType && ReadTransId(Header(msgType, transId)) == transId
       <==> msgType < 256 && transId < 0x100_0000
  {
  }
}
