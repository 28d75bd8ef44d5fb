/** The part of a CIP EPATH that tag access uses (protocol/ethernetip/cip/path.go,
    tag.go): ANSI extended symbol segments and member ID segments, with an independent
    decoder for them. */
module Epath {
  import opened Bytes
  import opened Wrappers

  /** One byte of a Go string. */
  type bchar = c: char | c as int < 0x100

  datatype Segment = Symbol(name: seq<bchar>) | Member(id: u32)

  const SYMBOL: u8 := 0x91
  const MEMBER8: u8 := 0x28
  const MEMBER16: u8 := 0x29
  const MEMBER32: u8 := 0x2A

  function RawBytes(name: seq<bchar>): seq<u8> {
    seq(|name|, i requires 0 <= i < |name| => name[i] as int)
  }

  function Chars(raw: seq<u8>): seq<bchar> {
    seq(|raw|, i requires 0 <= i < |raw| => raw[i] as char)
  }

  function Pad(n: nat): seq<u8> { if n % 2 != 0 then [0] else [] }

  function EncodeSegment(s: Segment): seq<u8> {
    match s
    case Symbol(name) => [SYMBOL, |name| % 0x100] + RawBytes(name) + Pad(|name|)
    case Member(id) =>
      if id <= 0xFF then [MEMBER8, id]
      else if id <= 0xFFFF then [MEMBER16, 0] + PutLE16(id)
      else [MEMBER32, 0] + PutLE32(id)
  }

  function Encode(segs: seq<Segment>): seq<u8> {
    if segs == [] then [] else EncodeSegment(segs[0]) + Encode(segs[1..])
  }

  /** AddSymbolicSegment: appends to the path in place. */
  method AddSymbol(path: seq<u8>, name: seq<bchar>) returns (p: seq<u8>)
    ensures p == path + EncodeSegment(Symbol(name))
  {
    p := path + [SYMBOL];
    var l := |name|;
    p := p + [l % 0x100];
    p := p + RawBytes(name);
    if l % 2 != 0 {
      p := p + [0];
    }
    assert p == path + ([SYMBOL] + [l % 0x100] + RawBytes(name) + Pad(l));
    assert [SYMBOL] + [l % 0x100] == [SYMBOL, l % 0x100];
  }

  /** addMember32: the shortest of the three formats. */
  method AddMember(path: seq<u8>, id: u32) returns (p: seq<u8>)
    ensures p == path + EncodeSegment(Member(id))
  {
    if id <= 0xFF {
      p := path + [MEMBER8, id];
    } else if id <= 0xFFFF {
      p := path + [MEMBER16, 0, id % 0x100, id / 0x100];
    } else {
      p := path + [MEMBER32, 0, id % 0x100, id / 0x100 % 0x100, id / 0x1_0000 % 0x100, id / 0x100_0000];
      ShiftedBytes(id);
    }
  }

  lemma Quotient8(n: int, q: int, r: int)
    requires n == 0x100 * q + r && 0 <= r < 0x100
    ensures n / 0x100 == q && n % 0x100 == r
  {
  }

  lemma Quotient24(n: int, q: int, r: int)
    requires n == 0x100_0000 * q + r && 0 <= r < 0x100_0000
    ensures n / 0x100_0000 == q
  {
  }

  lemma ShiftedBytes(id: u32)
    ensures PutLE32(id) == [id % 0x100, id / 0x100 % 0x100, id / 0x1_0000 % 0x100, id / 0x100_0000]
  {
    var l: int, h: int := id % 0x1_0000, id / 0x1_0000;
    var a: int, b: int, c: int, d: int := l % 0x100, l / 0x100, h % 0x100, h / 0x100;
    Quotient8(id, 0x100 * h + b, a);
    Quotient8(0x100 * h + b, h, b);
    Quotient24(id, d, 0x1_0000 * c + l);
    assert PutLE32(id) == [a, b] + [c, d];
  }

  /** One segment and what follows it, read by the length and format bytes alone. */
  function DecodeOne(p: seq<u8>): Option<(Segment, seq<u8>)> {
    if |p| < 2 then None
    else if p[0] == SYMBOL then
      var l: int := p[1];
      if |p| < 2 + l + l % 2 then None else Some((Symbol(Chars(p[2..2 + l])), p[2 + l + l % 2..]))
    else if p[0] == MEMBER8 then Some((Member(p[1]), p[2..]))
    else if p[0] == MEMBER16 && |p| >= 4 then Some((Member(GetLE16(p, 2)), p[4..]))
    else if p[0] == MEMBER32 && |p| >= 6 then Some((Member(GetLE32(p, 2)), p[6..]))
    else None
  }

  function Decode(p: seq<u8>): Option<seq<Segment>>
    decreases |p|
  {
    if p == [] then Some([])
    else match DecodeOne(p)
      case None => None
      case Some((s, rest)) =>
        var more := Decode(rest);
        if more.None? then None else Some([s] + more.value)
  }

  predicate ShortNames(segs: seq<Segment>) {
    forall i | 0 <= i < |segs| && segs[i].Symbol? :: |segs[i].name| <= 0xFF
  }

  lemma SegmentAligned(s: Segment)
    ensures |EncodeSegment(s)| % 2 == 0
  {
  }

  lemma EvenJoin(a: seq<u8>, b: seq<u8>)
    requires |a| % 2 == 0 && |b| % 2 == 0
    ensures |a + b| % 2 == 0
  {
  }

  /** An encoded path is a whole number of 16-bit words. */
  lemma {:induction false} WordAligned(segs: seq<Segment>)
    ensures |Encode(segs)| % 2 == 0
  {
    if segs != [] {
      WordAligned(segs[1..]);
      SegmentAligned(segs[0]);
      EvenJoin(EncodeSegment(segs[0]), Encode(segs[1..]));
    }
  }

  lemma CharsOfRaw(name: seq<bchar>)
    ensures Chars(RawBytes(name)) == name
  {
  }

  lemma SymbolRoundTrip(name: seq<bchar>, rest: seq<u8>)
    requires |name| <= 0xFF
    ensures DecodeOne(EncodeSegment(Symbol(name)) + rest) == Some((Symbol(name), rest))
  {
    var l := |name|;
    var p := [SYMBOL, l] + RawBytes(name) + Pad(l) + rest;
    assert EncodeSegment(Symbol(name)) + rest == p;
    CharsOfRaw(name);
    assert p[2..2 + l] == RawBytes(name);
    assert p[2 + l + l % 2..] == rest;
  }

  lemma MemberRoundTrip(id: u32, rest: seq<u8>)
    ensures DecodeOne(EncodeSegment(Member(id)) + rest) == Some((Member(id), rest))
  {
  }

  lemma OneRoundTrip(s: Segment, rest: seq<u8>)
    requires s.Symbol? ==> |s.name| <= 0xFF
    ensures DecodeOne(EncodeSegment(s) + rest) == Some((s, rest))
  {
    match s
    case Symbol(name) => SymbolRoundTrip(name, rest);
    case Member(id) => MemberRoundTrip(id, rest);
  }

  /** The decoder never yields a name over 255 bytes. */
  lemma {:induction false} DecodedNamesShort(p: seq<u8>)
    requires Decode(p).Some?
    ensures ShortNames(Decode(p).value)
    decreases |p|
  {
    if p != [] { DecodedNamesShort(DecodeOne(p).value.1); }
  }

  lemma {:induction false} DecodeEncode(segs: seq<Segment>)
    requires ShortNames(segs)
    ensures Decode(Encode(segs)) == Some(segs)
  {
    if segs != [] {
      OneRoundTrip(segs[0], Encode(segs[1..]));
      assert Encode(segs) == EncodeSegment(segs[0]) + Encode(segs[1..]) != [];
      DecodeEncode(segs[1..]);
      assert [segs[0]] + segs[1..] == segs;
    }
  }

  /** A path says what it was built from exactly when no name exceeds 255 bytes; the
      length byte of a longer one is cut off. */
  lemma {:induction false} DecodeIff(segs: seq<Segment>)
    ensures Decode(Encode(segs)) == Some(segs) <==> ShortNames(segs)
  {
    if ShortNames(segs) {
      DecodeEncode(segs);
    } else if Decode(Encode(segs)).Some? {
      DecodedNamesShort(Encode(segs));
    }
  }

  lemma {:induction false} EncodeSnoc(segs: seq<Segment>, s: Segment)
    ensures Encode(segs + [s]) == Encode(segs) + EncodeSegment(s)
  {
    if segs == [] {
      assert [] + [s] == [s];
      assert Encode([s]) == EncodeSegment(s) + Encode([]);
    } else {
      EncodeSnoc(segs[1..], s);
      assert (segs + [s])[1..] == segs[1..] + [s];
      Regroup(EncodeSegment(segs[0]), Encode(segs[1..]), EncodeSegment(s));
    }
  }
}
