/** The Common Packet Format and the SendRRData envelope around CIP messages
    (protocol/ethernetip/eip/cpf.go, session.go, server.go, conn.go; EtherNet/IP
    specification, Volume 2, Chapter 2). */
module Cpf {
  import opened Bytes
  import opened ByteReader
  import opened CipMessage
  import opened Wrappers

  datatype Item = Item(typeID: u16, length: u16, data: seq<u8>)
  datatype Packet = Packet(count: u16, items: seq<Item>)

  const NULL_ADDRESS: u16 := 0x0000
  const UNCONNECTED_MESSAGE: u16 := 0x00B2

  /** NewCPFItem and NewCommonPacketFormat: the length fields are cut to 16 bits. */
  function NewItem(typeID: u16, data: seq<u8>): Item { Item(typeID, |data| % 0x1_0000, data) }
  function NewPacket(items: seq<Item>): Packet { Packet(|items| % 0x1_0000, items) }

  function ItemBytes(i: Item): seq<u8> {
    PutLE16(i.typeID) + PutLE16(i.length) + if i.length > 0 then i.data else []
  }

  function ItemsBytes(items: seq<Item>): seq<u8> {
    if items == [] then [] else ItemBytes(items[0]) + ItemsBytes(items[1..])
  }

  function PacketBytes(p: Packet): seq<u8> { PutLE16(p.count) + ItemsBytes(p.items) }

  /** The item at the head of b. */
  function FirstItem(b: seq<u8>): (r: Option<Item>)
    ensures r.Some? ==> r.value.length == |r.value.data| && |b| >= 4 + |r.value.data|
  {
    if |b| < 4 || |b| < 4 + GetLE16(b, 2) as int then None
    else Some(Item(GetLE16(b, 0), GetLE16(b, 2), b[4..4 + GetLE16(b, 2) as int]))
  }

  /** n items from the head of b; what follows them is ignored. */
  function ParseItems(b: seq<u8>, n: nat): Option<seq<Item>>
    decreases n
  {
    if n == 0 then Some([])
    else if FirstItem(b).None? then None
    else Prepended([FirstItem(b).value], ParseItems(b[4 + |FirstItem(b).value.data|..], n - 1))
  }

  function ParsePacket(b: seq<u8>): Option<Packet> {
    if |b| < 2 || |b| - 2 < 4 * (GetLE16(b, 0) as int) then None
    else
      var items := ParseItems(b[2..], GetLE16(b, 0));
      if items.None? then None else Some(Packet(GetLE16(b, 0), items.value))
  }

  lemma {:induction false} ItemsSnoc(items: seq<Item>, i: Item)
    ensures ItemsBytes(items + [i]) == ItemsBytes(items) + ItemBytes(i)
  {
    if items == [] {
      assert [] + [i] == [i];
      assert ItemsBytes([i]) == ItemBytes(i) + ItemsBytes([]);
    } else {
      ItemsSnoc(items[1..], i);
      assert (items + [i])[1..] == items[1..] + [i];
      Regroup(ItemBytes(items[0]), ItemsBytes(items[1..]), ItemBytes(i));
    }
  }

  method EncodePacket(p: Packet) returns (buf: seq<u8>)
    ensures buf == PacketBytes(p)
  {
    buf := PutLE16(p.count);
    for k := 0 to |p.items|
      invariant buf == PutLE16(p.count) + ItemsBytes(p.items[..k])
    {
      ItemsSnoc(p.items[..k], p.items[k]);
      assert p.items[..k] + [p.items[k]] == p.items[..k + 1];
      Regroup(PutLE16(p.count), ItemsBytes(p.items[..k]), ItemBytes(p.items[k]));
      buf := buf + ItemBytes(p.items[k]);
    }
    assert p.items[..|p.items|] == p.items;
  }

  /** One item from the reader. */
  method DecodeItem(rd: Reader) returns (r: Option<Item>)
    requires rd.Valid()
    modifies rd
    ensures rd.Valid() && r == FirstItem(rd.data[old(rd.pos)..])
    ensures r.Some? ==> rd.pos == old(rd.pos) + 4 + |r.value.data|
  {
    var typeID := rd.ReadU16();
    if typeID.None? {
      return None;
    }
    var length := rd.ReadU16();
    if length.None? {
      return None;
    }
    var data := rd.ReadFull(length.value);
    if data.None? {
      return None;
    }
    ghost var b := rd.data[old(rd.pos)..];
    assert b[4..4 + length.value] == data.value;
    return Some(Item(typeID.value, length.value, data.value));
  }

  /** items are the first of `all`, and the rest starts at pos with n to go. */
  ghost predicate Resumes(all: Option<seq<Item>>, b: seq<u8>, pos: nat, n: nat, items: seq<Item>) {
    pos <= |b| && all == Prepended(items, ParseItems(b[pos..], n))
  }

  lemma Start(b: seq<u8>, pos: nat, n: nat)
    requires pos <= |b|
    ensures Resumes(ParseItems(b[pos..], n), b, pos, n, [])
  {
    var r := ParseItems(b[pos..], n);
    assert r.Some? ==> [] + r.value == r.value;
  }

  lemma NextItem(all: Option<seq<Item>>, b: seq<u8>, pos: nat, n: nat, items: seq<Item>)
    requires Resumes(all, b, pos, n, items) && n >= 1
    ensures match FirstItem(b[pos..])
      case None => all == None
      case Some(i) => Resumes(all, b, pos + 4 + |i.data|, n - 1, items + [i])
  {
    var first := FirstItem(b[pos..]);
    if first.Some? {
      var i := first.value;
      assert b[pos..][4 + |i.data|..] == b[pos + 4 + |i.data|..];
      PrependedSnoc(items, i, ParseItems(b[pos + 4 + |i.data|..], n - 1));
    }
  }

  lemma Finish(all: Option<seq<Item>>, b: seq<u8>, pos: nat, items: seq<Item>)
    requires Resumes(all, b, pos, 0, items)
    ensures all == Some(items)
  {
    assert items + [] == items;
  }

  method DecodeItems(rd: Reader, n: nat) returns (r: Option<seq<Item>>)
    requires rd.Valid()
    modifies rd
    ensures r == ParseItems(rd.data[old(rd.pos)..], n)
  {
    var items: seq<Item> := [];
    ghost var all := ParseItems(rd.data[rd.pos..], n);
    Start(rd.data, rd.pos, n);
    for k := 0 to n
      invariant rd.Valid() && Resumes(all, rd.data, rd.pos, n - k, items)
    {
      NextItem(all, rd.data, rd.pos, n - k, items);
      var i := DecodeItem(rd);
      if i.None? {
        return None;
      }
      items := items + [i.value];
    }
    Finish(all, rd.data, rd.pos, items);
    return Some(items);
  }

  method DecodePacket(b: seq<u8>) returns (r: Option<Packet>)
    ensures r == ParsePacket(b)
  {
    var rd := new Reader(b);
    var count := rd.ReadU16();
    if count.None? || |b| - rd.pos < 4 * (count.value as int) {
      return None;
    }
    var items := DecodeItems(rd, count.value);
    if items.None? {
      return None;
    }
    return Some(Packet(count.value, items.value));
  }

  function Prepended(items: seq<Item>, r: Option<seq<Item>>): Option<seq<Item>> {
    if r.None? then None else Some(items + r.value)
  }

  lemma PrependedSnoc(items: seq<Item>, i: Item, r: Option<seq<Item>>)
    ensures Prepended(items, Prepended([i], r)) == Prepended(items + [i], r)
  {
    if r.Some? {
      assert items + ([i] + r.value) == items + [i] + r.value;
    }
  }

  /** Every length field says how long its item's data is. */
  ghost predicate Sized(items: seq<Item>) {
    forall k | 0 <= k < |items| :: items[k].length == |items[k].data|
  }

  lemma ItemHead(i: Item, rest: seq<u8>)
    requires i.length == |i.data|
    ensures FirstItem(ItemBytes(i) + rest) == Some(i)
    ensures (ItemBytes(i) + rest)[4 + |i.data|..] == rest
  {
  }

  lemma {:induction false} ItemsRoundTrip(items: seq<Item>, rest: seq<u8>)
    requires Sized(items)
    ensures |ItemsBytes(items)| >= 4 * |items|
    ensures ParseItems(ItemsBytes(items) + rest, |items|) == Some(items)
    decreases |items|
  {
    if items != [] {
      var tail := ItemsBytes(items[1..]) + rest;
      ItemHead(items[0], tail);
      Regroup(ItemBytes(items[0]), ItemsBytes(items[1..]), rest);
      ItemsRoundTrip(items[1..], rest);
      assert [items[0]] + items[1..] == items;
    }
  }

  lemma {:induction false} ParsedSized(b: seq<u8>, n: nat)
    requires ParseItems(b, n).Some?
    ensures |ParseItems(b, n).value| == n && Sized(ParseItems(b, n).value)
    decreases n
  {
    if n > 0 { ParsedSized(b[4 + |FirstItem(b).value.data|..], n - 1); }
  }

  /** A packet survives exactly when its count and length fields tell the truth; bytes
      behind it never matter. */
  lemma PacketRoundTrip(p: Packet, rest: seq<u8>)
    ensures ParsePacket(PacketBytes(p) + rest) == Some(p) <==> p.count == |p.items| && Sized(p.items)
  {
    var b := PacketBytes(p) + rest;
    assert b[2..] == ItemsBytes(p.items) + rest;
    assert GetLE16(b, 0) == p.count;
    if p.count == |p.items| && Sized(p.items) {
      ItemsRoundTrip(p.items, rest);
    } else if ParsePacket(b).Some? {
      ParsedSized(b[2..], p.count);
    }
  }

  /** FindItemByType: the first item of the type. */
  method FindItem(p: Packet, typeID: u16) returns (r: Option<Item>)
    ensures r == Find(p.items, typeID)
    ensures r.None? <==> forall k | 0 <= k < |p.items| :: p.items[k].typeID != typeID
  {
    for k := 0 to |p.items|
      invariant forall j | 0 <= j < k :: p.items[j].typeID != typeID
      invariant Find(p.items, typeID) == Find(p.items[k..], typeID)
    {
      if p.items[k].typeID == typeID {
        return Some(p.items[k]);
      }
      assert p.items[k..][1..] == p.items[k + 1..];
    }
    return None;
  }

  function Find(items: seq<Item>, typeID: u16): Option<Item> {
    if items == [] then None else if items[0].typeID == typeID then Some(items[0]) else Find(items[1..], typeID)
  }

  // -- the envelope

  /** Interface handle and timeout, all zero. */
  const PREFIX: seq<u8> := [0, 0, 0, 0, 0, 0]

  function MessagePacket(msg: seq<u8>): Packet {
    NewPacket([NewItem(NULL_ADDRESS, []), NewItem(UNCONNECTED_MESSAGE, msg)])
  }

  function Wrap(msg: seq<u8>): seq<u8> { PREFIX + PacketBytes(MessagePacket(msg)) }

  function Unwrap(b: seq<u8>): Option<seq<u8>> {
    if |b| < 6 then None
    else
      var p := ParsePacket(b[6..]);
      if p.None? then None
      else
        var i := Find(p.value.items, UNCONNECTED_MESSAGE);
        if i.None? then None else Some(i.value.data)
  }

  /** What arrives behind an encapsulation header whose length field has 16 bits. */
  function Carried(b: seq<u8>): seq<u8> { b[..|b| % 0x1_0000] }

  const MAX_MESSAGE: nat := 0xFFFF - 16

  lemma WrapSize(msg: seq<u8>)
    requires |msg| < 0x1_0000
    ensures |Wrap(msg)| == 16 + |msg|
  {
    var a, m := NewItem(NULL_ADDRESS, []), NewItem(UNCONNECTED_MESSAGE, msg);
    ItemsBytesTwo(a, m);
  }

  lemma ItemsBytesTwo(a: Item, m: Item)
    ensures ItemsBytes([a, m]) == ItemBytes(a) + ItemBytes(m)
  {
    assert [a, m][1..] == [m];
    assert ItemsBytes([m]) == ItemBytes(m) + ItemsBytes([]);
  }

  lemma FindSecond(a: Item, m: Item, typeID: u16)
    requires a.typeID != typeID && m.typeID == typeID
    ensures Find([a, m], typeID) == Some(m)
  {
  }

  lemma MessagePacketParses(msg: seq<u8>)
    requires |msg| < 0x1_0000
    ensures ParsePacket(PacketBytes(MessagePacket(msg))) == Some(MessagePacket(msg))
  {
    PacketRoundTrip(MessagePacket(msg), []);
    assert PacketBytes(MessagePacket(msg)) + [] == PacketBytes(MessagePacket(msg));
  }

  lemma WrapThenUnwrap(msg: seq<u8>)
    requires |msg| <= MAX_MESSAGE
    ensures Unwrap(Carried(Wrap(msg))) == Some(msg)
  {
    WrapSize(msg);
    assert Carried(Wrap(msg)) == Wrap(msg);
    assert Wrap(msg)[6..] == PacketBytes(MessagePacket(msg));
    MessagePacketParses(msg);
    FindSecond(NewItem(NULL_ADDRESS, []), NewItem(UNCONNECTED_MESSAGE, msg), UNCONNECTED_MESSAGE);
  }

  /** Nothing longer than what was carried comes out of an envelope. */
  lemma {:induction false} ItemsFit(b: seq<u8>, n: nat, k: nat)
    requires ParseItems(b, n).Some? && k < |ParseItems(b, n).value|
    ensures |ParseItems(b, n).value[k].data| + 4 <= |b|
    decreases n
  {
    if n > 0 && k > 0 {
      ItemsFit(b[4 + |FirstItem(b).value.data|..], n - 1, k - 1);
    }
  }

  lemma {:induction false} FindIndex(items: seq<Item>, typeID: u16) returns (k: nat)
    requires Find(items, typeID).Some?
    ensures k < |items| && Find(items, typeID).value == items[k]
  {
    if items[0].typeID == typeID {
      k := 0;
    } else {
      k := FindIndex(items[1..], typeID);
      k := k + 1;
    }
  }

  lemma UnwrapFits(b: seq<u8>)
    requires Unwrap(b).Some?
    ensures |Unwrap(b).value| + 12 <= |b|
  {
    var p := ParsePacket(b[6..]).value;
    var k := FindIndex(p.items, UNCONNECTED_MESSAGE);
    ItemsFit(b[6..][2..], p.count, k);
  }

  /** An unconnected message crosses the envelope and the encapsulation layer intact
      exactly up to 65519 bytes. */
  lemma EnvelopeRoundTrip(msg: seq<u8>)
    ensures Unwrap(Carried(Wrap(msg))) == Some(msg) <==> |msg| <= MAX_MESSAGE
  {
    if |msg| <= MAX_MESSAGE {
      WrapThenUnwrap(msg);
    } else if Unwrap(Carried(Wrap(msg))) == Some(msg) {
      UnwrapFits(Carried(Wrap(msg)));
      if |msg| < 0x1_0000 {
        WrapSize(msg);
      }
      assert false;
    }
  }

  /** handleSendRRData up to the dispatcher. */
  method ServerReceive(b: seq<u8>) returns (r: Option<Request>)
    ensures r == ServerSees(b)
  {
    if |b| < 6 {
      return None;
    }
    var p := DecodePacket(b[6..]);
    if p.None? {
      return None;
    }
    var item := FindItem(p.value, UNCONNECTED_MESSAGE);
    if item.None? {
      return None;
    }
    r := DecodeRequest(item.value.data);
  }

  function ServerSees(b: seq<u8>): Option<Request> {
    if Unwrap(b).None? then None else ParseRequest(Unwrap(b).value)
  }

  function ClientSees(b: seq<u8>): Option<Response> {
    if Unwrap(b).None? then None else ParseResponse(Unwrap(b).value)
  }

  /** The sending half of SendRRData, and wrapUnconnectedResponse. */
  method WrapMessage(msg: seq<u8>) returns (b: seq<u8>)
    ensures b == Wrap(msg)
  {
    var cpf := EncodePacket(MessagePacket(msg));
    var buf := new u8[6 + |cpf|](_ => 0);
    for i := 0 to |cpf|
      invariant forall j | 0 <= j < 6 :: buf[j] == 0
      invariant forall j | 0 <= j < i :: buf[6 + j] == cpf[j]
    {
      buf[6 + i] := cpf[i];
    }
    b := buf[..];
    assert b == PREFIX + cpf;
  }

  /** The server sees exactly the request the client encoded, if and only if the path is
      word-aligned, at most 510 bytes and not empty together with the data, and the
      message fits the length fields of both layers. */
  lemma RequestCrosses(r: Request)
    ensures ServerSees(Carried(Wrap(RequestBytes(r)))) == Some(r)
       <==> Sendable(r) && |RequestBytes(r)| <= MAX_MESSAGE
  {
    var msg := RequestBytes(r);
    EnvelopeRoundTrip(msg);
    RequestRoundTrip(r);
    if |msg| > MAX_MESSAGE && ServerSees(Carried(Wrap(msg))) == Some(r) {
      TooLongIsCut(msg);
      ParsedSize(Unwrap(Carried(Wrap(msg))).value);
      assert false;
    }
  }

  /** A message over the limit comes out at least 65536 bytes short, or not at all. */
  lemma TooLongIsCut(msg: seq<u8>)
    requires |msg| > MAX_MESSAGE && Unwrap(Carried(Wrap(msg))).Some?
    ensures |Unwrap(Carried(Wrap(msg))).value| + 0x1_0000 <= |msg| + 4
  {
    UnwrapFits(Carried(Wrap(msg)));
    LongWrapSize(msg);
  }

  lemma LongWrapSize(msg: seq<u8>)
    requires |msg| > MAX_MESSAGE
    ensures |Carried(Wrap(msg))| <= |msg| + 16 - 0x1_0000
  {
    if |msg| < 0x1_0000 {
      WrapSize(msg);
    } else {
      var a, m := NewItem(NULL_ADDRESS, []), NewItem(UNCONNECTED_MESSAGE, msg);
      ItemsBytesTwo(a, m);
      assert |Wrap(msg)| <= 16 + |msg|;
    }
  }

  /** The client sees exactly the response the server encoded, under the same limit and
      when the extended-status size is right. */
  lemma ResponseCrosses(r: Response)
    ensures ClientSees(Carried(Wrap(ResponseBytes(r)))) == Some(r)
       <==> r.extSize == |r.ext| && |ResponseBytes(r)| <= MAX_MESSAGE
  {
    var msg := ResponseBytes(r);
    EnvelopeRoundTrip(msg);
    ResponseRoundTrip(r);
    if |msg| > MAX_MESSAGE && ClientSees(Carried(Wrap(msg))) == Some(r) {
      TooLongIsCut(msg);
      ParsedResponseSize(Unwrap(Carried(Wrap(msg))).value);
      assert false;
    }
  }
}
