/** Read Device Identification (function 0x2B, MEI type 0x0E; section 6.21 of the MODBUS
    Application Protocol V1.1b3): the handler in protocol/modbus/server_protocol.go and the
    type-length-value parser in protocol/modbus/protocol.go. */
module DeviceId {
  import opened Bytes
  import opened DataPoints
  import opened ModbusServer
  import opened Wrappers

  const FUNCTION_DEVICE_ID: u8 := 0x2B
  const MEI_DEVICE_ID: u8 := 0x0E

  datatype Object = Object(id: u8, length: u8, value: seq<u8>)

  datatype Ident = Ident(code: u8, level: u8, more: u8, next: u8, count: u8, objects: seq<Object>)

  /** The length field is cut to a byte, and so is the count. */
  function NewObject(id: u8, value: seq<u8>): Object { Object(id, |value| % 0x100, value) }

  function NewIdent(code: u8, objects: seq<Object>): Ident { Ident(code, 0x01, 0x00, 0x00, |objects| % 0x100, objects) }

  /** The object's bytes: as much of the value as the length field says. */
  function ObjectBytes(o: Object): seq<u8>
    requires o.length <= |o.value|
  {
    [o.id, o.length] + o.value[..o.length]
  }

  predicate Encodable(os: seq<Object>) { forall k | 0 <= k < |os| :: os[k].length <= |os[k].value| }

  function ObjectsBytes(os: seq<Object>): seq<u8>
    requires Encodable(os)
  {
    if os == [] then [] else ObjectBytes(os[0]) + ObjectsBytes(os[1..])
  }

  function Head(d: Ident): seq<u8> { [MEI_DEVICE_ID, d.code, d.level, d.more, d.next, d.count] }

  function IdentBytes(d: Ident): seq<u8>
    requires Encodable(d.objects)
  {
    Head(d) + ObjectsBytes(d.objects)
  }

  lemma {:induction false} ObjectsAppend(os: seq<Object>, o: Object)
    requires Encodable(os) && o.length <= |o.value|
    ensures Encodable(os + [o]) && ObjectsBytes(os + [o]) == ObjectsBytes(os) + ObjectBytes(o)
  {
    if os == [] {
      assert [] + [o] == [o] && [o][0] == o;
      assert ObjectsBytes([o]) == ObjectBytes(o) + ObjectsBytes([]);
    } else {
      ObjectsAppend(os[1..], o);
      assert (os + [o])[1..] == os[1..] + [o];
      Regroup(ObjectBytes(os[0]), ObjectsBytes(os[1..]), ObjectBytes(o));
    }
  }

  lemma ObjectsSnoc(os: seq<Object>, k: nat)
    requires Encodable(os) && k < |os|
    ensures ObjectsBytes(os[..k + 1]) == ObjectsBytes(os[..k]) + ObjectBytes(os[k])
  {
    assert os[..k + 1] == os[..k] + [os[k]];
    ObjectsAppend(os[..k], os[k]);
  }

  lemma {:induction false} PrefixFits(os: seq<Object>, k: nat)
    requires Encodable(os) && k <= |os|
    ensures |ObjectsBytes(os[..k])| <= |ObjectsBytes(os)|
    decreases |os| - k
  {
    if k < |os| {
      ObjectsSnoc(os, k);
      PrefixFits(os, k + 1);
    } else {
      assert os[..k] == os;
    }
  }

  /** The size loop. */
  method ResponseSize(os: seq<Object>) returns (n: nat)
    requires Encodable(os)
    ensures n == 6 + |ObjectsBytes(os)|
  {
    n := 6;
    for k := 0 to |os|
      invariant n == 6 + |ObjectsBytes(os[..k])|
    {
      ObjectsSnoc(os, k);
      n := n + 2 + os[k].length;
    }
    assert os[..|os|] == os;
  }

  /** Writes one object at an offset. */
  method PutObject(buf: array<u8>, off: nat, o: Object)
    requires o.length <= |o.value| && off + 2 + o.length <= buf.Length
    modifies buf
    ensures buf[..off] == old(buf[..off]) && buf[off..off + 2 + o.length] == ObjectBytes(o)
  {
    buf[off] := o.id;
    buf[off + 1] := o.length;
    for i := 0 to o.length
      invariant buf[..off] == old(buf[..off]) && buf[off] == o.id && buf[off + 1] == o.length
      invariant forall j | 0 <= j < i :: buf[off + 2 + j] == o.value[j]
    {
      buf[off + 2 + i] := o.value[i];
    }
  }

  lemma Joined(head: seq<u8>, a: seq<u8>, b: seq<u8>, buf: seq<u8>, i: nat, j: nat)
    requires i <= j <= |buf| && buf[..i] == head + a && buf[i..j] == b
    ensures buf[..j] == head + (a + b)
  {
    assert buf[..j] == buf[..i] + buf[i..j];
  }

  /** The encoding loop with its moving offset. */
  method PutObjects(buf: array<u8>, os: seq<Object>)
    requires Encodable(os) && buf.Length == 6 + |ObjectsBytes(os)|
    modifies buf
    ensures buf[..] == old(buf[..6]) + ObjectsBytes(os)
  {
    var offset := 6;
    ghost var head := buf[..6];
    for k := 0 to |os|
      invariant offset == 6 + |ObjectsBytes(os[..k])| <= buf.Length
      invariant buf[..offset] == head + ObjectsBytes(os[..k])
    {
      ObjectsSnoc(os, k);
      PrefixFits(os, k + 1);
      PutObject(buf, offset, os[k]);
      Joined(head, ObjectsBytes(os[..k]), ObjectBytes(os[k]), buf[..], offset, offset + 2 + os[k].length);
      offset := offset + 2 + os[k].length;
    }
    assert os[..|os|] == os;
    assert buf[..offset] == buf[..];
  }

  method EncodeIdent(d: Ident) returns (data: seq<u8>)
    requires Encodable(d.objects)
    ensures data == IdentBytes(d)
  {
    var size := ResponseSize(d.objects);
    var buf := new u8[size](_ => 0);
    buf[0], buf[1], buf[2], buf[3], buf[4], buf[5] := MEI_DEVICE_ID, d.code, d.level, d.more, d.next, d.count;
    assert buf[..6] == Head(d);
    PutObjects(buf, d.objects);
    data := buf[..];
  }

  /** The object at the head of b. */
  function FirstObject(b: seq<u8>): (r: Option<Object>)
    ensures r.Some? ==> r.value.length == |r.value.value| && |b| >= 2 + |r.value.value|
  {
    if |b| < 2 || |b| < 2 + b[1] as int then None else Some(Object(b[0], b[1], b[2..2 + b[1] as int]))
  }

  /** n objects from the head of b; what follows them is ignored. */
  function ParseObjects(b: seq<u8>, n: nat): Option<seq<Object>>
    decreases n
  {
    if n == 0 then Some([])
    else if FirstObject(b).None? then None
    else Prepended([FirstObject(b).value], ParseObjects(b[2 + |FirstObject(b).value.value|..], n - 1))
  }

  function ParseIdent(b: seq<u8>): Option<Ident> {
    if |b| < 6 || b[0] != MEI_DEVICE_ID then None
    else
      var objects := ParseObjects(b[6..], b[5]);
      if objects.None? then None else Some(Ident(b[1], b[2], b[3], b[4], b[5], objects.value))
  }

  function Prepended(os: seq<Object>, r: Option<seq<Object>>): Option<seq<Object>> {
    if r.None? then None else Some(os + r.value)
  }

  /** os are the first of `all`, and the rest starts at offset with n to go. */
  ghost predicate Resumes(all: Option<seq<Object>>, b: seq<u8>, offset: nat, n: nat, os: seq<Object>) {
    offset <= |b| && all == Prepended(os, ParseObjects(b[offset..], n))
  }

  lemma Start(b: seq<u8>, offset: nat, n: nat)
    requires offset <= |b|
    ensures Resumes(ParseObjects(b[offset..], n), b, offset, n, [])
  {
    var r := ParseObjects(b[offset..], n);
    assert r.Some? ==> [] + r.value == r.value;
  }

  lemma NextObject(all: Option<seq<Object>>, b: seq<u8>, offset: nat, n: nat, os: seq<Object>)
    requires Resumes(all, b, offset, n, os) && n >= 1
    ensures match FirstObject(b[offset..])
      case None => all == None
      case Some(o) => Resumes(all, b, offset + 2 + |o.value|, n - 1, os + [o])
  {
    var first := FirstObject(b[offset..]);
    if first.Some? {
      var o := first.value;
      assert b[offset..][2 + |o.value|..] == b[offset + 2 + |o.value|..];
      var rest := ParseObjects(b[offset + 2 + |o.value|..], n - 1);
      if rest.Some? { Regroup(os, [o], rest.value); }
    }
  }

  lemma Finish(all: Option<seq<Object>>, b: seq<u8>, offset: nat, os: seq<Object>)
    requires Resumes(all, b, offset, 0, os)
    ensures all == Some(os)
  {
    assert os + [] == os;
  }

  /** One object at an offset. */
  method TakeObject(b: seq<u8>, offset: nat) returns (r: Option<Object>)
    requires offset <= |b|
    ensures r == FirstObject(b[offset..])
  {
    if offset + 2 > |b| {
      return None;
    }
    var length: int := b[offset + 1];
    if offset + 2 + length > |b| {
      return None;
    }
    assert b[offset..][2..2 + length] == b[offset + 2..offset + 2 + length];
    return Some(Object(b[offset], b[offset + 1], b[offset + 2..offset + 2 + length]));
  }

  /** The parsing loop with its moving offset. */
  method TakeObjects(b: seq<u8>, n: nat) returns (r: Option<seq<Object>>)
    requires |b| >= 6
    ensures r == ParseObjects(b[6..], n)
  {
    var objects: seq<Object> := [];
    var offset: nat := 6;
    ghost var all := ParseObjects(b[6..], n);
    Start(b, 6, n);
    for k := 0 to n
      invariant Resumes(all, b, offset, n - k, objects)
    {
      NextObject(all, b, offset, n - k, objects);
      var o := TakeObject(b, offset);
      if o.None? {
        return None;
      }
      objects := objects + [o.value];
      offset := offset + 2 + o.value.length;
    }
    Finish(all, b, offset, objects);
    return Some(objects);
  }

  method DecodeIdent(b: seq<u8>) returns (r: Option<Ident>)
    ensures r == ParseIdent(b)
  {
    if |b| < 6 || b[0] != MEI_DEVICE_ID {
      return None;
    }
    var objects := TakeObjects(b, b[5]);
    if objects.None? {
      return None;
    }
    return Some(Ident(b[1], b[2], b[3], b[4], b[5], objects.value));
  }

  // ------------------------------------------------------------------
  // Round trip
  // ------------------------------------------------------------------

  predicate Sized(os: seq<Object>) { forall k | 0 <= k < |os| :: os[k].length == |os[k].value| }

  lemma ObjectHead(o: Object, rest: seq<u8>)
    requires o.length == |o.value|
    ensures FirstObject(ObjectBytes(o) + rest) == Some(o) && (ObjectBytes(o) + rest)[2 + |o.value|..] == rest
  {
    var b := ObjectBytes(o) + rest;
    assert b == [o.id, o.length] + o.value + rest;
    assert b[2..2 + |o.value|] == o.value;
  }

  lemma {:induction false} ObjectsRoundTrip(os: seq<Object>, rest: seq<u8>)
    requires Sized(os)
    ensures ParseObjects(ObjectsBytes(os) + rest, |os|) == Some(os)
    decreases |os|
  {
    if os != [] {
      ObjectHead(os[0], ObjectsBytes(os[1..]) + rest);
      Regroup(ObjectBytes(os[0]), ObjectsBytes(os[1..]), rest);
      ObjectsRoundTrip(os[1..], rest);
      assert [os[0]] + os[1..] == os;
    }
  }

  lemma {:induction false} ParsedSized(b: seq<u8>, n: nat)
    requires ParseObjects(b, n).Some?
    ensures |ParseObjects(b, n).value| == n && Sized(ParseObjects(b, n).value)
    decreases n
  {
    if n > 0 { ParsedSized(b[2 + |FirstObject(b).value.value|..], n - 1); }
  }

  /** A response is read back as it was meant exactly when its count and length fields are
      true. */
  lemma IdentRoundTrip(d: Ident)
    requires Encodable(d.objects)
    ensures ParseIdent(IdentBytes(d)) == Some(d) <==> d.count == |d.objects| && Sized(d.objects)
  {
    var b := IdentBytes(d);
    assert b[6..] == ObjectsBytes(d.objects);
    if d.count == |d.objects| && Sized(d.objects) {
      ObjectsRoundTrip(d.objects, []);
      assert ObjectsBytes(d.objects) + [] == ObjectsBytes(d.objects);
    } else if ParseIdent(b).Some? {
      ParsedSized(b[6..], d.count);
    }
  }

  // ------------------------------------------------------------------
  // The handler
  // ------------------------------------------------------------------

  /** The objects a request asks for. */
  function Requested(code: u8, id: u8): seq<u8> {
    if code == 4 then [id]
    else if code == 2 then [0, 1, 2, 3, 4, 5, 6]
    else if code == 3 then [0, 1, 2, 3, 4, 5, 6, 0x80]
    else [0, 1, 2]
  }

  /** Those of them that the device has, in order. */
  function Found(ids: seq<u8>, values: map<u8, seq<u8>>): (os: seq<Object>)
    ensures Encodable(os) && |os| <= |ids|
  {
    if ids == [] then []
    else
      var before, id := Found(ids[..|ids| - 1], values), ids[|ids| - 1];
      if id in values then before + [NewObject(id, values[id])] else before
  }

  method Collect(ids: seq<u8>, values: map<u8, seq<u8>>) returns (os: seq<Object>)
    ensures os == Found(ids, values)
  {
    os := [];
    for k := 0 to |ids|
      invariant os == Found(ids[..k], values)
    {
      assert ids[..k + 1][..k] == ids[..k];
      if ids[k] in values {
        os := os + [NewObject(ids[k], values[ids[k]])];
      }
    }
    assert ids[..|ids|] == ids;
  }

  function IdentReply(values: map<u8, seq<u8>>, data: seq<u8>): Reply {
    if |data| < 3 || data[0] != MEI_DEVICE_ID then Exception(INVALID_DATA_VALUE)
    else Normal(IdentBytes(NewIdent(data[1], Found(Requested(data[1], data[2]), values))))
  }

  /** HandleReadDeviceIdentification, for any table of object values. */
  method HandleDeviceId(values: map<u8, seq<u8>>, data: seq<u8>) returns (r: Reply)
    ensures r == IdentReply(values, data)
  {
    if |data| < 3 || data[0] != MEI_DEVICE_ID {
      return Exception(INVALID_DATA_VALUE);
    }
    var objects := Collect(Requested(data[1], data[2]), values);
    var bytes := EncodeIdent(NewIdent(data[1], objects));
    return Normal(bytes);
  }

  /** The handler table of a server that serves this function. */
  function WithDeviceId(values: map<u8, seq<u8>>): Handlers {
    (fc: u8, data: seq<u8>) => if fc == FUNCTION_DEVICE_ID then Some(IdentReply(values, data)) else None
  }

  lemma {:induction false} FoundSized(ids: seq<u8>, values: map<u8, seq<u8>>)
    ensures Sized(Found(ids, values)) <==> AllShort(ids, values)
    decreases |ids|
  {
    if ids != [] {
      var n := |ids| - 1;
      var before, os := Found(ids[..n], values), Found(ids, values);
      FoundSized(ids[..n], values);
      if ids[n] in values {
        assert os == before + [NewObject(ids[n], values[ids[n]])];
        assert os[|before|] == NewObject(ids[n], values[ids[n]]);
        assert forall k | 0 <= k < |before| :: os[k] == before[k];
      }
    }
  }

  /** Every requested value fits its length byte. */
  ghost predicate AllShort(ids: seq<u8>, values: map<u8, seq<u8>>) {
    forall k | 0 <= k < |ids| && ids[k] in values :: |values[ids[k]]| <= 0xFF
  }

  lemma RespondsIdent(values: map<u8, seq<u8>>, m: Memory, data: seq<u8>)
    ensures Respond(WithDeviceId(values), m, FUNCTION_DEVICE_ID, data) == (m, IdentReply(values, data))
  {
  }

  lemma FewRequested(code: u8, id: u8)
    ensures |Requested(code, id)| <= 8
  {
  }

  lemma ReplyIsUnderstood(values: map<u8, seq<u8>>, ids: seq<u8>, d: Ident)
    requires |ids| <= 8 && d == NewIdent(d.code, Found(ids, values))
    ensures ParseIdent(IdentBytes(d)) == Some(d) <==> AllShort(ids, values)
  {
    IdentRoundTrip(d);
    FoundSized(ids, values);
  }

  /** The client reads off exactly the objects it asked for and the device has, and the
      store is untouched, if and only if none of their values exceeds 255 bytes. */
  lemma IdentIsUnderstood(values: map<u8, seq<u8>>, m: Memory, code: u8, id: u8, d: Ident)
    requires d == NewIdent(code, Found(Requested(code, id), values))
    ensures var (m', r) := Respond(WithDeviceId(values), m, FUNCTION_DEVICE_ID, [MEI_DEVICE_ID, code, id]);
            m' == m && r.Normal? && (ParseIdent(r.data) == Some(d) <==> AllShort(Requested(code, id), values))
  {
    RespondsIdent(values, m, [MEI_DEVICE_ID, code, id]);
    FewRequested(code, id);
    ReplyIsUnderstood(values, Requested(code, id), d);
  }

  // ------------------------------------------------------------------
  // The server's own table
  // ------------------------------------------------------------------

  function Ascii(s: string): (b: seq<u8>)
    ensures |b| == |s|
  {
    seq(|s|, i requires 0 <= i < |s| => s[i] as int % 0x100)
  }

  /** The values the server has: name, code and revision, URL, product, model, application
      name, and one extended object. */
  const OBJECT_VALUES: map<u8, seq<u8>> := map[
    0x00 := Ascii("goindustrial"),
    0x01 := Ascii("GI-001"),
    0x02 := Ascii("1.0"),
    0x03 := Ascii("https://github.com/iceisfun/goindustrial"),
    0x04 := Ascii("goindustrial Modbus Server"),
    0x05 := Ascii("Modbus TCP Server"),
    0x06 := Ascii("Modbus Server"),
    0x80 := Ascii("Extended Object")]

  /** What an ID adds to a response, by the lengths of the values. */
  function Share(id: u8): nat {
    match id
    case 0 => 14
    case 1 => 8
    case 2 => 5
    case 3 => 42
    case 4 => 28
    case 5 => 19
    case 6 => 15
    case 0x80 => 17
    case _ => 0
  }

  lemma TableLengths(id: u8)
    ensures id in OBJECT_VALUES ==> Share(id) == 2 + |OBJECT_VALUES[id]|
    ensures id !in OBJECT_VALUES ==> Share(id) == 0
  {
  }

  function Shares(ids: seq<u8>): nat {
    if ids == [] then 0 else Shares(ids[..|ids| - 1]) + Share(ids[|ids| - 1])
  }

  lemma FoundGrows(ids: seq<u8>, values: map<u8, seq<u8>>, n: nat)
    requires |ids| == n + 1
    ensures |ObjectsBytes(Found(ids, values))| == |ObjectsBytes(Found(ids[..n], values))|
            + if ids[n] in values then 2 + |values[ids[n]]| % 0x100 else 0
  {
    if ids[n] in values { ObjectsAppend(Found(ids[..n], values), NewObject(ids[n], values[ids[n]])); }
  }

  lemma {:induction false} FoundSize(ids: seq<u8>)
    ensures |ObjectsBytes(Found(ids, OBJECT_VALUES))| == Shares(ids)
    decreases |ids|
  {
    if ids != [] {
      var n := |ids| - 1;
      FoundSize(ids[..n]);
      FoundGrows(ids, OBJECT_VALUES, n);
      TableLengths(ids[n]);
    }
  }

  lemma SharesSnoc(ids: seq<u8>, id: u8)
    ensures Shares(ids + [id]) == Shares(ids) + Share(id)
  {
    assert (ids + [id])[..|ids|] == ids;
  }

  /** The longest response, to an extended stream request, has 154 bytes. */
  lemma RequestedSize(code: u8, id: u8)
    ensures Shares(Requested(code, id)) <= 148
  {
    SharesSnoc([], id);
    assert [] + [id] == [id];
    SharesSnoc([], 0);
    assert [] + [0] == [0];
    SharesSnoc([0], 1);
    assert [0] + [1] == [0, 1];
    SharesSnoc([0, 1], 2);
    assert [0, 1] + [2] == [0, 1, 2];
    SharesSnoc([0, 1, 2], 3);
    assert [0, 1, 2] + [3] == [0, 1, 2, 3];
    SharesSnoc([0, 1, 2, 3], 4);
    assert [0, 1, 2, 3] + [4] == [0, 1, 2, 3, 4];
    SharesSnoc([0, 1, 2, 3, 4], 5);
    assert [0, 1, 2, 3, 4] + [5] == [0, 1, 2, 3, 4, 5];
    SharesSnoc([0, 1, 2, 3, 4, 5], 6);
    assert [0, 1, 2, 3, 4, 5] + [6] == [0, 1, 2, 3, 4, 5, 6];
    SharesSnoc([0, 1, 2, 3, 4, 5, 6], 0x80);
    assert [0, 1, 2, 3, 4, 5, 6] + [0x80] == [0, 1, 2, 3, 4, 5, 6, 0x80];
  }

  lemma TableShort(ids: seq<u8>)
    ensures AllShort(ids, OBJECT_VALUES)
  {
    forall k | 0 <= k < |ids| && ids[k] in OBJECT_VALUES ensures |OBJECT_VALUES[ids[k]]| <= 0xFF { TableLengths(ids[k]); }
  }

  /** Whatever code and object ID a request carries, the server's reply fits a protocol
      data unit and the client reads off exactly the objects asked for that the server has. */
  lemma ServerIdentIsUnderstood(m: Memory, code: u8, id: u8)
    ensures var (m', r) := Respond(WithDeviceId(OBJECT_VALUES), m, FUNCTION_DEVICE_ID, [MEI_DEVICE_ID, code, id]);
            && m' == m && r.Normal? && |r.data| <= 154
            && ParseIdent(r.data) == Some(NewIdent(code, Found(Requested(code, id), OBJECT_VALUES)))
  {
    var ids := Requested(code, id);
    IdentIsUnderstood(OBJECT_VALUES, m, code, id, NewIdent(code, Found(ids, OBJECT_VALUES)));
    RespondsIdent(OBJECT_VALUES, m, [MEI_DEVICE_ID, code, id]);
    TableShort(ids);
    FoundSize(ids);
    RequestedSize(code, id);
  }

  lemma FoundSnoc(ids: seq<u8>, id: u8)
    ensures Found(ids + [id], OBJECT_VALUES)
         == Found(ids, OBJECT_VALUES) + if id in OBJECT_VALUES then [NewObject(id, OBJECT_VALUES[id])] else []
  {
    assert (ids + [id])[..|ids|] == ids;
  }

  /** A request for the basic objects, or with a code it does not know, gets name, code
      and revision. */
  lemma BasicObjects(code: u8, id: u8)
    requires code !in {2, 3, 4}
    ensures Found(Requested(code, id), OBJECT_VALUES)
         == [Object(0, 12, Ascii("goindustrial")), Object(1, 6, Ascii("GI-001")), Object(2, 3, Ascii("1.0"))]
  {
    FoundSnoc([], 0);
    assert [] + [0] == [0];
    FoundSnoc([0], 1);
    assert [0] + [1] == [0, 1];
    FoundSnoc([0, 1], 2);
    assert [0, 1] + [2] == [0, 1, 2];
  }

  function IdsOf(os: seq<Object>): seq<u8> { seq(|os|, i requires 0 <= i < |os| => os[i].id) }

  lemma {:induction false} AllFound(ids: seq<u8>)
    requires forall i | 0 <= i < |ids| :: ids[i] in OBJECT_VALUES
    ensures IdsOf(Found(ids, OBJECT_VALUES)) == ids
    decreases |ids|
  {
    if ids != [] { AllFound(ids[..|ids| - 1]); }
  }

  /** The regular stream adds four objects to the basic ones, the extended stream one more. */
  lemma StreamObjects(id: u8)
    ensures IdsOf(Found(Requested(2, id), OBJECT_VALUES)) == [0, 1, 2, 3, 4, 5, 6]
    ensures IdsOf(Found(Requested(3, id), OBJECT_VALUES)) == [0, 1, 2, 3, 4, 5, 6, 0x80]
  {
    AllFound([0, 1, 2, 3, 4, 5, 6]);
    AllFound([0, 1, 2, 3, 4, 5, 6, 0x80]);
  }

  /** A request for one object gets that one, or none. */
  lemma SingleObject(id: u8)
    ensures id in {0, 1, 2, 3, 4, 5, 6, 0x80} ==>
      id in OBJECT_VALUES && Found(Requested(4, id), OBJECT_VALUES) == [Object(id, |OBJECT_VALUES[id]| % 0x100, OBJECT_VALUES[id])]
    ensures id !in {0, 1, 2, 3, 4, 5, 6, 0x80} ==> Found(Requested(4, id), OBJECT_VALUES) == []
  {
    FoundSnoc([], id);
    assert [] + [id] == [id];
  }

  /** A response: type, code, conformity level 1, nothing more to follow, the number of
      objects; and each object as its ID, its length and its value. */
  lemma IdentLayout(code: u8, objects: seq<Object>, o: Object)
    requires |objects| <= 255
    ensures Head(NewIdent(code, objects)) == [0x0E, code, 1, 0, 0, |objects|]
    ensures o.length <= |o.value| ==> ObjectBytes(o) == [o.id, o.length] + o.value[..o.length]
  {
  }
}
