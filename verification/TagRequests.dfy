/** Reading and writing Logix tags (protocol/ethernetip/client.go, cip/services.go): from
    the text of a tag to what the addressed device is asked. */
module TagRequests {
  import opened Bytes
  import opened CipMessage
  import opened Cpf
  import opened Encapsulation
  import opened Epath
  import opened TagPath
  import opened Wrappers

  const SERVICE_READ_TAG: u8 := 0x4C
  const SERVICE_WRITE_TAG: u8 := 0x4D

  function PathOf(tag: Tag): seq<u8>
    requires Spelled(tag).Some?
  {
    Encode(Spelled(tag).value)
  }

  function ReadTag(tag: Tag, count: u16): Request
    requires Spelled(tag).Some?
  {
    Request(SERVICE_READ_TAG, PathOf(tag), PutLE16(count))
  }

  function WriteTag(tag: Tag, dataType: u16, count: u16, data: seq<u8>): Request
    requires Spelled(tag).Some?
  {
    Request(SERVICE_WRITE_TAG, PathOf(tag), PutLE16(dataType) + PutLE16(count) + data)
  }

  lemma WriteData(dataType: u16, count: u16, data: seq<u8>)
    ensures PutLE16(dataType) + PutLE16(count) + data == [dataType % 256, dataType / 256, count % 256, count / 256] + data
  {
  }

  /** Read Tag is service 4C with the count, Write Tag 4D with type, count and data; numbers
      low byte first. */
  lemma TagLayout(tag: Tag, dataType: u16, count: u16, data: seq<u8>)
    requires Spelled(tag).Some?
    ensures var r := ReadTag(tag, count); r.service == 0x4C && r.path == PathOf(tag) && r.data == [count % 256, count / 256]
    ensures var w := WriteTag(tag, dataType, count, data);
      w.service == 0x4D && w.path == PathOf(tag) && w.data == [dataType % 256, dataType / 256, count % 256, count / 256] + data
  {
    WriteData(dataType, count, data);
  }

  /** The server takes the packet, sees the request, and reads off its path what the tag
      spells. */
  ghost predicate Arrives(req: Request, tag: Tag) {
    var packet := Carried(Wrap(RequestBytes(req)));
    |packet| <= MAX_PACKET && ServerSees(packet) == Some(req) && Decode(req.path) == Spelled(tag)
  }

  lemma TagArrivesIff(req: Request, tag: Tag)
    requires Spelled(tag).Some? && req.path == PathOf(tag) && req.data != []
    ensures Arrives(req, tag) <==>
      ShortNames(Spelled(tag).value) && |req.path| <= 510 && |req.path| + |req.data| <= MAX_REQUEST - 2
  {
    RequestArrivesIff(req);
    TagDecodes(tag);
  }

  /** A tag is read as it is spelled if and only if no name in it exceeds 255 bytes and
      its path does not exceed 510. */
  lemma ReadTagArrivesIff(tag: Tag, count: u16)
    requires Spelled(tag).Some?
    ensures Arrives(ReadTag(tag, count), tag) <==> ShortNames(Spelled(tag).value) && |PathOf(tag)| <= 510
  {
    TagArrivesIff(ReadTag(tag, count), tag);
  }

  /** It is written as spelled if and only if, in addition, path and data together do not
      exceed 4074 bytes. */
  lemma WriteTagArrivesIff(tag: Tag, dataType: u16, count: u16, data: seq<u8>)
    requires Spelled(tag).Some?
    ensures Arrives(WriteTag(tag, dataType, count, data), tag) <==>
      ShortNames(Spelled(tag).value) && |PathOf(tag)| <= 510 && |PathOf(tag)| + |data| <= 4074
  {
    TagArrivesIff(WriteTag(tag, dataType, count, data), tag);
  }

  /** ReadTagElements within a session: a count of zero and a text that is no tag are
      refused before anything is sent. */
  method ReadTagElements(tag: Tag, count: u16, handle: u32, session: u32, next: u32, sv: Services) returns (r: Option<Response>)
    ensures r == if count == 0 || Spelled(tag).None? then None else Exchanged(ReadTag(tag, count), handle, session, sv.dispatch)
  {
    if count == 0 {
      return None;
    }
    var path := ParseTagPath(tag);
    if path.None? {
      return None;
    }
    var session', next';
    r, session', next' := SendCIPRequest(Request(SERVICE_READ_TAG, path.value, PutLE16(count)), handle, session, next, sv);
  }

  /** A device that holds tags: it answers by the names and indices of the path. */
  type Tags = (seq<Segment>, u16) -> Option<Response>

  function TagServer(tags: Tags): Dispatcher {
    (q: Request) =>
      if q.service == SERVICE_READ_TAG && |q.data| == 2 && Decode(q.path).Some?
      then tags(Decode(q.path).value, GetLE16(q.data, 0)) else None
  }

  lemma AskedAsSpelled(tag: Tag, count: u16, tags: Tags)
    requires Spelled(tag).Some? && ShortNames(Spelled(tag).value)
    ensures TagServer(tags)(ReadTag(tag, count)) == tags(Spelled(tag).value, count)
  {
    TagDecodes(tag);
    assert GetLE16(PutLE16(count), 0) == count;
  }

  lemma ReadTagCarriable(tag: Tag, count: u16)
    requires Spelled(tag).Some? && |PathOf(tag)| <= 510
    ensures Carriable(ReadTag(tag, count))
  {
    TagDecodes(tag);
  }

  /** From end to end: what a client within its session reads under a tag is what the
      device holds under the names and indices the tag spells. */
  lemma ReadTagIsAnswered(tag: Tag, count: u16, session: u32, tags: Tags)
    requires Spelled(tag).Some? && ShortNames(Spelled(tag).value) && |PathOf(tag)| <= 510 && session != 0
    ensures var held := tags(Spelled(tag).value, count);
      && (held.None? ==> Exchanged(ReadTag(tag, count), session, session, TagServer(tags)) == None)
      && (held.Some? ==>
            (Exchanged(ReadTag(tag, count), session, session, TagServer(tags)) == held <==> CarriableBack(held.value)))
  {
    ReadTagCarriable(tag, count);
    AskedAsSpelled(tag, count, tags);
    ExchangeIsDispatch(ReadTag(tag, count), session, TagServer(tags));
  }
}
