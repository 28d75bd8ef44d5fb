/** EtherNet/IP encapsulation (protocol/ethernetip/eip/header.go, conn.go, session.go,
    server.go): the 24-byte header with its 16-bit length, and a whole unconnected CIP
    exchange across it. */
module Encapsulation {
  import opened Bytes
  import opened ByteReader
  import opened CipMessage
  import opened Cpf
  import opened Wrappers

  const LIST_SERVICES: u16 := 0x0004
  const LIST_IDENTITY: u16 := 0x0063
  const REGISTER_SESSION: u16 := 0x0065
  const UNREGISTER_SESSION: u16 := 0x0066
  const SEND_RR_DATA: u16 := 0x006F
  const SEND_UNIT_DATA: u16 := 0x0070
  const SUCCESS: u32 := 0x0000
  const INVALID_COMMAND: u32 := 0x0001
  const INVALID_SESSION: u32 := 0x0064

  /** The server hangs up on a packet that announces more data than this. */
  const MAX_PACKET: nat := 4096

  type Context = c: seq<u8> | |c| == 8 witness NO_CONTEXT

  const NO_CONTEXT: seq<u8> := [0, 0, 0, 0, 0, 0, 0, 0]

  /** Options are zero in everything that is sent, and ignored in what is received. */
  datatype Header = Header(command: u16, session: u32, status: u32, context: Context)

  function FramedBytes(h: Header, data: seq<u8>): seq<u8> {
    PutLE16(h.command) + PutLE16(|data| % 0x1_0000) + PutLE32(h.session) + PutLE32(h.status) + h.context + PutLE32(0) + data
  }

  function HeaderOf(b: seq<u8>): Header
    requires |b| >= 24
  {
    Header(GetLE16(b, 0), GetLE32(b, 4), GetLE32(b, 8), b[12..20])
  }

  function Received(b: seq<u8>): Option<(Header, seq<u8>)> {
    if |b| < 24 || |b| < 24 + GetLE16(b, 2) as int then None
    else Some((HeaderOf(b), b[24..24 + GetLE16(b, 2) as int]))
  }

  method Send(h: Header, data: seq<u8>) returns (b: seq<u8>)
    ensures b == FramedBytes(h, data)
  {
    b := PutLE16(h.command);
    b := b + PutLE16(|data| % 0x1_0000);
    b := b + PutLE32(h.session);
    b := b + PutLE32(h.status);
    b := b + h.context;
    b := b + PutLE32(0);
    b := b + data;
  }

  method Receive(b: seq<u8>) returns (r: Option<(Header, seq<u8>)>)
    ensures r == Received(b)
  {
    var rd := new Reader(b);
    var head := rd.ReadFull(24);
    if head.None? {
      return None;
    }
    var data := rd.ReadFull(GetLE16(b, 2));
    if data.None? {
      return None;
    }
    return Some((HeaderOf(b), data.value));
  }

  /** The header always arrives; of the data, what its 16-bit length leaves. */
  lemma ReceivedIsCarried(h: Header, data: seq<u8>)
    ensures Received(FramedBytes(h, data)) == Some((h, Carried(data)))
  {
    var b := FramedBytes(h, data);
    FixedFields(h, data);
    assert b[24..] == data;
    assert b[24..24 + |data| % 0x1_0000] == data[..|data| % 0x1_0000];
  }

  lemma FixedFields(h: Header, data: seq<u8>)
    ensures var b := FramedBytes(h, data);
      && |b| == 24 + |data| && GetLE16(b, 2) == |data| % 0x1_0000
      && HeaderOf(b) == h
  {
  }

  /** A packet arrives whole exactly below 65536 bytes of data. */
  lemma PacketRoundTrip(h: Header, data: seq<u8>)
    ensures Received(FramedBytes(h, data)) == Some((h, data)) <==> |data| < 0x1_0000
  {
    ReceivedIsCarried(h, data);
    assert |Carried(data)| == |data| % 0x1_0000;
    assert |data| < 0x1_0000 ==> Carried(data) == data;
  }

  // -- an unconnected exchange

  /** What the objects of the server answer; None is an error of the dispatcher. */
  type Dispatcher = Request -> Option<Response>

  /** handleSendRRData: the reply data, or None on any error. */
  method HandleSendRRData(data: seq<u8>, dispatch: Dispatcher) returns (r: Option<seq<u8>>)
    ensures r == RRReply(data, dispatch)
  {
    var req := ServerReceive(data);
    if req.None? {
      return None;
    }
    var resp := dispatch(req.value);
    if resp.None? {
      return None;
    }
    var bytes := EncodeResponse(resp.value);
    var wrapped := WrapMessage(bytes);
    return Some(wrapped);
  }

  function RRReply(data: seq<u8>, dispatch: Dispatcher): Option<seq<u8>> {
    var req := ServerSees(data);
    if req.None? || dispatch(req.value).None? then None else Some(Wrap(ResponseBytes(dispatch(req.value).value)))
  }

  /** What the server has besides its sessions: its objects, the handler of connected
      data, and its identity and services, encoded. */
  datatype Services = Services(dispatch: Dispatcher, connected: seq<u8> -> Option<seq<u8>>, identity: seq<u8>, services: seq<u8>)

  /** A reply, or an error status with no data. */
  function Reply(h: Header, reply: Option<seq<u8>>): (Header, seq<u8>) {
    match reply
    case None => (h.(status := INVALID_COMMAND), [])
    case Some(data) => (h.(status := SUCCESS), data)
  }

  /** Commands that need the connection's own session, which zero never is. */
  function InSession(h: Header, session: u32, reply: Option<seq<u8>>): (Header, seq<u8>) {
    if h.session != session || session == 0 then (h.(status := INVALID_SESSION), []) else Reply(h, reply)
  }

  /** Version 1 and no options. */
  const REGISTERED: seq<u8> := [1, 0, 0, 0]

  /** The counter of sessions after one more is drawn. */
  function Drawn(next: u32): u32 { (next as int + 1) % 0x1_0000_0000 }

  /** What one packet does: the answer, if the connection goes on, the connection's
      session and the counter of sessions. */
  datatype Turn = Turn(answer: Option<(Header, seq<u8>)>, session: u32, next: u32)

  function Answered(h: Header, data: seq<u8>, session: u32, next: u32, sv: Services): Turn {
    if h.command == REGISTER_SESSION then
      Turn(Some((h.(session := Drawn(next), status := SUCCESS), REGISTERED)), Drawn(next), Drawn(next))
    else if h.command == UNREGISTER_SESSION then Turn(None, session, next)
    else if h.command == LIST_IDENTITY then Turn(Some(Reply(h, Some(sv.identity))), session, next)
    else if h.command == LIST_SERVICES then Turn(Some(Reply(h, Some(sv.services))), session, next)
    else if h.command == SEND_RR_DATA then Turn(Some(InSession(h, session, RRReply(data, sv.dispatch))), session, next)
    else if h.command == SEND_UNIT_DATA then Turn(Some(InSession(h, session, sv.connected(data))), session, next)
    else Turn(Some(Reply(h, None)), session, next)
  }

  /** One turn of the server's connection loop; no output ends the connection. */
  method ServerLoopBody(b: seq<u8>, session: u32, next: u32, sv: Services)
      returns (out: Option<seq<u8>>, session': u32, next': u32)
    ensures match Received(b)
      case None => out == None && session' == session && next' == next
      case Some((h, data)) =>
        if |data| > MAX_PACKET then out == None && session' == session && next' == next
        else
          var turn := Answered(h, data, session, next, sv);
          && session' == turn.session && next' == turn.next
          && out == if turn.answer.None? then None else Some(FramedBytes(turn.answer.value.0, turn.answer.value.1))
  {
    session', next' := session, next;
    if |b| < 24 || GetLE16(b, 2) > MAX_PACKET {
      return None, session, next;
    }
    var packet := Receive(b);
    if packet.None? {
      return None, session, next;
    }
    var (h, data) := packet.value;
    var status, handle, reply := SUCCESS, h.session, Some([]);
    if h.command == REGISTER_SESSION {
      next' := (next as int + 1) % 0x1_0000_0000;
      session' := next';
      handle := next';
      reply := Some(REGISTERED);
    } else if h.command == UNREGISTER_SESSION {
      return None, session, next;
    } else if h.command == LIST_IDENTITY {
      reply := Some(sv.identity);
    } else if h.command == LIST_SERVICES {
      reply := Some(sv.services);
    } else if (h.command == SEND_RR_DATA || h.command == SEND_UNIT_DATA) && (h.session != session || session == 0) {
      status := INVALID_SESSION;
    } else if h.command == SEND_RR_DATA {
      reply := HandleSendRRData(data, sv.dispatch);
    } else if h.command == SEND_UNIT_DATA {
      reply := sv.connected(data);
    } else {
      reply := None;
    }
    if reply.None? {
      status, reply := INVALID_COMMAND, Some([]);
    }
    var bytes := Send(Header(h.command, handle, status, h.context), reply.value);
    out := Some(bytes);
  }

  /** What the session makes of the answer. */
  function Understood(h: Header, data: seq<u8>): Option<Response> {
    if h.status != SUCCESS then None else ClientSees(data)
  }

  /** The whole exchange, as a function of what is asked. */
  function Exchanged(req: Request, handle: u32, session: u32, dispatch: Dispatcher): Option<Response> {
    var data := Carried(Wrap(RequestBytes(req)));
    if |data| > MAX_PACKET then None
    else
      var (h, reply) := InSession(Header(SEND_RR_DATA, handle, 0, NO_CONTEXT), session, RRReply(data, dispatch));
      Understood(h, Carried(reply))
  }

  /** SendCIPRequest, over the wire and back; it leaves the sessions alone. */
  method SendCIPRequest(req: Request, handle: u32, session: u32, next: u32, sv: Services)
      returns (r: Option<Response>, session': u32, next': u32)
    ensures r == Exchanged(req, handle, session, sv.dispatch) && session' == session && next' == next
  {
    var msg := EncodeRequest(req);
    var rr := WrapMessage(msg);
    var h := Header(SEND_RR_DATA, handle, 0, NO_CONTEXT);
    var sent := Send(h, rr);
    ReceivedIsCarried(h, rr);
    var out;
    out, session', next' := ServerLoopBody(sent, session, next, sv);
    if out.None? {
      return None, session', next';
    }
    ghost var ans := InSession(h, session, RRReply(Carried(rr), sv.dispatch));
    ReceivedIsCarried(ans.0, ans.1);
    var packet := Receive(out.value);
    var (h', data) := packet.value;
    if h'.status != SUCCESS || |data| < 6 {
      return None, session', next';
    }
    var p := DecodePacket(data[6..]);
    if p.None? {
      return None, session', next';
    }
    var item := FindItem(p.value, UNCONNECTED_MESSAGE);
    if item.None? {
      return None, session', next';
    }
    r := DecodeResponse(item.value.data);
  }

  /** The longest request the server takes: 16 bytes of the packet are envelope. */
  const MAX_REQUEST: nat := 4080

  ghost predicate Carriable(req: Request) { Sendable(req) && |RequestBytes(req)| <= MAX_REQUEST }

  /** The server takes the packet and sees exactly the request the client encoded, if and
      only if the request is sendable and has at most 4080 bytes. */
  lemma RequestArrivesIff(req: Request)
    ensures var data := Carried(Wrap(RequestBytes(req)));
            |data| <= MAX_PACKET && ServerSees(data) == Some(req) <==> Carriable(req)
  {
    RequestCrosses(req);
    var msg := RequestBytes(req);
    if |msg| <= MAX_MESSAGE {
      WrapSize(msg);
      assert Carried(Wrap(msg)) == Wrap(msg);
    }
  }

  ghost predicate CarriableBack(resp: Response) { resp.extSize == |resp.ext| && |ResponseBytes(resp)| <= MAX_MESSAGE }

  /** On the session's own handle, a carriable request gets exactly the answer of the
      addressed object: its response if that is carriable too, and an error if the
      dispatcher has one. */
  lemma ExchangeIsDispatch(req: Request, session: u32, dispatch: Dispatcher)
    requires Carriable(req) && session != 0
    ensures dispatch(req).None? ==> Exchanged(req, session, session, dispatch) == None
    ensures dispatch(req).Some? ==>
      (Exchanged(req, session, session, dispatch) == dispatch(req) <==> CarriableBack(dispatch(req).value))
  {
    RequestArrivesIff(req);
    if dispatch(req).Some? { ResponseCrosses(dispatch(req).value); }
  }

  /** On any other handle it gets an error, and no object is asked. */
  lemma WrongSessionIsRefused(req: Request, handle: u32, session: u32, dispatch: Dispatcher)
    requires handle != session || session == 0
    ensures Exchanged(req, handle, session, dispatch) == None
  {
  }
}
