/** The Modbus client (protocol/modbus/protocol.go, client.go): request generators,
    response parsers, the retrying send, and the operations composed from them, run
    against the server of ModbusServer over a wire that may lose either direction. */
module ModbusClient {
  import opened Bytes
  import opened Bits
  import opened DataPoints
  import opened ModbusFrames
  import opened ModbusLate
  import opened ModbusOps
  import opened ModbusServer
  import opened Wrappers

  method PutAt(buf: array<u8>, off: nat, v: u16)
    requires off + 2 <= buf.Length
    modifies buf
    ensures buf[off] == v / 256 && buf[off + 1] == v % 256
    ensures forall i | 0 <= i < buf.Length && i != off && i != off + 1 :: buf[i] == old(buf[i])
  {
    buf[off] := v / 256;
    buf[off + 1] := v % 256;
  }

  /** generateReadRequest. */
  method GenerateRead(area: Area, addr: u16, qty: u16) returns (r: Option<seq<u8>>)
    ensures r.Some? <==> Accepted(Read(area, addr, qty))
    ensures r.Some? ==> r.value == RequestData(Read(area, addr, qty))
  {
    if qty == 0 || qty > area.ReadLimit() {
      return None;
    }
    var data := Words(addr, qty);
    return Some(data);
  }

  /** Two big-endian words. */
  method Words(a: u16, b: u16) returns (data: seq<u8>)
    ensures data == PutBE16(a) + PutBE16(b)
  {
    var buf := new u8[4](_ => 0);
    PutAt(buf, 0, a);
    PutAt(buf, 2, b);
    data := buf[..];
  }

  method GenerateWriteCoil(addr: u16, on: bool) returns (data: seq<u8>)
    ensures data == RequestData(WriteCoil(addr, on))
  {
    if on {
      data := Words(addr, COIL_ON);
    } else {
      data := Words(addr, COIL_OFF);
    }
  }

  method GenerateWriteRegister(addr: u16, value: u16) returns (data: seq<u8>)
    ensures data == RequestData(WriteRegister(addr, value))
  {
    data := Words(addr, value);
  }

  method GenerateWriteCoils(addr: u16, bits: seq<bool>) returns (r: Option<seq<u8>>)
    ensures r.Some? <==> Accepted(WriteCoils(addr, bits))
    ensures r.Some? ==> r.value == RequestData(WriteCoils(addr, bits))
  {
    if |bits| == 0 || |bits| > MAX_WRITE_COILS {
      return None;
    }
    var byteCount := (|bits| + 7) / 8;
    var buf := new u8[5 + byteCount](_ => 0);
    PutAt(buf, 0, addr);
    PutAt(buf, 2, |bits|);
    buf[4] := byteCount;
    assert buf[..5] == PutBE16(addr) + PutBE16(|bits|) + [byteCount];
    PackBits(buf, 5, bits);
    PackIsPacked(bits);
    PackedUnique(buf[5..], Pack(bits), bits);
    assert buf[..] == buf[..5] + buf[5..];
    return Some(buf[..]);
  }

  method GenerateWriteRegisters(addr: u16, regs: seq<u16>) returns (r: Option<seq<u8>>)
    ensures r.Some? <==> Accepted(WriteRegisters(addr, regs))
    ensures r.Some? ==> r.value == RequestData(WriteRegisters(addr, regs))
  {
    if |regs| == 0 || |regs| > MAX_WRITE_REGISTERS {
      return None;
    }
    var byteCount := 2 * |regs|;
    var buf := new u8[5 + byteCount](_ => 0);
    PutAt(buf, 0, addr);
    PutAt(buf, 2, |regs|);
    buf[4] := byteCount;
    assert buf[..5] == PutBE16(addr) + PutBE16(|regs|) + [byteCount];
    PackRegisters(buf, 5, regs);
    RegisterBytesBigEndian(regs);
    BigEndianUnique(buf[5..], RegisterBytes(regs), regs);
    assert buf[..] == buf[..5] + buf[5..];
    return Some(buf[..]);
  }

  method GenerateReadWrite(addr: u16, qty: u16, writeAddr: u16, regs: seq<u16>) returns (r: Option<seq<u8>>)
    ensures r.Some? <==> Accepted(ReadWrite(addr, qty, writeAddr, regs))
    ensures r.Some? ==> r.value == RequestData(ReadWrite(addr, qty, writeAddr, regs))
  {
    if qty == 0 || qty > MAX_RW_READ || |regs| == 0 || |regs| > MAX_RW_WRITE {
      return None;
    }
    var byteCount := 2 * |regs|;
    var buf := new u8[9 + byteCount](_ => 0);
    PutAt(buf, 0, addr);
    PutAt(buf, 2, qty);
    PutAt(buf, 4, writeAddr);
    PutAt(buf, 6, |regs|);
    buf[8] := byteCount;
    assert buf[..9] == PutBE16(addr) + PutBE16(qty) + PutBE16(writeAddr) + PutBE16(|regs|) + [byteCount];
    PackRegisters(buf, 9, regs);
    RegisterBytesBigEndian(regs);
    BigEndianUnique(buf[9..], RegisterBytes(regs), regs);
    assert buf[..] == buf[..9] + buf[9..];
    return Some(buf[..]);
  }

  /** parseBitResponse. */
  method ParseBitResponse(data: seq<u8>, qty: u16) returns (r: Option<seq<bool>>)
    ensures ParseBits(data, qty) == if r.Some? then Some(BitsRead(r.value)) else None
  {
    if |data| == 0 {
      return None;
    }
    var byteCount := data[0] as int;
    if |data| != byteCount + 1 || byteCount != (qty + 7) / 8 {
      return None;
    }
    var values := TakeBits(data[1..], qty);
    return Some(values);
  }

  /** parseRegisterResponse. */
  method ParseRegisterResponse(data: seq<u8>, qty: u16) returns (r: Option<seq<u16>>)
    ensures ParseRegisters(data, qty) == if r.Some? then Some(RegistersRead(r.value)) else None
  {
    if |data| == 0 {
      return None;
    }
    var byteCount := data[0] as int;
    if |data| != byteCount + 1 || byteCount != 2 * (qty as int) {
      return None;
    }
    var values := TakeRegisters(data[1..], qty);
    return Some(values);
  }

  datatype Sent = Response(data: seq<u8>) | ServerException(code: u8) | NetworkFailure

  predicate IsReply(s: Sent, r: Reply) {
    match r
    case Normal(data) => s == Response(data)
    case Exception(code) => s == ServerException(code)
  }

  /** A generated request is never answered with an exception. */
  lemma GeneratedIsServed(others: Handlers, m: Memory, op: Op)
    requires Accepted(op)
    ensures IsDataFunction(FunctionCode(op)) && Answers(op, Apply(m, op).1)
    ensures Respond(others, m, FunctionCode(op), RequestData(op))
         == (Apply(m, op).0, Normal(ReplyData(op, Apply(m, op).1)))
  {
    RequestRoundTrip(op);
    ApplyAnswers(m, op);
  }

  /** A single request frame on the wire is answered by a single response frame. */
  lemma OneRequest(others: Handlers, m: Memory, a: Adu)
    requires a.proto == 0 && |a.data| <= MAX_DATA
    ensures ServeAll(others, m, Wire(a)).0 == Respond(others, m, a.fc, a.data).0
    ensures ServeAll(others, m, Wire(a)).1 == Wire(ReplyFrame(a, Respond(others, m, a.fc, a.data).1))
  {
    PipelinedRequests(others, m, [a]);
    assert WireAll([a]) == Wire(a);
    var r := ReplyFrame(a, Respond(others, m, a.fc, a.data).1);
    assert AnswerAll(others, m, [a]).1 == [r];
    assert WireAll([r]) == Wire(r);
  }

  /** The response of a data function survives framing. */
  lemma ResponseFits(others: Handlers, m: Memory, a: Adu)
    requires IsDataFunction(a.fc)
    ensures var f := ReplyFrame(a, Respond(others, m, a.fc, a.data).1);
      |f.data| < MAX_PDU && Framed(Wire(f)) && Unwire(Wire(f)) == f
  {
    if ParseRequest(a.fc, a.data).Some? {
      ParsedIsAccepted(a.fc, a.data);
      var op := ParseRequest(a.fc, a.data).value;
      ApplyAnswers(m, op);
      SizesCompose(op, Apply(m, op).1);
    }
    var f := ReplyFrame(a, Respond(others, m, a.fc, a.data).1);
    FrameRoundTrip(f, []);
    assert Wire(f) + [] == Wire(f);
  }

  datatype Outcome = Got(ans: Answer) | Refused | Failed | Malformed

  /** What a caller of the client is promised. A refused request never leaves the client.
      Otherwise `ran` are the requests the server carried out meanwhile, other than the
      one that was answered: an answered request took effect on the memory they left, and
      its answer is the one a direct operation on that memory gives. No request the client
      sends draws an exception, and no response of the server is malformed. */
  predicate EndToEnd(m: Memory, op: Op, m': Memory, r: Outcome, ran: seq<Op>) {
    match r
    case Got(ans) => Accepted(op) && m' == Apply(ApplyAll(m, ran), op).0 && ans == Apply(ApplyAll(m, ran), op).1
    case Refused => !Accepted(op) && m' == m && ran == []
    case Failed => Accepted(op) && m' == ApplyAll(m, ran)
    case Malformed => false
  }

  /** With no abandoned request outstanding, only this request can have run, however often
      it was resent: an answered call had exactly its effect, once, and a failed one that
      effect or none. */
  lemma NothingOutstanding(m: Memory, op: Op, m': Memory, r: Outcome, ran: seq<Op>)
    requires EndToEnd(m, op, m', r, ran) && OnlyFrom(ran, [op])
    ensures r.Got? ==> m' == Apply(m, op).0 && r.ans == Apply(m, op).1
    ensures r.Failed? ==> m' == m || m' == Apply(m, op).0
  {
    forall i | 0 <= i < |ran| ensures ran[i] == op { assert ran[i] in ran; }
    RepeatedIsOnce(m, op, ran);
  }

  /** With some outstanding, the answer is still that of the memory at the time of the
      call unless one of them writes a cell the answer shows. */
  lemma AnswerStands(m: Memory, op: Op, m': Memory, r: Outcome, ran: seq<Op>, late: seq<Op>)
    requires EndToEnd(m, op, m', r, ran) && OnlyFrom(ran, late + [op]) && r.Got?
    requires forall w | w in late :: !Disturbs(w, op)
    ensures r.ans == Apply(m, op).1
  {
    forall w | w in ran ensures !Disturbs(w, op) {
      assert w in late + [op];
      NoneDisturbsItself(op);
    }
    AnswerSurvives(m, ran, op);
  }

  /** The value the last of these writes to a register leaves there. */
  function LastWritten(ran: seq<Op>, before: u16): u16 {
    if ran == [] then before
    else if ran[|ran| - 1].WriteRegister? then ran[|ran| - 1].value
    else LastWritten(ran[..|ran| - 1], before)
  }

  /** A read, or a write to this one register. */
  predicate OnlyTouches(w: Op, addr: u16) { w.Read? || (w.WriteRegister? && w.addr == addr) }

  lemma OneWriteStays(m: Memory, w: Op, addr: u16)
    requires OnlyTouches(w, addr)
    ensures Apply(m, w).0.RegCell(HoldingRegister, addr) == if w.WriteRegister? then w.value else m.RegCell(HoldingRegister, addr)
  {
  }

  lemma {:induction false} LastWriteStays(m: Memory, ran: seq<Op>, addr: u16)
    requires forall i | 0 <= i < |ran| :: OnlyTouches(ran[i], addr)
    ensures ApplyAll(m, ran).RegCell(HoldingRegister, addr) == LastWritten(ran, m.RegCell(HoldingRegister, addr))
    decreases |ran|
  {
    if ran != [] {
      var n := |ran| - 1;
      LastWriteStays(m, ran[..n], addr);
      assert ran == ran[..n] + [ran[n]];
      ApplyAllSnoc(m, ran[..n], ran[n]);
      OneWriteStays(ApplyAll(m, ran[..n]), ran[n], addr);
    }
  }

  /** Three calls: a write that fails, a second write to the same register that is
      answered, and a read that is answered. The read shows the second value unless an
      abandoned sending of one of the two ran in between; it shows what the last of those
      wrote. */
  lemma ReadAfterWrites(addr: u16, first: u16, second: u16, m: Memory, m1: Memory, ran1: seq<Op>,
      m2: Memory, ran2: seq<Op>, r2: Outcome, m3: Memory, ran3: seq<Op>, r3: Outcome)
    requires var w1, w2, read := WriteRegister(addr, first), WriteRegister(addr, second), Read(HoldingRegister, addr, 1);
      && EndToEnd(m, w1, m1, Failed, ran1) && OnlyFrom(ran1, [w1])
      && EndToEnd(m1, w2, m2, r2, ran2) && OnlyFrom(ran2, [w1, w2]) && r2.Got?
      && EndToEnd(m2, read, m3, r3, ran3) && OnlyFrom(ran3, [w1, w2, read]) && r3.Got?
    ensures r3.ans == RegistersRead([LastWritten(ran3, second)])
  {
    var read := Read(HoldingRegister, addr, 1);
    forall i | 0 <= i < |ran3| ensures OnlyTouches(ran3[i], addr) {
      assert ran3[i] in [WriteRegister(addr, first), WriteRegister(addr, second), read];
    }
    LastWriteStays(m2, ran3, addr);
    assert m2.RegCell(HoldingRegister, addr) == second;
    assert ApplyAll(m2, ran3).RegCells(HoldingRegister, addr, 1) == [LastWritten(ran3, second)];
  }

  /** And it happens: the first write runs after the second, and the read shows the first
      value, though only the second write succeeded. */
  lemma LateWriteUndoes(m: Memory, addr: u16, first: u16, second: u16) returns (m2: Memory, m3: Memory)
    ensures var w1, w2, read := WriteRegister(addr, first), WriteRegister(addr, second), Read(HoldingRegister, addr, 1);
      && EndToEnd(m, w1, m, Failed, [])
      && EndToEnd(m, w2, m2, Got(Written), [])
      && EndToEnd(m2, read, m3, Got(RegistersRead([first])), [w1])
  {
    var w1, w2, read := WriteRegister(addr, first), WriteRegister(addr, second), Read(HoldingRegister, addr, 1);
    m2 := Apply(m, w2).0;
    m3 := Apply(ApplyAll(m2, [w1]), read).0;
    ReadAfterWrites(addr, first, second, m, m, [], m2, [], Got(Written),
      m3, [w1], Got(Apply(ApplyAll(m2, [w1]), read).1));
  }

  ghost predicate AllAccepted(ops: seq<Op>) { forall w | w in ops :: Accepted(w) }

  /** What becomes of an attempt to send a request: it is answered, it does not get through
      in time, or its answer does not. */
  datatype Fate = Delivered | RequestLost | ResponseLost

  class Client {
    const server: Server
    const unitID: u8
    const retries: int

    /** Requests the client has given up on and the server may yet carry out. */
    var late: seq<Op>

    /** The attempts made so far, and what becomes of each, counted from the first. */
    var sends: nat
    const fate: nat -> Fate

    /** None of the attempts from the i-th up to the j-th is answered. */
    ghost predicate NoneDelivered(i: nat, j: int) { forall n: nat | i <= n < j :: fate(n) != Delivered }

    ghost predicate Valid()
      reads this
    {
      AllAccepted(late)
    }

    constructor (server: Server, unitID: u8, retries: int, fate: nat -> Fate)
      ensures this.server == server && this.unitID == unitID && this.retries == retries && this.fate == fate
      ensures Valid() && late == [] && sends == 0
    {
      this.server, this.unitID, this.retries, this.fate, late, sends := server, unitID, retries, fate, [], 0;
    }

    /** One request over the wire and its response. */
    method Carry(tid: u16, fc: u8, data: seq<u8>) returns (out: seq<u8>)
      requires IsDataFunction(fc) && |data| <= MAX_DATA
      modifies server.store
      ensures var a := Adu(tid, 0, unitID, fc, data);
              var (m, reply) := Respond(server.others, old(server.store.Mem()), fc, data);
              && server.store.Mem() == m && out == Wire(ReplyFrame(a, reply))
    {
      var request := new Message(tid, unitID, fc, data);
      var bytes := request.Encode();
      OneRequest(server.others, server.store.Mem(), request.Value());
      out := server.HandleConnection(bytes);
    }

    /** One exchange. The request or the response may be lost; `served` tells whether the
        server carried the request out. */
    method Exchange(fc: u8, data: seq<u8>) returns (r: Sent, served: bool)
      requires IsDataFunction(fc) && |data| <= MAX_DATA
      modifies this`sends, server.store
      ensures sends == old(sends) + 1
      ensures served <==> fate(old(sends)) != RequestLost
      ensures r.NetworkFailure? <==> fate(old(sends)) != Delivered
      ensures !served ==> r.NetworkFailure? && server.store.Mem() == old(server.store.Mem())
      ensures served ==> server.store.Mem() == Respond(server.others, old(server.store.Mem()), fc, data).0
      ensures !r.NetworkFailure? ==> IsReply(r, Respond(server.others, old(server.store.Mem()), fc, data).1)
    {
      var tid: u16 := *;
      var outcome := fate(sends);
      sends := sends + 1;
      if outcome.RequestLost? {
        return NetworkFailure, false;
      }
      ResponseFits(server.others, server.store.Mem(), Adu(tid, 0, unitID, fc, data));
      var out := Carry(tid, fc, data);
      var response := new Message(0, 0, 0, []);
      var st := response.Decode(out);
      if outcome.ResponseLost? || !st.Decoded? || response.protocolID != 0 || response.transactionID != tid {
        return NetworkFailure, true;
      }
      if response.functionCode >= 0x80 {
        return ServerException(if |response.data| > 0 then response.data[0] else 0), true;
      }
      return Response(response.data), true;
    }

    /** The server carries out an abandoned request, unheard. */
    method RunOne(k: nat)
      requires Valid() && k < |late|
      modifies this`late, server.store
      ensures Valid() && late == old(late)[..k] + old(late)[k + 1..]
      ensures server.store.Mem() == Apply(old(server.store.Mem()), old(late)[k]).0
    {
      var op := late[k];
      var tid: u16 := *;
      GeneratedIsServed(server.others, server.store.Mem(), op);
      SizesCompose(op, Apply(server.store.Mem(), op).1);
      var out := Carry(tid, FunctionCode(op), RequestData(op));
      late := late[..k] + late[k + 1..];
    }

    /** Any of the abandoned requests may run at this moment, in any order, each once. */
    method RunLate() returns (ghost ran: seq<Op>)
      requires Valid()
      modifies this`late, server.store
      ensures Valid() && OnlyFrom(ran, old(late)) && OnlyFrom(late, old(late))
      ensures multiset(ran) + multiset(late) == multiset(old(late))
      ensures server.store.Mem() == ApplyAll(old(server.store.Mem()), ran)
    {
      ran := [];
      var n :| 0 <= n;
      for i := 0 to n
        invariant Valid() && OnlyFrom(ran, old(late)) && OnlyFrom(late, old(late))
        invariant multiset(ran) + multiset(late) == multiset(old(late))
        invariant server.store.Mem() == ApplyAll(old(server.store.Mem()), ran)
      {
        var k :| 0 <= k;
        if k < |late| {
          assert late == late[..k] + [late[k]] + late[k + 1..];
          ApplyAllSnoc(old(server.store.Mem()), ran, late[k]);
          ran := ran + [late[k]];
          RunOne(k);
        }
      }
    }

    /** One attempt at a generated request. If it fails unserved, the request is out there. */
    method Attempt(op: Op, fc: u8, data: seq<u8>) returns (r: Sent, ghost ran: seq<Op>)
      requires Valid() && Accepted(op) && fc == FunctionCode(op) && data == RequestData(op)
      modifies this`late, this`sends, server.store
      ensures Valid() && OnlyFrom(ran, old(late) + [op]) && OnlyFrom(late, old(late) + [op])
      ensures !r.ServerException? && sends == old(sends) + 1
      ensures r.NetworkFailure? <==> fate(old(sends)) != Delivered
      ensures r.NetworkFailure? ==> server.store.Mem() == ApplyAll(old(server.store.Mem()), ran)
      ensures r.Response? ==> server.store.Mem() == Apply(ApplyAll(old(server.store.Mem()), ran), op).0
      ensures r.Response? ==> ParseReply(op, r.data) == Some(Apply(ApplyAll(old(server.store.Mem()), ran), op).1)
    {
      ran := RunLate();
      ghost var m := server.store.Mem();
      GeneratedIsServed(server.others, m, op);
      SizesCompose(op, Apply(m, op).1);
      ReplyRoundTrip(op, Apply(m, op).1);
      var served;
      r, served := Exchange(fc, data);
      if !served {
        late := late + [op];
      } else if r.NetworkFailure? {
        ApplyAllSnoc(old(server.store.Mem()), ran, op);
        ran := ran + [op];
      }
    }

    /** send: tries again after a transport failure, up to 1 + retries times in all, and never
        after an answer. */
    method Send(op: Op, fc: u8, data: seq<u8>) returns (r: Sent, ghost ran: seq<Op>)
      requires Valid() && Accepted(op) && fc == FunctionCode(op) && data == RequestData(op)
      modifies this`late, this`sends, server.store
      ensures Valid() && OnlyFrom(ran, old(late) + [op]) && OnlyFrom(late, old(late) + [op])
      ensures !r.ServerException?
      ensures r.NetworkFailure? <==> NoneDelivered(old(sends), old(sends) + 1 + retries)
      ensures r.NetworkFailure? ==> sends == if 1 + retries > 0 then old(sends) + 1 + retries else old(sends)
      ensures r.Response? ==> old(sends) < sends <= old(sends) + 1 + retries && fate(sends - 1) == Delivered && NoneDelivered(old(sends), sends - 1)
      ensures r.NetworkFailure? ==> server.store.Mem() == ApplyAll(old(server.store.Mem()), ran)
      ensures r.Response? ==> server.store.Mem() == Apply(ApplyAll(old(server.store.Mem()), ran), op).0
      ensures r.Response? ==> ParseReply(op, r.data) == Some(Apply(ApplyAll(old(server.store.Mem()), ran), op).1)
    {
      ran := [];
      r := NetworkFailure;
      ghost var m := server.store.Mem();
      var attempts := 1 + retries;
      var i := 0;
      while i < attempts
        invariant Valid() && OnlyFrom(ran, old(late) + [op]) && OnlyFrom(late, old(late) + [op])
        invariant 0 <= i && sends == old(sends) + i && (i <= attempts || i == 0) && NoneDelivered(old(sends), sends)
        invariant r.NetworkFailure? && server.store.Mem() == ApplyAll(m, ran)
      {
        ghost var more;
        r, more := Attempt(op, fc, data);
        ApplyAllJoin(m, ran, more);
        ran := ran + more;
        if !r.NetworkFailure? {
          return;
        }
        i := i + 1;
      }
    }

    /** ReadCoils, ReadDiscreteInputs. */
    method ReadBits(area: Area, addr: u16, qty: u16) returns (r: Outcome, ghost ran: seq<Op>)
      requires Valid() && area.IsBits()
      modifies this`late, this`sends, server.store
      ensures EndToEnd(old(server.store.Mem()), Read(area, addr, qty), server.store.Mem(), r, ran)
      ensures Valid() && OnlyFrom(ran, old(late) + [Read(area, addr, qty)]) && OnlyFrom(late, old(late) + [Read(area, addr, qty)])
      ensures r.Refused? <==> !(1 <= qty <= 2000)
      ensures r.Refused? ==> sends == old(sends)
      ensures r.Failed? <==> (1 <= qty <= 2000) && NoneDelivered(old(sends), old(sends) + 1 + retries)
      ensures r.Got? ==>
                && r.ans.BitsRead? && |r.ans.bits| == qty
                && forall i | 0 <= i < qty :: r.ans.bits[i] == server.store.Mem().BitCell(area, Add16(addr, i))
    {
      var data := GenerateRead(area, addr, qty);
      if data.None? {
        return Refused, [];
      }
      var sent;
      sent, ran := Send(Read(area, addr, qty), if area.Coil? then 0x01 else 0x02, data.value);
      if sent.NetworkFailure? {
        return Failed, ran;
      }
      var bits := ParseBitResponse(sent.data, qty);
      return Got(BitsRead(bits.value)), ran;
    }

    /** ReadHoldingRegisters, ReadInputRegisters. */
    method ReadRegisters(area: Area, addr: u16, qty: u16) returns (r: Outcome, ghost ran: seq<Op>)
      requires Valid() && !area.IsBits()
      modifies this`late, this`sends, server.store
      ensures EndToEnd(old(server.store.Mem()), Read(area, addr, qty), server.store.Mem(), r, ran)
      ensures Valid() && OnlyFrom(ran, old(late) + [Read(area, addr, qty)]) && OnlyFrom(late, old(late) + [Read(area, addr, qty)])
      ensures r.Refused? <==> !(1 <= qty <= 125)
      ensures r.Refused? ==> sends == old(sends)
      ensures r.Failed? <==> (1 <= qty <= 125) && NoneDelivered(old(sends), old(sends) + 1 + retries)
      ensures r.Got? ==>
                && r.ans.RegistersRead? && |r.ans.regs| == qty
                && forall i | 0 <= i < qty :: r.ans.regs[i] == server.store.Mem().RegCell(area, Add16(addr, i))
    {
      var data := GenerateRead(area, addr, qty);
      if data.None? {
        return Refused, [];
      }
      var sent;
      sent, ran := Send(Read(area, addr, qty), if area.HoldingRegister? then 0x03 else 0x04, data.value);
      if sent.NetworkFailure? {
        return Failed, ran;
      }
      var regs := ParseRegisterResponse(sent.data, qty);
      return Got(RegistersRead(regs.value)), ran;
    }

    method WriteSingleCoil(addr: u16, on: bool) returns (r: Outcome, ghost ran: seq<Op>)
      requires Valid()
      modifies this`late, this`sends, server.store
      ensures EndToEnd(old(server.store.Mem()), WriteCoil(addr, on), server.store.Mem(), r, ran)
      ensures Valid() && OnlyFrom(ran, old(late) + [WriteCoil(addr, on)]) && OnlyFrom(late, old(late) + [WriteCoil(addr, on)])
      ensures !r.Refused? && (r.Failed? <==> NoneDelivered(old(sends), old(sends) + 1 + retries))
      ensures r.Got? ==> server.store.Mem().BitCell(Coil, addr) == on
    {
      var data := GenerateWriteCoil(addr, on);
      var sent;
      sent, ran := Send(WriteCoil(addr, on), 0x05, data);
      if sent.NetworkFailure? {
        return Failed, ran;
      }
      var word := if |sent.data| == 4 then Some(GetBE16(sent.data, 2)) else None;
      return (if word == Some(COIL_ON) || word == Some(COIL_OFF) then Got(Written) else Malformed), ran;
    }

    method WriteSingleRegister(addr: u16, value: u16) returns (r: Outcome, ghost ran: seq<Op>)
      requires Valid()
      modifies this`late, this`sends, server.store
      ensures EndToEnd(old(server.store.Mem()), WriteRegister(addr, value), server.store.Mem(), r, ran)
      ensures Valid() && OnlyFrom(ran, old(late) + [WriteRegister(addr, value)]) && OnlyFrom(late, old(late) + [WriteRegister(addr, value)])
      ensures !r.Refused? && (r.Failed? <==> NoneDelivered(old(sends), old(sends) + 1 + retries))
      ensures r.Got? ==> server.store.Mem().RegCell(HoldingRegister, addr) == value
    {
      var data := GenerateWriteRegister(addr, value);
      var sent;
      sent, ran := Send(WriteRegister(addr, value), 0x06, data);
      if sent.NetworkFailure? {
        return Failed, ran;
      }
      return (if |sent.data| == 4 then Got(Written) else Malformed), ran;
    }

    method WriteMultipleCoils(addr: u16, bits: seq<bool>) returns (r: Outcome, ghost ran: seq<Op>)
      requires Valid()
      modifies this`late, this`sends, server.store
      ensures EndToEnd(old(server.store.Mem()), WriteCoils(addr, bits), server.store.Mem(), r, ran)
      ensures Valid() && OnlyFrom(ran, old(late) + [WriteCoils(addr, bits)]) && OnlyFrom(late, old(late) + [WriteCoils(addr, bits)])
      ensures r.Refused? <==> !(1 <= |bits| <= 1968)
      ensures r.Refused? ==> sends == old(sends)
      ensures r.Failed? <==> (1 <= |bits| <= 1968) && NoneDelivered(old(sends), old(sends) + 1 + retries)
      ensures r.Got? ==> forall i | 0 <= i < |bits| :: server.store.Mem().BitCell(Coil, Add16(addr, i)) == bits[i]
    {
      var data := GenerateWriteCoils(addr, bits);
      if data.None? {
        return Refused, [];
      }
      var sent;
      sent, ran := Send(WriteCoils(addr, bits), 0x0F, data.value);
      CoilsStored(ApplyAll(old(server.store.Mem()), ran), addr, bits);
      if sent.NetworkFailure? {
        return Failed, ran;
      }
      return (if |sent.data| == 4 then Got(Written) else Malformed), ran;
    }

    method WriteMultipleRegisters(addr: u16, regs: seq<u16>) returns (r: Outcome, ghost ran: seq<Op>)
      requires Valid()
      modifies this`late, this`sends, server.store
      ensures EndToEnd(old(server.store.Mem()), WriteRegisters(addr, regs), server.store.Mem(), r, ran)
      ensures Valid() && OnlyFrom(ran, old(late) + [WriteRegisters(addr, regs)]) && OnlyFrom(late, old(late) + [WriteRegisters(addr, regs)])
      ensures r.Refused? <==> !(1 <= |regs| <= 123)
      ensures r.Refused? ==> sends == old(sends)
      ensures r.Failed? <==> (1 <= |regs| <= 123) && NoneDelivered(old(sends), old(sends) + 1 + retries)
      ensures r.Got? ==> forall i | 0 <= i < |regs| :: server.store.Mem().RegCell(HoldingRegister, Add16(addr, i)) == regs[i]
    {
      var data := GenerateWriteRegisters(addr, regs);
      if data.None? {
        return Refused, [];
      }
      var sent;
      sent, ran := Send(WriteRegisters(addr, regs), 0x10, data.value);
      RegistersStored(ApplyAll(old(server.store.Mem()), ran), addr, regs);
      if sent.NetworkFailure? {
        return Failed, ran;
      }
      return (if |sent.data| == 4 then Got(Written) else Malformed), ran;
    }

    method ReadWriteMultipleRegisters(addr: u16, qty: u16, writeAddr: u16, regs: seq<u16>) returns (r: Outcome, ghost ran: seq<Op>)
      requires Valid()
      modifies this`late, this`sends, server.store
      ensures EndToEnd(old(server.store.Mem()), ReadWrite(addr, qty, writeAddr, regs), server.store.Mem(), r, ran)
      ensures Valid() && OnlyFrom(ran, old(late) + [ReadWrite(addr, qty, writeAddr, regs)]) && OnlyFrom(late, old(late) + [ReadWrite(addr, qty, writeAddr, regs)])
      ensures r.Refused? <==> !(1 <= qty <= 125 && 1 <= |regs| <= 121)
      ensures r.Refused? ==> sends == old(sends)
      ensures r.Failed? <==> (1 <= qty <= 125 && 1 <= |regs| <= 121) && NoneDelivered(old(sends), old(sends) + 1 + retries)
      ensures r.Got? ==> forall i | 0 <= i < |regs| :: server.store.Mem().RegCell(HoldingRegister, Add16(writeAddr, i)) == regs[i]
      ensures r.Got? ==>
                && r.ans.RegistersRead? && |r.ans.regs| == qty
                && forall i | 0 <= i < qty :: r.ans.regs[i] == server.store.Mem().RegCell(HoldingRegister, Add16(addr, i))
    {
      var data := GenerateReadWrite(addr, qty, writeAddr, regs);
      if data.None? {
        return Refused, [];
      }
      var sent;
      sent, ran := Send(ReadWrite(addr, qty, writeAddr, regs), 0x17, data.value);
      RegistersStored(ApplyAll(old(server.store.Mem()), ran), writeAddr, regs);
      ReadWriteStored(ApplyAll(old(server.store.Mem()), ran), addr, qty, writeAddr, regs);
      if sent.NetworkFailure? {
        return Failed, ran;
      }
      var values := ParseRegisterResponse(sent.data, qty);
      return Got(RegistersRead(values.value)), ran;
    }

    /** readDataPoint: over the wire, a point reads as Direct says of the memory that the
        requests carried out meanwhile have left. (The caller fills in the data point.) */
    method ReadDataPoint(dp: DataPoint) returns (r: Result<Value>, ghost ran: seq<Op>)
      requires Valid()
      modifies this`late, this`sends, server.store
      ensures Valid() && server.store.Mem() == ApplyAll(old(server.store.Mem()), ran)
      ensures dp.Point? ==> OnlyFrom(ran, old(late) + [Read(dp.area, dp.addr, dp.qty)])
      ensures server.store.Mem().Direct(dp).Ok? ==>
                r == if NoneDelivered(old(sends), old(sends) + 1 + retries) then Err(Network) else server.store.Mem().Direct(dp)
      ensures server.store.Mem().Direct(dp).Err? ==> r == server.store.Mem().Direct(dp) && ran == []
    {
      match dp
      case Foreign(_) => return Err(Unsupported), [];
      case Point(area, addr, qty) =>
        var raw;
        if area.IsBits() {
          var got;
          got, ran := ReadBits(area, addr, qty);
          if !got.Got? {
            return Err(if got.Refused? then InvalidQuantity else Network), ran;
          }
          raw := BoolsToBytes(got.ans.bits);
        } else {
          var got;
          got, ran := ReadRegisters(area, addr, qty);
          if !got.Got? {
            return Err(if got.Refused? then InvalidQuantity else Network), ran;
          }
          raw := RegistersToBytes(got.ans.regs);
        }
        return Ok(Value(raw, TypeOf(area, qty), BigEndianOrder, Some(dp))), ran;
    }
  }
}
