/** The Modbus server: the in-memory data store (protocol/modbus/datastore.go), the
    request handlers (server_protocol.go) and the connection loop (server.go). */
module ModbusServer {
  import opened Bytes
  import opened Bits
  import opened DataPoints
  import opened ModbusFrames
  import opened ModbusOps
  import opened Wrappers

  const FUNCTION_NOT_SUPPORTED: u8 := 0x01
  const INVALID_DATA_VALUE: u8 := 0x03

  datatype Reply = Normal(data: seq<u8>) | Exception(code: u8)

  /** Handlers for function codes other than the nine data functions; None means no
      handler is registered. They are taken not to touch the store. */
  type Handlers = (u8, seq<u8>) -> Option<Reply>

  /** What the server does with one request PDU. */
  function Respond(others: Handlers, m: Memory, fc: u8, data: seq<u8>): (Memory, Reply) {
    if !IsDataFunction(fc) then
      (m, match others(fc, data) case None => Exception(FUNCTION_NOT_SUPPORTED) case Some(r) => r)
    else match ParseRequest(fc, data)
      case None => (m, Exception(INVALID_DATA_VALUE))
      case Some(op) =>
        ParsedIsAccepted(fc, data);
        ApplyAnswers(m, op);
        (Apply(m, op).0, Normal(ReplyData(op, Apply(m, op).1)))
  }

  /** The response frame: an exception sets the high bit of the function code. */
  function ReplyFrame(req: Adu, r: Reply): Adu {
    match r
    case Normal(data) => Adu(req.tid, 0, req.unit, req.fc, data)
    case Exception(code) => Adu(req.tid, 0, req.unit, if req.fc < 0x80 then req.fc + 0x80 else req.fc, [code])
  }

  /** Every byte the server writes for the bytes it reads. A header with a foreign
      protocol identifier or no PDU is dropped without its body; an incomplete frame
      ends the connection. */
  function ServeAll(others: Handlers, m: Memory, b: seq<u8>): (Memory, seq<u8>)
    decreases |b|
  {
    if |b| < 7 then (m, [])
    else if GetBE16(b, 2) != 0 || GetBE16(b, 4) < 2 then ServeAll(others, m, b[7..])
    else if !Framed(b) then (m, [])
    else
      var req := Unwire(b);
      var (m', r) := Respond(others, m, req.fc, req.data);
      var (m'', out) := ServeAll(others, m', b[6 + GetBE16(b, 4)..]);
      (m'', Wire(ReplyFrame(req, r)) + out)
  }

  /** The requests of one connection, answered one after the other. */
  function AnswerAll(others: Handlers, m: Memory, reqs: seq<Adu>): (Memory, seq<Adu>)
    decreases |reqs|
  {
    if reqs == [] then (m, [])
    else
      var (m', r) := Respond(others, m, reqs[0].fc, reqs[0].data);
      var (m'', rs) := AnswerAll(others, m', reqs[1..]);
      (m'', [ReplyFrame(reqs[0], r)] + rs)
  }

  /** However many requests a client sends ahead, the server's output is exactly one
      response frame per request, in order, each computed on the memory its
      predecessors left. */
  lemma {:induction false} PipelinedRequests(others: Handlers, m: Memory, reqs: seq<Adu>)
    requires forall i | 0 <= i < |reqs| :: reqs[i].proto == 0 && |reqs[i].data| <= MAX_DATA
    ensures ServeAll(others, m, WireAll(reqs)) ==
      (AnswerAll(others, m, reqs).0, WireAll(AnswerAll(others, m, reqs).1))
    decreases |reqs|
  {
    if reqs != [] {
      var a, rest := reqs[0], WireAll(reqs[1..]);
      CutFirst(a, rest);
      PipelinedRequests(others, Respond(others, m, a.fc, a.data).0, reqs[1..]);
      assert WireAll([ReplyFrame(a, Respond(others, m, a.fc, a.data).1)]
        + AnswerAll(others, Respond(others, m, a.fc, a.data).0, reqs[1..]).1)
        == Wire(ReplyFrame(a, Respond(others, m, a.fc, a.data).1))
         + WireAll(AnswerAll(others, Respond(others, m, a.fc, a.data).0, reqs[1..]).1);
    }
  }

  lemma {:induction false} AnswersMatch(others: Handlers, m: Memory, reqs: seq<Adu>)
    ensures |AnswerAll(others, m, reqs).1| == |reqs|
    ensures forall i | 0 <= i < |reqs| :: AnswerAll(others, m, reqs).1[i].tid == reqs[i].tid
                                       && AnswerAll(others, m, reqs).1[i].unit == reqs[i].unit
    decreases |reqs|
  {
    if reqs != [] {
      AnswersMatch(others, Respond(others, m, reqs[0].fc, reqs[0].data).0, reqs[1..]);
    }
  }

  lemma StoredSnoc<T>(cells: map<u16, T>, addr: u16, vals: seq<T>, i: nat)
    requires i < |vals| <= 0x1_0000
    ensures Stored(cells, addr, vals[..i])[Add16(addr, i) := vals[i]] == Stored(cells, addr, vals[..i + 1])
  {
    assert Sub16(Add16(addr, i), addr) == i;
    forall a: u16 | Sub16(a, addr) == i ensures a == Add16(addr, i) {
    }
  }

  /** The default data store. */
  class MemoryStore {
    var coils: map<u16, bool>
    var discreteInputs: map<u16, bool>
    var holdingRegisters: map<u16, u16>
    var inputRegisters: map<u16, u16>

    function Mem(): Memory
      reads this
    {
      Memory(coils, discreteInputs, holdingRegisters, inputRegisters)
    }

    constructor ()
      ensures Mem() == Memory(map[], map[], map[], map[])
    {
      coils, discreteInputs, holdingRegisters, inputRegisters := map[], map[], map[], map[];
    }

    /** ReadCoils and ReadDiscreteInputs. */
    method ReadBits(area: Area, addr: u16, qty: u16) returns (r: Result<seq<bool>>)
      requires area.IsBits()
      ensures r == if qty == 0 || qty > 2000 then Err(InvalidQuantity) else Ok(Mem().BitCells(area, addr, qty))
    {
      if qty == 0 || qty > 2000 {
        return Err(InvalidQuantity);
      }
      var values := new bool[qty](_ => false);
      var cells := if area.Coil? then coils else discreteInputs;
      for i := 0 to qty
        invariant forall j | 0 <= j < i :: values[j] == Mem().BitCell(area, Add16(addr, j))
        invariant forall j | i <= j < qty :: !values[j]
      {
        var a := Add16(addr, i);
        if a in cells {
          values[i] := cells[a];
        }
      }
      assert values[..] == Mem().BitCells(area, addr, qty);
      return Ok(values[..]);
    }

    /** ReadHoldingRegisters and ReadInputRegisters. */
    method ReadRegisters(area: Area, addr: u16, qty: u16) returns (r: Result<seq<u16>>)
      requires !area.IsBits()
      ensures r == if qty == 0 || qty > 125 then Err(InvalidQuantity) else Ok(Mem().RegCells(area, addr, qty))
    {
      if qty == 0 || qty > 125 {
        return Err(InvalidQuantity);
      }
      var values := new u16[qty](_ => 0);
      var cells := if area.HoldingRegister? then holdingRegisters else inputRegisters;
      for i := 0 to qty
        invariant forall j | 0 <= j < i :: values[j] == Mem().RegCell(area, Add16(addr, j))
        invariant forall j | i <= j < qty :: values[j] == 0
      {
        var a := Add16(addr, i);
        if a in cells {
          values[i] := cells[a];
        }
      }
      assert values[..] == Mem().RegCells(area, addr, qty);
      return Ok(values[..]);
    }

    method WriteSingleCoil(addr: u16, value: bool)
      modifies this`coils
      ensures coils == old(coils)[addr := value]
    {
      coils := coils[addr := value];
    }

    method WriteSingleRegister(addr: u16, value: u16)
      modifies this`holdingRegisters
      ensures holdingRegisters == old(holdingRegisters)[addr := value]
    {
      holdingRegisters := holdingRegisters[addr := value];
    }

    method WriteMultipleCoils(addr: u16, values: seq<bool>) returns (ok: bool)
      modifies this`coils
      ensures ok <==> 1 <= |values| <= MAX_WRITE_COILS
      ensures coils == if ok then Stored(old(coils), addr, values) else old(coils)
    {
      if |values| == 0 || |values| > MAX_WRITE_COILS {
        return false;
      }
      assert coils == Stored(coils, addr, values[..0]);
      for i := 0 to |values|
        invariant coils == Stored(old(coils), addr, values[..i])
      {
        StoredSnoc(old(coils), addr, values, i);
        coils := coils[Add16(addr, i) := values[i]];
      }
      assert values[..|values|] == values;
      return true;
    }

    method WriteMultipleRegisters(addr: u16, values: seq<u16>) returns (ok: bool)
      modifies this`holdingRegisters
      ensures ok <==> 1 <= |values| <= MAX_WRITE_REGISTERS
      ensures holdingRegisters == if ok then Stored(old(holdingRegisters), addr, values) else old(holdingRegisters)
    {
      if |values| == 0 || |values| > MAX_WRITE_REGISTERS {
        return false;
      }
      assert holdingRegisters == Stored(holdingRegisters, addr, values[..0]);
      for i := 0 to |values|
        invariant holdingRegisters == Stored(old(holdingRegisters), addr, values[..i])
      {
        StoredSnoc(old(holdingRegisters), addr, values, i);
        holdingRegisters := holdingRegisters[Add16(addr, i) := values[i]];
      }
      assert values[..|values|] == values;
      return true;
    }
  }

  /** Reads the first qty bits of raw (the loop of HandleWriteMultipleCoils). */
  method TakeBits(raw: seq<u8>, qty: nat) returns (vals: seq<bool>)
    requires |raw| == (qty + 7) / 8
    ensures vals == BitsOf(raw, qty)
  {
    vals := UnpackBits(raw, qty);
  }

  method TakeRegisters(raw: seq<u8>, qty: nat) returns (vals: seq<u16>)
    requires |raw| == 2 * qty
    ensures vals == RegistersOf(raw, qty)
  {
    vals := UnpackRegisters(raw, qty);
    var r := RegistersOf(raw, qty);
    assert forall i | 0 <= i < qty :: vals[i] == GetBE16(raw, 2 * i);
  }

  /** The response buffer of a bit read: byte count, then the packed bits. */
  method BitReply(values: seq<bool>) returns (data: seq<u8>)
    requires |values| <= 2000
    ensures data == [(|values| + 7) / 8] + Pack(values)
  {
    var byteCount := (|values| + 7) / 8;
    var buf := new u8[1 + byteCount](_ => 0);
    buf[0] := byteCount;
    PackBits(buf, 1, values);
    PackIsPacked(values);
    PackedUnique(buf[1..], Pack(values), values);
    assert buf[..1] == [byteCount];
    data := buf[..];
    assert data == buf[..1] + buf[1..];
  }

  method RegisterReply(values: seq<u16>) returns (data: seq<u8>)
    requires |values| <= 125
    ensures data == [2 * |values|] + RegisterBytes(values)
  {
    var byteCount := 2 * |values|;
    var buf := new u8[1 + byteCount](_ => 0);
    buf[0] := byteCount;
    PackRegisters(buf, 1, values);
    RegisterBytesBigEndian(values);
    BigEndianUnique(buf[1..], RegisterBytes(values), values);
    assert buf[..1] == [byteCount];
    data := buf[..];
    assert data == buf[..1] + buf[1..];
  }

  class Server {
    const store: MemoryStore
    const others: Handlers

    constructor (store: MemoryStore, others: Handlers)
      ensures this.store == store && this.others == others
    {
      this.store, this.others := store, others;
    }

    method HandleReadBits(area: Area, data: seq<u8>) returns (r: Reply)
      requires area.IsBits()
      ensures (store.Mem(), r) == Respond(others, store.Mem(), FunctionCode(Read(area, 0, 0)), data)
    {
      if |data| != 4 {
        return Exception(INVALID_DATA_VALUE);
      }
      var addr, qty := GetBE16(data, 0), GetBE16(data, 2);
      if qty == 0 || qty > 2000 {
        return Exception(INVALID_DATA_VALUE);
      }
      var values := store.ReadBits(area, addr, qty);
      var buf := BitReply(values.value);
      return Normal(buf);
    }

    method HandleReadRegisters(area: Area, data: seq<u8>) returns (r: Reply)
      requires !area.IsBits()
      ensures (store.Mem(), r) == Respond(others, store.Mem(), FunctionCode(Read(area, 0, 0)), data)
    {
      if |data| != 4 {
        return Exception(INVALID_DATA_VALUE);
      }
      var addr, qty := GetBE16(data, 0), GetBE16(data, 2);
      if qty == 0 || qty > 125 {
        return Exception(INVALID_DATA_VALUE);
      }
      var values := store.ReadRegisters(area, addr, qty);
      var buf := RegisterReply(values.value);
      return Normal(buf);
    }

    method HandleWriteSingleCoil(data: seq<u8>) returns (r: Reply)
      modifies store
      ensures (store.Mem(), r) == Respond(others, old(store.Mem()), 0x05, data)
      ensures |data| == 4 && (data[2..] == [255, 0] || data[2..] == [0, 0]) ==>
                r == Normal(data) && store.Mem().BitCell(Coil, 256 * (data[0] as int) + data[1]) == (data[2] == 255)
      ensures !(|data| == 4 && (data[2..] == [255, 0] || data[2..] == [0, 0])) ==> r == Exception(3) && store.Mem() == old(store.Mem())
    {
      if |data| != 4 {
        return Exception(INVALID_DATA_VALUE);
      }
      var addr, value := GetBE16(data, 0), GetBE16(data, 2);
      if value != COIL_ON && value != COIL_OFF {
        return Exception(INVALID_DATA_VALUE);
      }
      store.WriteSingleCoil(addr, value == COIL_ON);
      EchoIsReply(data);
      return Normal(data);
    }

    method HandleWriteSingleRegister(data: seq<u8>) returns (r: Reply)
      modifies store
      ensures (store.Mem(), r) == Respond(others, old(store.Mem()), 0x06, data)
      ensures |data| == 4 ==>
                r == Normal(data) && store.Mem().RegCell(HoldingRegister, 256 * (data[0] as int) + data[1]) == 256 * (data[2] as int) + data[3]
      ensures |data| != 4 ==> r == Exception(3) && store.Mem() == old(store.Mem())
    {
      if |data| != 4 {
        return Exception(INVALID_DATA_VALUE);
      }
      store.WriteSingleRegister(GetBE16(data, 0), GetBE16(data, 2));
      EchoIsReply(data);
      return Normal(data);
    }

    method HandleWriteMultipleCoils(data: seq<u8>) returns (r: Reply)
      modifies store
      ensures (store.Mem(), r) == Respond(others, old(store.Mem()), 0x0F, data)
    {
      if |data| < 5 {
        return Exception(INVALID_DATA_VALUE);
      }
      var addr, qty := GetBE16(data, 0), GetBE16(data, 2);
      var byteCount := data[4] as int;
      if |data| != 5 + byteCount || qty == 0 || qty > MAX_WRITE_COILS || byteCount != (qty + 7) / 8 {
        return Exception(INVALID_DATA_VALUE);
      }
      var values := TakeBits(data[5..], qty);
      var ok := store.WriteMultipleCoils(addr, values);
      return Normal(PutBE16(addr) + PutBE16(qty));
    }

    method HandleWriteMultipleRegisters(data: seq<u8>) returns (r: Reply)
      modifies store
      ensures (store.Mem(), r) == Respond(others, old(store.Mem()), 0x10, data)
    {
      if |data| < 5 {
        return Exception(INVALID_DATA_VALUE);
      }
      var addr, qty := GetBE16(data, 0), GetBE16(data, 2);
      var byteCount := data[4] as int;
      if |data| != 5 + byteCount || qty == 0 || qty > MAX_WRITE_REGISTERS || byteCount != 2 * (qty as int) {
        return Exception(INVALID_DATA_VALUE);
      }
      var values := TakeRegisters(data[5..], qty);
      var ok := store.WriteMultipleRegisters(addr, values);
      return Normal(PutBE16(addr) + PutBE16(qty));
    }

    /** The write comes first, so the read sees it. */
    method HandleReadWriteMultipleRegisters(data: seq<u8>) returns (r: Reply)
      modifies store
      ensures (store.Mem(), r) == Respond(others, old(store.Mem()), 0x17, data)
    {
      if |data| < 9 {
        return Exception(INVALID_DATA_VALUE);
      }
      var readAddr, readQty := GetBE16(data, 0), GetBE16(data, 2);
      var writeAddr, writeQty := GetBE16(data, 4), GetBE16(data, 6);
      var byteCount := data[8] as int;
      if |data| != 9 + byteCount
         || readQty == 0 || readQty > MAX_RW_READ || writeQty == 0 || writeQty > MAX_RW_WRITE
         || byteCount != 2 * (writeQty as int) {
        return Exception(INVALID_DATA_VALUE);
      }
      var values := TakeRegisters(data[9..], writeQty);
      var ok := store.WriteMultipleRegisters(writeAddr, values);
      var read := store.ReadRegisters(HoldingRegister, readAddr, readQty);
      var buf := RegisterReply(read.value);
      return Normal(buf);
    }

    method Dispatch(fc: u8, data: seq<u8>) returns (r: Reply)
      modifies store
      ensures (store.Mem(), r) == Respond(others, old(store.Mem()), fc, data)
    {
      match fc
      case 0x01 => r := HandleReadBits(Coil, data);
      case 0x02 => r := HandleReadBits(DiscreteInput, data);
      case 0x03 => r := HandleReadRegisters(HoldingRegister, data);
      case 0x04 => r := HandleReadRegisters(InputRegister, data);
      case 0x05 => r := HandleWriteSingleCoil(data);
      case 0x06 => r := HandleWriteSingleRegister(data);
      case 0x0F => r := HandleWriteMultipleCoils(data);
      case 0x10 => r := HandleWriteMultipleRegisters(data);
      case 0x17 => r := HandleReadWriteMultipleRegisters(data);
      case _ =>
        var found := others(fc, data);
        r := if found.None? then Exception(FUNCTION_NOT_SUPPORTED) else found.value;
    }

    /** One frame in, one frame out. */
    method Answer(b: seq<u8>) returns (out: seq<u8>)
      requires Framed(b)
      modifies store
      ensures var req := Unwire(b);
        var (m, r) := Respond(others, old(store.Mem()), req.fc, req.data);
        store.Mem() == m && out == Wire(ReplyFrame(req, r))
    {
      var tid, unit, fc := GetBE16(b, 0), b[6], b[7];
      var r := Dispatch(fc, b[8..6 + GetBE16(b, 4)]);
      var msg;
      match r {
        case Normal(data) => msg := new Message(tid, unit, fc, data);
        case Exception(code) => msg := new Message(tid, unit, if fc < 0x80 then fc + 0x80 else fc, [code]);
      }
      out := msg.Encode();
    }

    /** The connection loop over everything one client sends. */
    method HandleConnection(input: seq<u8>) returns (out: seq<u8>)
      modifies store
      ensures store.Mem() == ServeAll(others, old(store.Mem()), input).0
      ensures out == ServeAll(others, old(store.Mem()), input).1
    {
      var b := input;
      out := [];
      ghost var all := ServeAll(others, store.Mem(), input);
      while |b| >= 7
        invariant all.0 == ServeAll(others, store.Mem(), b).0
        invariant all.1 == out + ServeAll(others, store.Mem(), b).1
        decreases |b|
      {
        if GetBE16(b, 2) != 0 || GetBE16(b, 4) < 2 {
          b := b[7..];
        } else if 6 + GetBE16(b, 4) > |b| {
          return;
        } else {
          ghost var rest := ServeAll(others, store.Mem(), b).1;
          var frame := Answer(b);
          b := b[6 + GetBE16(b, 4)..];
          assert out + rest == out + frame + ServeAll(others, store.Mem(), b).1;
          out := out + frame;
        }
      }
      assert ServeAll(others, store.Mem(), b) == (store.Mem(), []);
    }
  }

  lemma EchoIsReply(data: seq<u8>)
    requires |data| == 4
    ensures PutBE16(GetBE16(data, 0)) + PutBE16(GetBE16(data, 2)) == data
  {
  }
}
