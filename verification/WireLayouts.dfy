/** The byte layouts of both protocols, written out byte by byte, independently of the
    functions that encode and decode them: the MODBUS Messaging Implementation Guide and
    Application Protocol V1.1b3 for Modbus TCP, and the CIP Networks Library, volumes 1
    and 2, for EtherNet/IP. */
module WireLayouts {
  import opened Bits
  import opened Bytes
  import opened CipMessage
  import opened ConnectionManager
  import opened Cpf
  import opened DataPoints
  import opened Encapsulation
  import opened Epath
  import opened ModbusFrames
  import ModbusOps
  import opened ModbusServer
  import opened Wrappers

  // ------------------------------------------------------------------
  // Modbus TCP
  // ------------------------------------------------------------------

  /** Transaction, protocol 0, length of what follows, unit, function code, data. */
  lemma ModbusFrame(tid: u16, unit: u8, fc: u8, data: seq<u8>)
    requires |data| <= 252
    ensures Wire(Adu(tid, 0, unit, fc, data)) == [tid / 256, tid % 256, 0, 0, 0, |data| + 2, unit, fc] + data
  {
  }

  /** Functions 1 to 4: address and quantity, high byte first. */
  lemma ReadLayout(area: Area, addr: u16, qty: u16)
    requires 1 <= qty <= area.ReadLimit()
    ensures ModbusOps.FunctionCode(ModbusOps.Read(area, addr, qty))
         == match area case Coil => 1 case DiscreteInput => 2 case HoldingRegister => 3 case InputRegister => 4
    ensures ModbusOps.RequestData(ModbusOps.Read(area, addr, qty)) == [addr / 256, addr % 256, qty / 256, qty % 256]
  {
  }

  /** Functions 5 and 6: address and value; a coil is FF00 or 0000. */
  lemma SingleLayout(addr: u16, on: bool, value: u16)
    ensures ModbusOps.FunctionCode(ModbusOps.WriteCoil(addr, on)) == 5 && ModbusOps.FunctionCode(ModbusOps.WriteRegister(addr, value)) == 6
    ensures ModbusOps.RequestData(ModbusOps.WriteCoil(addr, on)) == [addr / 256, addr % 256, if on then 255 else 0, 0]
    ensures ModbusOps.RequestData(ModbusOps.WriteRegister(addr, value)) == [addr / 256, addr % 256, value / 256, value % 256]
  {
  }

  /** Function 15: address, quantity, byte count, and coil i in bit i % 8 of byte i / 8. */
  lemma CoilsLayout(addr: u16, bits: seq<bool>, i: nat)
    requires 1 <= |bits| <= 1968 && i < |bits|
    ensures ModbusOps.FunctionCode(ModbusOps.WriteCoils(addr, bits)) == 15
    ensures var d := ModbusOps.RequestData(ModbusOps.WriteCoils(addr, bits));
      && |d| == 5 + (|bits| + 7) / 8
      && d[..5] == [addr / 256, addr % 256, |bits| / 256, |bits| % 256, (|bits| + 7) / 8]
      && Bit(d[5 + i / 8], i % 8) == bits[i]
  {
    PackIsPacked(bits);
    assert BitAt(Pack(bits), i) == bits[i];
  }

  lemma RegisterAt(head: seq<u8>, regs: seq<u16>, i: nat)
    requires i < |regs|
    ensures var d := head + RegisterBytes(regs);
      && |d| == |head| + 2 * |regs| && d[..|head|] == head
      && d[|head| + 2 * i] == regs[i] / 256 && d[|head| + 2 * i + 1] == regs[i] % 256
  {
    RegisterBytesBigEndian(regs);
    var r := RegisterBytes(regs);
    assert r[2 * i] == regs[i] / 256 && r[2 * i + 1] == regs[i] % 256;
  }

  lemma RegistersHead(addr: u16, regs: seq<u16>)
    requires 1 <= |regs| <= 123
    ensures ModbusOps.RequestData(ModbusOps.WriteRegisters(addr, regs)) == [addr / 256, addr % 256, 0, |regs|, 2 * |regs|] + RegisterBytes(regs)
  {
    assert PutBE16(addr) + PutBE16(|regs|) + [2 * |regs|] == [addr / 256, addr % 256, 0, |regs|, 2 * |regs|];
  }

  /** Function 16: address, quantity, byte count, and two bytes a register. */
  lemma RegistersLayout(addr: u16, regs: seq<u16>, i: nat)
    requires 1 <= |regs| <= 123 && i < |regs|
    ensures ModbusOps.FunctionCode(ModbusOps.WriteRegisters(addr, regs)) == 16
    ensures var d := ModbusOps.RequestData(ModbusOps.WriteRegisters(addr, regs));
      && |d| == 5 + 2 * |regs|
      && d[..5] == [addr / 256, addr % 256, 0, |regs|, 2 * |regs|]
      && d[5 + 2 * i] == regs[i] / 256 && d[6 + 2 * i] == regs[i] % 256
  {
    RegistersHead(addr, regs);
    RegisterAt([addr / 256, addr % 256, 0, |regs|, 2 * |regs|], regs, i);
  }

  lemma ReadWriteHead(addr: u16, qty: u16, writeAddr: u16, regs: seq<u16>, head: seq<u8>)
    requires 1 <= qty <= 125 && 1 <= |regs| <= 121
    requires head == [addr / 256, addr % 256, 0, qty, writeAddr / 256, writeAddr % 256, 0, |regs|, 2 * |regs|]
    ensures ModbusOps.RequestData(ModbusOps.ReadWrite(addr, qty, writeAddr, regs)) == head + RegisterBytes(regs)
  {
    assert PutBE16(addr) + PutBE16(qty) + PutBE16(writeAddr) + PutBE16(|regs|) + [2 * |regs|] == head;
  }

  /** Function 23: what to read, then what to write. */
  lemma ReadWriteLayout(addr: u16, qty: u16, writeAddr: u16, regs: seq<u16>, i: nat)
    requires 1 <= qty <= 125 && 1 <= |regs| <= 121 && i < |regs|
    ensures ModbusOps.FunctionCode(ModbusOps.ReadWrite(addr, qty, writeAddr, regs)) == 23
    ensures var d := ModbusOps.RequestData(ModbusOps.ReadWrite(addr, qty, writeAddr, regs));
      && |d| == 9 + 2 * |regs|
      && d[..9] == [addr / 256, addr % 256, 0, qty, writeAddr / 256, writeAddr % 256, 0, |regs|, 2 * |regs|]
      && d[9 + 2 * i] == regs[i] / 256 && d[10 + 2 * i] == regs[i] % 256
  {
    var head := [addr / 256, addr % 256, 0, qty, writeAddr / 256, writeAddr % 256, 0, |regs|, 2 * |regs|];
    ReadWriteHead(addr, qty, writeAddr, regs, head);
    RegisterAt(head, regs, i);
  }

  /** A read is answered with a byte count and the values. */
  lemma BitReplyLayout(area: Area, addr: u16, bits: seq<bool>, i: nat)
    requires area.IsBits() && i < |bits| <= 2000
    ensures var d := ModbusOps.ReplyData(ModbusOps.Read(area, addr, |bits|), ModbusOps.BitsRead(bits));
      |d| == 1 + (|bits| + 7) / 8 && d[0] == (|bits| + 7) / 8 && Bit(d[1 + i / 8], i % 8) == bits[i]
  {
    PackIsPacked(bits);
    assert BitAt(Pack(bits), i) == bits[i];
  }

  lemma RegisterReplyLayout(area: Area, addr: u16, regs: seq<u16>, i: nat)
    requires !area.IsBits() && i < |regs| <= 125
    ensures var d := ModbusOps.ReplyData(ModbusOps.Read(area, addr, |regs|), ModbusOps.RegistersRead(regs));
      |d| == 1 + 2 * |regs| && d[0] == 2 * |regs| && d[1 + 2 * i] == regs[i] / 256 && d[2 + 2 * i] == regs[i] % 256
  {
    RegisterAt([2 * |regs|], regs, i);
  }

  /** A write is answered with what it wrote: the address and the value or the quantity. */
  lemma WriteReplyLayout(addr: u16, on: bool, value: u16, bits: seq<bool>, regs: seq<u16>)
    requires 1 <= |bits| <= 1968 && 1 <= |regs| <= 123
    ensures ModbusOps.ReplyData(ModbusOps.WriteCoil(addr, on), ModbusOps.Written) == [addr / 256, addr % 256, if on then 255 else 0, 0]
    ensures ModbusOps.ReplyData(ModbusOps.WriteRegister(addr, value), ModbusOps.Written) == [addr / 256, addr % 256, value / 256, value % 256]
    ensures ModbusOps.ReplyData(ModbusOps.WriteCoils(addr, bits), ModbusOps.Written) == [addr / 256, addr % 256, |bits| / 256, |bits| % 256]
    ensures ModbusOps.ReplyData(ModbusOps.WriteRegisters(addr, regs), ModbusOps.Written) == [addr / 256, addr % 256, 0, |regs|]
  {
  }

  /** An exception: the high bit of the function code, and one byte. */
  lemma ExceptionLayout(a: Adu, code: u8)
    requires a.fc < 0x80
    ensures Wire(ReplyFrame(a, Exception(code))) == [a.tid / 256, a.tid % 256, 0, 0, 0, 3, a.unit, a.fc + 0x80, code]
  {
  }

  // ------------------------------------------------------------------
  // EtherNet/IP
  // ------------------------------------------------------------------

  /** A symbol is 91, its length, its characters and a pad byte. */
  lemma SymbolLayout(name: seq<bchar>, i: nat)
    requires |name| <= 255 && i < |name|
    ensures var e := EncodeSegment(Symbol(name));
      && |e| == 2 + |name| + |name| % 2 && e[0] == 0x91 && e[1] == |name|
      && e[2 + i] == name[i] as int && (|name| % 2 == 1 ==> e[2 + |name|] == 0)
  {
    assert EncodeSegment(Symbol(name)) == [0x91, |name|] + RawBytes(name) + Pad(|name|);
  }

  /** The numbers at an offset, low byte first. */
  function Low16(b: seq<u8>, off: nat): int
    requires off + 2 <= |b|
  {
    b[off] as int + 256 * b[off + 1] as int
  }

  function Low32(b: seq<u8>, off: nat): int
    requires off + 4 <= |b|
  {
    b[off] as int + 256 * b[off + 1] as int + 65536 * b[off + 2] as int + 16777216 * b[off + 3] as int
  }

  /** A member takes the shortest of the formats 28, 29 and 2A. */
  lemma MemberLayout(id: u32)
    ensures id < 256 ==> EncodeSegment(Member(id)) == [0x28, id]
    ensures 256 <= id < 65536 ==> EncodeSegment(Member(id)) == [0x29, 0, id % 256, id / 256]
    ensures 65536 <= id ==>
      var e := EncodeSegment(Member(id)); |e| == 6 && e[0] == 0x2A && e[1] == 0 && Low32(e, 2) == id
  {
  }

  /** The 24-byte header: command, length, session handle, status, context, options. */
  lemma HeaderLayout(h: Header, data: seq<u8>)
    requires |data| < 0x1_0000
    ensures var b := FramedBytes(h, data);
      && |b| == 24 + |data| && b[24..] == data
      && Low16(b, 0) == h.command && Low16(b, 2) == |data| && Low32(b, 4) == h.session && Low32(b, 8) == h.status
      && b[12..20] == h.context && Low32(b, 20) == 0
  {
  }

  /** The data of an unconnected request: interface handle and timeout; two items, the null
      address and the message; service, path length in words, path and data. */
  lemma RequestLayout(req: Request, n: nat)
    requires Sendable(req) && n == 2 + |req.path| + |req.data| && n <= 4080
    ensures Wrap(RequestBytes(req))
         == [0, 0, 0, 0, 0, 0, 2, 0, 0, 0, 0, 0, 0xB2, 0, n % 256, n / 256] + ([req.service, |req.path| / 2] + req.path + req.data)
  {
    WrapLayout(RequestBytes(req));
  }

  lemma WrapLayout(msg: seq<u8>)
    requires 1 <= |msg| <= 65519
    ensures Wrap(msg) == [0, 0, 0, 0, 0, 0, 2, 0, 0, 0, 0, 0, 0xB2, 0, |msg| % 256, |msg| / 256] + msg
  {
    var a, b := NewItem(NULL_ADDRESS, []), NewItem(UNCONNECTED_MESSAGE, msg);
    assert [a, b][1..] == [b] && [b][1..] == [];
    assert ItemsBytes([b]) == ItemBytes(b) + [];
    assert ItemsBytes([a, b]) == ItemBytes(a) + ItemsBytes([b]);
  }

  /** A CIP response: service, a reserved byte, status, the number of status words, these,
      low byte first, and the data. */
  lemma ResponseLayout(r: Response)
    requires |r.ext| <= 1
    ensures r.ext == [] ==> ResponseBytes(r) == [r.service, r.reserved, r.status, r.extSize] + r.data
    ensures |r.ext| == 1 ==> ResponseBytes(r) == [r.service, r.reserved, r.status, r.extSize, r.ext[0] % 256, r.ext[0] / 256] + r.data
  {
    if r.ext == [] {
      assert Words(r.ext) == [];
    } else {
      assert r.ext[1..] == [];
      assert Words(r.ext) == PutLE16(r.ext[0]) + Words([]);
    }
  }

  /** A Forward_Open request up to its path: 36 bytes, numbers low byte first. */
  lemma OpenLayout(r: OpenRequest)
    ensures var b := OpenBytes(r);
      && |b| == 36 + |r.path| && b[36..] == r.path
      && b[0] == r.priority && b[1] == r.ticks
      && Low32(b, 2) == r.ot
      && Low32(b, 6) == r.to
      && Low16(b, 10) == r.triad.serial && Low16(b, 12) == r.triad.vendor
      && Low32(b, 14) == r.triad.originator
      && b[18] == r.multiplier
      && Low32(b, 22) == r.otRpi && Low16(b, 26) == r.otParams
      && Low32(b, 28) == r.toRpi && Low16(b, 32) == r.toParams
      && b[34] == r.trigger && b[35] == |r.path| / 2 % 256
  {
  }

  /** And the reply that grants it. */
  lemma GrantLayout(r: OpenRequest, id: u32)
    ensures var b := GrantBytes(r, id);
      && |b| == 26
      && Low32(b, 0) == r.ot
      && Low32(b, 4) == id
      && Low16(b, 8) == r.triad.serial && Low16(b, 10) == r.triad.vendor
      && Low32(b, 12) == r.triad.originator
      && Low32(b, 16) == r.otRpi
      && Low32(b, 20) == r.toRpi
      && b[24] == 0 && b[25] == 0
  {
  }

  // ------------------------------------------------------------------
  // What the servers answer to which code
  // ------------------------------------------------------------------

  /** A Modbus request that cannot be parsed gets exception 3, an unknown function code
      exception 1, and neither changes the memory. */
  lemma ModbusFaults(others: Handlers, m: Memory, fc: u8, data: seq<u8>)
    ensures fc in {1, 2, 3, 4, 5, 6} && |data| != 4 ==> Respond(others, m, fc, data) == (m, Exception(3))
    ensures fc in {1, 2} && |data| == 4 && !(1 <= 256 * (data[2] as int) + data[3] <= 2000) ==> Respond(others, m, fc, data) == (m, Exception(3))
    ensures fc in {3, 4} && |data| == 4 && !(1 <= 256 * (data[2] as int) + data[3] <= 125) ==> Respond(others, m, fc, data) == (m, Exception(3))
    ensures fc == 5 && |data| == 4 && data[2..] != [255, 0] && data[2..] != [0, 0] ==> Respond(others, m, fc, data) == (m, Exception(3))
    ensures fc !in {1, 2, 3, 4, 5, 6, 15, 16, 23} && others(fc, data).None? ==> Respond(others, m, fc, data) == (m, Exception(1))
  {
  }

  /** The EtherNet/IP server, command by command: 65 draws a handle and answers with
      version 1, 66 hangs up, 63 and 04 list identity and services, 6F and 70 carry data
      within the session and get status 64 outside it, and anything else, like any error,
      gets status 1. The sender's context comes back in every answer. */
  lemma CommandAnswers(h: Header, data: seq<u8>, session: u32, next: u32, sv: Services)
    ensures var turn := Answered(h, data, session, next, sv);
      && (h.command == 0x65 ==>
            var n := (next + 1) % 0x1_0000_0000;
            turn == Turn(Some((Header(0x65, n, 0, h.context), [1, 0, 0, 0])), n, n))
      && (h.command != 0x65 ==> turn.session == session && turn.next == next)
      && (h.command == 0x66 <==> turn.answer.None?)
      && (h.command == 0x63 ==> turn.answer == Some((Header(0x63, h.session, 0, h.context), sv.identity)))
      && (h.command == 0x04 ==> turn.answer == Some((Header(0x04, h.session, 0, h.context), sv.services)))
      && (h.command !in {0x04, 0x63, 0x65, 0x66, 0x6F, 0x70} ==> turn.answer == Some((Header(h.command, h.session, 1, h.context), [])))
      && (h.command in {0x6F, 0x70} && (h.session != session || session == 0) ==>
            turn.answer == Some((Header(h.command, h.session, 0x64, h.context), [])))
      && (h.command in {0x6F, 0x70} && h.session == session != 0 ==>
            var reply := if h.command == 0x6F then RRReply(data, sv.dispatch) else sv.connected(data);
            turn.answer == Some(if reply.None? then (Header(h.command, session, 1, h.context), []) else (Header(h.command, session, 0, h.context), reply.value)))
  {
  }

  /** The value a point reads as: bits, one register, or several. */
  lemma DirectTypes(m: Memory, area: Area, addr: u16, qty: u16)
    requires 1 <= qty <= (if area.Coil? || area.DiscreteInput? then 2000 else 125)
    ensures var v := m.Direct(Point(area, addr, qty));
      && v.Ok? && v.value.order == BigEndianOrder && v.value.dp == Some(Point(area, addr, qty))
      && v.value.ty == (if area.Coil? || area.DiscreteInput? then TypeBool else if qty == 1 then TypeUint16 else TypeBytes)
  {
  }
}
