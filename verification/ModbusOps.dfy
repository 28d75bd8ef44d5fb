/** The Modbus data functions as operations on a memory, and their wire forms: what a
    request means, how it is laid out in a PDU and how its answer is (sections 6.1-6.6,
    6.11, 6.12 and 6.17 of the MODBUS Application Protocol V1.1b3). */
module ModbusOps {
  import opened Bytes
  import opened Bits
  import opened DataPoints
  import opened Wrappers

  const COIL_ON: u16 := 0xFF00
  const COIL_OFF: u16 := 0
  const MAX_WRITE_COILS: nat := 1968
  const MAX_WRITE_REGISTERS: nat := 123
  const MAX_RW_READ: nat := 125
  const MAX_RW_WRITE: nat := 121

  datatype Op =
    | Read(area: Area, addr: u16, qty: u16)
    | WriteCoil(addr: u16, on: bool)
    | WriteRegister(addr: u16, value: u16)
    | WriteCoils(addr: u16, bits: seq<bool>)
    | WriteRegisters(addr: u16, regs: seq<u16>)
    | ReadWrite(addr: u16, qty: u16, writeAddr: u16, regs: seq<u16>)

  datatype Answer = BitsRead(bits: seq<bool>) | RegistersRead(regs: seq<u16>) | Written

  /** The quantity limits. */
  predicate Accepted(op: Op) {
    match op
    case Read(area, _, qty) => 1 <= qty <= area.ReadLimit()
    case WriteCoils(_, bits) => 1 <= |bits| <= MAX_WRITE_COILS
    case WriteRegisters(_, regs) => 1 <= |regs| <= MAX_WRITE_REGISTERS
    case ReadWrite(_, qty, _, regs) => 1 <= qty <= MAX_RW_READ && 1 <= |regs| <= MAX_RW_WRITE
    case _ => true
  }

  /** cells with vals stored from addr on, addresses taken modulo 65536. */
  function Stored<T>(cells: map<u16, T>, addr: u16, vals: seq<T>): map<u16, T> {
    map a: u16 | a in cells || Sub16(a, addr) < |vals| ::
      if Sub16(a, addr) < |vals| then vals[Sub16(a, addr)] else cells[a]
  }

  /** What an operation does to the memory, and what it answers. */
  function Apply(m: Memory, op: Op): (Memory, Answer) {
    match op
    case Read(area, addr, qty) =>
      (m, if area.IsBits() then BitsRead(m.BitCells(area, addr, qty)) else RegistersRead(m.RegCells(area, addr, qty)))
    case WriteCoil(addr, on) => (m.(coils := m.coils[addr := on]), Written)
    case WriteRegister(addr, value) => (m.(holding := m.holding[addr := value]), Written)
    case WriteCoils(addr, bits) => (m.(coils := Stored(m.coils, addr, bits)), Written)
    case WriteRegisters(addr, regs) => (m.(holding := Stored(m.holding, addr, regs)), Written)
    case ReadWrite(addr, qty, writeAddr, regs) =>
      var m' := m.(holding := Stored(m.holding, writeAddr, regs));
      (m', RegistersRead(m'.RegCells(HoldingRegister, addr, qty)))
  }

  /** A write leaves every cell outside its range as it was and puts its values inside. */
  lemma StoredCells<T>(cells: map<u16, T>, addr: u16, vals: seq<T>)
    requires |vals| <= 0x1_0000
    ensures forall i | 0 <= i < |vals| :: Add16(addr, i) in Stored(cells, addr, vals) && Stored(cells, addr, vals)[Add16(addr, i)] == vals[i]
    ensures forall a: u16 | Sub16(a, addr) >= |vals| ::
      (a in Stored(cells, addr, vals) <==> a in cells) && (a in cells ==> Stored(cells, addr, vals)[a] == cells[a])
  {
  }

  /** A register that a read/write request both writes and reads is answered with the
      written value, however the two ranges overlap or wrap; any other register read is
      answered as it was. */
  lemma ReadWriteSeesWrite(m: Memory, op: Op, i: nat)
    requires op.ReadWrite? && Accepted(op) && i < op.qty
    ensures Apply(m, op).1.RegistersRead? && |Apply(m, op).1.regs| == op.qty
    ensures var a := Add16(op.addr, i);
      Apply(m, op).1.regs[i] == if Sub16(a, op.writeAddr) < |op.regs| then op.regs[Sub16(a, op.writeAddr)]
                                else m.RegCell(HoldingRegister, a)
  {
  }

  /** Writing and then reading the same range gives back what was written. */
  lemma ReadBackCoils(m: Memory, addr: u16, bits: seq<bool>)
    requires Accepted(WriteCoils(addr, bits))
    ensures Apply(Apply(m, WriteCoils(addr, bits)).0, Read(Coil, addr, |bits|)).1 == BitsRead(bits)
  {
  }

  lemma ReadBackRegisters(m: Memory, addr: u16, regs: seq<u16>)
    requires Accepted(WriteRegisters(addr, regs))
    ensures Apply(Apply(m, WriteRegisters(addr, regs)).0, Read(HoldingRegister, addr, |regs|)).1 == RegistersRead(regs)
  {
  }

  /** Writing one coil sets that coil to the value asked for and nothing else, and the coil
      then reads as that value. */
  lemma WriteCoilSets(m: Memory, addr: u16, on: bool)
    ensures var m' := Apply(m, WriteCoil(addr, on)).0;
      && m'.BitCell(Coil, addr) == on && (forall a: u16 | a != addr :: m'.BitCell(Coil, a) == m.BitCell(Coil, a))
      && m'.discrete == m.discrete && m'.holding == m.holding && m'.input == m.input
      && Apply(m', Read(Coil, addr, 1)).1 == BitsRead([on])
  {
  }

  /** And likewise one register. */
  lemma WriteRegisterSets(m: Memory, addr: u16, value: u16)
    ensures var m' := Apply(m, WriteRegister(addr, value)).0;
      && m'.RegCell(HoldingRegister, addr) == value
      && (forall a: u16 | a != addr :: m'.RegCell(HoldingRegister, a) == m.RegCell(HoldingRegister, a))
      && m'.coils == m.coils && m'.discrete == m.discrete && m'.input == m.input
      && Apply(m', Read(HoldingRegister, addr, 1)).1 == RegistersRead([value])
  {
  }

  /** Several values written are in the addressed cells, in order. */
  lemma CoilsStored(m: Memory, addr: u16, bits: seq<bool>)
    requires |bits| <= 0x1_0000
    ensures forall i | 0 <= i < |bits| :: Apply(m, WriteCoils(addr, bits)).0.BitCell(Coil, Add16(addr, i)) == bits[i]
  {
    StoredCells(m.coils, addr, bits);
  }

  lemma RegistersStored(m: Memory, addr: u16, regs: seq<u16>)
    requires |regs| <= 0x1_0000
    ensures forall i | 0 <= i < |regs| :: Apply(m, WriteRegisters(addr, regs)).0.RegCell(HoldingRegister, Add16(addr, i)) == regs[i]
  {
    StoredCells(m.holding, addr, regs);
  }

  /** A read/write request stores like a write and answers with the cells it leaves. */
  lemma ReadWriteStored(m: Memory, addr: u16, qty: u16, writeAddr: u16, regs: seq<u16>)
    ensures var (m', ans) := Apply(m, ReadWrite(addr, qty, writeAddr, regs));
      && m' == Apply(m, WriteRegisters(writeAddr, regs)).0 && ans.RegistersRead? && |ans.regs| == qty
      && forall i | 0 <= i < qty :: ans.regs[i] == m'.RegCell(HoldingRegister, Add16(addr, i))
  {
  }

  /** Writing several coils, or several registers, touches no other area. */
  lemma WritesStayInArea(m: Memory, op: Op)
    ensures op.Read? ==> Apply(m, op).0 == m
    ensures op.WriteCoils? ==> Apply(m, op).0 == m.(coils := Apply(m, op).0.coils)
    ensures op.WriteRegisters? || op.ReadWrite? ==> Apply(m, op).0 == m.(holding := Apply(m, op).0.holding)
  {
  }

  /** A read answers with the addressed cells in order. */
  lemma ReadShowsCells(m: Memory, area: Area, addr: u16, qty: u16, i: nat)
    requires i < qty
    ensures var ans := Apply(m, Read(area, addr, qty)).1;
      if area.IsBits() then ans.BitsRead? && |ans.bits| == qty && ans.bits[i] == m.BitCell(area, Add16(addr, i))
      else ans.RegistersRead? && |ans.regs| == qty && ans.regs[i] == m.RegCell(area, Add16(addr, i))
  {
  }

  /** Every operation is idempotent: repeating it changes neither memory nor answer.
      A client may therefore resend a request whose response it lost. */
  lemma Idempotent(m: Memory, op: Op)
    ensures Apply(Apply(m, op).0, op) == Apply(m, op)
  {
    match op
    case WriteCoils(addr, bits) =>
      assert Stored(Stored(m.coils, addr, bits), addr, bits) == Stored(m.coils, addr, bits);
    case WriteRegisters(addr, regs) =>
      assert Stored(Stored(m.holding, addr, regs), addr, regs) == Stored(m.holding, addr, regs);
    case ReadWrite(_, _, writeAddr, regs) =>
      assert Stored(Stored(m.holding, writeAddr, regs), writeAddr, regs) == Stored(m.holding, writeAddr, regs);
    case WriteCoil(addr, on) => assert m.coils[addr := on][addr := on] == m.coils[addr := on];
    case WriteRegister(addr, value) => assert m.holding[addr := value][addr := value] == m.holding[addr := value];
    case _ =>
  }

  function FunctionCode(op: Op): u8 {
    match op
    case Read(area, _, _) => (match area case Coil => 0x01 case DiscreteInput => 0x02 case HoldingRegister => 0x03 case InputRegister => 0x04)
    case WriteCoil(_, _) => 0x05
    case WriteRegister(_, _) => 0x06
    case WriteCoils(_, _) => 0x0F
    case WriteRegisters(_, _) => 0x10
    case ReadWrite(_, _, _, _) => 0x17
  }

  predicate IsDataFunction(fc: u8) { 1 <= fc <= 6 || fc == 0x0F || fc == 0x10 || fc == 0x17 }

  function CoilWord(on: bool): u16 { if on then COIL_ON else COIL_OFF }

  /** The data part of the request PDU. */
  function RequestData(op: Op): seq<u8>
    requires Accepted(op)
  {
    match op
    case Read(_, addr, qty) => PutBE16(addr) + PutBE16(qty)
    case WriteCoil(addr, on) => PutBE16(addr) + PutBE16(CoilWord(on))
    case WriteRegister(addr, value) => PutBE16(addr) + PutBE16(value)
    case WriteCoils(addr, bits) => PutBE16(addr) + PutBE16(|bits|) + [(|bits| + 7) / 8] + Pack(bits)
    case WriteRegisters(addr, regs) => PutBE16(addr) + PutBE16(|regs|) + [2 * |regs|] + RegisterBytes(regs)
    case ReadWrite(addr, qty, writeAddr, regs) =>
      PutBE16(addr) + PutBE16(qty) + PutBE16(writeAddr) + PutBE16(|regs|) + [2 * |regs|] + RegisterBytes(regs)
  }

  function BitsOf(raw: seq<u8>, qty: nat): (r: seq<bool>)
    requires qty <= 8 * |raw|
    ensures |r| == qty
  {
    seq(qty, i requires 0 <= i < qty => BitAt(raw, i))
  }

  function RegistersOf(raw: seq<u8>, qty: nat): (r: seq<u16>)
    requires 2 * qty <= |raw|
    ensures |r| == qty
  {
    seq(qty, i requires 0 <= i < qty => GetBE16(raw, 2 * i))
  }

  lemma BitsOfPack(bits: seq<bool>)
    ensures |Pack(bits)| == (|bits| + 7) / 8
    ensures BitsOf(Pack(bits), |bits|) == bits
  {
    PackIsPacked(bits);
    var r := BitsOf(Pack(bits), |bits|);
    forall i | 0 <= i < |bits| ensures r[i] == bits[i] {
      assert r[i] == BitAt(Pack(bits), i);
    }
  }

  lemma RegistersOfBytes(regs: seq<u16>)
    ensures |RegisterBytes(regs)| == 2 * |regs|
    ensures RegistersOf(RegisterBytes(regs), |regs|) == regs
  {
  }

  function AreaOf(fc: u8): Area
    requires 1 <= fc <= 4
  {
    if fc == 1 then Coil else if fc == 2 then DiscreteInput else if fc == 3 then HoldingRegister else InputRegister
  }

  function ParseRead(area: Area, data: seq<u8>): Option<Op> {
    if |data| != 4 then None
    else if GetBE16(data, 2) == 0 || GetBE16(data, 2) > area.ReadLimit() then None
    else Some(Read(area, GetBE16(data, 0), GetBE16(data, 2)))
  }

  function ParseWriteCoils(data: seq<u8>): Option<Op> {
    if |data| < 5 || |data| - 5 != data[4] then None
    else
      var qty := GetBE16(data, 2);
      if qty == 0 || qty > MAX_WRITE_COILS || data[4] != (qty + 7) / 8 then None
      else Some(WriteCoils(GetBE16(data, 0), BitsOf(data[5..], qty)))
  }

  function ParseWriteRegisters(data: seq<u8>): Option<Op> {
    if |data| < 5 || |data| - 5 != data[4] then None
    else
      var qty := GetBE16(data, 2);
      if qty == 0 || qty > MAX_WRITE_REGISTERS || data[4] != 2 * (qty as int) then None
      else Some(WriteRegisters(GetBE16(data, 0), RegistersOf(data[5..], qty)))
  }

  function ParseReadWrite(data: seq<u8>): Option<Op> {
    if |data| < 9 || |data| - 9 != data[8] then None
    else
      var qty, wqty := GetBE16(data, 2), GetBE16(data, 6);
      if qty == 0 || qty > MAX_RW_READ || wqty == 0 || wqty > MAX_RW_WRITE || data[8] != 2 * (wqty as int) then None
      else Some(ReadWrite(GetBE16(data, 0), qty, GetBE16(data, 4), RegistersOf(data[9..], wqty)))
  }

  /** What a request PDU asks for; None is rejected as an invalid data value. */
  function ParseRequest(fc: u8, data: seq<u8>): Option<Op>
    requires IsDataFunction(fc)
  {
    if fc <= 4 then ParseRead(AreaOf(fc), data)
    else if fc == 5 then
      if |data| != 4 || (GetBE16(data, 2) != COIL_ON && GetBE16(data, 2) != COIL_OFF) then None
      else Some(WriteCoil(GetBE16(data, 0), GetBE16(data, 2) == COIL_ON))
    else if fc == 6 then
      if |data| != 4 then None else Some(WriteRegister(GetBE16(data, 0), GetBE16(data, 2)))
    else if fc == 0x0F then ParseWriteCoils(data)
    else if fc == 0x10 then ParseWriteRegisters(data)
    else ParseReadWrite(data)
  }

  /** The server understands every request the client can build ... */
  lemma RequestRoundTrip(op: Op)
    requires Accepted(op)
    ensures IsDataFunction(FunctionCode(op))
    ensures ParseRequest(FunctionCode(op), RequestData(op)) == Some(op)
  {
    match op
    case WriteCoils(_, bits) =>
      BitsOfPack(bits);
      assert RequestData(op)[5..] == Pack(bits);
    case WriteRegisters(_, regs) =>
      RegistersOfBytes(regs);
      assert RequestData(op)[5..] == RegisterBytes(regs);
    case ReadWrite(_, _, _, regs) =>
      RegistersOfBytes(regs);
      assert RequestData(op)[9..] == RegisterBytes(regs);
    case _ =>
  }

  /** ... and accepts nothing the client would refuse to send. */
  lemma ParsedIsAccepted(fc: u8, data: seq<u8>)
    requires IsDataFunction(fc) && ParseRequest(fc, data).Some?
    ensures Accepted(ParseRequest(fc, data).value) && FunctionCode(ParseRequest(fc, data).value) == fc
  {
  }

  /** The answer has the shape the operation calls for. */
  predicate Answers(op: Op, ans: Answer) {
    match op
    case Read(area, _, qty) => if area.IsBits() then ans.BitsRead? && |ans.bits| == qty else ans.RegistersRead? && |ans.regs| == qty
    case ReadWrite(_, qty, _, _) => ans.RegistersRead? && |ans.regs| == qty
    case _ => ans.Written?
  }

  lemma ApplyAnswers(m: Memory, op: Op)
    ensures Answers(op, Apply(m, op).1)
  {
  }

  /** The data part of the response PDU. */
  function ReplyData(op: Op, ans: Answer): seq<u8>
    requires Accepted(op) && Answers(op, ans)
  {
    match op
    case Read(area, _, qty) =>
      if area.IsBits() then [(qty + 7) / 8] + Pack(ans.bits) else [2 * (qty as int)] + RegisterBytes(ans.regs)
    case ReadWrite(_, qty, _, _) => [2 * (qty as int)] + RegisterBytes(ans.regs)
    case WriteCoils(addr, bits) => PutBE16(addr) + PutBE16(|bits|)
    case WriteRegisters(addr, regs) => PutBE16(addr) + PutBE16(|regs|)
    case _ => RequestData(op)
  }

  function ParseBits(data: seq<u8>, qty: u16): Option<Answer> {
    if |data| == 0 || |data| - 1 != data[0] || data[0] != (qty + 7) / 8 then None
    else Some(BitsRead(BitsOf(data[1..], qty)))
  }

  function ParseRegisters(data: seq<u8>, qty: u16): Option<Answer> {
    if |data| == 0 || |data| - 1 != data[0] || data[0] != 2 * (qty as int) then None
    else Some(RegistersRead(RegistersOf(data[1..], qty)))
  }

  /** What the client makes of a response PDU. */
  function ParseReply(op: Op, data: seq<u8>): Option<Answer> {
    match op
    case Read(area, _, qty) => if area.IsBits() then ParseBits(data, qty) else ParseRegisters(data, qty)
    case ReadWrite(_, qty, _, _) => ParseRegisters(data, qty)
    case WriteCoil(_, _) =>
      if |data| == 4 && (GetBE16(data, 2) == COIL_ON || GetBE16(data, 2) == COIL_OFF) then Some(Written) else None
    case _ => if |data| == 4 then Some(Written) else None
  }

  /** The client reads every response as the answer the server gave. */
  lemma ReplyRoundTrip(op: Op, ans: Answer)
    requires Accepted(op) && Answers(op, ans)
    ensures ParseReply(op, ReplyData(op, ans)) == Some(ans)
  {
    if ans.BitsRead? {
      BitsOfPack(ans.bits);
      assert ReplyData(op, ans)[1..] == Pack(ans.bits);
    } else if ans.RegistersRead? {
      RegistersOfBytes(ans.regs);
      assert ReplyData(op, ans)[1..] == RegisterBytes(ans.regs);
    }
  }

  const MAX_PDU: nat := 253

  /** Requests and responses fit a PDU: function code and data take at most 253 bytes,
      and every byte-count field is exact. */
  lemma SizesCompose(op: Op, ans: Answer)
    requires Accepted(op) && Answers(op, ans)
    ensures 1 + |RequestData(op)| <= MAX_PDU && 1 + |ReplyData(op, ans)| <= MAX_PDU
    ensures op.WriteCoils? || op.WriteRegisters? ==> RequestData(op)[4] == |RequestData(op)| - 5
    ensures op.ReadWrite? ==> RequestData(op)[8] == |RequestData(op)| - 9
    ensures op.Read? || op.ReadWrite? ==> ReplyData(op, ans)[0] == |ReplyData(op, ans)| - 1
  {
  }
}
