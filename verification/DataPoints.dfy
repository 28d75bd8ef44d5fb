/** Modbus data points, values read from them, and the sub-range extraction that
    serves a point out of a larger block read (protocol/modbus/datapoint.go). */
module DataPoints {
  import opened Bytes
  import opened Bits
  import opened Wrappers

  datatype Result<+T> = Ok(value: T) | Err(error: Error)
  datatype Error = InvalidQuantity | Unsupported | Network

  /** The four Modbus data areas, in the ascending order of their cluster keys
      "coil", "discrete_input", "holding_register" and "input_register". */
  datatype Area = Coil | DiscreteInput | HoldingRegister | InputRegister {
    predicate IsBits() { Coil? || DiscreteInput? }

    /** The per-request read limit of the protocol. */
    function ReadLimit(): u16 { if IsBits() then 2000 else 125 }
  }

  /** A readable location: a Modbus range, or a point of some other protocol. */
  datatype DataPoint = Point(area: Area, addr: u16, qty: u16) | Foreign(name: string) {
    /** The exclusive end address as the code computes it, in uint16. */
    function End16(): u16
      requires Point?
    {
      Add16(addr, qty)
    }

    /** A non-empty range that ends at or below the last address. */
    predicate InRange() {
      Point? && 1 <= qty && addr + qty <= 0xFFFF
    }
  }

  type Clusterable = p: DataPoint | p.Point? witness Point(Coil, 0, 0)

  datatype DataType = TypeBool | TypeUint16 | TypeBytes
  datatype ByteOrder = BigEndianOrder | UnspecifiedOrder
  datatype Value = Value(raw: seq<u8>, ty: DataType, order: ByteOrder, dp: Option<DataPoint>)

  /** Device memory. Cells never written read as false or 0. */
  datatype Memory = Memory(
    coils: map<u16, bool>, discrete: map<u16, bool>,
    holding: map<u16, u16>, input: map<u16, u16>) {

    function BitCell(area: Area, a: u16): bool
      requires area.IsBits()
    {
      var m := if area.Coil? then coils else discrete;
      if a in m then m[a] else false
    }

    function RegCell(area: Area, a: u16): u16
      requires !area.IsBits()
    {
      var m := if area.HoldingRegister? then holding else input;
      if a in m then m[a] else 0
    }

    /** qty consecutive cells from addr, addresses taken modulo 65536. */
    function BitCells(area: Area, addr: u16, qty: u16): (r: seq<bool>)
      requires area.IsBits()
      ensures |r| == qty
    {
      seq(qty, i requires 0 <= i < qty => BitCell(area, Add16(addr, i)))
    }

    function RegCells(area: Area, addr: u16, qty: u16): (r: seq<u16>)
      requires !area.IsBits()
      ensures |r| == qty
    {
      seq(qty, i requires 0 <= i < qty => RegCell(area, Add16(addr, i)))
    }

    /** The raw bytes of a range: packed bits or big-endian registers. */
    function Raw(area: Area, addr: u16, qty: u16): seq<u8> {
      if area.IsBits() then Pack(BitCells(area, addr, qty)) else RegisterBytes(RegCells(area, addr, qty))
    }

    /** Reading one point straight from the device. */
    function Direct(dp: DataPoint): Result<Value> {
      match dp
      case Foreign(_) => Err(Unsupported)
      case Point(area, addr, qty) =>
        if qty == 0 || qty > area.ReadLimit() then Err(InvalidQuantity)
        else Ok(Value(Raw(area, addr, qty), TypeOf(area, qty), BigEndianOrder, Some(dp)))
    }
  }

  function TypeOf(area: Area, qty: u16): DataType {
    if area.IsBits() then TypeBool else if qty > 1 then TypeBytes else TypeUint16
  }

  /** Whether cutting p out of a block of len bytes starting at address start stays
      inside the block. The Go code panics when it does not. */
  predicate InBlock(p: Clusterable, len: nat, start: u16) {
    var offset := Sub16(p.addr, start) as int;
    if p.area.IsBits() then BitsInBlock(offset, p.qty, len) else 2 * (offset + p.qty) <= len
  }

  predicate BitsInBlock(offset: nat, qty: nat, len: nat) {
    qty > 0 ==> (offset + qty - 1) / 8 < len
  }

  /** qty bits of raw from bit offset on. */
  function BitSlice(raw: seq<u8>, offset: nat, qty: nat): (r: seq<bool>)
    requires BitsInBlock(offset, qty, |raw|)
    ensures |r| == qty
  {
    seq(qty, i requires 0 <= i < qty => BitAt(raw, offset + i))
  }

  /** The bits or bytes of a block that belong to p. */
  function Slice(p: Clusterable, raw: seq<u8>, start: u16): seq<u8>
    requires InBlock(p, |raw|, start)
  {
    var offset := Sub16(p.addr, start) as int;
    if p.area.IsBits() then Pack(BitSlice(raw, offset, p.qty)) else raw[2 * offset..2 * (offset + p.qty)]
  }

  /** extractBits: moves qty bits from bit offset of raw to bit 0 of a fresh buffer.
      None is the run-time panic of an out-of-range index. */
  method ExtractBits(raw: seq<u8>, offset: nat, qty: nat) returns (r: Option<seq<u8>>)
    ensures r.Some? <==> BitsInBlock(offset, qty, |raw|)
    ensures r.Some? ==> r.value == Pack(BitSlice(raw, offset, qty))
  {
    var bits := [];
    for i := 0 to qty
      invariant BitsInBlock(offset, i, |raw|)
      invariant bits == BitSlice(raw, offset, i)
    {
      if (offset + i) / 8 >= |raw| {
        return None;
      }
      bits := bits + [BitAt(raw, offset + i)];
    }
    var out := BoolsToBytes(bits);
    return Some(out);
  }

  /** boolsToBytes of the client. */
  method BoolsToBytes(vals: seq<bool>) returns (raw: seq<u8>)
    ensures raw == Pack(vals)
    ensures Packed(raw, vals)
  {
    var buf := new u8[(|vals| + 7) / 8](_ => 0);
    PackBits(buf, 0, vals);
    assert buf[0..] == buf[..];
    PackIsPacked(vals);
    PackedUnique(buf[..], Pack(vals), vals);
    raw := buf[..];
  }

  /** registersToBytes of the client. */
  method RegistersToBytes(vals: seq<u16>) returns (raw: seq<u8>)
    ensures raw == RegisterBytes(vals)
    ensures BigEndian(raw, vals)
  {
    var buf := new u8[2 * |vals|];
    PackRegisters(buf, 0, vals);
    assert buf[0..] == buf[..];
    RegisterBytesBigEndian(vals);
    BigEndianUnique(buf[..], RegisterBytes(vals), vals);
    raw := buf[..];
  }

  /** ClusterExtract of the four point types; None is the run-time panic of an
      out-of-range slice or index. */
  method ClusterExtract(p: Clusterable, val: Value, start: u16) returns (r: Option<Value>)
    ensures r.Some? <==> InBlock(p, |val.raw|, start)
    ensures r.Some? ==> r.value == Value(Slice(p, val.raw, start), TypeOf(p.area, p.qty), val.order, None)
  {
    var offset := Sub16(p.addr, start) as int;
    if p.area.IsBits() {
      var bytes := ExtractBits(val.raw, offset, p.qty);
      return if bytes.None? then None else Some(Value(bytes.value, TypeBool, val.order, None));
    } else if 2 * (offset + p.qty) > |val.raw| {
      return None;
    } else {
      return Some(Value(val.raw[2 * offset..2 * (offset + p.qty)], TypeOf(p.area, p.qty), val.order, None));
    }
  }

  /** A slice of a packing is a slice of what was packed. */
  lemma PackSlice(cells: seq<bool>, offset: nat, qty: nat)
    requires offset + qty <= |cells|
    ensures |Pack(cells)| == (|cells| + 7) / 8
    ensures BitsInBlock(offset, qty, |Pack(cells)|)
    ensures BitSlice(Pack(cells), offset, qty) == cells[offset..offset + qty]
  {
    PackIsPacked(cells);
    var a, b := BitSlice(Pack(cells), offset, qty), cells[offset..offset + qty];
    forall i | 0 <= i < qty ensures a[i] == b[i] {
      assert BitAt(Pack(cells), offset + i) == cells[offset + i];
    }
  }

  lemma BitSliceOfBlock(m: Memory, area: Area, start: u16, count: u16, addr: u16, qty: u16)
    requires area.IsBits() && start <= addr && addr + qty <= start + count
    ensures BitsInBlock(addr - start, qty, |Pack(m.BitCells(area, start, count))|)
    ensures BitSlice(Pack(m.BitCells(area, start, count)), addr - start, qty) == m.BitCells(area, addr, qty)
  {
    var cells := m.BitCells(area, start, count);
    PackSlice(cells, addr - start, qty);
    assert cells[addr - start..addr - start + qty] == m.BitCells(area, addr, qty);
  }

  lemma RegSliceOfBlock(m: Memory, area: Area, start: u16, count: u16, addr: u16, qty: u16)
    requires !area.IsBits() && start <= addr && addr + qty <= start + count
    ensures |RegisterBytes(m.RegCells(area, start, count))| >= 2 * (addr - start + qty)
    ensures RegisterBytes(m.RegCells(area, start, count))[2 * (addr - start)..2 * (addr - start + qty)]
         == RegisterBytes(m.RegCells(area, addr, qty))
  {
  }

  /** Cutting a point out of a block read of the same memory gives the point's own
      bytes, for packed bits at any bit offset and for registers. */
  lemma SliceOfBlock(m: Memory, p: Clusterable, start: u16, count: u16)
    requires start <= p.addr && p.addr + p.qty <= start + count
    ensures InBlock(p, |m.Raw(p.area, start, count)|, start)
    ensures Slice(p, m.Raw(p.area, start, count), start) == m.Raw(p.area, p.addr, p.qty)
  {
    assert Sub16(p.addr, start) == p.addr - start;
    if p.area.IsBits() {
      BitSliceOfBlock(m, p.area, start, count, p.addr, p.qty);
    } else {
      RegSliceOfBlock(m, p.area, start, count, p.addr, p.qty);
    }
  }
}
