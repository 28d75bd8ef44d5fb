/** Requests that are carried out late. A client that gives up on a request, on a timeout
    or a lost connection, cannot recall it: the old connection's server may still execute
    it, after a retry or even after the client's next calls. */
module ModbusLate {
  import opened Bytes
  import opened DataPoints
  import opened ModbusOps

  function ApplyAll(m: Memory, ops: seq<Op>): Memory {
    if ops == [] then m else Apply(ApplyAll(m, ops[..|ops| - 1]), ops[|ops| - 1]).0
  }

  lemma ApplyAllSnoc(m: Memory, ops: seq<Op>, op: Op)
    ensures ApplyAll(m, ops + [op]) == Apply(ApplyAll(m, ops), op).0
  {
    assert (ops + [op])[..|ops|] == ops;
  }

  lemma {:induction false} ApplyAllJoin(m: Memory, a: seq<Op>, b: seq<Op>)
    ensures ApplyAll(m, a + b) == ApplyAll(ApplyAll(m, a), b)
    decreases |b|
  {
    if b == [] {
      assert a + b == a;
    } else {
      var n := |b| - 1;
      ApplyAllJoin(m, a, b[..n]);
      assert (a + b)[..|a + b| - 1] == a + b[..n];
    }
  }

  ghost predicate OnlyFrom(ops: seq<Op>, late: seq<Op>) { forall w | w in ops :: w in late }

  // ------------------------------------------------------------------
  // Which cells an operation writes, and which its answer shows
  // ------------------------------------------------------------------

  predicate Writes(op: Op, area: Area, a: u16) {
    match op
    case Read(_, _, _) => false
    case WriteCoil(addr, _) => area.Coil? && a == addr
    case WriteRegister(addr, _) => area.HoldingRegister? && a == addr
    case WriteCoils(addr, bits) => area.Coil? && Sub16(a, addr) < |bits|
    case WriteRegisters(addr, regs) => area.HoldingRegister? && Sub16(a, addr) < |regs|
    case ReadWrite(_, _, addr, regs) => area.HoldingRegister? && Sub16(a, addr) < |regs|
  }

  /** The answer shows the cell as it was before the operation. */
  predicate Shows(op: Op, area: Area, a: u16) {
    match op
    case Read(own, addr, qty) => area == own && Sub16(a, addr) < qty
    case ReadWrite(addr, qty, _, _) => area.HoldingRegister? && Sub16(a, addr) < qty && !Writes(op, area, a)
    case _ => false
  }

  /** w writes a cell that op's answer shows. */
  ghost predicate Disturbs(w: Op, op: Op) { exists area, a: u16 :: Writes(w, area, a) && Shows(op, area, a) }

  lemma NoneDisturbsItself(op: Op)
    ensures !Disturbs(op, op)
  {
  }

  predicate SameCell(m: Memory, m': Memory, area: Area, a: u16) {
    if area.IsBits() then m.BitCell(area, a) == m'.BitCell(area, a) else m.RegCell(area, a) == m'.RegCell(area, a)
  }

  /** An operation changes no cell that it does not write. */
  lemma UnwrittenStays(m: Memory, w: Op, area: Area, a: u16)
    requires !Writes(w, area, a)
    ensures SameCell(m, Apply(m, w).0, area, a)
  {
  }

  /** Memories that agree on the cells an answer shows give the same answer. */
  lemma AnswerFromShown(m: Memory, m': Memory, op: Op)
    requires forall area, a: u16 | Shows(op, area, a) :: SameCell(m, m', area, a)
    ensures Apply(m, op).1 == Apply(m', op).1
  {
    match op
    case Read(area, addr, qty) =>
      forall i | 0 <= i < qty ensures SameCell(m, m', area, Add16(addr, i)) { OffsetBack(addr, i); }
      SameCells(m, m', area, addr, qty);
    case ReadWrite(addr, qty, writeAddr, regs) =>
      var n, n' := Apply(m, op).0, Apply(m', op).0;
      forall i | 0 <= i < qty ensures SameCell(n, n', HoldingRegister, Add16(addr, i)) {
        OffsetBack(addr, i);
        assert !Writes(op, HoldingRegister, Add16(addr, i)) ==> SameCell(m, m', HoldingRegister, Add16(addr, i));
      }
      SameCells(n, n', HoldingRegister, addr, qty);
    case _ =>
  }

  lemma OffsetBack(addr: u16, i: u16)
    ensures Sub16(Add16(addr, i), addr) == i
  {
  }

  lemma SameCells(m: Memory, m': Memory, area: Area, addr: u16, qty: u16)
    requires forall i | 0 <= i < qty :: SameCell(m, m', area, Add16(addr, i))
    ensures area.IsBits() ==> m.BitCells(area, addr, qty) == m'.BitCells(area, addr, qty)
    ensures !area.IsBits() ==> m.RegCells(area, addr, qty) == m'.RegCells(area, addr, qty)
  {
  }

  lemma QuietOpKeepsAnswer(m: Memory, w: Op, op: Op)
    requires !Disturbs(w, op)
    ensures Apply(Apply(m, w).0, op).1 == Apply(m, op).1
  {
    var m' := Apply(m, w).0;
    forall area, a: u16 | Shows(op, area, a) ensures SameCell(m, m', area, a) {
      assert !Writes(w, area, a);
      UnwrittenStays(m, w, area, a);
    }
    AnswerFromShown(m, m', op);
  }

  /** Late requests that write nothing the answer shows leave it alone. */
  lemma {:induction false} AnswerSurvives(m: Memory, ran: seq<Op>, op: Op)
    requires forall w | w in ran :: !Disturbs(w, op)
    ensures Apply(ApplyAll(m, ran), op).1 == Apply(m, op).1
    decreases |ran|
  {
    if ran != [] {
      var n := |ran| - 1;
      AnswerSurvives(m, ran[..n], op);
      QuietOpKeepsAnswer(ApplyAll(m, ran[..n]), ran[n], op);
    }
  }

  // ------------------------------------------------------------------
  // And only those
  // ------------------------------------------------------------------

  /** A memory in which the cell differs from what w writes there. */
  function Other(w: Op, area: Area, a: u16): Memory {
    var n := Apply(Memory(map[], map[], map[], map[]), w).0;
    if area.Coil? then Memory(map[a := !n.BitCell(Coil, a)], map[], map[], map[])
    else Memory(map[], map[], map[a := (n.RegCell(HoldingRegister, a) as int + 1) % 0x1_0000], map[])
  }

  lemma OtherDiffers(w: Op, area: Area, a: u16)
    requires Writes(w, area, a)
    ensures !SameCell(Other(w, area, a), Apply(Other(w, area, a), w).0, area, a)
  {
  }

  /** Answers that show different cells differ. */
  lemma ShownDiffers(m: Memory, m': Memory, op: Op, area: Area, a: u16)
    requires Shows(op, area, a) && !SameCell(m, m', area, a)
    ensures Apply(m, op).1 != Apply(m', op).1
  {
    var addr := op.addr;
    var i := Sub16(a, addr);
    assert Add16(addr, i) == a;
    match op
    case Read(_, _, qty) =>
      if area.IsBits() {
        assert m.BitCells(area, addr, qty)[i] != m'.BitCells(area, addr, qty)[i];
      } else {
        assert m.RegCells(area, addr, qty)[i] != m'.RegCells(area, addr, qty)[i];
      }
    case ReadWrite(_, qty, _, _) =>
      assert Apply(m, op).0.RegCells(area, addr, qty)[i] != Apply(m', op).0.RegCells(area, addr, qty)[i];
  }

  /** A late request can change an answer exactly when it writes a cell the answer shows. */
  lemma DisturbsIff(w: Op, op: Op)
    ensures (forall m: Memory :: Apply(Apply(m, w).0, op).1 == Apply(m, op).1) <==> !Disturbs(w, op)
  {
    if Disturbs(w, op) {
      var area, a: u16 :| Writes(w, area, a) && Shows(op, area, a);
      var m := Other(w, area, a);
      OtherDiffers(w, area, a);
      ShownDiffers(m, Apply(m, w).0, op, area, a);
      assert Apply(Apply(m, w).0, op).1 != Apply(m, op).1;
    } else {
      forall m: Memory ensures Apply(Apply(m, w).0, op).1 == Apply(m, op).1 { QuietOpKeepsAnswer(m, w, op); }
    }
  }

  /** Any number of executions of one and the same request are one. */
  lemma {:induction false} RepeatedIsOnce(m: Memory, op: Op, ran: seq<Op>)
    requires forall i | 0 <= i < |ran| :: ran[i] == op
    ensures ApplyAll(m, ran) == m || ApplyAll(m, ran) == Apply(m, op).0
    ensures Apply(ApplyAll(m, ran), op) == Apply(m, op)
    decreases |ran|
  {
    if ran != [] {
      RepeatedIsOnce(m, op, ran[..|ran| - 1]);
      Idempotent(m, op);
    }
  }
}
