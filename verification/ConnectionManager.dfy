/** The CIP Connection Manager object (protocol/ethernetip/objects/connmgr): the table of
    connections behind Forward_Open and Forward_Close, and the layout of both requests.
    The handlers hold one lock over their table work, so runs are sequences of whole
    calls. */
module ConnectionManager {
  import opened Bytes
  import opened ByteReader
  import opened Wrappers

  /** What identifies a connection across originators. */
  datatype Triad = Triad(serial: u16, vendor: u16, originator: u32)

  datatype Connection = Connection(ot: u32, to: u32, triad: Triad)

  // -- the table

  /** opens counts the Forward_Opens granted; the ID counter is derived from it. */
  datatype Table = Table(conns: map<u32, Connection>, opens: nat)

  /** The ID of the k-th connection granted. */
  function IdOf(k: nat): u32 { (0x8000_0001 + k) % 0x1_0000_0000 }

  ghost predicate HasTriad(t: Table, triad: Triad) {
    exists id | id in t.conns :: t.conns[id].triad == triad
  }

  datatype Step = Open(triad: Triad, ot: u32) | Close(triad: Triad)

  ghost function Do(t: Table, step: Step): Table {
    match step
    case Open(triad, ot) =>
      if HasTriad(t, triad) then t
      else Table(t.conns[IdOf(t.opens) := Connection(ot, IdOf(t.opens), triad)], t.opens + 1)
    case Close(triad) => t.(conns := map id | id in t.conns && t.conns[id].triad != triad :: t.conns[id])
  }

  /** Every key is its entry's ID, no two entries share a triad, and every ID was issued. */
  ghost predicate Inv(t: Table) {
    && (forall id | id in t.conns :: t.conns[id].to == id)
    && (forall id, id' | id in t.conns && id' in t.conns && t.conns[id].triad == t.conns[id'].triad :: id == id')
    && (forall id | id in t.conns :: Issued(t.opens, id))
  }

  ghost predicate Issued(opens: nat, id: u32) { exists k | 0 <= k < opens :: IdOf(k) == id }

  lemma StepInv(t: Table, step: Step)
    requires Inv(t)
    ensures Inv(Do(t, step))
  {
  }

  /** No ID repeats within 2^32 grants. */
  lemma IdsDistinct(i: nat, j: nat)
    requires i < j < i + 0x1_0000_0000
    ensures IdOf(i) != IdOf(j)
  {
  }

  lemma FreshId(opens: nat)
    requires opens < 0x1_0000_0000
    ensures !Issued(opens, IdOf(opens))
  {
  }

  ghost function After(t: Table, steps: seq<Step>): Table
    decreases |steps|
  {
    if steps == [] then t else After(Do(t, steps[0]), steps[1..])
  }

  const EMPTY := Table(map[], 0)

  lemma {:induction false} RunInv(t: Table, steps: seq<Step>)
    requires Inv(t)
    ensures Inv(After(t, steps)) && t.opens <= After(t, steps).opens
    decreases |steps|
  {
    if steps != [] {
      StepInv(t, steps[0]);
      RunInv(Do(t, steps[0]), steps[1..]);
    }
  }

  /** In every run the table is keyed by its own IDs and no triad is held twice. */
  lemma {:induction false} OneEntryPerTriad(steps: seq<Step>, id: u32, id': u32)
    requires var t := After(EMPTY, steps); id in t.conns && id' in t.conns
    ensures var t := After(EMPTY, steps);
      t.conns[id].to == id && (t.conns[id].triad == t.conns[id'].triad ==> id == id')
  {
    RunInv(EMPTY, steps);
  }

  // -- refinement: the table is a set of triads

  ghost function Held(conns: map<u32, Connection>): set<Triad> { set id | id in conns :: conns[id].triad }

  /** What the triads alone do: opening adds one, closing removes one. */
  ghost function SetAfter(held: set<Triad>, steps: seq<Step>): set<Triad>
    decreases |steps|
  {
    if steps == [] then held
    else SetAfter(match steps[0] case Open(triad, _) => held + {triad} case Close(triad) => held - {triad}, steps[1..])
  }

  lemma OpenHeld(conns: map<u32, Connection>, id: u32, c: Connection)
    requires id !in conns
    ensures Held(conns[id := c]) == Held(conns) + {c.triad}
  {
    var conns' := conns[id := c];
    forall x | x in Held(conns) + {c.triad} ensures x in Held(conns') {
      if x == c.triad {
        assert conns'[id].triad == x;
      } else {
        var k :| k in conns && conns[k].triad == x;
        assert conns'[k].triad == x;
      }
    }
  }

  lemma CloseHeld(conns: map<u32, Connection>, conns': map<u32, Connection>, triad: Triad)
    requires conns' == map id | id in conns && conns[id].triad != triad :: conns[id]
    ensures Held(conns') == Held(conns) - {triad}
  {
    forall x | x in Held(conns) - {triad} ensures x in Held(conns') {
      var id :| id in conns && conns[id].triad == x;
      assert conns'[id].triad == x;
    }
  }

  /** A grant adds its triad and keeps all others exactly when its ID is not in use; an ID
      still in use after 2^32 grants loses the connection that holds it. */
  lemma GrantKeepsOthersIff(t: Table, triad: Triad, ot: u32)
    requires Inv(t) && !HasTriad(t, triad)
    ensures Held(Do(t, Open(triad, ot)).conns) == Held(t.conns) + {triad} <==> IdOf(t.opens) !in t.conns
  {
    var id := IdOf(t.opens);
    if id !in t.conns {
      OpenHeld(t.conns, id, Connection(ot, id, triad));
    } else {
      var lost := t.conns[id].triad;
      var conns' := Do(t, Open(triad, ot)).conns;
      assert lost in Held(t.conns);
      assert lost != triad;
      assert forall k | k in conns' :: conns'[k].triad != lost;
    }
  }

  lemma StepHeld(t: Table, step: Step)
    requires Inv(t) && t.opens < 0x1_0000_0000
    ensures Held(Do(t, step).conns)
         == match step case Open(triad, _) => Held(t.conns) + {triad} case Close(triad) => Held(t.conns) - {triad}
  {
    match step
    case Open(triad, ot) =>
      if !HasTriad(t, triad) {
        FreshId(t.opens);
        assert IdOf(t.opens) !in t.conns;
        GrantKeepsOthersIff(t, triad, ot);
      }
    case Close(triad) => CloseHeld(t.conns, Do(t, step).conns, triad);
  }

  lemma {:induction false} AfterTwo(t: Table, steps: seq<Step>, a: Step, b: Step)
    ensures After(t, steps + [a, b]) == Do(Do(After(t, steps), a), b)
    decreases |steps|
  {
    if steps == [] {
      var ab := steps + [a, b];
      assert ab == [a, b] && ab[1..] == [b] && [b][1..] == [];
      assert After(t, ab) == After(Do(t, a), [b]);
      assert After(Do(t, a), [b]) == After(Do(Do(t, a), b), []);
    } else {
      AfterTwo(Do(t, steps[0]), steps[1..], a, b);
      assert (steps + [a, b])[1..] == steps[1..] + [a, b];
    }
  }

  function Holding(c: Connection): map<u32, Connection> { map[IdOf(0) := c] }

  /** While one connection is held, another comes and goes. */
  lemma ComesAndGoes(c: Connection, n: nat, triad: Triad, ot: u32)
    requires c.triad != triad && 0 < n < 0x1_0000_0000
    ensures Do(Do(Table(Holding(c), n), Open(triad, ot)), Close(triad)) == Table(Holding(c), n + 1)
  {
    IdsDistinct(0, n);
    var t := Table(Holding(c), n);
    assert !HasTriad(t, triad);
    var t1 := Do(t, Open(triad, ot));
    assert t1.conns == Holding(c)[IdOf(n) := Connection(ot, IdOf(n), triad)];
    assert Do(t1, Close(triad)).conns == Holding(c);
  }

  /** A run of n grants after which the first connection is the only one held. */
  lemma {:induction false} GrantRun(first: Triad, other: Triad, ot: u32, n: nat) returns (steps: seq<Step>)
    requires first != other && 0 < n <= 0x1_0000_0000
    ensures After(EMPTY, steps) == Table(Holding(Connection(ot, IdOf(0), first)), n)
    decreases n
  {
    if n == 1 {
      steps := [Open(first, ot)];
      assert !HasTriad(EMPTY, first);
      assert Do(EMPTY, Open(first, ot)).conns == Holding(Connection(ot, IdOf(0), first));
      assert After(EMPTY, steps) == After(Do(EMPTY, Open(first, ot)), steps[1..]);
    } else {
      steps := GrantRun(first, other, ot, n - 1);
      AfterTwo(EMPTY, steps, Open(other, ot), Close(other));
      ComesAndGoes(Connection(ot, IdOf(0), first), n - 1, other, ot);
      steps := steps + [Open(other, ot), Close(other)];
    }
  }

  lemma SameIdAgain()
    ensures IdOf(0x1_0000_0000) == IdOf(0)
  {
  }

  /** The counter does come round: for any two triads a run of 2^32 grants with the first
      connection held throughout, after which granting the second replaces it. */
  lemma {:induction false} ReuseReplaces(first: Triad, other: Triad, ot: u32) returns (steps: seq<Step>)
    requires first != other
    ensures var t := After(EMPTY, steps);
            && t.opens == 0x1_0000_0000 && Held(t.conns) == {first} && !HasTriad(t, other)
            && Held(Do(t, Open(other, ot)).conns) == {other}
  {
    steps := GrantRun(first, other, ot, 0x1_0000_0000);
    SameIdAgain();
    var t := After(EMPTY, steps);
    assert t.conns[IdOf(0)].triad == first;
    var t' := Do(t, Open(other, ot));
    assert t'.conns == Holding(Connection(ot, IdOf(0), other));
    assert t'.conns[IdOf(0)].triad == other;
  }

  /** In every run of fewer than 2^32 grants, the connections held are exactly those
      opened and not closed since. */
  lemma {:induction false} HeldIsOpenedAndNotClosed(t: Table, steps: seq<Step>)
    requires Inv(t) && After(t, steps).opens < 0x1_0000_0000
    ensures Held(After(t, steps).conns) == SetAfter(Held(t.conns), steps)
    decreases |steps|
  {
    if steps != [] {
      StepInv(t, steps[0]);
      RunInv(Do(t, steps[0]), steps[1..]);
      StepHeld(t, steps[0]);
      HeldIsOpenedAndNotClosed(Do(t, steps[0]), steps[1..]);
    }
  }

  // -- Forward_Open and Forward_Close requests (CIP Volume 1, section 3-5.5.2)

  datatype OpenRequest = OpenRequest(
    priority: u8, ticks: u8, ot: u32, to: u32, triad: Triad,
    multiplier: u8, reserved: (u8, u8, u8),
    otRpi: u32, otParams: u16, toRpi: u32, toParams: u16, trigger: u8, path: seq<u8>)

  function TriadBytes(t: Triad): seq<u8> { PutLE16(t.serial) + PutLE16(t.vendor) + PutLE32(t.originator) }

  function TriadAt(b: seq<u8>, off: nat): Triad
    requires off + 8 <= |b|
  {
    Triad(GetLE16(b, off), GetLE16(b, off + 2), GetLE32(b, off + 4))
  }

  /** The first 10 bytes. */
  function IdsBytes(r: OpenRequest): seq<u8> { [r.priority, r.ticks] + PutLE32(r.ot) + PutLE32(r.to) }

  /** The 18 bytes behind the triad; the path size is in words, cut to a byte. */
  function ParamsBytes(r: OpenRequest): seq<u8> {
    [r.multiplier, r.reserved.0, r.reserved.1, r.reserved.2]
    + PutLE32(r.otRpi) + PutLE16(r.otParams) + PutLE32(r.toRpi) + PutLE16(r.toParams)
    + [r.trigger, |r.path| / 2 % 0x100]
  }

  function OpenBytes(r: OpenRequest): seq<u8> {
    IdsBytes(r) + TriadBytes(r.triad) + ParamsBytes(r) + r.path
  }

  function ParseOpen(b: seq<u8>): Option<OpenRequest> {
    if |b| <= 36 then None
    else Some(OpenRequest(
      b[0], b[1], GetLE32(b, 2), GetLE32(b, 6), TriadAt(b, 10),
      b[18], (b[19], b[20], b[21]),
      GetLE32(b, 22), GetLE16(b, 26), GetLE32(b, 28), GetLE16(b, 32), b[34],
      Filled(b[36..], 2 * (b[35] as int))))
  }

  lemma TriadFields(t: Triad, rest: seq<u8>)
    ensures |TriadBytes(t)| == 8 && TriadAt(TriadBytes(t) + rest, 0) == t
  {
  }

  /** The 36 bytes of fixed fields read back as written, whatever the path. */
  lemma OpenFields(r: OpenRequest)
    ensures var b := OpenBytes(r); |b| == 36 + |r.path| && b[36..] == r.path
    ensures r.path != [] ==> ParseOpen(OpenBytes(r)) == Some(r.(path := Filled(r.path, 2 * (|r.path| / 2 % 0x100))))
  {
  }

  lemma ShiftTriad(a: seq<u8>, b: seq<u8>)
    requires |b| >= 8
    ensures TriadAt(a + b, |a|) == TriadAt(b, 0)
  {
  }

  /** Forward_Open survives exactly for a non-empty path of whole words, at most 255 of
      them. An empty path is refused by the parser. */
  lemma OpenRoundTrip(r: OpenRequest)
    ensures ParseOpen(OpenBytes(r)) == Some(r) <==> r.path != [] && |r.path| % 2 == 0 && |r.path| <= 510
  {
    OpenFields(r);
    if r.path != [] {
      var n := 2 * (|r.path| / 2 % 0x100);
      PathSize(|r.path|);
      if n == |r.path| {
        assert Filled(r.path, n) == r.path;
      } else {
        assert |Filled(r.path, n)| != |r.path|;
      }
    }
  }

  lemma PathSize(n: nat)
    ensures 2 * (n / 2 % 0x100) == n <==> n % 2 == 0 && n <= 510
  {
  }

  datatype CloseRequest = CloseRequest(priority: u8, ticks: u8, triad: Triad, reserved: u8, path: seq<u8>)

  function CloseBytes(r: CloseRequest): seq<u8> {
    [r.priority, r.ticks] + TriadBytes(r.triad) + [|r.path| / 2 % 0x100, r.reserved] + r.path
  }

  function ParseClose(b: seq<u8>): Option<CloseRequest> {
    if |b| <= 12 then None
    else Some(CloseRequest(b[0], b[1], TriadAt(b, 2), b[11], Filled(b[12..], 2 * (b[10] as int))))
  }

  lemma CloseRoundTrip(r: CloseRequest)
    ensures ParseClose(CloseBytes(r)) == Some(r) <==> r.path != [] && |r.path| % 2 == 0 && |r.path| <= 510
  {
    var b, h, e := CloseBytes(r), [r.priority, r.ticks], [|r.path| / 2 % 0x100, r.reserved];
    TriadFields(r.triad, e + r.path);
    ShiftTriad(h, TriadBytes(r.triad) + (e + r.path));
    assert b == h + (TriadBytes(r.triad) + (e + r.path));
    assert b[12..] == r.path;
    if r.path != [] {
      var n := 2 * (|r.path| / 2 % 0x100);
      PathSize(|r.path|);
      if n == |r.path| {
        assert Filled(r.path, n) == r.path;
      } else {
        assert |Filled(r.path, n)| != |r.path|;
      }
    }
  }

  // -- the readers of both requests

  method ReadTriad(rd: Reader) returns (r: Option<Triad>)
    requires rd.Valid()
    modifies rd
    ensures rd.Valid()
    ensures old(rd.pos) + 8 <= |rd.data| ==> r == Some(TriadAt(rd.data, old(rd.pos))) && rd.pos == old(rd.pos) + 8
    ensures old(rd.pos) + 8 > |rd.data| ==> r == None
  {
    var serial := rd.ReadU16();
    if serial.None? {
      return None;
    }
    var vendor := rd.ReadU16();
    if vendor.None? {
      return None;
    }
    var originator := rd.ReadU32();
    if originator.None? {
      return None;
    }
    return Some(Triad(serial.value, vendor.value, originator.value));
  }

  /** Rate and connection parameters of one direction. */
  method ReadRate(rd: Reader) returns (r: Option<(u32, u16)>)
    requires rd.Valid()
    modifies rd
    ensures rd.Valid()
    ensures old(rd.pos) + 6 <= |rd.data| ==>
      r == Some((GetLE32(rd.data, old(rd.pos)), GetLE16(rd.data, old(rd.pos) + 4))) && rd.pos == old(rd.pos) + 6
    ensures old(rd.pos) + 6 > |rd.data| ==> r == None
  {
    var rpi := rd.ReadU32();
    if rpi.None? {
      return None;
    }
    var params := rd.ReadU16();
    if params.None? {
      return None;
    }
    return Some((rpi.value, params.value));
  }

  method DecodeOpen(b: seq<u8>) returns (r: Option<OpenRequest>)
    ensures r == ParseOpen(b)
  {
    var rd := new Reader(b);
    var head := rd.ReadFull(2);
    if head.None? {
      return None;
    }
    var ot := rd.ReadU32();
    if ot.None? {
      return None;
    }
    var to := rd.ReadU32();
    if to.None? {
      return None;
    }
    var triad := ReadTriad(rd);
    if triad.None? {
      return None;
    }
    var mult := rd.ReadFull(4);
    if mult.None? {
      return None;
    }
    var otRate := ReadRate(rd);
    if otRate.None? {
      return None;
    }
    var toRate := ReadRate(rd);
    if toRate.None? {
      return None;
    }
    var last := rd.ReadFull(2);
    if last.None? {
      return None;
    }
    var path := rd.ReadSome(2 * (last.value[1] as int));
    if path.None? {
      return None;
    }
    var h, m, l := head.value, mult.value, last.value;
    return Some(OpenRequest(h[0], h[1], ot.value, to.value, triad.value, m[0], (m[1], m[2], m[3]),
      otRate.value.0, otRate.value.1, toRate.value.0, toRate.value.1, l[0], path.value));
  }

  method DecodeClose(b: seq<u8>) returns (r: Option<CloseRequest>)
    ensures r == ParseClose(b)
  {
    var rd := new Reader(b);
    var head := rd.ReadFull(2);
    if head.None? {
      return None;
    }
    var triad := ReadTriad(rd);
    if triad.None? {
      return None;
    }
    var size := rd.ReadFull(2);
    if size.None? {
      return None;
    }
    var path := rd.ReadSome(2 * (size.value[0] as int));
    if path.None? {
      return None;
    }
    return Some(CloseRequest(head.value[0], head.value[1], triad.value, size.value[1], path.value));
  }

  // -- the object

  datatype OpenReply = BadRequest | InUse | Granted(data: seq<u8>)

  function GrantBytes(r: OpenRequest, id: u32): seq<u8> {
    PutLE32(r.ot) + PutLE32(id) + TriadBytes(r.triad) + PutLE32(r.otRpi) + PutLE32(r.toRpi) + [0, 0]
  }

  /** Writes the reply field by field. */
  method EncodeGrant(r: OpenRequest, id: u32) returns (buf: seq<u8>)
    ensures buf == GrantBytes(r, id)
  {
    buf := PutLE32(r.ot);
    buf := buf + PutLE32(id);
    buf := buf + PutLE16(r.triad.serial);
    buf := buf + PutLE16(r.triad.vendor);
    buf := buf + PutLE32(r.triad.originator);
    buf := buf + PutLE32(r.otRpi);
    buf := buf + PutLE32(r.toRpi);
    buf := buf + [0];
    buf := buf + [0];
  }

  /** What the originator takes from a reply of at least 26 bytes: the target's
      connection ID and the packet interval, or its own default if that is zero. */
  function ParseGrant(b: seq<u8>, rpi: u32): Option<(u32, u32)> {
    if |b| < 26 then None else Some((GetLE32(b, 4), if GetLE32(b, 16) == 0 then rpi else GetLE32(b, 16)))
  }

  /** The originator learns the ID the table holds its connection under and, as the target
      echoes the interval it was asked for, keeps its default exactly when it asked for
      zero. */
  lemma GrantIsUnderstood(r: OpenRequest, id: u32, rpi: u32)
    ensures ParseGrant(GrantBytes(r, id), rpi) == Some((id, if r.otRpi == 0 then rpi else r.otRpi))
    ensures TriadAt(GrantBytes(r, id), 8) == r.triad
  {
  }

  lemma NextId(next: u32, opens: nat)
    requires next == (0x8000_0000 + opens) % 0x1_0000_0000
    ensures (next as int + 1) % 0x1_0000_0000 == IdOf(opens) == (0x8000_0000 + (opens + 1)) % 0x1_0000_0000
  {
  }

  /** The calls of the onOpen and onClose callbacks, in order. */
  datatype Callback = OnOpen(conn: Connection, req: OpenRequest) | OnClose(conn: Connection)

  class ConnectionManager {
    var connections: map<u32, Connection>
    var nextConnID: u32
    var callbacks: seq<Callback>
    ghost var opens: nat

    ghost function Value(): Table
      reads this
    {
      Table(connections, opens)
    }

    ghost predicate Valid()
      reads this
    {
      nextConnID == (0x8000_0000 + opens) % 0x1_0000_0000 && Inv(Value())
    }

    constructor ()
      ensures Valid() && Value() == EMPTY && callbacks == [] && nextConnID == 0x8000_0000
    {
      connections, nextConnID, callbacks, opens := map[], 0x8000_0000, [], 0;
    }

    /** The search loop of both handlers; no more than one entry can match, so the order
        of the visit does not show. */
    method Search(triad: Triad) returns (r: Option<u32>)
      ensures r.Some? ==> r.value in connections && connections[r.value].triad == triad
      ensures r.Some? <==> HasTriad(Value(), triad)
    {
      var left := connections.Keys;
      while exists id :: id in left
        invariant left <= connections.Keys
        invariant forall k | k in connections && k !in left :: connections[k].triad != triad
        decreases |left|
      {
        var id :| id in left;
        if connections[id].triad == triad {
          return Some(id);
        }
        left := left - {id};
      }
      return None;
    }

    /** The grant: the next ID, and the entry under it. */
    method Add(triad: Triad, ot: u32) returns (id: u32)
      requires Valid() && !HasTriad(Value(), triad)
      modifies this`connections, this`nextConnID, this`opens
      ensures Valid() && Value() == Do(old(Value()), Open(triad, ot)) && id == IdOf(old(opens))
      ensures connections == old(connections)[id := Connection(ot, id, triad)]
    {
      StepInv(Value(), Open(triad, ot));
      NextId(nextConnID, opens);
      nextConnID := (nextConnID as int + 1) % 0x1_0000_0000;
      connections := connections[nextConnID := Connection(ot, nextConnID, triad)];
      opens := opens + 1;
      return nextConnID;
    }

    /** HandleForwardOpen: a malformed request or a triad in use changes nothing; a grant
        is reported to the callback with the new entry. */
    method HandleForwardOpen(data: seq<u8>) returns (r: OpenReply)
      requires Valid()
      modifies this
      ensures Valid()
      ensures match ParseOpen(data)
        case None => r == BadRequest && Value() == old(Value()) && callbacks == old(callbacks)
        case Some(q) =>
          && Value() == Do(old(Value()), Open(q.triad, q.ot))
          && if HasTriad(old(Value()), q.triad) then r == InUse && callbacks == old(callbacks)
             else
               && r == Granted(GrantBytes(q, IdOf(old(opens))))
               && IdOf(old(opens)) in connections && connections[IdOf(old(opens))] == Connection(q.ot, IdOf(old(opens)), q.triad)
               && callbacks == old(callbacks) + [OnOpen(Connection(q.ot, IdOf(old(opens)), q.triad), q)]
    {
      var req := DecodeOpen(data);
      if req.None? {
        return BadRequest;
      }
      var q := req.value;
      var existing := Search(q.triad);
      if existing.Some? {
        return InUse;
      }
      var id := Add(q.triad, q.ot);
      callbacks := callbacks + [OnOpen(connections[id], q)];
      var reply := EncodeGrant(q, id);
      return Granted(reply);
    }

    /** HandleForwardClose: removes the entry with the triad, if any, and no other, and
        reports it to the callback; the reply is the same either way. */
    method HandleForwardClose(data: seq<u8>) returns (r: Option<seq<u8>>)
      requires Valid()
      modifies this
      ensures Valid()
      ensures match ParseClose(data)
        case None => r == None && Value() == old(Value()) && callbacks == old(callbacks)
        case Some(q) =>
          && Value() == Do(old(Value()), Close(q.triad)) && r == Some(TriadBytes(q.triad) + [0, 0])
          && (!HasTriad(old(Value()), q.triad) ==> callbacks == old(callbacks))
          && (HasTriad(old(Value()), q.triad) ==>
                exists id | id in old(connections) && old(connections)[id].triad == q.triad ::
                  callbacks == old(callbacks) + [OnClose(old(connections)[id])])
    {
      var req := DecodeClose(data);
      if req.None? {
        return None;
      }
      var q := req.value;
      var found := Search(q.triad);
      StepInv(Value(), Close(q.triad));
      if found.Some? {
        callbacks := callbacks + [OnClose(connections[found.value])];
        connections := connections - {found.value};
      }
      assert connections == Do(old(Value()), Close(q.triad)).conns;
      return Some(TriadBytes(q.triad) + [0, 0]);
    }
  }
}
