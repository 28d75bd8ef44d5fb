/** The clustering reader (monitor/cluster.go) as a sequential object: whole Register,
    Unregister and Read calls over a device whose memory may change between them. */
module ClusteringReader {
  import opened Bytes
  import opened DataPoints
  import opened ClusterPlan
  import opened Wrappers

  /** The outcome of reading: values, an error of the inner reader, or the run-time
      panic of an out-of-range extraction. */
  datatype Outcome<+T> = Values(vals: T) | Failed(error: Error) | Panicked

  /** The answer the clustered path gives for one point out of a block value. */
  function Extracted(p: Clusterable, w: Window, block: Value): Outcome<Value> {
    if InBlock(p, |block.raw|, w.start)
    then Values(Value(Slice(p, block.raw, w.start), TypeOf(p.area, p.qty), block.order, Some(p)))
    else Panicked
  }

  function FromResult(r: Result<Value>): Outcome<Value> {
    match r case Ok(v) => Values(v) case Err(e) => Failed(e)
  }

  /** Reading one point of memory m under a plan, with no cached block. */
  function ReadPoint(m: Memory, windows: seq<Window>, dp: DataPoint): Outcome<Value> {
    var i := if dp.Point? then FirstCovering(windows, dp, 0) else -1;
    if i < 0 then FromResult(m.Direct(dp))
    else match m.Direct(windows[i].merged)
         case Err(e) => Failed(e)
         case Ok(block) => Extracted(dp, windows[i], block)
  }

  /** A point in range is cut out of its window unharmed: the answer is the one a
      direct read of the same memory gives. */
  lemma {:induction false} ExtractedIsDirect(m: Memory, limits: Limits, w: Window, p: Clusterable, block: Value)
    requires WindowOk(w, limits) && p.InRange() && Covers(w, p)
    requires m.Direct(w.merged) == Ok(block)
    ensures FromResult(m.Direct(p)) == Extracted(p, w, block)
  {
    CoversIsContains(w, limits, p);
    SliceOfBlock(m, p, w.start, w.count);
  }

  // ------------------------------------------------------------------
  // Exactly which points are safe to ask for
  // ------------------------------------------------------------------

  /** The clustered read of dp never panics and only succeeds with the direct value. */
  predicate Agrees(m: Memory, windows: seq<Window>, dp: DataPoint) {
    match ReadPoint(m, windows, dp)
    case Values(v) => m.Direct(dp) == Ok(v)
    case Failed(_) => true
    case Panicked => false
  }

  /** Whatever is registered, and whatever the memory holds. */
  ghost predicate SafeInEveryPlan(dp: DataPoint) {
    forall m: Memory, points: seq<Clusterable>, limits: Limits, windows: seq<Window>
      | AllInRange(points) && PlanOk(points, limits, windows) :: Agrees(m, windows, dp)
  }

  lemma {:induction false} InRangeAgrees(m: Memory, points: seq<Clusterable>, limits: Limits, windows: seq<Window>, dp: DataPoint)
    requires PlanOk(points, limits, windows) && (dp.InRange() || dp.Foreign?)
    ensures Agrees(m, windows, dp)
  {
    if dp.Point? {
      var i := FirstCovering(windows, dp, 0);
      if i >= 0 {
        assert WindowOk(windows[i], limits);
        if m.Direct(windows[i].merged).Ok? {
          ExtractedIsDirect(m, limits, windows[i], dp, m.Direct(windows[i].merged).value);
        }
      }
    }
  }

  /** The plan for the single point q. */
  function Alone(q: Clusterable): seq<Window> {
    [Window(q.area, q.addr, q.qty, q, [q])]
  }

  lemma {:induction false} AloneIsPlan(q: Clusterable, limits: Limits)
    requires q.InRange()
    ensures AllInRange([q]) && PlanOk([q], limits, Alone(q))
  {
    var max := limits.MaxPerRead(q.area);
    BeginOk(q, limits.gap, max);
    FlushOk(q.area, Begin(q), limits);
    assert PointsOf(Alone(q)) == [q] + PointsOf([]);
  }

  /** A memory in which only the bits at address a are on. */
  function OnAt(a: u16): Memory { Memory(map[a := true], map[a := true], map[], map[]) }

  /** Next to a one-unit window just below it, an empty range reads as an empty value
      where the device reports an error, and a range that runs past address 65535
      panics or reads padding. */
  lemma {:induction false} OutOfRangeDisagrees(dp: Clusterable)
    requires !dp.InRange()
    ensures var q := Point(dp.area, if dp.addr == 0 then 0 else dp.addr - 1, 1);
            q.InRange() && !Agrees(OnAt(dp.addr), Alone(q), dp)
  {
    var q := Point(dp.area, if dp.addr == 0 then 0 else dp.addr - 1, 1);
    var w := Alone(q)[0];
    var block := OnAt(dp.addr).Direct(q).value;
    assert Covers(w, dp);
    assert FirstCovering(Alone(q), dp, 0) == 0;
    if dp.qty != 0 {
      WrapDisagrees(dp, block);
    }
  }

  lemma PacksDiffer(a: seq<bool>, b: seq<bool>)
    requires a != [] && b != [] && a[0] != b[0]
    ensures Bits.Pack(a) != Bits.Pack(b)
  {
    Bits.PackIsPacked(a);
    Bits.PackIsPacked(b);
    assert Bits.BitAt(Bits.Pack(a), 0) == a[0];
    assert Bits.BitAt(Bits.Pack(b), 0) == b[0];
  }

  /** Behind the one bit of a block there is only padding. */
  lemma PaddingIsOff(raw: seq<u8>, bit: bool, qty: nat)
    requires raw == Bits.Pack([bit]) && qty > 0 && BitsInBlock(1, qty, |raw|)
    ensures !BitSlice(raw, 1, qty)[0]
  {
    Bits.PackIsPacked([bit]);
    assert !Bits.BitAt(raw, 1);
  }

  lemma {:induction false} WrapDisagrees(dp: Clusterable, block: Value)
    requires dp.addr > 0 && dp.qty > 0
    requires block == Value(OnAt(dp.addr).Raw(dp.area, dp.addr - 1, 1), TypeOf(dp.area, 1), BigEndianOrder, Some(Point(dp.area, dp.addr - 1, 1)))
    ensures var w := Alone(Point(dp.area, dp.addr - 1, 1))[0];
            Extracted(dp, w, block).Panicked? || Ok(Extracted(dp, w, block).vals) != OnAt(dp.addr).Direct(dp)
  {
    if dp.area.IsBits() && InBlock(dp, |block.raw|, dp.addr - 1) {
      var cells := OnAt(dp.addr).BitCells(dp.area, dp.addr - 1, 1);
      assert cells == [cells[0]];
      PaddingIsOff(block.raw, cells[0], dp.qty);
      PacksDiffer(BitSlice(block.raw, 1, dp.qty), OnAt(dp.addr).BitCells(dp.area, dp.addr, dp.qty));
    }
  }

  /** A range is safe to read through every plan exactly when it is non-empty and ends
      at or below address 65535: the last address itself is not safe. */
  lemma {:induction false} SafeIffInRange(dp: Clusterable)
    ensures SafeInEveryPlan(dp) <==> dp.InRange()
  {
    if dp.InRange() {
      forall m: Memory, points: seq<Clusterable>, limits: Limits, windows: seq<Window>
        | AllInRange(points) && PlanOk(points, limits, windows) ensures Agrees(m, windows, dp)
      {
        InRangeAgrees(m, points, limits, windows, dp);
      }
    } else {
      OutOfRangeDisagrees(dp);
      var q := Point(dp.area, if dp.addr == 0 then 0 else dp.addr - 1, 1);
      var limits := Limits(32, 120, 2000);
      AloneIsPlan(q, limits);
      assert !Agrees(OnAt(dp.addr), Alone(q), dp);
    }
  }

  // ------------------------------------------------------------------
  // Caps, and what the plan cannot promise
  // ------------------------------------------------------------------

  /** The configured caps are within what the protocol allows in one request. */
  predicate LegalCaps(limits: Limits) {
    limits.maxRegisters <= 125 && limits.maxCoils <= 2000
  }

  predicate LegalSizes(points: seq<Clusterable>) {
    forall i | 0 <= i < |points| :: points[i].qty <= points[i].area.ReadLimit()
  }

  /** With legal caps and legal registered points every window is itself a request the
      client accepts. */
  lemma {:induction false} WindowIsAccepted(points: seq<Clusterable>, limits: Limits, windows: seq<Window>, i: nat)
    requires PlanOk(points, limits, windows) && LegalCaps(limits) && LegalSizes(points) && i < |windows|
    ensures 1 <= windows[i].count <= windows[i].area.ReadLimit()
  {
    var w := windows[i];
    assert WindowOk(w, limits);
    var first := w.points[0];
    InPointsOf(windows, i, first);
    assert first in multiset(points);
    assert first.qty <= first.area.ReadLimit();
  }

  lemma {:induction false} InPointsOf(ws: seq<Window>, i: nat, p: Clusterable)
    requires i < |ws| && p in ws[i].points
    ensures p in PointsOf(ws)
  {
    if i > 0 { InPointsOf(ws[1..], i - 1, p); }
  }

  /** Then clustering changes nothing at all: same values, same errors. */
  lemma {:induction false} CappedReadIsDirect(m: Memory, points: seq<Clusterable>, limits: Limits, windows: seq<Window>, dp: DataPoint)
    requires PlanOk(points, limits, windows) && LegalCaps(limits) && LegalSizes(points)
    requires dp.InRange() || dp.Foreign?
    ensures ReadPoint(m, windows, dp) == FromResult(m.Direct(dp))
  {
    var i := if dp.Point? then FirstCovering(windows, dp, 0) else -1;
    if i >= 0 {
      WindowIsAccepted(points, limits, windows, i);
      assert WindowOk(windows[i], limits);
      ExtractedIsDirect(m, limits, windows[i], dp, m.Direct(windows[i].merged).value);
    }
  }

  /** Registering the last address breaks the plan: its end wraps to 0, the window that
      takes it in does not grow, and reading it panics. */
  lemma {:induction false} LastAddressBreaksPlan(m: Memory, limits: Limits)
    requires limits.maxRegisters >= 1
    ensures var a, b := Point(HoldingRegister, 0xFFFE, 1), Point(HoldingRegister, 0xFFFF, 1);
            var windows := Windows(HoldingRegister, [a, b], limits.gap, limits.maxRegisters);
            && windows == [Window(HoldingRegister, 0xFFFE, 1, a, [a, b])]
            && FirstCovering(windows, b, 0) == 0
            && ReadPoint(m, windows, b) == Panicked
  {
    var a, b := Point(HoldingRegister, 0xFFFE, 1), Point(HoldingRegister, 0xFFFF, 1);
    assert [a, b][1..] == [b] && [b][1..] == [];
    assert [a] + [b] == [a, b];
    var windows := Windows(HoldingRegister, [a, b], limits.gap, limits.maxRegisters);
    assert windows == Merge(HoldingRegister, Extend(Begin(a), b), [], limits.gap, limits.maxRegisters);
    assert Covers(windows[0], b);
  }

  // ------------------------------------------------------------------
  // First window, smallest window
  // ------------------------------------------------------------------

  predicate ServedBySmallest(windows: seq<Window>, p: Clusterable) {
    var i := FirstCovering(windows, p, 0);
    i >= 0 ==> forall j | 0 <= j < |windows| && Covers(windows[j], p) :: windows[i].count <= windows[j].count
  }

  /** The addresses two windows share. */
  function Common(v: Window, w: Window): (int, int) {
    (if v.start < w.start then w.start else v.start,
     if v.start + v.count < w.start + w.count then v.start + v.count else w.start + w.count)
  }

  /** Window i comes before the smaller window j of its area, shares addresses with it,
      and no window before i takes all of these. */
  predicate Shadows(windows: seq<Window>, i: nat, j: nat) {
    && i < j < |windows| && windows[i].area == windows[j].area && windows[j].count < windows[i].count
    && var (lo, hi) := Common(windows[i], windows[j]);
       lo < hi && forall k | 0 <= k < i && windows[k].area == windows[i].area ::
         !(windows[k].start <= lo && hi <= windows[k].start + windows[k].count)
  }

  lemma {:induction false} ShadowServesLarger(windows: seq<Window>, limits: Limits, i: nat, j: nat) returns (p: Clusterable)
    requires (forall k | 0 <= k < |windows| :: WindowOk(windows[k], limits)) && Shadows(windows, i, j)
    ensures p.InRange() && !ServedBySmallest(windows, p)
  {
    var (lo, hi) := Common(windows[i], windows[j]);
    p := Point(windows[i].area, lo, hi - lo);
    forall k | 0 <= k < |windows| ensures Covers(windows[k], p) <==> windows[k].area == p.area && Contains(windows[k].start, windows[k].start + windows[k].count, p) {
      CoversIsContains(windows[k], limits, p);
    }
    assert Covers(windows[i], p) && Covers(windows[j], p);
    var f := FirstCovering(windows, p, 0);
    assert f == i;
  }

  lemma {:induction false} LargerIsShadow(windows: seq<Window>, limits: Limits, p: Clusterable, j: nat)
    requires forall k | 0 <= k < |windows| :: WindowOk(windows[k], limits)
    requires p.InRange() && j < |windows| && Covers(windows[j], p)
    requires var i := FirstCovering(windows, p, 0); i >= 0 && windows[j].count < windows[i].count
    ensures Shadows(windows, FirstCovering(windows, p, 0), j)
  {
    var i := FirstCovering(windows, p, 0);
    CoversIsContains(windows[i], limits, p);
    CoversIsContains(windows[j], limits, p);
    var (lo, hi) := Common(windows[i], windows[j]);
    forall k | 0 <= k < i && windows[k].area == windows[i].area
      ensures !(windows[k].start <= lo && hi <= windows[k].start + windows[k].count)
    {
      CoversIsContains(windows[k], limits, p);
    }
  }

  /** Every point in range is served by its smallest covering window exactly when no
      window shadows a smaller one. */
  lemma {:induction false} SmallestIff(windows: seq<Window>, limits: Limits)
    requires forall k | 0 <= k < |windows| :: WindowOk(windows[k], limits)
    ensures (forall p: Clusterable | p.InRange() :: ServedBySmallest(windows, p))
       <==> !exists i: nat, j: nat :: Shadows(windows, i, j)
  {
    if i: nat, j: nat :| Shadows(windows, i, j) {
      var p := ShadowServesLarger(windows, limits, i, j);
    } else {
      forall p: Clusterable | p.InRange() ensures ServedBySmallest(windows, p) {
        var i := FirstCovering(windows, p, 0);
        if i >= 0 {
          forall j | 0 <= j < |windows| && Covers(windows[j], p) ensures windows[i].count <= windows[j].count {
            if windows[j].count < windows[i].count { LargerIsShadow(windows, limits, p, j); }
          }
        }
      }
    }
  }

  /** And the planner does produce such windows, of legal points. */
  lemma {:induction false} PlannerShadows()
    ensures var a, b := Point(HoldingRegister, 0, 8), Point(HoldingRegister, 5, 6);
            Shadows(Windows(HoldingRegister, [a, b], 32, 10), 0, 1)
  {
    var a, b := Point(HoldingRegister, 0, 8), Point(HoldingRegister, 5, 6);
    assert [a, b][1..] == [b] && [b][1..] == [];
    var windows := Windows(HoldingRegister, [a, b], 32, 10);
    assert windows == [Flush(HoldingRegister, Begin(a))] + Merge(HoldingRegister, Begin(b), [], 32, 10);
  }

  // ------------------------------------------------------------------
  // The reader object
  // ------------------------------------------------------------------

  datatype Cached = Cached(val: Value, timestamp: nat)

  /** The clusterable points among ps. */
  function Clusterables(ps: seq<DataPoint>): (r: seq<Clusterable>)
    ensures (forall i | 0 <= i < |ps| :: ps[i].Point? ==> ps[i].InRange()) ==> AllInRange(r)
  {
    if ps == [] then []
    else (if ps[0].Point? then [ps[0]] else []) + Clusterables(ps[1..])
  }

  /** Dropping the first registration of p. Points are equal when area, address and
      quantity are. */
  function Drop(points: seq<Clusterable>, p: Clusterable): seq<Clusterable> {
    if points == [] then []
    else if points[0] == p then points[1..]
    else [points[0]] + Drop(points[1..], p)
  }

  /** Exactly one registration goes, if there is one. */
  lemma {:induction false} DropOne(points: seq<Clusterable>, p: Clusterable)
    ensures multiset(Drop(points, p)) == multiset(points) - multiset{p}
  {
    if points != [] {
      assert points == [points[0]] + points[1..];
      DropOne(points[1..], p);
    }
  }

  lemma {:induction false} DropAt(points: seq<Clusterable>, i: nat, p: Clusterable)
    requires i < |points| && points[i] == p && forall j | 0 <= j < i :: points[j] != p
    ensures Drop(points, p) == points[..i] + points[i + 1..]
  {
    if i > 0 {
      var rest := points[1..];
      DropAt(rest, i - 1, p);
      assert [points[0]] + rest[..i - 1] == points[..i] && rest[i..] == points[i + 1..];
    }
  }

  lemma {:induction false} DropNone(points: seq<Clusterable>, p: Clusterable)
    requires p !in points
    ensures Drop(points, p) == points
  {
    if points != [] { DropNone(points[1..], p); }
  }

  function DropAll(points: seq<Clusterable>, ps: seq<DataPoint>): seq<Clusterable>
    decreases |ps|
  {
    if ps == [] then points
    else DropAll(if ps[0].Point? then Drop(points, ps[0]) else points, ps[1..])
  }

  /** Each point is registered once more for every time it is named. */
  lemma {:induction false} RegisterCount(ps: seq<DataPoint>, q: Clusterable)
    ensures multiset(Clusterables(ps))[q] == multiset(ps)[q]
  {
    if ps != [] {
      RegisterCount(ps[1..], q);
      assert ps == [ps[0]] + ps[1..];
      assert multiset(ps) == multiset{ps[0]} + multiset(ps[1..]);
      if ps[0].Point? {
        var p: Clusterable := ps[0];
        assert multiset([p] + Clusterables(ps[1..])) == multiset{p} + multiset(Clusterables(ps[1..]));
      }
    }
  }

  /** And once less, while there are any, for every time it is named to be dropped. */
  lemma {:induction false} UnregisterCount(points: seq<Clusterable>, ps: seq<DataPoint>, q: Clusterable)
    ensures multiset(DropAll(points, ps))[q] == if multiset(points)[q] <= multiset(ps)[q] then 0 else multiset(points)[q] - multiset(ps)[q]
    decreases |ps|
  {
    if ps != [] {
      var rest := if ps[0].Point? then Drop(points, ps[0]) else points;
      UnregisterCount(rest, ps[1..], q);
      assert ps == [ps[0]] + ps[1..];
      assert multiset(ps) == multiset{ps[0]} + multiset(ps[1..]);
      if ps[0].Point? { DropOne(points, ps[0]); }
    }
  }

  /** windows are what the planner makes of points. */
  ghost predicate Planned(points: seq<Clusterable>, limits: Limits, windows: seq<Window>) {
    exists groups :: GreedyWindows(points, limits, windows, groups)
  }

  method Plan(points: seq<Clusterable>, limits: Limits) returns (windows: seq<Window>)
    ensures Planned(points, limits, windows)
    ensures AllInRange(points) ==> PlanOk(points, limits, windows)
  {
    ghost var groups;
    windows, groups := BuildWindows(points, limits);
    assert GreedyWindows(points, limits, windows, groups);
  }

  /** The cache entry of a window is there and young enough. */
  ghost predicate Live(cache: map<nat, Cached>, ttl: nat, now: nat, i: nat) {
    ttl > 0 && i in cache && now - cache[i].timestamp < ttl
  }

  ghost predicate NoRepeats(xs: seq<nat>) { forall i, j | 0 <= i < j < |xs| :: xs[i] != xs[j] }

  ghost predicate Ascending(xs: seq<nat>) { forall i, j | 0 <= i < j < |xs| :: xs[i] < xs[j] }

  lemma AscendingSnoc(xs: seq<nat>, k: nat)
    requires Ascending(xs) && forall x | x in xs :: x < k
    ensures Ascending(xs + [k])
  {
    forall i | 0 <= i < |xs| ensures xs[i] < k { assert xs[i] in xs; }
  }

  lemma NoRepeatsSnoc(xs: seq<nat>, k: nat)
    requires NoRepeats(xs) && k !in xs
    ensures NoRepeats(xs + [k])
  {
  }

  /** One call of the inner reader for each of these points. */
  ghost function OneEach(pts: seq<DataPoint>, ks: seq<nat>): seq<seq<DataPoint>>
    requires forall k | k in ks :: k < |pts|
  {
    seq(|ks|, j requires 0 <= j < |ks| => assert ks[j] in ks; [pts[ks[j]]])
  }

  /** One call of the inner reader for each of these windows. */
  ghost function Blocks(windows: seq<Window>, order: seq<nat>): seq<seq<DataPoint>>
    requires forall i | i in order :: i < |windows|
  {
    seq(|order|, j requires 0 <= j < |order| => assert order[j] in order; [windows[order[j]].merged])
  }

  /** Since `before`, exactly these windows have been asked for, none of the calls failing. */
  ghost predicate AskedFor(before: seq<seq<DataPoint>>, after: seq<seq<DataPoint>>, windows: seq<Window>, order: seq<nat>) {
    && before <= after && |after| == |before| + |order|
    && forall j | 0 <= j < |order| :: order[j] < |windows| && after[|before| + j] == [windows[order[j]].merged]
  }

  lemma AskedMore(before: seq<seq<DataPoint>>, after: seq<seq<DataPoint>>, windows: seq<Window>, order: seq<nat>, i: nat)
    requires AskedFor(before, after, windows, order) && i < |windows|
    ensures AskedFor(before, after + [[windows[i].merged]], windows, order + [i])
  {
  }

  lemma AskedBlocks(before: seq<seq<DataPoint>>, after: seq<seq<DataPoint>>, windows: seq<Window>, order: seq<nat>)
    requires AskedFor(before, after, windows, order) && forall i | i in order :: i < |windows|
    ensures after == before + Blocks(windows, order)
  {
  }

  /** The blocks of the windows read are in the cache, if there is one, and nothing else
      has changed. */
  ghost predicate Stored(cache: map<nat, Cached>, cache': map<nat, Cached>, ttl: nat, now: nat, m: Memory, windows: seq<Window>, order: seq<nat>) {
    forall i: nat ::
      && (i in cache' <==> i in cache || (ttl > 0 && i in order))
      && (i in cache' && !(ttl > 0 && i in order) ==> cache'[i] == cache[i])
      && (ttl > 0 && i in order ==> i < |windows| && m.Direct(windows[i].merged) == Ok(cache'[i].val) && cache'[i].timestamp == now)
  }

  lemma StoredStep(cache: map<nat, Cached>, cache': map<nat, Cached>, ttl: nat, now: nat, m: Memory, windows: seq<Window>, order: seq<nat>, i: nat, v: Value)
    requires Stored(cache, cache', ttl, now, m, windows, order) && i < |windows| && m.Direct(windows[i].merged) == Ok(v)
    ensures Stored(cache, if ttl > 0 then cache'[i := Cached(v, now)] else cache', ttl, now, m, windows, order + [i])
  {
  }

  /** v is the block a Read uses for window i: the live entry, or what the device holds. */
  ghost predicate BlockRight(cache: map<nat, Cached>, ttl: nat, now: nat, m: Memory, windows: seq<Window>, i: nat, v: Value) {
    i < |windows| && if Live(cache, ttl, now, i) then v == cache[i].val else m.Direct(windows[i].merged) == Ok(v)
  }

  /** dp is served out of its first covering window, with this outcome. */
  ghost predicate ServedBy(cache: map<nat, Cached>, ttl: nat, now: nat, m: Memory, windows: seq<Window>, dp: DataPoint, o: Outcome<Value>) {
    var i := WindowFor(windows, dp);
    i >= 0 && exists v :: BlockRight(cache, ttl, now, m, windows, i, v) && Extracted(dp, windows[i], v) == o
  }

  /** Between two window reads: those still left, the blocks so far and the windows read. */
  ghost predicate Progress(cache: map<nat, Cached>, ttl: nat, now: nat, m: Memory, windows: seq<Window>,
      needed: set<nat>, left: set<nat>, blocks: map<nat, Value>, order: seq<nat>)
  {
    && NoRepeats(order) && blocks.Keys == needed - left && left <= needed
    && (forall i | i in order :: i in blocks && !Live(cache, ttl, now, i))
    && (forall i | i in blocks :: BlockRight(cache, ttl, now, m, windows, i, blocks[i]) && (i in order || Live(cache, ttl, now, i)))
  }

  lemma ProgressStep(cache: map<nat, Cached>, ttl: nat, now: nat, m: Memory, windows: seq<Window>,
      needed: set<nat>, left: set<nat>, blocks: map<nat, Value>, order: seq<nat>, i: nat, v: Value)
    requires Progress(cache, ttl, now, m, windows, needed, left, blocks, order) && i in left
    requires BlockRight(cache, ttl, now, m, windows, i, v)
    ensures Progress(cache, ttl, now, m, windows, needed, left - {i}, blocks[i := v], if Live(cache, ttl, now, i) then order else order + [i])
  {
    NoRepeatsSnoc(order, i);
  }

  class ClusteringReader {
    const limits: Limits
    const ttl: nat
    const enabled: bool
    var points: seq<Clusterable>
    var windows: seq<Window>
    var cache: map<nat, Cached>
    var gen: nat
    var readCount: nat

    /** The calls of the inner reader so far, each with the points it asked for. */
    var asked: seq<seq<DataPoint>>

    /** The device memory at each moment. */
    ghost const world: nat -> Memory

    /** Which calls of the inner reader, counted from the first, the transport fails. */
    const down: nat -> bool

    /** Every cache entry holds a block read, at its timestamp, of the very window it is
        filed under in the current plan. */
    ghost predicate CacheOk()
      reads this
    {
      forall i | i in cache ::
        && i < |windows|
        && world(cache[i].timestamp).Direct(windows[i].merged) == Ok(cache[i].val)
    }

    ghost predicate Valid()
      reads this
    {
      CacheOk() && (AllInRange(points) ==> PlanOk(points, limits, windows))
    }

    constructor (limits: Limits, ttl: nat, enabled: bool, ghost world: nat -> Memory, down: nat -> bool)
      ensures Valid() && points == [] && windows == [] && cache == map[] && gen == 0 && readCount == 0 && asked == []
      ensures this.limits == limits && this.ttl == ttl && this.enabled == enabled && this.world == world && this.down == down
    {
      this.limits, this.ttl, this.enabled, this.world, this.down := limits, ttl, enabled, world, down;
      points, windows, cache, gen, readCount, asked := [], [], map[], 0, 0, [];
    }

    /** replan: new windows, next generation, empty cache. */
    method Replan()
      modifies this
      ensures Valid()
      ensures Planned(points, limits, windows)
      ensures points == old(points) && gen == old(gen) + 1 && cache == map[] && readCount == old(readCount) && asked == old(asked)
    {
      windows := Plan(points, limits);
      gen := gen + 1;
      cache := map[];
    }

    method Register(ps: seq<DataPoint>)
      modifies this
      ensures Valid() && cache == map[] && gen == old(gen) + 1 && readCount == old(readCount) && asked == old(asked)
      ensures points == old(points) + Clusterables(ps)
      ensures forall q: Clusterable :: multiset(points)[q] == multiset(old(points))[q] + multiset(ps)[q]
      ensures Planned(points, limits, windows)
    {
      forall q: Clusterable ensures multiset(old(points) + Clusterables(ps))[q] == multiset(old(points))[q] + multiset(ps)[q] {
        RegisterCount(ps, q);
        assert multiset(old(points) + Clusterables(ps)) == multiset(old(points)) + multiset(Clusterables(ps));
      }
      for i := 0 to |ps|
        invariant points + Clusterables(ps[i..]) == old(points) + Clusterables(ps)
        invariant gen == old(gen) && readCount == old(readCount) && asked == old(asked)
      {
        assert ps[i..][1..] == ps[i + 1..];
        if ps[i].Point? {
          points := points + [ps[i]];
        }
      }
      Replan();
    }

    method Unregister(ps: seq<DataPoint>)
      modifies this
      ensures Valid() && cache == map[] && gen == old(gen) + 1 && readCount == old(readCount) && asked == old(asked)
      ensures points == DropAll(old(points), ps)
      ensures forall q: Clusterable :: multiset(points)[q] ==
                if multiset(old(points))[q] <= multiset(ps)[q] then 0 else multiset(old(points))[q] - multiset(ps)[q]
      ensures Planned(points, limits, windows)
    {
      forall q: Clusterable ensures multiset(DropAll(points, ps))[q] ==
        if multiset(points)[q] <= multiset(ps)[q] then 0 else multiset(points)[q] - multiset(ps)[q] { UnregisterCount(points, ps, q); }
      for i := 0 to |ps|
        invariant DropAll(points, ps[i..]) == DropAll(old(points), ps)
        invariant gen == old(gen) && readCount == old(readCount) && asked == old(asked)
      {
        assert ps[i..][1..] == ps[i + 1..];
        if ps[i].Point? {
          DropFirst(ps[i]);
        }
      }
      Replan();
    }

    method DropFirst(p: Clusterable)
      modifies this`points
      ensures points == Drop(old(points), p)
    {
      for i := 0 to |points|
        invariant points == old(points)
        invariant forall j | 0 <= j < i :: points[j] != p
      {
        if points[i] == p {
          DropAt(points, i, p);
          points := points[..i] + points[i + 1..];
          return;
        }
      }
      DropNone(points, p);
    }

    /** v is what a direct read of dp gave at some moment no older than the cache
        lifetime allows (or now). */
    ghost predicate Fresh(dp: DataPoint, v: Value, now: nat) {
      exists t: nat :: FreshAt(dp, v, now, t)
    }

    ghost predicate FreshAt(dp: DataPoint, v: Value, now: nat, t: nat) {
      (t == now || now - ttl < t < now) && world(t).Direct(dp) == Ok(v)
    }

    /** The transport failed one of the calls from the i-th up to the j-th. */
    ghost predicate Lost(i: nat, j: nat) { exists n: nat | i <= n < j :: down(n) }

    lemma LostStep(i: nat, j: nat)
      requires i <= j
      ensures Lost(i, j + 1) <==> Lost(i, j) || down(j)
    {
      if Lost(i, j) {
        var n: nat :| i <= n < j && down(n);
        assert down(n);
      }
    }

    /** The inner reader asked for one point: the device, or a transport failure. */
    method Inner(m: Memory, dp: DataPoint) returns (r: Result<Value>)
      modifies this`readCount, this`asked
      ensures readCount == old(readCount) + 1 && asked == old(asked) + [[dp]]
      ensures r == if down(|old(asked)|) then Err(Network) else m.Direct(dp)
    {
      var failed := down(|asked|);
      readCount, asked := readCount + 1, asked + [[dp]];
      return if failed then Err(Network) else m.Direct(dp);
    }

    /** The inner reader asked for several points at once. */
    method InnerAll(m: Memory, dps: seq<DataPoint>) returns (r: Result<seq<Value>>)
      modifies this`readCount, this`asked
      ensures readCount == old(readCount) + |dps| && asked == old(asked) + [dps]
      ensures down(|old(asked)|) ==> r == Err(Network)
      ensures !down(|old(asked)|) && r.Ok? ==> |r.value| == |dps| && forall k | 0 <= k < |dps| :: m.Direct(dps[k]) == Ok(r.value[k])
      ensures !down(|old(asked)|) && r.Err? ==> exists k | 0 <= k < |dps| :: m.Direct(dps[k]) == Err(r.error)
    {
      var failed := down(|asked|);
      readCount, asked := readCount + |dps|, asked + [dps];
      if failed {
        return Err(Network);
      }
      var vals := [];
      for k := 0 to |dps|
        invariant |vals| == k && forall j | 0 <= j < k :: m.Direct(dps[j]) == Ok(vals[j])
      {
        var v := m.Direct(dps[k]);
        if v.Err? {
          return Err(v.error);
        }
        vals := vals + [v.value];
      }
      return Ok(vals);
    }

    /** readWindow, without concurrent callers: a live entry answers with no call of the
        inner reader; otherwise the window is read, and cached if caching is on. */
    method ReadWindow(m: Memory, now: nat, i: nat) returns (r: Result<Value>)
      requires CacheOk() && m == world(now) && i < |windows|
      requires forall j | j in cache :: cache[j].timestamp <= now
      modifies this`readCount, this`asked, this`cache
      ensures CacheOk() && forall j | j in cache :: cache[j].timestamp <= now
      ensures forall v | r == Ok(v) :: Fresh(windows[i].merged, v, now)
      ensures old(ttl > 0 && i in cache && now - cache[i].timestamp < ttl) ==>
                r == Ok(old(cache)[i].val) && readCount == old(readCount) && asked == old(asked) && cache == old(cache)
      ensures !old(ttl > 0 && i in cache && now - cache[i].timestamp < ttl) ==>
                && readCount == old(readCount) + 1 && asked == old(asked) + [[windows[i].merged]]
                && r == (if down(|old(asked)|) then Err(Network) else m.Direct(windows[i].merged))
                && cache == if r.Ok? && ttl > 0 then old(cache)[i := Cached(r.value, now)] else old(cache)
    {
      if ttl > 0 && i in cache && now - cache[i].timestamp < ttl {
        assert FreshAt(windows[i].merged, cache[i].val, now, cache[i].timestamp);
        return Ok(cache[i].val);
      }
      r := Inner(m, windows[i].merged);
      assert r.Ok? ==> FreshAt(windows[i].merged, r.value, now, now);
      if r.Ok? && ttl > 0 {
        cache := cache[i := Cached(r.value, now)];
      }
    }

    /** Which window serves each requested point; -1 stands for a direct read. */
    method Assign(pts: seq<DataPoint>) returns (plan: seq<int>)
      ensures |plan| == |pts|
      ensures forall k | 0 <= k < |pts| :: plan[k] == WindowFor(windows, pts[k])
    {
      plan := [];
      for k := 0 to |pts|
        invariant |plan| == k
        invariant forall j | 0 <= j < k :: plan[j] == WindowFor(windows, pts[j])
      {
        var i := -1;
        if pts[k].Point? {
          i := FindWindow(windows, pts[k]);
        }
        plan := plan + [i];
      }
    }

    /** The direct reads of a Read call, one at a time; `direct` are the points read. */
    method ReadDirects(m: Memory, pts: seq<DataPoint>, plan: seq<int>)
      returns (results: seq<Value>, error: Option<Error>, ghost direct: seq<nat>)
      requires |plan| == |pts|
      modifies this`readCount, this`asked
      ensures |results| == |pts|
      ensures Ascending(direct) && forall k | k in direct :: k < |pts| && plan[k] < 0
      ensures asked == old(asked) + OneEach(pts, direct) && readCount == old(readCount) + |direct|
      ensures error.None? ==> !Lost(|old(asked)|, |asked|) && forall k | 0 <= k < |pts| && plan[k] < 0 :: k in direct
      ensures error.None? ==> forall k | 0 <= k < |pts| && plan[k] < 0 :: m.Direct(pts[k]) == Ok(results[k])
      ensures error.Some? ==>
                if Lost(|old(asked)|, |asked|) then error == Some(Network)
                else exists k | 0 <= k < |pts| :: m.Direct(pts[k]) == Err(error.value)
    {
      results, error, direct := seq(|pts|, _ => Value([], TypeBytes, UnspecifiedOrder, None)), None, [];
      for k := 0 to |pts|
        invariant |results| == |pts| && !Lost(|old(asked)|, |asked|)
        invariant Ascending(direct) && forall j | j in direct :: j < k && plan[j] < 0
        invariant forall j | 0 <= j < k && plan[j] < 0 :: j in direct
        invariant asked == old(asked) + OneEach(pts, direct) && readCount == old(readCount) + |direct|
        invariant forall j | 0 <= j < k && plan[j] < 0 :: m.Direct(pts[j]) == Ok(results[j])
      {
        if plan[k] < 0 {
          var r := Inner(m, pts[k]);
          AscendingSnoc(direct, k);
          direct := direct + [k];
          if r.Err? {
            return results, Some(r.error), direct;
          }
          results := results[k := r.value];
        }
      }
    }

    /** The windows a Read call needs, each once. */
    method Needed(plan: seq<int>) returns (needed: set<nat>)
      ensures forall i: nat :: i in needed <==> i in plan
    {
      needed := {};
      for k := 0 to |plan|
        invariant forall i: nat :: i in needed <==> i in plan[..k]
      {
        assert plan[..k + 1] == plan[..k] + [plan[k]];
        if plan[k] >= 0 {
          needed := needed + {plan[k]};
        }
      }
      assert plan[..|plan|] == plan;
    }

    /** One window read of a Read call that found the cache as `before` and has since read
        the windows in `order`. */
    method TakeBlock(m: Memory, now: nat, i: nat, ghost before: map<nat, Cached>, ghost order: seq<nat>) returns (r: Result<Value>)
      requires CacheOk() && m == world(now) && i < |windows| && i !in order
      requires forall j | j in cache :: cache[j].timestamp <= now
      requires Stored(before, cache, ttl, now, m, windows, order)
      modifies this`readCount, this`asked, this`cache
      ensures CacheOk() && forall j | j in cache :: cache[j].timestamp <= now
      ensures Live(before, ttl, now, i) ==> r == Ok(before[i].val) && readCount == old(readCount) && asked == old(asked) && cache == old(cache)
      ensures !Live(before, ttl, now, i) ==>
                && readCount == old(readCount) + 1 && asked == old(asked) + [[windows[i].merged]]
                && r == (if down(|old(asked)|) then Err(Network) else m.Direct(windows[i].merged))
                && (r.Ok? ==> Stored(before, cache, ttl, now, m, windows, order + [i]))
    {
      assert i in cache <==> i in before;
      r := ReadWindow(m, now, i);
      if r.Ok? && !Live(before, ttl, now, i) {
        StoredStep(before, old(cache), ttl, now, m, windows, order, i, r.value);
      }
    }

    /** The window reads of a Read call; the Go map yields them in any order. `order` are
        the windows that were read, none of which had a live entry. */
    method ReadBlocks(m: Memory, now: nat, needed: set<nat>)
      returns (blocks: map<nat, Value>, error: Option<Error>, ghost order: seq<nat>)
      requires CacheOk() && m == world(now) && forall i | i in needed :: i < |windows|
      requires forall j | j in cache :: cache[j].timestamp <= now
      modifies this`readCount, this`asked, this`cache
      ensures CacheOk() && forall j | j in cache :: cache[j].timestamp <= now
      ensures NoRepeats(order) && forall i | i in order :: i in needed && i < |windows| && !Live(old(cache), ttl, now, i)
      ensures AskedFor(old(asked), asked, windows, order) && readCount == old(readCount) + |order|
      ensures error.None? ==> !Lost(|old(asked)|, |asked|) && Progress(old(cache), ttl, now, m, windows, needed, {}, blocks, order)
      ensures error.None? ==> Stored(old(cache), cache, ttl, now, m, windows, order)
      ensures error.Some? && Lost(|old(asked)|, |asked|) ==> error == Some(Network)
      ensures error.Some? && !Lost(|old(asked)|, |asked|) ==> exists i: nat | i < |windows| :: m.Direct(windows[i].merged) == Err(error.value)
    {
      blocks, error, order := map[], None, [];
      ghost var before := cache;
      var left := needed;
      while exists i :: i in left
        invariant CacheOk() && forall j | j in cache :: cache[j].timestamp <= now
        invariant Progress(before, ttl, now, m, windows, needed, left, blocks, order) && !Lost(|old(asked)|, |asked|)
        invariant Stored(before, cache, ttl, now, m, windows, order)
        invariant AskedFor(old(asked), asked, windows, order) && readCount == old(readCount) + |order|
        decreases |left|
      {
        var i :| i in left;
        AskedMore(old(asked), asked, windows, order, i);
        LostStep(|old(asked)|, |asked|);
        var r := TakeBlock(m, now, i, before, order);
        if r.Err? {
          NoRepeatsSnoc(order, i);
          return blocks, Some(r.error), order + [i];
        }
        ProgressStep(before, ttl, now, m, windows, needed, left, blocks, order, i, r.value);
        order := if Live(before, ttl, now, i) then order else order + [i];
        blocks := blocks[i := r.value];
        left := left - {i};
      }
      assert left == {};
    }

    /** Registered points in range, of legal sizes, under legal caps. */
    ghost predicate Legal()
      reads this
    {
      AllInRange(points) && LegalCaps(limits) && LegalSizes(points)
    }

    /** Then no window read draws an error of its own, and no direct read of a point that
        some window serves would. */
    lemma LegalBlocks(m: Memory, i: nat)
      requires Valid() && Legal() && i < |windows|
      ensures m.Direct(windows[i].merged).Ok?
    {
      WindowIsAccepted(points, limits, windows, i);
    }

    lemma ServedIsLegal(m: Memory, dp: DataPoint)
      requires Valid() && Legal() && dp.InRange() && WindowFor(windows, dp) >= 0
      ensures m.Direct(dp).Ok?
    {
      CappedReadIsDirect(m, points, limits, windows, dp);
      LegalBlocks(m, WindowFor(windows, dp));
      var w := windows[WindowFor(windows, dp)];
      assert WindowOk(w, limits);
      ExtractedIsDirect(m, limits, w, dp, m.Direct(w.merged).value);
      CoversIsContains(w, limits, dp);
      SliceOfBlock(m, dp, w.start, w.count);
    }

    lemma FreshExtract(w: Window, p: Clusterable, block: Value, now: nat)
      requires WindowOk(w, limits) && p.InRange() && Covers(w, p)
      requires Fresh(w.merged, block, now)
      ensures Extracted(p, w, block).Values? && Fresh(p, Extracted(p, w, block).vals, now)
    {
      var t: nat :| FreshAt(w.merged, block, now, t);
      ExtractedIsDirect(world(t), limits, w, p, block);
      CoversIsContains(w, limits, p);
      SliceOfBlock(world(t), p, w.start, w.count);
      assert FreshAt(p, Extracted(p, w, block).vals, now, t);
    }

    /** Serving each clustered point out of its block; None is a panic. */
    method ExtractAll(pts: seq<DataPoint>, plan: seq<int>, blocks: map<nat, Value>, direct: seq<Value>)
      returns (results: Option<seq<Value>>)
      requires |plan| == |pts| == |direct|
      requires forall k | 0 <= k < |pts| && plan[k] >= 0 :: pts[k].Point? && plan[k] < |windows| && plan[k] in blocks
      ensures results.None? ==> exists k | 0 <= k < |pts| && plan[k] >= 0 :: Extracted(pts[k], windows[plan[k]], blocks[plan[k] as nat]).Panicked?
      ensures results.Some? ==> |results.value| == |pts| && forall k | 0 <= k < |pts| ::
                if plan[k] < 0 then results.value[k] == direct[k]
                else Extracted(pts[k], windows[plan[k]], blocks[plan[k] as nat]) == Values(results.value[k])
    {
      var vals := direct;
      for k := 0 to |pts|
        invariant |vals| == |pts|
        invariant forall j | 0 <= j < |pts| && (plan[j] < 0 || j >= k) :: vals[j] == direct[j]
        invariant forall j | 0 <= j < k && plan[j] >= 0 :: Extracted(pts[j], windows[plan[j]], blocks[plan[j] as nat]) == Values(vals[j])
      {
        if plan[k] >= 0 {
          var w, block := windows[plan[k]], blocks[plan[k] as nat];
          var v := ClusterExtract(pts[k], block, w.start);
          if v.None? {
            return None;
          }
          vals := vals[k := v.value.(dp := Some(pts[k]))];
        }
      }
      return Some(vals);
    }

    /** The blocks a Read uses are fresh, and so is what is cut out of them. */
    lemma ServedIsFresh(dp: DataPoint, now: nat, o: Outcome<Value>)
      requires Valid() && AllInRange(points) && dp.InRange() && forall j | j in cache :: cache[j].timestamp <= now
      requires ServedBy(cache, ttl, now, world(now), windows, dp, o)
      ensures o.Values? && Fresh(dp, o.vals, now)
    {
      var i := WindowFor(windows, dp);
      var v :| BlockRight(cache, ttl, now, world(now), windows, i, v) && Extracted(dp, windows[i], v) == o;
      assert WindowOk(windows[i], limits);
      assert FreshAt(windows[i].merged, v, now, if Live(cache, ttl, now, i) then cache[i].timestamp else now);
      FreshExtract(windows[i], dp, v, now);
    }

    lemma AllFresh(pts: seq<DataPoint>, now: nat)
      requires Valid() && AllInRange(points) && AllAskable(pts) && forall j | j in cache :: cache[j].timestamp <= now
      ensures forall k, o | 0 <= k < |pts| && ServedBy(cache, ttl, now, world(now), windows, pts[k], o) ::
                o.Values? && Fresh(pts[k], o.vals, now)
    {
      forall k, o | 0 <= k < |pts| && ServedBy(cache, ttl, now, world(now), windows, pts[k], o)
        ensures o.Values? && Fresh(pts[k], o.vals, now)
      {
        ServedIsFresh(pts[k], now, o);
      }
    }

    /** The clustered part of a Read call, after its direct reads. */
    method ReadClustered(m: Memory, now: nat, pts: seq<DataPoint>, plan: seq<int>, direct: seq<Value>)
      returns (r: Outcome<seq<Value>>, ghost order: seq<nat>)
      requires CacheOk() && m == world(now) && |plan| == |pts| == |direct|
      requires forall j | j in cache :: cache[j].timestamp <= now
      requires forall k | 0 <= k < |pts| :: plan[k] == WindowFor(windows, pts[k])
      modifies this`readCount, this`asked, this`cache
      ensures CacheOk() && forall j | j in cache :: cache[j].timestamp <= now
      ensures r.Values? ==> |r.vals| == |pts| && forall k | 0 <= k < |pts| && plan[k] < 0 :: r.vals[k] == direct[k]
      ensures r.Values? ==> forall k | 0 <= k < |pts| && plan[k] >= 0 :: ServedBy(old(cache), ttl, now, m, windows, pts[k], Values(r.vals[k]))
      ensures r.Panicked? ==> exists k | 0 <= k < |pts| :: ServedBy(old(cache), ttl, now, m, windows, pts[k], Panicked)
      ensures NoRepeats(order) && forall i | i in order :: i in plan && i < |windows| && !Live(old(cache), ttl, now, i)
      ensures asked == old(asked) + Blocks(windows, order) && readCount == old(readCount) + |order|
      ensures !r.Failed? ==> forall i: nat | i in plan :: i in order || Live(old(cache), ttl, now, i)
      ensures !r.Failed? ==> Stored(old(cache), cache, ttl, now, m, windows, order)
      ensures Lost(|old(asked)|, |asked|) ==> r == Failed(Network)
      ensures !Lost(|old(asked)|, |asked|) && r.Failed? ==> exists i: nat | i < |windows| :: m.Direct(windows[i].merged) == Err(r.error)
    {
      var needed := Needed(plan);
      forall i | i in needed ensures i < |windows| { assert (i as int) in plan; }
      var blocks, error;
      blocks, error, order := ReadBlocks(m, now, needed);
      AskedBlocks(old(asked), asked, windows, order);
      if error.Some? {
        return Failed(error.value), order;
      }
      forall k | 0 <= k < |pts| && plan[k] >= 0 ensures plan[k] in blocks { assert plan[k] in needed; }
      var vals := ExtractAll(pts, plan, blocks, direct);
      r := if vals.Some? then Values(vals.value) else Panicked;
      forall k | 0 <= k < |pts| && plan[k] >= 0
        ensures ServedBy(old(cache), ttl, now, m, windows, pts[k], Extracted(pts[k], windows[plan[k]], blocks[plan[k] as nat]))
      {
        assert BlockRight(old(cache), ttl, now, m, windows, plan[k], blocks[plan[k] as nat]);
      }
    }

    /** Read with clustering on. */
    method ReadEnabled(m: Memory, now: nat, pts: seq<DataPoint>)
      returns (r: Outcome<seq<Value>>, ghost direct: seq<nat>, ghost order: seq<nat>)
      requires Valid() && m == world(now)
      requires forall j | j in cache :: cache[j].timestamp <= now
      modifies this`readCount, this`asked, this`cache
      ensures Valid() && forall j | j in cache :: cache[j].timestamp <= now
      ensures Ascending(direct) && forall k | k in direct :: k < |pts| && WindowFor(windows, pts[k]) < 0
      ensures NoRepeats(order) && forall i | i in order ::
                i < |windows| && !Live(old(cache), ttl, now, i) && exists k | 0 <= k < |pts| :: WindowFor(windows, pts[k]) == i
      ensures asked == old(asked) + OneEach(pts, direct) + Blocks(windows, order)
      ensures readCount == old(readCount) + |direct| + |order|
      ensures !r.Failed? ==> forall k | 0 <= k < |pts| :: var i := WindowFor(windows, pts[k]);
                if i < 0 then k in direct && m.Direct(pts[k]).Ok? else i in order || Live(old(cache), ttl, now, i)
      ensures !r.Failed? ==> Stored(old(cache), cache, ttl, now, m, windows, order)
      ensures r.Values? ==> |r.vals| == |pts| && forall k | 0 <= k < |pts| ::
                if WindowFor(windows, pts[k]) < 0 then m.Direct(pts[k]) == Ok(r.vals[k])
                else ServedBy(old(cache), ttl, now, m, windows, pts[k], Values(r.vals[k]))
      ensures AllInRange(points) && AllAskable(pts) ==> !r.Panicked?
      ensures AllInRange(points) && AllAskable(pts) && r.Values? ==> forall k | 0 <= k < |pts| :: Fresh(pts[k], r.vals[k], now)
      ensures Lost(|old(asked)|, |asked|) ==> r == Failed(Network)
      ensures !Lost(|old(asked)|, |asked|) && r.Failed? ==>
                || (exists k | 0 <= k < |pts| :: m.Direct(pts[k]) == Err(r.error))
                || (exists i: nat | i < |windows| :: m.Direct(windows[i].merged) == Err(r.error))
    {
      order := [];
      var plan := Assign(pts);
      var results, error;
      results, error, direct := ReadDirects(m, pts, plan);
      if error.Some? {
        return Failed(error.value), direct, order;
      }
      if AllInRange(points) && AllAskable(pts) { AllFresh(pts, now); }
      DirectIsFresh(pts, now);
      r, order := ReadClustered(m, now, pts, plan, results);
    }

    /** With legal caps and sizes no window read is refused. */
    lemma AllBlocksLegal(m: Memory)
      requires Valid() && Legal()
      ensures forall i: nat | i < |windows| :: m.Direct(windows[i].merged).Ok?
    {
      forall i: nat | i < |windows| ensures m.Direct(windows[i].merged).Ok? { LegalBlocks(m, i); }
    }

    lemma NoneRefused(m: Memory, pts: seq<DataPoint>)
      requires Valid() && Legal() && AllAskable(pts)
      ensures forall k | 0 <= k < |pts| && WindowFor(windows, pts[k]) >= 0 :: m.Direct(pts[k]).Ok?
    {
      forall k | 0 <= k < |pts| && WindowFor(windows, pts[k]) >= 0 ensures m.Direct(pts[k]).Ok? { ServedIsLegal(m, pts[k]); }
    }

    lemma DirectIsFresh(pts: seq<DataPoint>, now: nat)
      ensures forall k, v | 0 <= k < |pts| && world(now).Direct(pts[k]) == Ok(v) :: Fresh(pts[k], v, now)
    {
      forall k, v | 0 <= k < |pts| && world(now).Direct(pts[k]) == Ok(v) ensures Fresh(pts[k], v, now) {
        assert FreshAt(pts[k], v, now, now);
      }
    }

    /** Read with clustering off. */
    method PassThrough(m: Memory, now: nat, pts: seq<DataPoint>) returns (r: Outcome<seq<Value>>)
      requires m == world(now)
      modifies this`readCount, this`asked
      ensures asked == old(asked) + [pts] && readCount == old(readCount) + |pts| && !r.Panicked?
      ensures Lost(|old(asked)|, |asked|) ==> r == Failed(Network)
      ensures !Lost(|old(asked)|, |asked|) && r.Failed? ==> exists k | 0 <= k < |pts| :: m.Direct(pts[k]) == Err(r.error)
      ensures r.Values? ==> |r.vals| == |pts| && forall k | 0 <= k < |pts| :: m.Direct(pts[k]) == Ok(r.vals[k]) && Fresh(pts[k], r.vals[k], now)
    {
      var all := InnerAll(m, pts);
      if all.Err? {
        return Failed(all.error);
      }
      DirectIsFresh(pts, now);
      return Values(all.value);
    }

    /** Read. The device memory at the moment of the call is m. Whenever the registered
        and requested ranges are in range the call does not panic, and each value it
        returns is the value a direct read of that point gave no longer ago than the
        cache lifetime: with caching off, the value it gives now. It fails when the transport
        failed one of its calls; otherwise, with legal caps and registered sizes, it fails if
        and only if the direct read of some requested point does, and with the error of one
        that does.

        With clustering off everything is handed on in one call. With clustering on it calls
        the inner reader for each point that no window covers, in the order asked (`direct`),
        then once for each window that covers some requested point and has no live cache
        entry, in any order (`order`), and for nothing else; it stops at the first failure.
        Every other point is cut out of the live entry of its first covering window, or else
        out of the block just read, which is cached if caching is on. */
    method Read(m: Memory, now: nat, pts: seq<DataPoint>)
      returns (r: Outcome<seq<Value>>, ghost direct: seq<nat>, ghost order: seq<nat>)
      requires Valid() && m == world(now)
      requires forall j | j in cache :: cache[j].timestamp <= now
      modifies this`readCount, this`asked, this`cache
      ensures Valid() && forall j | j in cache :: cache[j].timestamp <= now
      ensures AllInRange(points) && AllAskable(pts) ==> !r.Panicked?
      ensures AllInRange(points) && AllAskable(pts) && r.Values? ==>
                && |r.vals| == |pts|
                && forall k | 0 <= k < |pts| :: Fresh(pts[k], r.vals[k], now)
      ensures AllInRange(points) && AllAskable(pts) && r.Values? && ttl == 0 ==>
                && |r.vals| == |pts|
                && forall k | 0 <= k < |pts| :: m.Direct(pts[k]) == Ok(r.vals[k])
      ensures Lost(|old(asked)|, |asked|) ==> r == Failed(Network)
      ensures Legal() && AllAskable(pts) && !Lost(|old(asked)|, |asked|) ==>
                (r.Failed? <==> exists k | 0 <= k < |pts| :: m.Direct(pts[k]).Err?)
      ensures Legal() && AllAskable(pts) && !Lost(|old(asked)|, |asked|) && r.Failed? ==>
                exists k | 0 <= k < |pts| :: m.Direct(pts[k]) == Err(r.error)
      // clustering off
      ensures !enabled ==> asked == old(asked) + [pts] && readCount == old(readCount) + |pts| && cache == old(cache)
      ensures !enabled && r.Values? ==> |r.vals| == |pts| && forall k | 0 <= k < |pts| :: m.Direct(pts[k]) == Ok(r.vals[k])
      // clustering on: the calls made
      ensures enabled ==> Ascending(direct) && forall k | k in direct :: k < |pts| && WindowFor(windows, pts[k]) < 0
      ensures enabled ==> NoRepeats(order) && forall i | i in order ::
                && i < |windows| && (exists k | 0 <= k < |pts| :: WindowFor(windows, pts[k]) == i)
                && !(ttl > 0 && i in old(cache) && now - old(cache)[i].timestamp < ttl)
      ensures enabled ==> asked == old(asked) + OneEach(pts, direct) + Blocks(windows, order)
      ensures enabled ==> readCount == old(readCount) + |direct| + |order|
      ensures enabled && !r.Failed? ==> forall k | 0 <= k < |pts| :: var i := WindowFor(windows, pts[k]);
                if i < 0 then k in direct else i in order || (ttl > 0 && i in old(cache) && now - old(cache)[i].timestamp < ttl)
      // clustering on: the values, and the cache afterwards
      ensures enabled && r.Values? ==> |r.vals| == |pts| && forall k | 0 <= k < |pts| :: var i := WindowFor(windows, pts[k]);
                if i < 0 then m.Direct(pts[k]) == Ok(r.vals[k])
                else if ttl > 0 && i in old(cache) && now - old(cache)[i].timestamp < ttl
                then Extracted(pts[k], windows[i], old(cache)[i].val) == Values(r.vals[k])
                else m.Direct(windows[i].merged).Ok? && Extracted(pts[k], windows[i], m.Direct(windows[i].merged).value) == Values(r.vals[k])
      ensures enabled && !r.Failed? ==> forall i: nat ::
                && (i in cache <==> i in old(cache) || (ttl > 0 && i in order))
                && (i in cache && !(ttl > 0 && i in order) ==> cache[i] == old(cache)[i])
                && (ttl > 0 && i in order ==> m.Direct(windows[i].merged) == Ok(cache[i].val) && cache[i].timestamp == now)
    {
      if !enabled {
        direct, order := [], [];
        r := PassThrough(m, now, pts);
        return;
      }
      if Legal() && AllAskable(pts) {
        AllBlocksLegal(m);
        NoneRefused(m, pts);
      }
      r, direct, order := ReadEnabled(m, now, pts);
    }
  }

  function WindowFor(windows: seq<Window>, dp: DataPoint): (i: int)
    ensures -1 <= i < |windows|
    ensures i >= 0 ==> dp.Point? && Covers(windows[i], dp) && forall j | 0 <= j < i :: !Covers(windows[j], dp)
    ensures i < 0 && dp.Point? ==> forall j | 0 <= j < |windows| :: !Covers(windows[j], dp)
  {
    if dp.Point? then FirstCovering(windows, dp, 0) else -1
  }

  /** Ranges in range, or points of another protocol. */
  predicate AllAskable(pts: seq<DataPoint>) {
    forall k | 0 <= k < |pts| :: pts[k].InRange() || pts[k].Foreign?
  }
}
