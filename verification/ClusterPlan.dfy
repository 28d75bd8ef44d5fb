/** The read planner (monitor/cluster_plan.go): registered points are grouped by
    area, sorted by address and merged greedily into windows. */
module ClusterPlan {
  import opened Bytes
  import opened DataPoints

  datatype Limits = Limits(gap: u16, maxRegisters: u16, maxCoils: u16) {
    function MaxPerRead(area: Area): u16 { if area.IsBits() then maxCoils else maxRegisters }
  }

  /** A finished window; `merged` is the point that reads it in one request. */
  datatype Window = Window(area: Area, start: u16, count: u16, merged: DataPoint, points: seq<Clusterable>)

  /** The window under construction: winStart, winEnd and winPoints. */
  datatype Open = Open(start: u16, end: u16, points: seq<Clusterable>)

  function Begin(p: Clusterable): Open { Open(p.addr, p.End16(), [p]) }

  /** The merge test, in uint16 arithmetic. */
  predicate CanMerge(w: Open, p: Clusterable, gap: u16, max: u16) {
    var distance := if p.addr > w.end then Sub16(p.addr, w.end) else 0;
    var mergedCount := if p.End16() < w.start then Sub16(w.end, w.start) else Sub16(p.End16(), w.start);
    distance <= gap && mergedCount <= max
  }

  function Extend(w: Open, p: Clusterable): Open {
    Open(w.start, if p.End16() > w.end then p.End16() else w.end, w.points + [p])
  }

  function Flush(area: Area, w: Open): Window {
    var count := Sub16(w.end, w.start);
    Window(area, w.start, count, Point(area, w.start, count), w.points)
  }

  /** What the merge pass appends, given the open window and the points to come. */
  function Merge(area: Area, w: Open, rest: seq<Clusterable>, gap: u16, max: u16): (r: seq<Window>)
    ensures |r| >= 1
    decreases |rest|
  {
    if rest == [] then [Flush(area, w)]
    else if CanMerge(w, rest[0], gap, max) then Merge(area, Extend(w, rest[0]), rest[1..], gap, max)
    else [Flush(area, w)] + Merge(area, Begin(rest[0]), rest[1..], gap, max)
  }

  /** The windows of one sorted group. */
  function Windows(area: Area, pts: seq<Clusterable>, gap: u16, max: u16): seq<Window> {
    if pts == [] then [] else Merge(area, Begin(pts[0]), pts[1..], gap, max)
  }

  predicate SortedByAddr(pts: seq<Clusterable>) {
    forall i, j | 0 <= i < j < |pts| :: pts[i].addr <= pts[j].addr
  }

  predicate AllInRange(pts: seq<Clusterable>) {
    forall i | 0 <= i < |pts| :: pts[i].InRange()
  }

  predicate AllOfArea(pts: seq<Clusterable>, area: Area) {
    forall i | 0 <= i < |pts| :: pts[i].area == area
  }

  // ------------------------------------------------------------------
  // What a window guarantees
  // ------------------------------------------------------------------

  predicate CoversAddr(pts: seq<Clusterable>, x: int) {
    exists i | 0 <= i < |pts| :: pts[i].addr <= x < pts[i].addr + pts[i].qty
  }

  /** Every run of addresses in [lo, hi) that no point covers is at most gap long. */
  ghost predicate GapsBounded(pts: seq<Clusterable>, lo: int, hi: int, gap: int) {
    forall a: int, b: int | lo <= a < b <= hi && Uncovered(pts, a, b) :: b - a <= gap
  }

  ghost predicate Uncovered(pts: seq<Clusterable>, a: int, b: int) {
    forall x | a <= x < b :: !CoversAddr(pts, x)
  }

  predicate Contains(lo: int, hi: int, p: Clusterable) {
    lo <= p.addr && p.addr + p.qty <= hi
  }

  /** A range [lo, hi) that fits the points it serves: it starts at the first one,
      ends at the last address any of them covers, contains each of them, is no
      longer than the read limit (or than its first point, if that alone exceeds
      it) and wastes no uncovered run longer than the gap threshold. */
  ghost predicate Fits(pts: seq<Clusterable>, lo: int, hi: int, gap: int, max: int) {
    && pts != [] && AllInRange(pts)
    && lo == pts[0].addr
    && CoversAddr(pts, hi - 1)
    && (forall i | 0 <= i < |pts| :: Contains(lo, hi, pts[i]))
    && (hi - lo <= max || hi - lo <= pts[0].qty)
    && GapsBounded(pts, lo, hi, gap)
  }

  ghost predicate WindowOk(w: Window, limits: Limits) {
    && w.merged == Point(w.area, w.start, w.count)
    && 1 <= w.count && w.start + w.count <= 0xFFFF
    && AllOfArea(w.points, w.area)
    && Fits(w.points, w.start, w.start + w.count, limits.gap, limits.MaxPerRead(w.area))
  }

  function PointsOf(ws: seq<Window>): seq<Clusterable> {
    if ws == [] then [] else ws[0].points + PointsOf(ws[1..])
  }

  lemma {:induction false} PointsOfConcat(a: seq<Window>, b: seq<Window>)
    ensures PointsOf(a + b) == PointsOf(a) + PointsOf(b)
  {
    if a == [] {
      assert a + b == b;
    } else {
      assert (a + b)[1..] == a[1..] + b;
      PointsOfConcat(a[1..], b);
    }
  }

  /** The state of the merge pass between two points. */
  ghost predicate OpenOk(w: Open, gap: int, max: int) {
    w.start < w.end && Fits(w.points, w.start, w.end, gap, max)
  }

  lemma BeginOk(p: Clusterable, gap: u16, max: u16)
    requires p.InRange()
    ensures OpenOk(Begin(p), gap, max)
  {
    var w := Begin(p);
    assert w.points[0] == p;
    forall a: int, b: int | w.start <= a < b <= w.end ensures !Uncovered(w.points, a, b) {
      assert w.points[0].addr <= a;
      assert CoversAddr(w.points, a);
    }
    assert CoversAddr(w.points, w.end - 1);
  }

  lemma CoversMore(pts: seq<Clusterable>, p: Clusterable, x: int)
    ensures CoversAddr(pts + [p], x) <==> CoversAddr(pts, x) || p.addr <= x < p.addr + p.qty
  {
    var more := pts + [p];
    if CoversAddr(pts, x) {
      var i :| 0 <= i < |pts| && pts[i].addr <= x < pts[i].addr + pts[i].qty;
      assert more[i] == pts[i];
    }
    assert more[|pts|] == p;
  }

  lemma ExtendGaps(w: Open, p: Clusterable, gap: u16, max: u16)
    requires OpenOk(w, gap, max) && p.InRange() && w.start <= p.addr
    requires CanMerge(w, p, gap, max)
    ensures GapsBounded(w.points + [p], w.start, Extend(w, p).end, gap)
  {
    forall a: int, b: int | w.start <= a < b <= Extend(w, p).end && Uncovered(w.points + [p], a, b)
      ensures b - a <= gap
    {
      forall x | a <= x < b ensures !CoversAddr(w.points, x) {
        assert !CoversAddr(w.points + [p], x);
        CoversMore(w.points, p, x);
      }
      assert Uncovered(w.points, a, b);
      if b > w.end {
        assert !CoversAddr(w.points + [p], b - 1);
        CoversMore(w.points, p, b - 1);
        assert a < w.end ==> !CoversAddr(w.points, w.end - 1);
      }
    }
  }

  lemma ExtendOk(w: Open, p: Clusterable, gap: u16, max: u16)
    requires OpenOk(w, gap, max) && p.InRange() && w.start <= p.addr
    requires CanMerge(w, p, gap, max)
    ensures OpenOk(Extend(w, p), gap, max)
  {
    var w' := Extend(w, p);
    ExtendGaps(w, p, gap, max);
    CoversMore(w.points, p, w'.end - 1);
    forall i | 0 <= i < |w'.points| ensures w'.points[i].InRange() && Contains(w.start, w'.end, w'.points[i]) {
      if i < |w.points| {
        assert Contains(w.start, w.end, w.points[i]);
      }
    }
  }

  lemma FlushOk(area: Area, w: Open, limits: Limits)
    requires OpenOk(w, limits.gap, limits.MaxPerRead(area)) && AllOfArea(w.points, area)
    ensures WindowOk(Flush(area, w), limits)
  {
  }

  /** The merge pass keeps every point, in order, and emits only windows that fit. */
  lemma {:induction false} MergeOk(area: Area, w: Open, rest: seq<Clusterable>, limits: Limits)
    requires OpenOk(w, limits.gap, limits.MaxPerRead(area))
    requires AllOfArea(w.points, area) && AllOfArea(rest, area) && AllInRange(rest)
    requires SortedByAddr(rest) && (rest != [] ==> w.start <= rest[0].addr)
    ensures var ws := Merge(area, w, rest, limits.gap, limits.MaxPerRead(area));
            && PointsOf(ws) == w.points + rest
            && forall i | 0 <= i < |ws| :: WindowOk(ws[i], limits)
    decreases |rest|
  {
    var gap, max := limits.gap, limits.MaxPerRead(area);
    var ws := Merge(area, w, rest, gap, max);
    FlushOk(area, w, limits);
    if rest == [] {
      assert PointsOf(ws) == w.points + PointsOf([]);
    } else if CanMerge(w, rest[0], gap, max) {
      ExtendOk(w, rest[0], gap, max);
      MergeOk(area, Extend(w, rest[0]), rest[1..], limits);
      assert w.points + [rest[0]] + rest[1..] == w.points + rest;
    } else {
      BeginOk(rest[0], gap, max);
      MergeOk(area, Begin(rest[0]), rest[1..], limits);
      assert ws[1..] == Merge(area, Begin(rest[0]), rest[1..], gap, max);
      assert [rest[0]] + rest[1..] == rest;
    }
  }

  lemma WindowsOk(area: Area, pts: seq<Clusterable>, limits: Limits)
    requires AllOfArea(pts, area) && AllInRange(pts) && SortedByAddr(pts)
    ensures var ws := Windows(area, pts, limits.gap, limits.MaxPerRead(area));
            && PointsOf(ws) == pts
            && forall i | 0 <= i < |ws| :: WindowOk(ws[i], limits)
  {
    if pts != [] {
      BeginOk(pts[0], limits.gap, limits.MaxPerRead(area));
      MergeOk(area, Begin(pts[0]), pts[1..], limits);
      assert [pts[0]] + pts[1..] == pts;
    }
  }

  // ------------------------------------------------------------------
  // buildWindows
  // ------------------------------------------------------------------

  /** The points of one area, in registration order (groups[key] in the code). */
  function OfArea(points: seq<Clusterable>, area: Area): (r: seq<Clusterable>)
    ensures AllOfArea(r, area)
    ensures AllInRange(points) ==> AllInRange(r)
  {
    if points == [] then []
    else
      var n := |points| - 1;
      OfArea(points[..n], area) + (if points[n].area == area then [points[n]] else [])
  }

  /** Grouping loses and duplicates nothing. */
  lemma {:induction false} GroupsPartition(points: seq<Clusterable>, p: Clusterable)
    ensures multiset(OfArea(points, p.area))[p] == multiset(points)[p]
    ensures forall area: Area | area != p.area :: multiset(OfArea(points, area))[p] == 0
  {
    if points != [] {
      var n := |points| - 1;
      GroupsPartition(points[..n], p);
      assert points == points[..n] + [points[n]];
    }
    forall area: Area | area != p.area ensures multiset(OfArea(points, area))[p] == 0 {
      assert p !in OfArea(points, area) by { assert AllOfArea(OfArea(points, area), area); }
    }
  }

  /** sort.Slice by address. The order of points with equal addresses is left open,
      as it is in the library. */
  method SortByAddr(pts: seq<Clusterable>) returns (r: seq<Clusterable>)
    ensures SortedByAddr(r)
    ensures multiset(r) == multiset(pts)
  {
    r := [];
    for i := 0 to |pts|
      invariant SortedByAddr(r)
      invariant multiset(r) == multiset(pts[..i])
    {
      assert pts[..i + 1] == pts[..i] + [pts[i]];
      r := InsertByAddr(r, pts[i]);
    }
    assert pts[..|pts|] == pts;
  }

  method InsertByAddr(s: seq<Clusterable>, p: Clusterable) returns (r: seq<Clusterable>)
    requires SortedByAddr(s)
    ensures SortedByAddr(r)
    ensures multiset(r) == multiset(s) + multiset{p}
  {
    var k := |s|;
    while k > 0 && s[k - 1].addr > p.addr
      invariant 0 <= k <= |s|
      invariant forall j | k <= j < |s| :: p.addr < s[j].addr
    {
      k := k - 1;
    }
    InsertSorted(s, k, p);
    InsertMultiset(s, k, p);
    r := s[..k] + [p] + s[k..];
  }

  lemma InsertSorted(s: seq<Clusterable>, k: nat, p: Clusterable)
    requires SortedByAddr(s) && k <= |s|
    requires k > 0 ==> s[k - 1].addr <= p.addr
    requires forall j | k <= j < |s| :: p.addr < s[j].addr
    ensures SortedByAddr(s[..k] + [p] + s[k..])
  {
  }

  lemma InsertMultiset(s: seq<Clusterable>, k: nat, p: Clusterable)
    requires k <= |s|
    ensures multiset(s[..k] + [p] + s[k..]) == multiset(s) + multiset{p}
  {
    assert s == s[..k] + s[k..];
  }

  /** The merge pass over one sorted group. */
  method MergeGroup(area: Area, pts: seq<Clusterable>, limits: Limits) returns (windows: seq<Window>)
    requires pts != []
    ensures windows == Windows(area, pts, limits.gap, limits.MaxPerRead(area))
  {
    var max := limits.MaxPerRead(area);
    var w := Begin(pts[0]);
    windows := [];
    for i := 1 to |pts|
      invariant windows + Merge(area, w, pts[i..], limits.gap, max) == Windows(area, pts, limits.gap, max)
    {
      var p := pts[i];
      assert pts[i..][0] == p && pts[i..][1..] == pts[i + 1..];
      if CanMerge(w, p, limits.gap, max) {
        w := Extend(w, p);
      } else {
        assert windows + ([Flush(area, w)] + Merge(area, Begin(p), pts[i + 1..], limits.gap, max))
            == windows + [Flush(area, w)] + Merge(area, Begin(p), pts[i + 1..], limits.gap, max);
        windows := windows + [Flush(area, w)];
        w := Begin(p);
      }
    }
    windows := windows + [Flush(area, w)];
  }

  /** The areas in the order sort.Strings puts their keys. */
  function AreaAt(k: nat): Area
    requires k < 4
  {
    if k == 0 then Coil else if k == 1 then DiscreteInput else if k == 2 then HoldingRegister else InputRegister
  }

  function Rank(area: Area): (k: nat)
    ensures k < 4 && AreaAt(k) == area
  {
    match area case Coil => 0 case DiscreteInput => 1 case HoldingRegister => 2 case InputRegister => 3
  }

  /** A plan for a set of registered points: every window fits its points, and the
      windows together hold each registered point exactly as often as it was
      registered. */
  ghost predicate PlanOk(points: seq<Clusterable>, limits: Limits, windows: seq<Window>) {
    && multiset(PointsOf(windows)) == multiset(points)
    && forall i | 0 <= i < |windows| :: WindowOk(windows[i], limits)
  }

  /** g is an address-sorted arrangement of the points of the k-th area. */
  ghost predicate IsGroup(points: seq<Clusterable>, k: nat, g: seq<Clusterable>) {
    k < 4 && SortedByAddr(g) && multiset(g) == multiset(OfArea(points, AreaAt(k)))
  }

  /** windows are the greedy windows of the sorted groups, area by area. */
  ghost predicate GreedyWindows(points: seq<Clusterable>, limits: Limits, windows: seq<Window>, groups: seq<seq<Clusterable>>) {
    && |groups| == 4
    && (forall k: nat | k < 4 :: IsGroup(points, k, groups[k]))
    && windows == AllWindows(groups, limits)
  }

  function GroupWindows(k: nat, g: seq<Clusterable>, limits: Limits): seq<Window>
    requires k < 4
  {
    Windows(AreaAt(k), g, limits.gap, limits.MaxPerRead(AreaAt(k)))
  }

  function AllWindows(groups: seq<seq<Clusterable>>, limits: Limits): seq<Window>
    requires |groups| <= 4
  {
    if groups == [] then []
    else AllWindows(groups[..|groups| - 1], limits) + GroupWindows(|groups| - 1, groups[|groups| - 1], limits)
  }

  lemma {:induction false} AllWindowsSnoc(groups: seq<seq<Clusterable>>, g: seq<Clusterable>, limits: Limits)
    requires |groups| < 4
    ensures AllWindows(groups + [g], limits) == AllWindows(groups, limits) + GroupWindows(|groups|, g, limits)
  {
  }

  method PlanArea(points: seq<Clusterable>, k: nat, limits: Limits)
    returns (windows: seq<Window>, pts: seq<Clusterable>)
    requires k < 4
    ensures IsGroup(points, k, pts)
    ensures windows == GroupWindows(k, pts, limits)
  {
    windows := [];
    pts := SortByAddr(OfArea(points, AreaAt(k)));
    if pts != [] {
      windows := MergeGroup(AreaAt(k), pts, limits);
    }
  }

  /** buildWindows. The ghost result records the sorted groups. */
  method BuildWindows(points: seq<Clusterable>, limits: Limits)
    returns (windows: seq<Window>, ghost groups: seq<seq<Clusterable>>)
    ensures GreedyWindows(points, limits, windows, groups)
    ensures AllInRange(points) ==> PlanOk(points, limits, windows)
  {
    windows, groups := [], [];
    for k := 0 to 4
      invariant |groups| == k
      invariant forall j: nat | j < k :: IsGroup(points, j, groups[j])
      invariant windows == AllWindows(groups, limits)
    {
      var ws, pts := PlanArea(points, k, limits);
      AllWindowsSnoc(groups, pts, limits);
      windows := windows + ws;
      groups := groups + [pts];
    }
    if AllInRange(points) {
      GreedyIsPlan(points, limits, windows, groups);
    }
  }

  lemma SamePoints(a: seq<Clusterable>, b: seq<Clusterable>, area: Area)
    requires multiset(a) == multiset(b)
    ensures AllOfArea(a, area) ==> AllOfArea(b, area)
    ensures AllInRange(a) ==> AllInRange(b)
  {
    forall i | 0 <= i < |b| ensures b[i] in a {
      assert b[i] in multiset(b);
    }
  }

  lemma {:induction false} GroupWindowsOk(points: seq<Clusterable>, k: nat, g: seq<Clusterable>, limits: Limits)
    requires AllInRange(points) && IsGroup(points, k, g)
    ensures var ws := GroupWindows(k, g, limits);
            PointsOf(ws) == g && forall i | 0 <= i < |ws| :: WindowOk(ws[i], limits)
  {
    SamePoints(OfArea(points, AreaAt(k)), g, AreaAt(k));
    WindowsOk(AreaAt(k), g, limits);
  }

  lemma {:induction false} AllWindowsOk(points: seq<Clusterable>, groups: seq<seq<Clusterable>>, limits: Limits)
    requires AllInRange(points) && |groups| <= 4
    requires forall j: nat | j < |groups| :: IsGroup(points, j, groups[j])
    ensures var ws := AllWindows(groups, limits);
            PointsOf(ws) == Flat(groups) && forall i | 0 <= i < |ws| :: WindowOk(ws[i], limits)
    decreases |groups|
  {
    if groups != [] {
      var n := |groups| - 1;
      AllWindowsOk(points, groups[..n], limits);
      GroupWindowsOk(points, n, groups[n], limits);
      PointsOfConcat(AllWindows(groups[..n], limits), GroupWindows(n, groups[n], limits));
    }
  }

  function Flat(groups: seq<seq<Clusterable>>): seq<Clusterable> {
    if groups == [] then [] else Flat(groups[..|groups| - 1]) + groups[|groups| - 1]
  }

  lemma {:induction false} GroupCount(points: seq<Clusterable>, k: nat, g: seq<Clusterable>, p: Clusterable)
    requires IsGroup(points, k, g)
    ensures multiset(g)[p] == if Rank(p.area) == k then multiset(points)[p] else 0
  {
    GroupsPartition(points, p);
    assert AreaAt(k) == p.area <==> k == Rank(p.area);
  }

  /** A point counted n times in its own group and in no other counts n times in all. */
  lemma {:induction false} FlatCount(groups: seq<seq<Clusterable>>, p: Clusterable, rank: nat, n: nat)
    requires forall k: nat | k < |groups| :: multiset(groups[k])[p] == if rank == k then n else 0
    ensures multiset(Flat(groups))[p] == if rank < |groups| then n else 0
    decreases |groups|
  {
    if groups != [] {
      var m := |groups| - 1;
      FlatCount(groups[..m], p, rank, n);
      CountJoin(Flat(groups[..m]), groups[m], p);
    }
  }

  lemma CountJoin(a: seq<Clusterable>, b: seq<Clusterable>, p: Clusterable)
    ensures multiset(a + b)[p] == multiset(a)[p] + multiset(b)[p]
  {
  }

  lemma {:induction false} GreedyIsPlan(points: seq<Clusterable>, limits: Limits, windows: seq<Window>, groups: seq<seq<Clusterable>>)
    requires AllInRange(points) && GreedyWindows(points, limits, windows, groups)
    ensures PlanOk(points, limits, windows)
  {
    AllWindowsOk(points, groups, limits);
    forall p: Clusterable ensures multiset(Flat(groups))[p] == multiset(points)[p] {
      forall k: nat | k < 4 ensures multiset(groups[k])[p] == if Rank(p.area) == k then multiset(points)[p] else 0 {
        GroupCount(points, k, groups[k], p);
      }
      FlatCount(groups, p, Rank(p.area), multiset(points)[p]);
    }
  }

  // ------------------------------------------------------------------
  // findWindow
  // ------------------------------------------------------------------

  /** The cover test of findWindow, in uint16 arithmetic. */
  predicate Covers(w: Window, p: Clusterable) {
    w.area == p.area && p.addr >= w.start && p.End16() <= Add16(w.start, w.count)
  }

  /** The first window that covers p, or -1. */
  function FirstCovering(windows: seq<Window>, p: Clusterable, from: nat): (i: int)
    requires from <= |windows|
    ensures i == -1 || from <= i < |windows|
    ensures i == -1 ==> forall j | from <= j < |windows| :: !Covers(windows[j], p)
    ensures i >= 0 ==> Covers(windows[i], p) && forall j | from <= j < i :: !Covers(windows[j], p)
    decreases |windows| - from
  {
    if from == |windows| then -1
    else if Covers(windows[from], p) then from
    else FirstCovering(windows, p, from + 1)
  }

  method FindWindow(windows: seq<Window>, p: Clusterable) returns (i: int)
    ensures i == FirstCovering(windows, p, 0)
    ensures i == -1 || (0 <= i < |windows| && Covers(windows[i], p))
  {
    i := 0;
    while i < |windows|
      invariant 0 <= i <= |windows|
      invariant FirstCovering(windows, p, 0) == FirstCovering(windows, p, i)
    {
      if Covers(windows[i], p) {
        return i;
      }
      i := i + 1;
    }
    return -1;
  }

  lemma {:induction false} InSomeWindow(ws: seq<Window>, p: Clusterable) returns (i: nat)
    requires p in PointsOf(ws)
    ensures i < |ws| && p in ws[i].points
  {
    if p in ws[0].points {
      i := 0;
    } else {
      var k := InSomeWindow(ws[1..], p);
      i := k + 1;
    }
  }

  lemma {:induction false} OwnWindowCovers(w: Window, limits: Limits, p: Clusterable)
    requires WindowOk(w, limits) && p in w.points
    ensures p.InRange() && Covers(w, p)
  {
  }

  /** For a point in range, the uint16 cover test means containment. */
  lemma {:induction false} CoversIsContains(w: Window, limits: Limits, p: Clusterable)
    requires WindowOk(w, limits) && p.InRange()
    ensures Covers(w, p) <==> w.area == p.area && Contains(w.start, w.start + w.count, p)
  {
  }

  /** Every registered point is served by a window that really contains it. */
  lemma {:induction false} RegisteredIsCovered(points: seq<Clusterable>, limits: Limits, windows: seq<Window>, p: Clusterable)
    requires PlanOk(points, limits, windows) && p in points
    ensures p.InRange()
    ensures var i := FirstCovering(windows, p, 0);
            && 0 <= i < |windows| && windows[i].area == p.area
            && Contains(windows[i].start, windows[i].start + windows[i].count, p)
  {
    assert p in multiset(PointsOf(windows));
    var k := InSomeWindow(windows, p);
    OwnWindowCovers(windows[k], limits, p);
    var i := FirstCovering(windows, p, 0);
    assert i != -1;
    CoversIsContains(windows[i], limits, p);
  }
}
