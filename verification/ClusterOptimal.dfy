/** Greedy merging is optimal: no split of a sorted group into consecutive runs that
    respects the limits needs fewer reads than the planner's windows. */
module ClusterOptimal {
  import opened Bytes
  import opened DataPoints
  import opened ClusterPlan

  /** The furthest exclusive end address of a run. */
  function MaxEnd(g: seq<Clusterable>): int
    requires g != []
  {
    var n := |g| - 1;
    var last := g[n].addr + g[n].qty;
    if n == 0 then last else if MaxEnd(g[..n]) > last then MaxEnd(g[..n]) else last
  }

  /** A run one block read may serve: a single point of any size, or points that
      together span at most max units with no gap wider than the threshold. */
  ghost predicate Feasible(g: seq<Clusterable>, gap: int, max: int) {
    && g != []
    && (|g| > 1 ==>
          && MaxEnd(g) - g[0].addr <= max
          && forall k | 0 < k < |g| :: g[k].addr - MaxEnd(g[..k]) <= gap)
  }

  function Concat(split: seq<seq<Clusterable>>): seq<Clusterable> {
    if split == [] then [] else split[0] + Concat(split[1..])
  }

  ghost predicate FeasibleSplit(pts: seq<Clusterable>, split: seq<seq<Clusterable>>, gap: int, max: int) {
    Concat(split) == pts && AllFeasible(split, gap, max)
  }

  lemma {:induction false} MaxEndMono(g: seq<Clusterable>, k: nat)
    requires 0 < k <= |g|
    ensures MaxEnd(g[..k]) <= MaxEnd(g)
    decreases |g|
  {
    if k < |g| {
      assert g[..|g| - 1][..k] == g[..k];
      MaxEndMono(g[..|g| - 1], k);
    } else {
      assert g[..k] == g;
    }
  }

  /** How the greedy window w compares with the split's current run, of which cur has
      been consumed: `slack` is how many windows the planner is ahead. */
  ghost predicate Ahead(w: Open, cur: seq<Clusterable>, slack: nat, max: int) {
    && w.start < w.end && cur != []
    && MaxEnd(cur) <= w.end
    && (slack == 0 ==> w.start >= cur[0].addr)
    && (w.start < cur[0].addr ==> MaxEnd(cur) <= w.start + max)
  }

  /** One point p joins the split's current run: either the planner merges it too, or
      it was strictly ahead and spends one window of slack. */
  lemma {:induction false} JoinStep(w: Open, cur: seq<Clusterable>, slack: nat, p: Clusterable, gap: u16, max: u16)
    requires Ahead(w, cur, slack, max) && p.InRange() && w.start <= p.addr && cur[0].addr <= p.addr
    requires MaxEnd(cur + [p]) - cur[0].addr <= max && p.addr - MaxEnd(cur) <= gap
    ensures CanMerge(w, p, gap, max) ==> Ahead(Extend(w, p), cur + [p], slack, max)
    ensures !CanMerge(w, p, gap, max) ==> slack > 0 && Ahead(Begin(p), cur + [p], slack - 1, max)
  {
  }

  /** The split starts a new run at p. */
  lemma {:induction false} SplitStep(w: Open, cur: seq<Clusterable>, slack: nat, p: Clusterable, gap: u16, max: u16)
    requires Ahead(w, cur, slack, max) && p.InRange() && w.start <= p.addr
    ensures CanMerge(w, p, gap, max) ==> Ahead(Extend(w, p), [p], slack + 1, max)
    ensures !CanMerge(w, p, gap, max) ==> Ahead(Begin(p), [p], slack, max)
  {
  }

  /** What the induction needs about the points still to come. */
  ghost predicate Upcoming(w: Open, cur: seq<Clusterable>, rest: seq<Clusterable>) {
    && cur != [] && AllInRange(rest) && SortedByAddr(rest)
    && forall i | 0 <= i < |rest| :: w.start <= rest[i].addr && cur[0].addr <= rest[i].addr
  }

  lemma {:induction false} UpcomingTail(w: Open, cur: seq<Clusterable>, rest: seq<Clusterable>)
    requires Upcoming(w, cur, rest) && rest != []
    ensures var p := rest[0];
            && Upcoming(Extend(w, p), cur + [p], rest[1..]) && Upcoming(Begin(p), cur + [p], rest[1..])
            && Upcoming(Extend(w, p), [p], rest[1..]) && Upcoming(Begin(p), [p], rest[1..])
  {
  }

  lemma {:induction false} FeasiblePrefix(cur: seq<Clusterable>, tail: seq<Clusterable>, gap: int, max: int)
    requires cur != [] && tail != [] && Feasible(cur + tail, gap, max)
    ensures MaxEnd(cur + [tail[0]]) - cur[0].addr <= max && tail[0].addr - MaxEnd(cur) <= gap
    ensures Feasible(cur + [tail[0]] + tail[1..], gap, max)
  {
    var g, more := cur + tail, cur + [tail[0]];
    assert g == more + tail[1..];
    assert g[|cur|] == tail[0] && g[..|cur|] == cur && g[..|more|] == more;
    MaxEndMono(g, |more|);
  }

  lemma {:induction false} MergeStep(area: Area, w: Open, rest: seq<Clusterable>, gap: u16, max: u16)
    requires rest != []
    ensures CanMerge(w, rest[0], gap, max) ==>
              |Merge(area, w, rest, gap, max)| == |Merge(area, Extend(w, rest[0]), rest[1..], gap, max)|
    ensures !CanMerge(w, rest[0], gap, max) ==>
              |Merge(area, w, rest, gap, max)| == 1 + |Merge(area, Begin(rest[0]), rest[1..], gap, max)|
  {
  }

  ghost predicate AllFeasible(split: seq<seq<Clusterable>>, gap: int, max: int) {
    forall i | 0 <= i < |split| :: Feasible(split[i], gap, max)
  }

  /** The planner never falls behind: cur is what the split's current run has
      consumed, tail what is left of it, and split the runs still to come. */
  lemma {:induction false} StaysAhead(area: Area, w: Open, cur: seq<Clusterable>, slack: nat, tail: seq<Clusterable>,
                   split: seq<seq<Clusterable>>, rest: seq<Clusterable>, gap: u16, max: u16)
    requires Ahead(w, cur, slack, max) && Upcoming(w, cur, rest)
    requires rest == tail + Concat(split)
    requires Feasible(cur + tail, gap, max) && AllFeasible(split, gap, max)
    ensures |Merge(area, w, rest, gap, max)| <= 1 + |split| + slack
    decreases |rest|
  {
    if tail != [] {
      var p := tail[0];
      assert rest[0] == p && rest[1..] == tail[1..] + Concat(split);
      FeasiblePrefix(cur, tail, gap, max);
      JoinStep(w, cur, slack, p, gap, max);
      UpcomingTail(w, cur, rest);
      MergeStep(area, w, rest, gap, max);
      if CanMerge(w, p, gap, max) {
        StaysAhead(area, Extend(w, p), cur + [p], slack, tail[1..], split, rest[1..], gap, max);
      } else {
        StaysAhead(area, Begin(p), cur + [p], slack - 1, tail[1..], split, rest[1..], gap, max);
      }
    } else if split != [] {
      NextRun(area, w, cur, slack, split, rest, gap, max);
    }
  }

  lemma {:induction false} NextRun(area: Area, w: Open, cur: seq<Clusterable>, slack: nat,
                   split: seq<seq<Clusterable>>, rest: seq<Clusterable>, gap: u16, max: u16)
    requires Ahead(w, cur, slack, max) && Upcoming(w, cur, rest)
    requires split != [] && rest == Concat(split) && AllFeasible(split, gap, max)
    ensures |Merge(area, w, rest, gap, max)| <= 1 + |split| + slack
    decreases |rest|, 0
  {
    assert Feasible(split[0], gap, max);
    var p, tail, split' := split[0][0], split[0][1..], split[1..];
    assert [p] + tail == split[0];
    assert rest[0] == p && rest[1..] == tail + Concat(split');
    SplitStep(w, cur, slack, p, gap, max);
    UpcomingTail(w, cur, rest);
    MergeStep(area, w, rest, gap, max);
    if CanMerge(w, p, gap, max) {
      StaysAhead(area, Extend(w, p), [p], slack + 1, tail, split', rest[1..], gap, max);
    } else {
      StaysAhead(area, Begin(p), [p], slack, tail, split', rest[1..], gap, max);
    }
  }

  /** The optimality theorem, with no condition on how points overlap or nest. */
  lemma {:induction false} GreedyOptimal(area: Area, pts: seq<Clusterable>, split: seq<seq<Clusterable>>, gap: u16, max: u16)
    requires AllInRange(pts) && SortedByAddr(pts)
    requires FeasibleSplit(pts, split, gap, max)
    ensures |Windows(area, pts, gap, max)| <= |split|
  {
    if split != [] {
      var g := split[0];
      assert Feasible(g, gap, max);
      assert pts[0] == g[0] && pts[1..] == g[1..] + Concat(split[1..]);
      assert [g[0]] + g[1..] == g;
      StaysAhead(area, Begin(g[0]), [g[0]], 0, g[1..], split[1..], pts[1..], gap, max);
    }
  }

  // ------------------------------------------------------------------
  // Against every plan, when no point alone exceeds its read limit
  // ------------------------------------------------------------------

  predicate Sized(pts: seq<Clusterable>, limits: Limits) {
    forall i | 0 <= i < |pts| :: pts[i].qty <= limits.MaxPerRead(pts[i].area)
  }

  /** No window that keeps the limits holds both q and a point that begins at or below s:
      it would be too long, or span a run that no point of all covers. */
  ghost predicate Splits(all: seq<Clusterable>, s: int, q: Clusterable, gap: int, max: int) {
    || q.addr + q.qty - s > max
    || exists e | s < e < q.addr :: q.addr - e > gap && Uncovered(all, e, q.addr)
  }

  /** Every later window opens with a point that splits off the window before it. */
  ghost predicate Chained(all: seq<Clusterable>, ws: seq<Window>, gap: int, max: int) {
    && (forall j | 0 <= j < |ws| :: ws[j].points != [] && ws[j].points[0].addr == ws[j].start)
    && forall j, i | 0 <= j < |ws| && i == j - 1 && 0 <= i :: ws[i].start <= ws[j].start && Splits(all, ws[i].start, ws[j].points[0], gap, max)
  }

  /** The first k points, those seen so far, end within the open window. */
  ghost predicate Frontier(all: seq<Clusterable>, k: nat, w: Open) {
    k <= |all| && forall i | 0 <= i < k :: all[i].addr + all[i].qty <= w.end
  }

  lemma SplitsOff(all: seq<Clusterable>, k: nat, w: Open, gap: u16, max: u16)
    requires OpenOk(w, gap, max) && w.points[0].qty <= max && Frontier(all, k, w) && SortedByAddr(all)
    requires k < |all| && all[k].InRange() && w.start <= all[k].addr && !CanMerge(w, all[k], gap, max)
    ensures Splits(all, w.start, all[k], gap, max) && w.end < all[k].addr + all[k].qty
  {
    var p := all[k];
    if p.addr > w.end && p.addr - w.end > gap {
      assert Uncovered(all, w.end, p.addr);
    }
  }

  lemma {:induction false} MergeChained(area: Area, all: seq<Clusterable>, k: nat, w: Open, gap: u16, max: u16)
    requires OpenOk(w, gap, max) && w.points[0].qty <= max && Frontier(all, k, w)
    requires AllInRange(all) && SortedByAddr(all) && (k < |all| ==> w.start <= all[k].addr)
    requires forall i | 0 <= i < |all| :: all[i].qty <= max
    ensures var ws := Merge(area, w, all[k..], gap, max);
            Chained(all, ws, gap, max) && ws[0].start == w.start && ws[0].points[0] == w.points[0]
    decreases |all| - k
  {
    if k < |all| {
      var p, rest := all[k], all[k..];
      assert rest[0] == p && rest[1..] == all[k + 1..];
      if CanMerge(w, p, gap, max) {
        ExtendOk(w, p, gap, max);
        FrontierGrows(all, k, w);
        MergeChained(area, all, k + 1, Extend(w, p), gap, max);
      } else {
        SplitsOff(all, k, w, gap, max);
        BeginOk(p, gap, max);
        MergeChained(area, all, k + 1, Begin(p), gap, max);
        LinkFirst(all, Flush(area, w), Merge(area, Begin(p), all[k + 1..], gap, max), gap, max);
      }
    }
  }

  lemma FrontierGrows(all: seq<Clusterable>, k: nat, w: Open)
    requires AllInRange(all) && k < |all| && Frontier(all, k, w)
    ensures Frontier(all, k + 1, Extend(w, all[k]))
  {
  }

  lemma LinkFirst(all: seq<Clusterable>, w: Window, ws: seq<Window>, gap: int, max: int)
    requires w.points != [] && w.points[0].addr == w.start && Chained(all, ws, gap, max)
    requires ws != [] && w.start <= ws[0].start && Splits(all, w.start, ws[0].points[0], gap, max)
    ensures Chained(all, [w] + ws, gap, max)
  {
  }

  /** No window of any plan can hold both points. */
  ghost predicate NeverTogether(points: seq<Clusterable>, limits: Limits, p: Clusterable, q: Clusterable) {
    forall w: Window | WindowOk(w, limits) && Within(w.points, points) :: !(p in w.points && q in w.points)
  }

  /** The opening points of two windows can be in no window together. */
  ghost predicate Apart(points: seq<Clusterable>, limits: Limits, v: Window, w: Window) {
    v.points != [] && w.points != [] && NeverTogether(points, limits, v.points[0], w.points[0])
  }

  ghost predicate Within(part: seq<Clusterable>, whole: seq<Clusterable>) { forall p | p in part :: p in whole }

  lemma SplitKeepsApart(all: seq<Clusterable>, s: int, p: Clusterable, q: Clusterable, w: Window, limits: Limits)
    requires WindowOk(w, limits) && Within(w.points, all) && Sized(all, limits)
    requires p.addr <= s && Splits(all, s, q, limits.gap, limits.MaxPerRead(w.area))
    ensures !(p in w.points && q in w.points)
  {
    if p in w.points && q in w.points {
      assert w.points[0] in all;
      if e :| s < e < q.addr && q.addr - e > limits.gap && Uncovered(all, e, q.addr) {
        UncoveredLess(w.points, all, e, q.addr);
      }
      assert false;
    }
  }

  lemma UncoveredLess(part: seq<Clusterable>, whole: seq<Clusterable>, a: int, b: int)
    requires Within(part, whole) && Uncovered(whole, a, b)
    ensures Uncovered(part, a, b)
  {
    forall x | a <= x < b ensures !CoversAddr(part, x) {
      assert !CoversAddr(whole, x);
      forall i | 0 <= i < |part| ensures !(part[i].addr <= x < part[i].addr + part[i].qty) {
        assert part[i] in whole;
      }
    }
  }

  /** Starts never fall along a chain. */
  lemma {:induction false} ChainOrder(all: seq<Clusterable>, ws: seq<Window>, gap: int, max: int, i: nat, j: nat)
    requires Chained(all, ws, gap, max) && i <= j < |ws|
    ensures ws[i].start <= ws[j].start
    decreases j
  {
    if i < j { ChainOrder(all, ws, gap, max, i, j - 1); }
  }

  lemma GroupIsChained(points: seq<Clusterable>, limits: Limits, k: nat, g: seq<Clusterable>)
    requires AllInRange(points) && Sized(points, limits) && IsGroup(points, k, g)
    ensures Chained(g, GroupWindows(k, g, limits), limits.gap, limits.MaxPerRead(AreaAt(k)))
    ensures AllOfArea(g, AreaAt(k)) && AllInRange(g) && Sized(g, limits)
  {
    var area := AreaAt(k);
    SamePoints(OfArea(points, area), g, area);
    GroupWithin(points, k, g);
    if g != [] {
      BeginOk(g[0], limits.gap, limits.MaxPerRead(area));
      MergeChained(area, g, 1, Begin(g[0]), limits.gap, limits.MaxPerRead(area));
    }
  }

  /** A group holds exactly the registered points of its area. */
  lemma GroupWithin(points: seq<Clusterable>, k: nat, g: seq<Clusterable>)
    requires IsGroup(points, k, g)
    ensures Within(g, points)
    ensures forall p | p in points && p.area == AreaAt(k) :: p in g
  {
    forall p: Clusterable ensures p in g <==> p in points && p.area == AreaAt(k) {
      GroupCount(points, k, g, p);
      assert p in multiset(g) <==> p in g;
      assert p in multiset(points) <==> p in points;
    }
  }

  lemma {:induction false} GroupHeadsApart(points: seq<Clusterable>, limits: Limits, k: nat, g: seq<Clusterable>, i: nat, j: nat)
    requires AllInRange(points) && Sized(points, limits) && IsGroup(points, k, g)
    requires i < j < |GroupWindows(k, g, limits)|
    ensures Apart(points, limits, GroupWindows(k, g, limits)[i], GroupWindows(k, g, limits)[j])
  {
    var ws := GroupWindows(k, g, limits);
    var s := HeadFacts(points, limits, k, g, ws, i, j);
    SplitApart(points, limits, k, g, s, ws[i], ws[j]);
  }

  /** Where the later of two windows split off. */
  lemma {:induction false} HeadFacts(points: seq<Clusterable>, limits: Limits, k: nat, g: seq<Clusterable>, ws: seq<Window>, i: nat, j: nat) returns (s: int)
    requires AllInRange(points) && Sized(points, limits) && IsGroup(points, k, g)
    requires ws == GroupWindows(k, g, limits) && i < j < |ws|
    ensures Sized(g, limits) && ws[i].points != [] && ws[j].points != [] && ws[j].points[0].area == AreaAt(k)
    ensures ws[i].points[0].addr <= s && Splits(g, s, ws[j].points[0], limits.gap, limits.MaxPerRead(AreaAt(k)))
  {
    var gap, max := limits.gap, limits.MaxPerRead(AreaAt(k));
    GroupIsChained(points, limits, k, g);
    GroupWindowsOk(points, k, g, limits);
    ChainOrder(g, ws, gap, max, i, j - 1);
    OfItsArea(AreaAt(k), points, k, g, limits, j);
    s := ws[j - 1].start;
  }

  lemma SplitApart(points: seq<Clusterable>, limits: Limits, k: nat, g: seq<Clusterable>, s: int, v: Window, w: Window)
    requires IsGroup(points, k, g) && Sized(g, limits) && v.points != [] && w.points != [] && w.points[0].area == AreaAt(k)
    requires v.points[0].addr <= s && Splits(g, s, w.points[0], limits.gap, limits.MaxPerRead(AreaAt(k)))
    ensures Apart(points, limits, v, w)
  {
    var p, q := v.points[0], w.points[0];
    forall x: Window | WindowOk(x, limits) && Within(x.points, points) ensures !(p in x.points && q in x.points) {
      if q in x.points { InGroup(points, limits, k, g, q, x); SplitKeepsApart(g, s, p, q, x, limits); }
    }
  }

  /** A window that serves a point of the group serves points of the group alone. */
  lemma InGroup(points: seq<Clusterable>, limits: Limits, k: nat, g: seq<Clusterable>, q: Clusterable, w: Window)
    requires IsGroup(points, k, g) && WindowOk(w, limits) && Within(w.points, points) && q in w.points && q.area == AreaAt(k)
    ensures Within(w.points, g) && w.area == AreaAt(k)
  {
    GroupWithin(points, k, g);
  }

  lemma {:induction false} OfItsArea(area: Area, points: seq<Clusterable>, k: nat, g: seq<Clusterable>, limits: Limits, j: nat)
    requires AllInRange(points) && IsGroup(points, k, g) && area == AreaAt(k) && j < |GroupWindows(k, g, limits)|
    ensures GroupWindows(k, g, limits)[j].points != [] && GroupWindows(k, g, limits)[j].points[0].area == area
  {
    GroupWindowsOk(points, k, g, limits);
    MergedArea(area, g, limits.gap, limits.MaxPerRead(area), j);
  }

  lemma {:induction false} MergedArea(area: Area, pts: seq<Clusterable>, gap: u16, max: u16, j: nat)
    requires j < |Windows(area, pts, gap, max)|
    ensures Windows(area, pts, gap, max)[j].area == area
  {
    OpenArea(area, Begin(pts[0]), pts[1..], gap, max, j);
  }

  lemma {:induction false} OpenArea(area: Area, w: Open, rest: seq<Clusterable>, gap: u16, max: u16, j: nat)
    requires j < |Merge(area, w, rest, gap, max)|
    ensures Merge(area, w, rest, gap, max)[j].area == area
    decreases |rest|
  {
    if rest != [] {
      if CanMerge(w, rest[0], gap, max) {
        OpenArea(area, Extend(w, rest[0]), rest[1..], gap, max, j);
      } else if j > 0 {
        OpenArea(area, Begin(rest[0]), rest[1..], gap, max, j - 1);
      }
    }
  }

  /** The opening points of the planner's windows must lie in different windows of any
      plan. */
  lemma {:induction false} HeadsApart(points: seq<Clusterable>, limits: Limits, groups: seq<seq<Clusterable>>, i: nat, j: nat)
    requires AllInRange(points) && Sized(points, limits) && |groups| <= 4
    requires forall k: nat | k < |groups| :: IsGroup(points, k, groups[k])
    requires i < j < |AllWindows(groups, limits)|
    ensures Apart(points, limits, AllWindows(groups, limits)[i], AllWindows(groups, limits)[j])
    decreases |groups|
  {
    var n := |groups| - 1;
    var a, b := AllWindows(groups[..n], limits), GroupWindows(n, groups[n], limits);
    if j < |a| {
      HeadsApart(points, limits, groups[..n], i, j);
    } else if i >= |a| {
      GroupHeadsApart(points, limits, n, groups[n], i - |a|, j - |a|);
    } else {
      AcrossAreas(points, limits, groups[..n], groups[n], i, j - |a|);
    }
  }

  lemma AcrossAreas(points: seq<Clusterable>, limits: Limits, groups: seq<seq<Clusterable>>, g: seq<Clusterable>, i: nat, j: nat)
    requires AllInRange(points) && |groups| < 4 && IsGroup(points, |groups|, g)
    requires forall k: nat | k < |groups| :: IsGroup(points, k, groups[k])
    requires i < |AllWindows(groups, limits)| && j < |GroupWindows(|groups|, g, limits)|
    ensures Apart(points, limits, AllWindows(groups, limits)[i], GroupWindows(|groups|, g, limits)[j])
  {
    EarlierArea(points, limits, groups, i);
    OfItsArea(AreaAt(|groups|), points, |groups|, g, limits, j);
    AreasApart(points, limits, AllWindows(groups, limits)[i].points[0], GroupWindows(|groups|, g, limits)[j].points[0]);
  }

  lemma AreasApart(points: seq<Clusterable>, limits: Limits, p: Clusterable, q: Clusterable)
    requires p.area != q.area
    ensures NeverTogether(points, limits, p, q)
  {
  }

  lemma {:induction false} EarlierArea(points: seq<Clusterable>, limits: Limits, groups: seq<seq<Clusterable>>, i: nat)
    requires AllInRange(points) && |groups| <= 4 && (forall k: nat | k < |groups| :: IsGroup(points, k, groups[k]))
    requires i < |AllWindows(groups, limits)|
    ensures var w := AllWindows(groups, limits)[i]; w.points != [] && Rank(w.points[0].area) < |groups|
    decreases |groups|
  {
    var n := |groups| - 1;
    var a := AllWindows(groups[..n], limits);
    if i < |a| {
      EarlierArea(points, limits, groups[..n], i);
    } else {
      OfItsArea(AreaAt(n), points, n, groups[n], limits, i - |a|);
    }
  }

  lemma {:induction false} Pigeonhole(f: seq<nat>, m: nat)
    requires forall i | 0 <= i < |f| :: f[i] < m
    requires forall i, j | 0 <= i < j < |f| :: f[i] != f[j]
    ensures |f| <= m
  {
    var s, t := set i | 0 <= i < |f| :: f[i], UpTo(m);
    ImageSize(f);
    UpToSize(m);
    assert s <= t;
    assert t == s + (t - s) && |t| == |s| + |t - s|;
  }

  lemma {:induction false} ImageSize(f: seq<nat>)
    requires forall i, j | 0 <= i < j < |f| :: f[i] != f[j]
    ensures |set i | 0 <= i < |f| :: f[i]| == |f|
  {
    if f != [] {
      var n := |f| - 1;
      var g := f[..n];
      ImageSize(g);
      assert (set i | 0 <= i < |f| :: f[i]) == (set i | 0 <= i < |g| :: g[i]) + {f[n]};
    }
  }

  function UpTo(m: nat): set<nat> { if m == 0 then {} else UpTo(m - 1) + {m - 1} }

  lemma {:induction false} UpToSize(m: nat)
    ensures |UpTo(m)| == m && forall i: nat :: i in UpTo(m) <==> i < m
  {
    if m > 0 { UpToSize(m - 1); }
  }

  /** The windows of the plan ws' that hold the opening points of ws. */
  lemma {:induction false} Homes(ws: seq<Window>, ws': seq<Window>) returns (f: seq<nat>)
    requires forall i | 0 <= i < |ws| :: ws[i].points != [] && ws[i].points[0] in PointsOf(ws')
    ensures |f| == |ws| && forall i | 0 <= i < |ws| :: f[i] < |ws'| && ws[i].points[0] in ws'[f[i]].points
  {
    f := [];
    for k := 0 to |ws|
      invariant |f| == k && forall i | 0 <= i < k :: f[i] < |ws'| && ws[i].points[0] in ws'[f[i]].points
    {
      var h := InSomeWindow(ws', ws[k].points[0]);
      f := f + [h];
    }
  }

  /** If no registered point alone exceeds its area's read limit, no plan at all, however
      it distributes the points, needs fewer reads than the planner's. */
  lemma {:induction false} PlanOptimal(points: seq<Clusterable>, limits: Limits,
      windows: seq<Window>, groups: seq<seq<Clusterable>>, other: seq<Window>)
    requires AllInRange(points) && Sized(points, limits)
    requires GreedyWindows(points, limits, windows, groups) && PlanOk(points, limits, other)
    ensures |windows| <= |other|
  {
    GreedyIsPlan(points, limits, windows, groups);
    forall i | 0 <= i < |windows| ensures windows[i].points != [] && windows[i].points[0] in PointsOf(other) {
      assert WindowOk(windows[i], limits);
      InPoints(windows, i);
      SameElements(PointsOf(windows), PointsOf(other));
    }
    var f := Homes(windows, other);
    forall i, j | 0 <= i < j < |f| ensures f[i] != f[j] {
      HeadsApart(points, limits, groups, i, j);
      WindowWithin(points, limits, other, f[i]);
      assert WindowOk(other[f[i]], limits);
    }
    Pigeonhole(f, |other|);
  }

  lemma SameElements(a: seq<Clusterable>, b: seq<Clusterable>)
    requires multiset(a) == multiset(b)
    ensures Within(a, b)
  {
    forall p | p in a ensures p in b { assert p in multiset(a); }
  }

  lemma {:induction false} InPoints(ws: seq<Window>, i: nat)
    requires i < |ws|
    ensures forall p | p in ws[i].points :: p in PointsOf(ws)
  {
    if i > 0 { InPoints(ws[1..], i - 1); }
  }

  lemma WindowWithin(points: seq<Clusterable>, limits: Limits, ws: seq<Window>, i: nat)
    requires PlanOk(points, limits, ws) && i < |ws|
    ensures Within(ws[i].points, points)
  {
    InPoints(ws, i);
    SameElements(PointsOf(ws), points);
  }

  lemma NoGaps(pts: seq<Clusterable>, lo: int, hi: int, gap: nat)
    requires forall x | lo <= x < hi :: CoversAddr(pts, x)
    ensures GapsBounded(pts, lo, hi, gap)
  {
    forall a: int, b: int | lo <= a < b <= hi ensures !Uncovered(pts, a, b) {
      assert CoversAddr(pts, a);
    }
  }

  lemma OversizedWindow(b: Clusterable, c: Clusterable, limits: Limits)
    requires b.InRange() && c.InRange() && b.area == c.area && Contains(b.addr, b.addr + b.qty, c)
    ensures WindowOk(Window(b.area, b.addr, b.qty, b, [b, c]), limits)
  {
    forall x | b.addr <= x < b.addr + b.qty ensures CoversAddr([b, c], x) { assert [b, c][0] == b; }
    NoGaps([b, c], b.addr, b.addr + b.qty, limits.gap);
  }

  lemma TwoWindows(area: Area, b: Clusterable, c: Clusterable, gap: u16, max: u16)
    requires b == Point(area, 0, b.qty) && b.InRange() && b.qty > max && c == Point(area, b.qty - 1, 1)
    ensures |Windows(area, [b, c], gap, max)| == 2
  {
    assert [b, c][1..] == [c] && [c][1..] == [];
    assert !CanMerge(Begin(b), c, gap, max);
    assert Merge(area, Begin(b), [c], gap, max) == [Flush(area, Begin(b))] + Merge(area, Begin(c), [], gap, max);
  }

  lemma {:induction false} AreaCounts(groups: seq<seq<Clusterable>>, limits: Limits, k: nat)
    requires k < |groups| <= 4
    ensures |AllWindows(groups, limits)| >= |GroupWindows(k, groups[k], limits)|
    decreases |groups|
  {
    if k < |groups| - 1 { AreaCounts(groups[..|groups| - 1], limits, k); }
  }

  lemma PairOfArea(b: Clusterable, c: Clusterable, area: Area)
    requires b.area == c.area
    ensures OfArea([b, c], area) == if area == b.area then [b, c] else []
  {
    assert [b, c][..1] == [b] && [b][..0] == [];
    assert OfArea([b], area) == OfArea([], area) + (if b.area == area then [b] else []);
    assert OfArea([b, c], area) == OfArea([b], area) + (if c.area == area then [c] else []);
  }

  lemma PairGroups(b: Clusterable, c: Clusterable) returns (groups: seq<seq<Clusterable>>)
    requires b.area == c.area && b.addr <= c.addr
    ensures |groups| == 4 && groups[Rank(b.area)] == [b, c] && forall k: nat | k < 4 :: IsGroup([b, c], k, groups[k])
  {
    groups := seq(4, k requires 0 <= k < 4 => if AreaAt(k) == b.area then [b, c] else []);
    forall k: nat | k < 4 ensures IsGroup([b, c], k, groups[k]) {
      PairOfArea(b, c, AreaAt(k));
    }
  }

  lemma OneWindowPlan(b: Clusterable, c: Clusterable, limits: Limits)
    requires b.InRange() && c.InRange() && b.area == c.area && Contains(b.addr, b.addr + b.qty, c)
    ensures PlanOk([b, c], limits, [Window(b.area, b.addr, b.qty, b, [b, c])])
  {
    var w := Window(b.area, b.addr, b.qty, b, [b, c]);
    OversizedWindow(b, c, limits);
    assert [w][1..] == [];
    assert PointsOf([w]) == w.points + [];
  }

  /** An oversized point breaks this, whatever the limits: the planner gives the last
      address of such a point, registered once more, a window of its own, though one window
      takes both. */
  lemma {:induction false} OversizedCanBeBeaten(area: Area, q: u16, limits: Limits) returns (windows: seq<Window>, groups: seq<seq<Clusterable>>)
    requires q > limits.MaxPerRead(area)
    ensures var b, c := Point(area, 0, q), Point(area, q - 1, 1);
      && b.InRange() && c.InRange()
      && GreedyWindows([b, c], limits, windows, groups) && |windows| >= 2
      && PlanOk([b, c], limits, [Window(area, 0, q, b, [b, c])])
  {
    var b, c := Point(area, 0, q), Point(area, q - 1, 1);
    OneWindowPlan(b, c, limits);
    groups := PairGroups(b, c);
    windows := AllWindows(groups, limits);
    AreaCounts(groups, limits, Rank(area));
    TwoWindows(area, b, c, limits.gap, limits.MaxPerRead(area));
  }

  /** No plan needs fewer reads than the planner's. */
  ghost predicate Optimal(points: seq<Clusterable>, limits: Limits) {
    forall windows, groups, other | GreedyWindows(points, limits, windows, groups) && PlanOk(points, limits, other) :: |windows| <= |other|
  }

  ghost predicate SizesUpTo(points: seq<Clusterable>, area: Area, q: int) {
    AllInRange(points) && AllOfArea(points, area) && forall i | 0 <= i < |points| :: points[i].qty <= q
  }

  /** So the sizes up to q are harmless in an area if and only if q is within the area's
      read limit. */
  lemma {:induction false} HarmlessIff(area: Area, q: u16, limits: Limits)
    ensures (forall points: seq<Clusterable> | SizesUpTo(points, area, q) :: Optimal(points, limits)) <==> q <= limits.MaxPerRead(area)
  {
    if q <= limits.MaxPerRead(area) {
      forall points: seq<Clusterable>, windows, groups, other
        | SizesUpTo(points, area, q) && GreedyWindows(points, limits, windows, groups) && PlanOk(points, limits, other)
        ensures |windows| <= |other|
      {
        PlanOptimal(points, limits, windows, groups, other);
      }
    } else {
      var b, c := Point(area, 0, q), Point(area, q - 1, 1);
      var windows, groups := OversizedCanBeBeaten(area, q, limits);
      assert SizesUpTo([b, c], area, q);
      assert !Optimal([b, c], limits);
    }
  }
}
