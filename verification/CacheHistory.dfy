/** When a Read of the clustering reader (monitor/cluster.go) is served a cached block of
    another window, told from the history of calls alone; and what it then returns. */
module CacheHistory {
  import opened Bytes
  import opened ClusterCache
  import opened ClusteringReader
  import opened ClusterPlan
  import opened DataPoints
  import opened Wrappers

  // ------------------------------------------------------------------
  // What the history says
  // ------------------------------------------------------------------

  /** The plan after these steps. */
  function PlanAfter(steps: seq<Step>): seq<Window> {
    if steps == [] then []
    else match steps[|steps| - 1]
      case Replan(ws) => ws
      case _ => PlanAfter(steps[..|steps| - 1])
  }

  /** The plan a call began with. */
  function PlanOf(steps: seq<Step>, c: CallId): seq<Window> {
    if steps == [] then []
    else if steps[|steps| - 1] == Begin(c) then PlanAfter(steps[..|steps| - 1])
    else PlanOf(steps[..|steps| - 1], c)
  }

  /** The window a call has read and not yet cached. */
  function Pending(steps: seq<Step>, c: CallId): Option<nat> {
    if steps == [] then None
    else match steps[|steps| - 1]
      case Fetch(d, i) => if d == c then Some(i) else Pending(steps[..|steps| - 1], c)
      case Store(d) => if d == c then None else Pending(steps[..|steps| - 1], c)
      case _ => Pending(steps[..|steps| - 1], c)
  }

  /** Whose block is cached under an index: the last store since the last change of plan
      and the last expiry. */
  function Filer(steps: seq<Step>, i: nat): Option<CallId> {
    if steps == [] then None
    else
      var before := steps[..|steps| - 1];
      match steps[|steps| - 1]
      case Replan(_) => None
      case Expire(j) => if j == i then None else Filer(before, i)
      case Store(c) => if Pending(before, c) == Some(i) then Some(c) else Filer(before, i)
      case _ => Filer(before, i)
  }

  /** After these steps, call c takes the block under index i for its own, and it was
      stored by a call whose plan has another window there. */
  predicate Misled(steps: seq<Step>, c: CallId, i: nat) {
    var plan := PlanOf(steps, c);
    i < |plan| && match Filer(steps, i)
      case None => false
      case Some(f) => i < |PlanOf(steps, f)| && PlanOf(steps, f)[i].merged != plan[i].merged
  }

  predicate CallOk(steps: seq<Step>, s: State, c: CallId)
    requires c in s.calls
  {
    s.calls[c].windows == PlanOf(steps, c) && s.calls[c].reading == Pending(steps, c)
  }

  predicate EntryOk(steps: seq<Step>, s: State, i: nat) {
    match Filer(steps, i)
    case None => i !in s.cache
    case Some(f) => f in s.calls && i < |PlanOf(steps, f)| && i in s.cache && s.cache[i] == PlanOf(steps, f)[i].merged
  }

  ghost predicate Inv(steps: seq<Step>, s: State) {
    && s.windows == PlanAfter(steps)
    && (forall c | c in s.calls :: CallOk(steps, s, c))
    && (forall c: CallId | c !in s.calls :: Pending(steps, c).None?)
    && (forall i: nat :: EntryOk(steps, s, i))
  }

  lemma StepCalls(steps: seq<Step>, s: State, step: Step, c: CallId)
    requires Inv(steps, s) && Enabled(s, step)
    ensures c in Do(s, step).calls ==> CallOk(steps + [step], Do(s, step), c)
    ensures c !in Do(s, step).calls ==> Pending(steps + [step], c).None?
  {
    assert (steps + [step])[..|steps|] == steps;
    if c in s.calls { assert CallOk(steps, s, c); }
  }

  lemma StepEntries(steps: seq<Step>, s: State, step: Step, i: nat)
    requires Inv(steps, s) && Enabled(s, step)
    ensures EntryOk(steps + [step], Do(s, step), i)
  {
    assert (steps + [step])[..|steps|] == steps;
    assert EntryOk(steps, s, i);
    if step.Store? { assert CallOk(steps, s, step.c); }
  }

  lemma StepInv(steps: seq<Step>, s: State, step: Step)
    requires Inv(steps, s) && Enabled(s, step)
    ensures Inv(steps + [step], Do(s, step))
  {
    var steps', s' := steps + [step], Do(s, step);
    assert steps'[..|steps|] == steps;
    forall c: CallId ensures c in s'.calls ==> CallOk(steps', s', c)
                     ensures c !in s'.calls ==> Pending(steps', c).None? { StepCalls(steps, s, step, c); }
    forall i: nat ensures EntryOk(steps', s', i) { StepEntries(steps, s, step, i); }
  }

  /** Wrong blocks stay where they are, since a call deals with each window once. */
  lemma StepRight(steps: seq<Step>, s: State, step: Step)
    requires Inv(steps, s) && Enabled(s, step)
    ensures CallsRight(Do(s, step)) <==> CallsRight(s) && !(step.Hit? && Misled(steps, step.c, step.i))
  {
    if CallsRight(s) {
      CallsStayRightIff(s, step);
      if step.Hit? { assert CallOk(steps, s, step.c) && EntryOk(steps, s, step.i); }
    } else {
      var c :| c in s.calls && !CallRight(s.calls[c]);
      var i :| i in s.calls[c].got && !(i < |s.calls[c].windows| && s.calls[c].got[i] == s.calls[c].windows[i].merged);
      assert i in Do(s, step).calls[c].got;
      assert !CallRight(Do(s, step).calls[c]);
    }
  }

  lemma {:induction false} RunsSnoc(s: State, steps: seq<Step>, step: Step)
    ensures Runs(s, steps + [step]) <==> Runs(s, steps) && Enabled(After(s, steps), step)
    ensures Runs(s, steps + [step]) ==> After(s, steps + [step]) == Do(After(s, steps), step)
    decreases |steps|
  {
    if steps == [] {
      assert [] + [step] == [step] && [step][1..] == [];
    } else {
      assert (steps + [step])[1..] == steps[1..] + [step];
      if Enabled(s, steps[0]) { RunsSnoc(Do(s, steps[0]), steps[1..], step); }
    }
  }

  ghost predicate NoneMisled(steps: seq<Step>) {
    forall k, c, i | 0 <= k < |steps| && steps[k] == Hit(c, i) :: !Misled(steps[..k], c, i)
  }

  lemma NoneMisledSnoc(steps: seq<Step>, step: Step)
    ensures NoneMisled(steps + [step]) <==> NoneMisled(steps) && !(step.Hit? && Misled(steps, step.c, step.i))
  {
    var steps' := steps + [step];
    assert forall k | 0 <= k < |steps| :: steps'[k] == steps[k] && steps'[..k] == steps[..k];
    assert steps'[|steps|] == step && steps'[..|steps|] == steps;
  }

  lemma {:induction false} RunInv(steps: seq<Step>)
    requires Runs(INIT, steps)
    ensures Inv(steps, After(INIT, steps)) && (CallsRight(After(INIT, steps)) <==> NoneMisled(steps))
    decreases |steps|
  {
    if steps != [] {
      var n := |steps| - 1;
      assert steps == steps[..n] + [steps[n]];
      RunsSnoc(INIT, steps[..n], steps[n]);
      RunInv(steps[..n]);
      StepInv(steps[..n], After(INIT, steps[..n]), steps[n]);
      StepRight(steps[..n], After(INIT, steps[..n]), steps[n]);
      NoneMisledSnoc(steps[..n], steps[n]);
    }
  }

  /** In every run: every block every call holds is of its own window if and only if no
      call hit an index under which a call with another window there had last stored. */
  lemma {:induction false} RunIsRightIff(steps: seq<Step>)
    requires Runs(INIT, steps)
    ensures CallsRight(After(INIT, steps)) <==> NoneMisled(steps)
  {
    RunInv(steps);
  }

  // ------------------------------------------------------------------
  // What a misled call returns
  // ------------------------------------------------------------------

  /** A window that reads a legal range. */
  predicate Readable(w: Window) {
    w.merged == Point(w.area, w.start, w.count) && w.merged.InRange() && w.count <= w.area.ReadLimit()
  }

  /** Cut out of a block of v, each point of w reads as it would directly, in every memory. */
  ghost predicate ServesFor(v: Window, w: Window)
    requires Readable(v)
  {
    forall m: Memory, p: Clusterable | p.InRange() && p.area == w.area && Contains(w.start, w.start + w.count, p) ::
      Extracted(p, w, m.Direct(v.merged).value) == FromResult(m.Direct(p))
  }

  /** The memory in which one cell is set, or none. */
  function Cell(area: Area, a: u16, on: bool): Memory {
    var bits: map<u16, bool> := map[a := on];
    var regs: map<u16, u16> := map[a := if on then 1 else 0];
    match area
    case Coil => Memory(bits, map[], map[], map[])
    case DiscreteInput => Memory(map[], bits, map[], map[])
    case HoldingRegister => Memory(map[], map[], regs, map[])
    case InputRegister => Memory(map[], map[], map[], regs)
  }

  lemma CellShows(area: Area, a: u16)
    ensures Cell(area, a, true).Raw(area, a, 1) != Cell(area, a, false).Raw(area, a, 1)
  {
    if area.IsBits() {
      PacksDiffer(Cell(area, a, true).BitCells(area, a, 1), Cell(area, a, false).BitCells(area, a, 1));
    } else {
      assert Cell(area, a, true).Raw(area, a, 1)[1] == 1;
      assert Cell(area, a, false).Raw(area, a, 1)[1] == 0;
    }
  }

  /** A range without the cell does not show it. */
  lemma CellHidden(area: Area, a: u16, other: Area, start: u16, count: u16)
    requires start + count <= 0x1_0000 && (other != area || !(start <= a < start + count))
    ensures Cell(area, a, true).Raw(other, start, count) == Cell(area, a, false).Raw(other, start, count)
  {
    var on, off := Cell(area, a, true), Cell(area, a, false);
    if other.IsBits() {
      assert on.BitCells(other, start, count) == off.BitCells(other, start, count);
    } else {
      assert on.RegCells(other, start, count) == off.RegCells(other, start, count);
    }
  }

  lemma SameCut(v: Window, w: Window, p: Clusterable, on: Memory, off: Memory)
    requires Readable(v) && Readable(w) && p.InRange() && p.qty == 1 && p.area == w.area && Contains(w.start, w.start + w.count, p)
    requires on.Raw(p.area, p.addr, 1) != off.Raw(p.area, p.addr, 1)
    requires Extracted(p, w, on.Direct(v.merged).value) == Extracted(p, w, off.Direct(v.merged).value)
    ensures !ServesFor(v, w)
  {
    assert FromResult(on.Direct(p)) != FromResult(off.Direct(p));
    assert Extracted(p, w, on.Direct(v.merged).value) != FromResult(on.Direct(p))
        || Extracted(p, w, off.Direct(v.merged).value) != FromResult(off.Direct(p));
  }

  /** A cell of w that the block of v does not hold. */
  lemma HiddenCell(v: Window, w: Window, a: u16)
    requires Readable(v) && Readable(w) && w.start <= a < w.start + w.count
    requires v.area != w.area || !(v.start <= a < v.start + v.count)
    ensures !ServesFor(v, w)
  {
    CellShows(w.area, a);
    CellHidden(w.area, a, v.area, v.start, v.count);
    SameCut(v, w, Point(w.area, a, 1), Cell(w.area, a, true), Cell(w.area, a, false));
  }

  lemma FirstCut(v: Window, w: Window, m: Memory)
    requires Readable(v) && Readable(w) && v.area == w.area
    ensures Extracted(Point(w.area, w.start, 1), w, m.Direct(v.merged).value)
         == Values(Value(m.Raw(w.area, v.start, 1), TypeOf(w.area, 1), BigEndianOrder, Some(Point(w.area, w.start, 1))))
  {
    SliceOfBlock(m, Point(w.area, v.start, 1), v.start, v.count);
  }

  /** Blocks that start elsewhere: the first cell of w is cut from the first of v. */
  lemma ShiftedBlock(v: Window, w: Window)
    requires Readable(v) && Readable(w) && v.area == w.area && v.start != w.start
    ensures !ServesFor(v, w)
  {
    var on, off := Cell(w.area, w.start, true), Cell(w.area, w.start, false);
    CellShows(w.area, w.start);
    CellHidden(w.area, w.start, w.area, v.start, 1);
    FirstCut(v, w, on);
    FirstCut(v, w, off);
    SameCut(v, w, Point(w.area, w.start, 1), on, off);
  }

  lemma LongerBlock(v: Window, w: Window)
    requires Readable(v) && Readable(w) && v.area == w.area && v.start == w.start && w.count <= v.count
    ensures ServesFor(v, w)
  {
    forall m: Memory, p: Clusterable | p.InRange() && p.area == w.area && Contains(w.start, w.start + w.count, p)
      ensures Extracted(p, w, m.Direct(v.merged).value) == FromResult(m.Direct(p))
    {
      SliceOfBlock(m, p, v.start, v.count);
    }
  }

  /** A block of v serves w if and only if it is of the same area, starts where w does and
      is no shorter; otherwise some point of w reads wrong, or panics, in some memory. */
  lemma ServesForIff(v: Window, w: Window)
    requires Readable(v) && Readable(w)
    ensures ServesFor(v, w) <==> v.area == w.area && v.start == w.start && w.count <= v.count
  {
    if v.area != w.area {
      HiddenCell(v, w, w.start);
    } else if v.start != w.start {
      ShiftedBlock(v, w);
    } else if w.count <= v.count {
      LongerBlock(v, w);
    } else {
      HiddenCell(v, w, w.start + w.count - 1);
    }
  }

  /** For any two plans whose first windows are v and w, there is a run in which a Read
      under the second plan is served a block of v; it returns what direct reads would
      exactly if v starts where w does, in the same area, and is no shorter. */
  lemma {:induction false} MisledReadIff(v: Window, w: Window) returns (steps: seq<Step>)
    requires Readable(v) && Readable(w) && v.merged != w.merged
    ensures Runs(INIT, steps) && 1 in After(INIT, steps).calls && !NoneMisled(steps)
    ensures var x := After(INIT, steps).calls[1];
      && x.windows == [w] && x.got == map[0 := v.merged]
      && ((forall m: Memory, p: Clusterable | p.InRange() && p.area == w.area && Contains(w.start, w.start + w.count, p) ::
             Extracted(p, w, m.Direct(x.got[0]).value) == FromResult(m.Direct(p)))
          <==> v.area == w.area && v.start == w.start && w.count <= v.count)
  {
    steps := [Replan([v]), Begin(0), Fetch(0, 0), Replan([w]), Store(0), Begin(1), Hit(1, 0)];
    ReplanInsideReadMisleads(v, w);
    ServesForIff(v, w);
    var x := After(INIT, steps).calls[1];
    RunIsRightIff(steps);
    assert 0 in x.got;
    assert !CallRight(x);
  }
}
