/** The block cache of the clustering reader (monitor/cluster.go) when Register or
    Unregister may fall inside a Read: entries are filed under the window's index alone,
    while a call goes on using the plan it began with. */
module ClusterCache {
  import opened ClusterPlan
  import opened DataPoints
  import opened Wrappers

  type CallId = nat

  /** A Read call: its plan, the block it has for each window (as the point that was
      read), and the window whose block it has read and not yet cached. */
  datatype Call = Call(windows: seq<Window>, got: map<nat, DataPoint>, reading: Option<nat>)

  datatype State = State(windows: seq<Window>, cache: map<nat, DataPoint>, calls: map<CallId, Call>)

  const INIT := State([], map[], map[])

  datatype Step =
    | Replan(windows: seq<Window>)
    | Begin(c: CallId)
    | Hit(c: CallId, i: nat)
    | Fetch(c: CallId, i: nat)      // the inner read
    | Store(c: CallId)              // and its block put in the cache
    | Expire(i: nat)

  /** The call has not dealt with this window of its plan, and is between windows. */
  predicate Wants(s: State, c: CallId, i: nat) {
    c in s.calls && s.calls[c].reading.None? && i < |s.calls[c].windows| && i !in s.calls[c].got
  }

  predicate Enabled(s: State, step: Step) {
    match step
    case Begin(c) => c !in s.calls
    case Hit(c, i) => Wants(s, c, i) && i in s.cache
    case Fetch(c, i) => Wants(s, c, i)
    case Store(c) => c in s.calls && s.calls[c].reading.Some? && s.calls[c].reading.value < |s.calls[c].windows|
    case _ => true
  }

  function Do(s: State, step: Step): State
    requires Enabled(s, step)
  {
    match step
    case Replan(ws) => s.(windows := ws, cache := map[])
    case Begin(c) => s.(calls := s.calls[c := Call(s.windows, map[], None)])
    case Hit(c, i) => s.(calls := s.calls[c := s.calls[c].(got := s.calls[c].got[i := s.cache[i]])])
    case Fetch(c, i) =>
      s.(calls := s.calls[c := s.calls[c].(got := s.calls[c].got[i := s.calls[c].windows[i].merged], reading := Some(i))])
    case Store(c) =>
      var i := s.calls[c].reading.value;
      s.(cache := s.cache[i := s.calls[c].windows[i].merged], calls := s.calls[c := s.calls[c].(reading := None)])
    case Expire(i) => s.(cache := s.cache - {i})
  }

  /** Every cached block was read for the window of the current plan it is filed under. */
  predicate CacheRight(s: State) {
    forall i | i in s.cache :: i < |s.windows| && s.cache[i] == s.windows[i].merged
  }

  predicate CallRight(x: Call) {
    forall i | i in x.got :: i < |x.windows| && x.got[i] == x.windows[i].merged
  }

  /** Every block a call holds was read for its own window. */
  predicate CallsRight(s: State) { forall c | c in s.calls :: CallRight(s.calls[c]) }

  /** The step puts a block in the cache that is not the current window's. */
  predicate Misfiles(s: State, step: Step)
    requires Enabled(s, step)
  {
    step.Store? &&
    var x := s.calls[step.c];
    var i := x.reading.value;
    !(i < |s.windows| && x.windows[i].merged == s.windows[i].merged)
  }

  /** The step serves a call from an entry that is not its own window's. */
  predicate Mistakes(s: State, step: Step)
    requires Enabled(s, step)
  {
    step.Hit? && s.cache[step.i] != s.calls[step.c].windows[step.i].merged
  }

  /** The cache goes wrong in exactly one way: a call whose window differs from the
      current one under its index stores its block. */
  lemma CacheStaysRightIff(s: State, step: Step)
    requires CacheRight(s) && Enabled(s, step)
    ensures CacheRight(Do(s, step)) <==> !Misfiles(s, step)
  {
    if step.Store? {
      var i := s.calls[step.c].reading.value;
      assert i in Do(s, step).cache;
    }
  }

  /** And a call in exactly one way: a hit on an entry read for another window. */
  lemma CallsStayRightIff(s: State, step: Step)
    requires CallsRight(s) && Enabled(s, step)
    ensures CallsRight(Do(s, step)) <==> !Mistakes(s, step)
  {
    var s' := Do(s, step);
    if step.Hit? {
      assert step.i in s'.calls[step.c].got;
      if !Mistakes(s, step) { assert CallRight(s'.calls[step.c]); }
    }
    forall c | c in s'.calls && !Mistakes(s, step) ensures CallRight(s'.calls[c]) {
      if c in s.calls { assert CallRight(s.calls[c]); }
    }
  }

  // ------------------------------------------------------------------
  // Whole runs
  // ------------------------------------------------------------------

  predicate Runs(s: State, steps: seq<Step>)
    decreases |steps|
  {
    steps == [] || (Enabled(s, steps[0]) && Runs(Do(s, steps[0]), steps[1..]))
  }

  function After(s: State, steps: seq<Step>): State
    requires Runs(s, steps)
    decreases |steps|
  {
    if steps == [] then s else After(Do(s, steps[0]), steps[1..])
  }

  /** No plan is replaced inside a Read: whoever hits or stores has the current plan. */
  predicate Undisturbed(s: State, steps: seq<Step>)
    requires Runs(s, steps)
    decreases |steps|
  {
    steps != [] ==>
      && (steps[0].Hit? || steps[0].Store? ==> s.calls[steps[0].c].windows == s.windows)
      && Undisturbed(Do(s, steps[0]), steps[1..])
  }

  /** Then every block, cached or held, is of the window it is held for. */
  lemma {:induction false} UndisturbedIsRight(s: State, steps: seq<Step>)
    requires CacheRight(s) && CallsRight(s) && Runs(s, steps) && Undisturbed(s, steps)
    ensures CacheRight(After(s, steps)) && CallsRight(After(s, steps))
    decreases |steps|
  {
    if steps != [] {
      CacheStaysRightIff(s, steps[0]);
      CallsStayRightIff(s, steps[0]);
      UndisturbedIsRight(Do(s, steps[0]), steps[1..]);
    }
  }

  /** Otherwise not: whenever two plans differ in their first window, a Read that is
      overtaken by the change leaves a block behind that a later Read takes for its own. */
  lemma {:induction false} ReplanInsideReadMisleads(v: Window, w: Window)
    requires v.merged != w.merged
    ensures var steps := [Replan([v]), Begin(0), Fetch(0, 0), Replan([w]), Store(0), Begin(1), Hit(1, 0)];
            && Runs(INIT, steps) && 1 in After(INIT, steps).calls
            && After(INIT, steps).calls[1].windows == [w] && After(INIT, steps).calls[1].got == map[0 := v.merged]
  {
    var s1 := Do(INIT, Replan([v]));
    var s2 := Do(s1, Begin(0));
    var s3 := Do(s2, Fetch(0, 0));
    var s4 := Do(s3, Replan([w]));
    var s5 := Do(s4, Store(0));
    var s6 := Do(s5, Begin(1));
    var t6, t5, t4 := [Hit(1, 0)], [Begin(1), Hit(1, 0)], [Store(0), Begin(1), Hit(1, 0)];
    Unfold(s6, Hit(1, 0), []);
    Unfold(s5, Begin(1), t6);
    Unfold(s4, Store(0), t5);
    Unfold(s3, Replan([w]), t4);
    Unfold(s2, Fetch(0, 0), [Replan([w])] + t4);
    Unfold(s1, Begin(0), [Fetch(0, 0)] + ([Replan([w])] + t4));
    Unfold(INIT, Replan([v]), [Begin(0)] + ([Fetch(0, 0)] + ([Replan([w])] + t4)));
    assert [Replan([v])] + ([Begin(0)] + ([Fetch(0, 0)] + ([Replan([w])] + t4)))
        == [Replan([v]), Begin(0), Fetch(0, 0), Replan([w]), Store(0), Begin(1), Hit(1, 0)];
  }

  lemma {:induction false} Unfold(s: State, step: Step, rest: seq<Step>)
    ensures Runs(s, [step] + rest) <==> Enabled(s, step) && Runs(Do(s, step), rest)
    ensures Runs(s, [step] + rest) ==> After(s, [step] + rest) == After(Do(s, step), rest)
  {
    assert ([step] + rest)[1..] == rest;
  }
}
