/** Concurrent Reads of the clustering reader (monitor/cluster.go) with caching off, as a
    transition system whose steps are its mutex-protected sections: any number of Read
    calls share in-flight window reads while Register and Unregister replace the plan. */
module ClusterFlights {
  import opened DataPoints
  import opened ClusterPlan
  import opened Wrappers

  type ReaderId = nat
  type FlightId = nat
  type Key = (nat, nat)

  /** What an inner read returned: the n-th inner read, of point `of`, or an error. */
  datatype Block = Block(of: DataPoint, n: nat) | ReadError

  /** Where a Read call stands with the window it is fetching. */
  datatype Pc =
    | Idle
    | Leading(flight: FlightId)                    // entry filed, inner read not yet issued
    | Reading(flight: FlightId)                    // inner read in flight
    | Returned(flight: FlightId, block: Block)     // inner read back, not yet published
    | Published(flight: FlightId, block: Block)    // done closed, entry still filed
    | Waiting(flight: FlightId)                    // waiting for another call's flight
    | Gone                                         // the call returned an error
  {
    predicate Leads() { Leading? || Reading? || Returned? || Published? }
  }

  /** A Read call: its snapshot of the plan, the blocks it has obtained, how many inner
      reads had returned when it began, and for each window it looked for, whether a
      flight was filed then. */
  datatype Reader = Reader(
    gen: nat, windows: seq<Window>, idx: nat, pc: Pc, got: map<nat, Block>, base: nat, filed: map<nat, bool>) {
    function OwnKey(): Key { (gen, idx) }
  }

  datatype Flight = Flight(key: Key, leader: ReaderId, result: Option<Block>)

  /** An inner read that has returned: whose it was, and for which window. */
  datatype Inner = Inner(caller: ReaderId, key: Key)

  /** `plans` remembers the windows of every generation, `inner` the inner reads in the
      order of their return. */
  datatype State = State(
    gen: nat, windows: seq<Window>, plans: map<nat, seq<Window>>,
    flights: map<Key, FlightId>, table: map<FlightId, Flight>, next: FlightId,
    readers: map<ReaderId, Reader>, inner: seq<Inner>)

  const INIT := State(0, [], map[0 := []], map[], map[], 0, map[], [])

  datatype Step =
    | Replan(windows: seq<Window>)          // Register or Unregister
    | Begin(r: ReaderId)                    // snapshot under the read lock
    | Look(r: ReaderId, i: nat)             // join or file a flight under flightMu
    | Issue(r: ReaderId)
    | Return(r: ReaderId, failed: bool)
    | Publish(r: ReaderId)
    | Cleanup(r: ReaderId)
    | Receive(r: ReaderId)
    | Cancel(r: ReaderId)                   // the waiting call's context ends

  predicate Enabled(s: State, step: Step) {
    match step
    case Replan(_) => true
    case Begin(r) => r !in s.readers
    case Look(r, i) => r in s.readers && s.readers[r].pc.Idle? && i < |s.readers[r].windows| && i !in s.readers[r].filed
    case Issue(r) => r in s.readers && s.readers[r].pc.Leading?
    case Return(r, _) => r in s.readers && s.readers[r].pc.Reading? && s.readers[r].idx < |s.readers[r].windows|
    case Publish(r) => r in s.readers && s.readers[r].pc.Returned? && s.readers[r].pc.flight in s.table
    case Cleanup(r) => r in s.readers && s.readers[r].pc.Published?
    case Receive(r) =>
      && r in s.readers && s.readers[r].pc.Waiting?
      && s.readers[r].pc.flight in s.table && s.table[s.readers[r].pc.flight].result.Some?
    case Cancel(r) => r in s.readers && s.readers[r].pc.Waiting?
  }

  function Put(s: State, r: ReaderId, x: Reader): State { s.(readers := s.readers[r := x]) }

  /** A Read call takes the block it fetched, or gives up on an error. */
  function Take(x: Reader, b: Block): Reader {
    if b.ReadError? then x.(pc := Gone) else x.(pc := Idle, got := x.got[x.idx := b])
  }

  function Do(s: State, step: Step): State
    requires Enabled(s, step)
  {
    match step
    case Replan(ws) => s.(gen := s.gen + 1, windows := ws, plans := s.plans[s.gen + 1 := ws])
    case Begin(r) => Put(s, r, Reader(s.gen, s.windows, 0, Idle, map[], |s.inner|, map[]))
    case Look(r, i) =>
      var x := s.readers[r].(idx := i, filed := s.readers[r].filed[i := (s.readers[r].gen, i) in s.flights]);
      if x.OwnKey() in s.flights then Put(s, r, x.(pc := Waiting(s.flights[x.OwnKey()])))
      else Put(s, r, x.(pc := Leading(s.next)))
           .(flights := s.flights[x.OwnKey() := s.next],
             table := s.table[s.next := Flight(x.OwnKey(), r, None)], next := s.next + 1)
    case Issue(r) => Put(s, r, s.readers[r].(pc := Reading(s.readers[r].pc.flight)))
    case Return(r, failed) =>
      var x := s.readers[r];
      var b := if failed then ReadError else Block(x.windows[x.idx].merged, |s.inner|);
      Put(s, r, x.(pc := Returned(x.pc.flight, b))).(inner := s.inner + [Inner(r, x.OwnKey())])
    case Publish(r) =>
      var x := s.readers[r];
      Put(s, r, x.(pc := Published(x.pc.flight, x.pc.block)))
        .(table := s.table[x.pc.flight := s.table[x.pc.flight].(result := Some(x.pc.block))])
    case Cleanup(r) =>
      var x := s.readers[r];
      Put(s, r, Take(x, x.pc.block)).(flights := s.flights - {x.OwnKey()})
    case Receive(r) =>
      var x := s.readers[r];
      Put(s, r, Take(x, s.table[x.pc.flight].result.value))
    case Cancel(r) => Put(s, r, s.readers[r].(pc := Gone))
  }

  // ------------------------------------------------------------------
  // Invariant
  // ------------------------------------------------------------------

  /** b is a read of window key.1 of the plan of generation key.0 (or an error). */
  predicate OfWindow(s: State, key: Key, b: Block) {
    b.Block? ==> key.0 in s.plans && key.1 < |s.plans[key.0]| && b.of == s.plans[key.0][key.1].merged
  }

  predicate PlansOk(s: State) {
    s.gen in s.plans && s.plans[s.gen] == s.windows && forall g | g in s.plans :: g <= s.gen
  }

  /** A call's snapshot is the plan of its generation, and every block it holds was read
      for exactly that window of its snapshot. */
  predicate ReaderOk(s: State, r: ReaderId)
    requires r in s.readers
  {
    var x := s.readers[r];
    && x.gen in s.plans && s.plans[x.gen] == x.windows
    && (!x.pc.Idle? && !x.pc.Gone? ==> x.idx < |x.windows|)
    && (forall i | i in x.got :: x.got[i].Block? && OfWindow(s, (x.gen, i), x.got[i]))
  }

  /** A call that leads a flight is the one filed under its key; one that waits, waits
      for a flight of its own key. */
  predicate PcOk(s: State, r: ReaderId)
    requires r in s.readers
  {
    var x := s.readers[r];
    && (x.pc.Leads() ==>
          && x.pc.flight in s.table && s.table[x.pc.flight].key == x.OwnKey()
          && x.OwnKey() in s.flights && s.flights[x.OwnKey()] == x.pc.flight)
    && (x.pc.Waiting? ==> x.pc.flight in s.table && s.table[x.pc.flight].key == x.OwnKey())
    && (x.pc.Returned? || x.pc.Published? ==> OfWindow(s, x.OwnKey(), x.pc.block))
    && (x.pc.Published? ==> s.table[x.pc.flight].result == Some(x.pc.block))
  }

  predicate FlightsOk(s: State) {
    && (forall f | f in s.table :: f < s.next && (s.table[f].result.Some? ==> OfWindow(s, s.table[f].key, s.table[f].result.value)))
    && (forall k | k in s.flights :: s.flights[k] in s.table && s.table[s.flights[k]].key == k)
  }

  /** No two calls lead the same flight. */
  predicate OneLeader(s: State) {
    forall r1, r2 | r1 in s.readers && r2 in s.readers && s.readers[r1].pc.Leads() && s.readers[r2].pc.Leads() ::
      s.readers[r1].pc.flight == s.readers[r2].pc.flight ==> r1 == r2
  }

  predicate Inv(s: State) {
    && PlansOk(s) && FlightsOk(s) && OneLeader(s)
    && (forall r | r in s.readers :: ReaderOk(s, r))
    && (forall r | r in s.readers :: PcOk(s, r))
  }

  lemma ReplanInv(s: State, ws: seq<Window>)
    requires Inv(s)
    ensures Inv(Do(s, Replan(ws)))
  {
  }

  /** Joining a flight, or filing a new one. */
  lemma JoinInv(s: State, r: ReaderId, i: nat)
    requires Inv(s) && Enabled(s, Look(r, i)) && s.readers[r].(idx := i).OwnKey() in s.flights
    ensures Inv(Do(s, Look(r, i)))
  {
  }

  lemma FileInv(s: State, r: ReaderId, i: nat)
    requires Inv(s) && Enabled(s, Look(r, i)) && s.readers[r].(idx := i).OwnKey() !in s.flights
    ensures Inv(Do(s, Look(r, i)))
  {
    var s' := Do(s, Look(r, i));
    assert ReaderOk(s, r);
    forall q | q in s'.readers ensures ReaderOk(s', q) && PcOk(s', q) {
      assert ReaderOk(s, q) && PcOk(s, q);
    }
  }

  lemma CleanupInv(s: State, r: ReaderId)
    requires Inv(s) && Enabled(s, Cleanup(r))
    ensures Inv(Do(s, Cleanup(r)))
  {
    var s' := Do(s, Cleanup(r));
    assert ReaderOk(s, r) && PcOk(s, r);
    forall q | q in s'.readers ensures ReaderOk(s', q) && PcOk(s', q) {
      assert ReaderOk(s, q) && PcOk(s, q);
    }
  }

  lemma PublishInv(s: State, r: ReaderId)
    requires Inv(s) && Enabled(s, Publish(r))
    ensures Inv(Do(s, Publish(r)))
  {
    var s' := Do(s, Publish(r));
    assert ReaderOk(s, r) && PcOk(s, r);
    forall q | q in s'.readers ensures ReaderOk(s', q) && PcOk(s', q) {
      assert ReaderOk(s, q) && PcOk(s, q);
    }
  }

  /** Steps that change only the acting call. */
  lemma LocalInv(s: State, step: Step)
    requires Inv(s) && Enabled(s, step) && (step.Issue? || step.Cancel?)
    ensures Inv(Do(s, step))
  {
    var s' := Do(s, step);
    assert ReaderOk(s, step.r) && PcOk(s, step.r);
    forall q | q in s'.readers ensures ReaderOk(s', q) && PcOk(s', q) {
      assert ReaderOk(s, q) && PcOk(s, q);
    }
  }

  lemma ReceiveInv(s: State, r: ReaderId)
    requires Inv(s) && Enabled(s, Receive(r))
    ensures Inv(Do(s, Receive(r)))
  {
    var s' := Do(s, Receive(r));
    assert ReaderOk(s, r) && PcOk(s, r);
    forall q | q in s'.readers ensures ReaderOk(s', q) && PcOk(s', q) {
      assert ReaderOk(s, q) && PcOk(s, q);
    }
  }

  lemma BeginInv(s: State, r: ReaderId)
    requires Inv(s) && Enabled(s, Begin(r))
    ensures Inv(Do(s, Begin(r)))
  {
  }

  lemma ReturnInv(s: State, r: ReaderId, failed: bool)
    requires Inv(s) && Enabled(s, Return(r, failed))
    ensures Inv(Do(s, Return(r, failed)))
  {
    var s' := Do(s, Return(r, failed));
    assert ReaderOk(s, r) && PcOk(s, r);
    forall q | q in s'.readers ensures ReaderOk(s', q) && PcOk(s', q) {
      assert ReaderOk(s, q) && PcOk(s, q);
    }
  }

  lemma StepInv(s: State, step: Step)
    requires Inv(s) && Enabled(s, step)
    ensures Inv(Do(s, step))
  {
    match step
    case Replan(ws) => ReplanInv(s, ws);
    case Look(r, i) =>
      if s.readers[r].(idx := i).OwnKey() in s.flights { JoinInv(s, r, i); } else { FileInv(s, r, i); }
    case Begin(r) => BeginInv(s, r);
    case Receive(r) => ReceiveInv(s, r);
    case Return(r, failed) => ReturnInv(s, r, failed);
    case Publish(r) => PublishInv(s, r);
    case Cleanup(r) => CleanupInv(s, r);
    case _ => LocalInv(s, step);
  }

  // ------------------------------------------------------------------
  // Whole runs
  // ------------------------------------------------------------------

  predicate Runs(s: State, steps: seq<Step>)
    decreases |steps|
  {
    steps == [] || (Enabled(s, steps[0]) && Runs(Do(s, steps[0]), steps[1..]))
  }

  function After(s: State, steps: seq<Step>): State
    requires Runs(s, steps)
    decreases |steps|
  {
    if steps == [] then s else After(Do(s, steps[0]), steps[1..])
  }

  lemma {:induction false} RunInv(s: State, steps: seq<Step>)
    requires Inv(s) && Runs(s, steps)
    ensures Inv(After(s, steps))
    decreases |steps|
  {
    if steps != [] {
      StepInv(s, steps[0]);
      RunInv(Do(s, steps[0]), steps[1..]);
    }
  }

  /** In every interleaving: a block a Read call holds for window i was read for window
      i of the plan that call began with, whatever plans came since. */
  lemma {:induction false} BlocksComeFromOwnPlan(steps: seq<Step>, r: ReaderId, i: nat)
    requires Runs(INIT, steps)
    requires var s := After(INIT, steps); r in s.readers && i in s.readers[r].got
    ensures var x := After(INIT, steps).readers[r];
            i < |x.windows| && x.got[i].Block? && x.got[i].of == x.windows[i].merged
  {
    RunInv(INIT, steps);
    assert ReaderOk(After(INIT, steps), r);
  }

  /** In every interleaving: at most one inner read is in flight for a window of a
      generation. */
  lemma {:induction false} OneReadInFlight(steps: seq<Step>, r1: ReaderId, r2: ReaderId)
    requires Runs(INIT, steps)
    requires var s := After(INIT, steps);
             && r1 in s.readers && r2 in s.readers
             && s.readers[r1].pc.Reading? && s.readers[r2].pc.Reading?
             && s.readers[r1].OwnKey() == s.readers[r2].OwnKey()
    ensures r1 == r2
  {
    RunInv(INIT, steps);
    var s := After(INIT, steps);
    assert PcOk(s, r1) && PcOk(s, r2);
  }

  /** Even with caching off a Read call may be served a block that was read before the
      call began: a finished flight stays filed until its leader cleans up, so a call
      that begins in between gets its block with no inner read at all. */
  lemma {:induction false} FlightMayPredateRead(s: State, leader: ReaderId, r: ReaderId)
    requires Inv(s) && leader in s.readers && r !in s.readers
    requires var x := s.readers[leader]; x.pc.Published? && x.pc.block.Block? && x.gen == s.gen
    ensures var x := s.readers[leader];
            var steps := [Begin(r), Look(r, x.idx), Receive(r)];
            && Runs(s, steps) && After(s, steps).inner == s.inner && r in After(s, steps).readers
            && After(s, steps).readers[r].got == map[x.idx := x.pc.block]
  {
    var x := s.readers[leader];
    assert ReaderOk(s, leader) && PcOk(s, leader);
    var s1 := Do(s, Begin(r));
    var s2 := Do(s1, Look(r, x.idx));
    Unfold(s, Begin(r), [Look(r, x.idx), Receive(r)]);
    Unfold(s1, Look(r, x.idx), [Receive(r)]);
    Unfold(s2, Receive(r), []);
    assert [Begin(r)] + ([Look(r, x.idx)] + ([Receive(r)] + [])) == [Begin(r), Look(r, x.idx), Receive(r)];
  }

  lemma {:induction false} Unfold(s: State, step: Step, rest: seq<Step>)
    ensures Runs(s, [step] + rest) <==> Enabled(s, step) && Runs(Do(s, step), rest)
    ensures Runs(s, [step] + rest) ==> After(s, [step] + rest) == After(Do(s, step), rest)
  {
  }

  predicate HasPublished(s: State) {
    && 0 in s.readers && 1 !in s.readers
    && s.readers[0].pc.Published? && s.readers[0].pc.block.Block? && s.readers[0].gen == s.gen
  }

  lemma {:induction false} LeaderPublishes(s: State, x: Reader) returns (steps: seq<Step>)
    requires s.readers == map[0 := x] && x.pc == Leading(0) && 0 in s.table && x.gen == s.gen && x.idx < |x.windows|
    ensures Runs(s, steps) && HasPublished(After(s, steps))
  {
    var s1 := Do(s, Issue(0));
    var s2 := Do(s1, Return(0, false));
    Unfold(s2, Publish(0), []);
    steps := [Publish(0)] + [];
    Unfold(s1, Return(0, false), steps);
    steps := [Return(0, false)] + steps;
    Unfold(s, Issue(0), steps);
    steps := [Issue(0)] + steps;
  }

  /** Such a state comes up: one plan with one window, and one call that has published. */
  lemma {:induction false} PublishedIsReachable(w: Window) returns (steps: seq<Step>)
    ensures Runs(INIT, steps) && Inv(After(INIT, steps)) && HasPublished(After(INIT, steps))
  {
    var s1 := Do(INIT, Replan([w]));
    var s2 := Do(s1, Begin(0));
    var s3 := Do(s2, Look(0, 0));
    steps := LeaderPublishes(s3, Reader(1, [w], 0, Leading(0), map[], 0, map[0 := false]));
    Unfold(s2, Look(0, 0), steps);
    steps := [Look(0, 0)] + steps;
    Unfold(s1, Begin(0), steps);
    steps := [Begin(0)] + steps;
    Unfold(INIT, Replan([w]), steps);
    steps := [Replan([w])] + steps;
    RunInv(INIT, steps);
  }
}
