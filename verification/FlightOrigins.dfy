/** Whose inner read a concurrent Read call is served from (monitor/cluster.go with
    caching off): its own exactly when no flight for the window was filed when it looked. */
module FlightOrigins {
  import opened ClusterFlights
  import opened ClusteringReader
  import opened ClusterPlan
  import opened DataPoints

  /** b was returned by r's inner read for the window. */
  predicate ReadBy(s: State, b: Block, r: ReaderId, key: Key) {
    b.Block? ==> b.n < |s.inner| && s.inner[b.n] == Inner(r, key)
  }

  /** Where the block got for window i comes from. */
  predicate GotOk(s: State, r: ReaderId, x: Reader, i: nat) {
    && i in x.got && i in x.filed && x.got[i].Block? && x.got[i].n < |s.inner|
    && s.inner[x.got[i].n].key == (x.gen, i)
    && (s.inner[x.got[i].n].caller == r <==> !x.filed[i])
    && (!x.filed[i] ==> x.base <= x.got[i].n)
  }

  predicate OriginOk(s: State, r: ReaderId)
    requires r in s.readers
  {
    var x := s.readers[r];
    && x.base <= |s.inner|
    && (forall i | i in x.got :: GotOk(s, r, x, i))
    && (x.pc.Leads() ==> x.idx in x.filed && !x.filed[x.idx] && x.pc.flight in s.table && s.table[x.pc.flight].leader == r)
    && (x.pc.Returned? || x.pc.Published? ==> ReadBy(s, x.pc.block, r, x.OwnKey()) && (x.pc.block.Block? ==> x.base <= x.pc.block.n))
    && (x.pc.Waiting? ==> x.idx in x.filed && x.filed[x.idx] && x.pc.flight in s.table && s.table[x.pc.flight].leader != r)
  }

  /** A published result is its leader's own read. */
  predicate TableOk(s: State) {
    forall f | f in s.table && s.table[f].result.Some? :: ReadBy(s, s.table[f].result.value, s.table[f].leader, s.table[f].key)
  }

  /** The leader of a filed flight is still at it. */
  predicate FiledOk(s: State) {
    forall k | k in s.flights ::
      && s.flights[k] in s.table && s.table[s.flights[k]].leader in s.readers
      && s.readers[s.table[s.flights[k]].leader].pc.Leads()
      && s.readers[s.table[s.flights[k]].leader].pc.flight == s.flights[k]
  }

  predicate Origins(s: State) {
    TableOk(s) && FiledOk(s) && forall r | r in s.readers :: OriginOk(s, r)
  }

  /** Leaders of known flights stay, and inner reads are only added. */
  predicate Grows(s: State, s': State) {
    && s.inner <= s'.inner
    && forall f | f in s.table :: f in s'.table && s'.table[f].leader == s.table[f].leader
  }

  lemma OthersKeep(s: State, s': State, r: ReaderId)
    requires (forall q | q in s.readers :: OriginOk(s, q)) && Grows(s, s')
    requires forall q | q in s'.readers && q != r :: q in s.readers && s'.readers[q] == s.readers[q]
    ensures forall q | q in s'.readers && q != r :: OriginOk(s', q)
  {
    forall q | q in s'.readers && q != r ensures OriginOk(s', q) {
      assert OriginOk(s, q);
      forall i | i in s'.readers[q].got ensures GotOk(s', q, s'.readers[q], i) { assert GotOk(s, q, s.readers[q], i); }
    }
  }

  lemma ReplanOrigins(s: State, ws: seq<Window>)
    requires Origins(s)
    ensures Origins(Do(s, Replan(ws)))
  {
    var s' := Do(s, Replan(ws));
    forall r | r in s'.readers ensures OriginOk(s', r) {
      assert OriginOk(s, r);
      forall i | i in s'.readers[r].got ensures GotOk(s', r, s'.readers[r], i) { assert GotOk(s, r, s.readers[r], i); }
    }
  }

  predicate OthersSame(s: State, s': State, r: ReaderId) {
    && (forall q | q in s.readers :: q in s'.readers)
    && forall q | q in s'.readers && q != r :: q in s.readers && s'.readers[q] == s.readers[q]
  }

  /** What remains to be shown when only call r has moved. */
  lemma ActorMoved(s: State, s': State, r: ReaderId)
    requires Origins(s) && Grows(s, s') && OthersSame(s, s', r)
    requires r in s'.readers && OriginOk(s', r) && TableOk(s') && FiledOk(s')
    ensures Origins(s')
  {
    OthersKeep(s, s', r);
  }

  /** Filed flights stay led if the call that moves led none or goes on leading. */
  lemma FiledFrame(s: State, s': State, r: ReaderId)
    requires FiledOk(s) && s'.flights == s.flights && Grows(s, s') && OthersSame(s, s', r)
    requires r in s.readers && (s.readers[r].pc.Leads() ==> s'.readers[r].pc.Leads() && s'.readers[r].pc.flight == s.readers[r].pc.flight)
    ensures FiledOk(s')
  {
  }

  /** The call keeps what it has while it looks, waits or works on. */
  lemma KeepsGot(s: State, s': State, r: ReaderId)
    requires r in s.readers && r in s'.readers && OriginOk(s, r) && s.inner <= s'.inner
    requires s'.readers[r] == s.readers[r].(idx := s'.readers[r].idx, pc := s'.readers[r].pc, filed := s'.readers[r].filed)
    requires forall i | i in s.readers[r].filed :: i in s'.readers[r].filed && s'.readers[r].filed[i] == s.readers[r].filed[i]
    ensures forall i | i in s'.readers[r].got :: GotOk(s', r, s'.readers[r], i)
  {
    forall i | i in s'.readers[r].got ensures GotOk(s', r, s'.readers[r], i) { assert GotOk(s, r, s.readers[r], i); }
  }

  lemma BeginOrigins(s: State, r: ReaderId)
    requires Origins(s) && Enabled(s, Begin(r))
    ensures Origins(Do(s, Begin(r)))
  {
    OthersKeep(s, Do(s, Begin(r)), r);
  }

  lemma JoinOrigins(s: State, r: ReaderId, i: nat)
    requires Origins(s) && Enabled(s, Look(r, i)) && (s.readers[r].gen, i) in s.flights
    ensures Origins(Do(s, Look(r, i)))
  {
    var s' := Do(s, Look(r, i));
    assert OriginOk(s, r);
    KeepsGot(s, s', r);
    FiledFrame(s, s', r);
    ActorMoved(s, s', r);
  }

  lemma FileFiled(s: State, r: ReaderId, i: nat)
    requires FlightsOk(s) && FiledOk(s) && Enabled(s, Look(r, i)) && (s.readers[r].gen, i) !in s.flights
    ensures FiledOk(Do(s, Look(r, i)))
  {
  }

  lemma FileOrigins(s: State, r: ReaderId, i: nat)
    requires FlightsOk(s) && Origins(s) && Enabled(s, Look(r, i)) && (s.readers[r].gen, i) !in s.flights
    ensures Origins(Do(s, Look(r, i)))
  {
    var s' := Do(s, Look(r, i));
    assert OriginOk(s, r);
    KeepsGot(s, s', r);
    FileFiled(s, r, i);
    ActorMoved(s, s', r);
  }

  lemma WorkOrigins(s: State, step: Step)
    requires Origins(s) && Enabled(s, step) && (step.Issue? || step.Return? || step.Cancel?)
    ensures Origins(Do(s, step))
  {
    var s', r := Do(s, step), step.r;
    assert OriginOk(s, r);
    KeepsGot(s, s', r);
    FiledFrame(s, s', r);
    ActorMoved(s, s', r);
  }

  lemma PublishOrigins(s: State, r: ReaderId)
    requires r in s.readers && PcOk(s, r) && Origins(s) && Enabled(s, Publish(r))
    ensures Origins(Do(s, Publish(r)))
  {
    var s' := Do(s, Publish(r));
    assert OriginOk(s, r);
    KeepsGot(s, s', r);
    FiledFrame(s, s', r);
    ActorMoved(s, s', r);
  }

  /** A leader leads one flight, so cleaning up leaves no other of its flights filed. */
  lemma CleanupFiled(s: State, r: ReaderId)
    requires r in s.readers && PcOk(s, r) && FlightsOk(s) && FiledOk(s) && Enabled(s, Cleanup(r))
    ensures FiledOk(Do(s, Cleanup(r)))
  {
    var s' := Do(s, Cleanup(r));
    forall k | k in s'.flights ensures s.table[s.flights[k]].leader != r {
      assert s.table[s.flights[k]].key == k;
    }
  }

  /** Taking the block of a flight, as its leader or as one that waited. */
  lemma TakesBlock(s: State, s': State, r: ReaderId, b: Block, leader: ReaderId)
    requires r in s.readers && OriginOk(s, r) && s'.inner == s.inner
    requires r in s'.readers && s'.readers[r] == Take(s.readers[r], b)
    requires var x := s.readers[r];
             && ReadBy(s, b, leader, x.OwnKey()) && x.idx in x.filed && (leader == r <==> !x.filed[x.idx])
             && (leader == r && b.Block? ==> x.base <= b.n)
    ensures OriginOk(s', r)
  {
    forall i | i in s'.readers[r].got ensures GotOk(s', r, s'.readers[r], i) {
      if i != s.readers[r].idx { assert GotOk(s, r, s.readers[r], i); }
    }
  }

  lemma CleanupOrigins(s: State, r: ReaderId)
    requires r in s.readers && PcOk(s, r) && FlightsOk(s) && Origins(s) && Enabled(s, Cleanup(r))
    ensures Origins(Do(s, Cleanup(r)))
  {
    var s' := Do(s, Cleanup(r));
    assert OriginOk(s, r);
    CleanupFiled(s, r);
    TakesBlock(s, s', r, s.readers[r].pc.block, r);
    ActorMoved(s, s', r);
  }

  lemma ReceiveOrigins(s: State, r: ReaderId)
    requires r in s.readers && PcOk(s, r) && Origins(s) && Enabled(s, Receive(r))
    ensures Origins(Do(s, Receive(r)))
  {
    var s', f := Do(s, Receive(r)), s.table[s.readers[r].pc.flight];
    assert OriginOk(s, r);
    TakesBlock(s, s', r, f.result.value, f.leader);
    FiledFrame(s, s', r);
    ActorMoved(s, s', r);
  }

  lemma StepOrigins(s: State, step: Step)
    requires Inv(s) && Origins(s) && Enabled(s, step)
    ensures Origins(Do(s, step))
  {
    match step
    case Replan(ws) => ReplanOrigins(s, ws);
    case Begin(r) => BeginOrigins(s, r);
    case Look(r, i) => if (s.readers[r].gen, i) in s.flights { JoinOrigins(s, r, i); } else { FileOrigins(s, r, i); }
    case Cleanup(r) => CleanupOrigins(s, r);
    case Receive(r) => ReceiveOrigins(s, r);
    case Publish(r) => PublishOrigins(s, r);
    case _ => WorkOrigins(s, step);
  }

  lemma {:induction false} RunOrigins(s: State, steps: seq<Step>)
    requires Inv(s) && Origins(s) && Runs(s, steps)
    ensures Inv(After(s, steps)) && Origins(After(s, steps))
    decreases |steps|
  {
    if steps != [] {
      StepOrigins(s, steps[0]);
      StepInv(s, steps[0]);
      RunOrigins(Do(s, steps[0]), steps[1..]);
    }
  }

  /** Looking for a window: with no flight filed the call leads one of its own; otherwise
      it issues nothing and waits for the filed flight, which another call is still at. */
  lemma {:induction false} LookDecides(steps: seq<Step>, r: ReaderId, i: nat)
    requires Runs(INIT, steps) && Enabled(After(INIT, steps), Look(r, i))
    ensures var s := After(INIT, steps);
            var key := (s.readers[r].gen, i);
            var x := Do(s, Look(r, i)).readers[r];
            && x.filed[i] == (key in s.flights)
            && (key !in s.flights ==> x.pc.Leading? && x.pc.flight !in s.table)
            && (key in s.flights ==> x.pc == Waiting(s.flights[key]))
            && (key in s.flights ==> exists q | q in s.readers && q != r :: s.readers[q].pc.Leads() && s.readers[q].pc.flight == s.flights[key])
  {
    RunOrigins(INIT, steps);
    var s := After(INIT, steps);
    var key := (s.readers[r].gen, i);
    if key in s.flights {
      var q := s.table[s.flights[key]].leader;
      assert s.readers[q].pc.Leads();
    }
  }

  /** In every run: a call is served from its own inner read exactly when no flight for
      the window was filed when it looked, and only a flight that was filed then can hand
      it a block that was read before the call began. */
  lemma {:induction false} OwnReadIff(steps: seq<Step>, r: ReaderId, i: nat)
    requires Runs(INIT, steps)
    requires var s := After(INIT, steps); r in s.readers && i in s.readers[r].got
    ensures var s := After(INIT, steps);
            var x := s.readers[r];
            && i in x.filed && x.got[i].Block? && x.got[i].n < |s.inner| && s.inner[x.got[i].n].key == (x.gen, i)
            && (s.inner[x.got[i].n].caller == r <==> !x.filed[i])
            && (x.got[i].n < x.base ==> x.filed[i])
  {
    RunOrigins(INIT, steps);
    assert OriginOk(After(INIT, steps), r);
    assert GotOk(After(INIT, steps), r, After(INIT, steps).readers[r], i);
  }

  // ------------------------------------------------------------------
  // Values
  // ------------------------------------------------------------------

  /** Every plan installed in the run consists of well-formed windows. */
  ghost predicate GoodPlans(steps: seq<Step>, limits: Limits) {
    forall k | 0 <= k < |steps| && steps[k].Replan? :: AllOk(steps[k].windows, limits)
  }

  ghost predicate AllOk(ws: seq<Window>, limits: Limits) { forall i | 0 <= i < |ws| :: WindowOk(ws[i], limits) }

  ghost predicate PlansGood(s: State, limits: Limits) {
    AllOk(s.windows, limits) && forall r | r in s.readers :: AllOk(s.readers[r].windows, limits)
  }

  lemma {:induction false} RunPlansGood(s: State, steps: seq<Step>, limits: Limits)
    requires Runs(s, steps) && PlansGood(s, limits) && GoodPlans(steps, limits)
    ensures PlansGood(After(s, steps), limits)
    decreases |steps|
  {
    if steps != [] {
      var rest := steps[1..];
      forall k | 0 <= k < |rest| && rest[k].Replan? ensures AllOk(rest[k].windows, limits) {
        assert rest[k] == steps[k + 1];
      }
      RunPlansGood(Do(s, steps[0]), rest, limits);
    }
  }

  /** The device memory at the moment of each inner read is `world`. Whatever calls, plans
      and flights interleave, the value a call cuts out for a point in range is the one a
      direct read of that point would have given at the moment of the inner read that
      served it. */
  lemma {:induction false} ConcurrentValueIsDirect(steps: seq<Step>, limits: Limits, world: nat -> Memory,
      r: ReaderId, i: nat, p: Clusterable, block: Value)
    requires Runs(INIT, steps) && GoodPlans(steps, limits)
    requires var s := After(INIT, steps); r in s.readers && i in s.readers[r].got && s.readers[r].got[i].Block?
    requires var x := After(INIT, steps).readers[r];
             world(x.got[i].n).Direct(x.got[i].of) == Ok(block)
    requires var x := After(INIT, steps).readers[r];
             p.InRange() && i < |x.windows| && Covers(x.windows[i], p)
    ensures var x := After(INIT, steps).readers[r];
            Extracted(p, x.windows[i], block) == FromResult(world(x.got[i].n).Direct(p))
  {
    BlocksComeFromOwnPlan(steps, r, i);
    RunPlansGood(INIT, steps, limits);
    var x := After(INIT, steps).readers[r];
    ExtractedIsDirect(world(x.got[i].n), limits, x.windows[i], p, block);
  }

  // ------------------------------------------------------------------
  // A call that goes on has every block it asked for
  // ------------------------------------------------------------------

  /** Every window a call has looked for has given it its block, unless the call is at that
      window now or has failed. */
  predicate NoneSkipped(x: Reader) {
    forall i | i in x.filed :: i in x.got || x.pc.Gone? || (i == x.idx && !x.pc.Idle?)
  }

  predicate NobodySkips(s: State) { forall r | r in s.readers :: NoneSkipped(s.readers[r]) }

  lemma StepSkipsNone(s: State, step: Step)
    requires NobodySkips(s) && Enabled(s, step)
    ensures NobodySkips(Do(s, step))
  {
    var s' := Do(s, step);
    forall r | r in s'.readers ensures NoneSkipped(s'.readers[r]) { assert r in s.readers ==> NoneSkipped(s.readers[r]); }
  }

  lemma {:induction false} RunSkipsNone(s: State, steps: seq<Step>)
    requires NobodySkips(s) && Runs(s, steps)
    ensures NobodySkips(After(s, steps))
    decreases |steps|
  {
    if steps != [] {
      StepSkipsNone(s, steps[0]);
      RunSkipsNone(Do(s, steps[0]), steps[1..]);
    }
  }

  /** In every run, a call that is between windows has the block of every window it has
      looked for: an inner read that fails ends the call, and every call that waits for it. */
  lemma {:induction false} FailureEndsTheCall(steps: seq<Step>, r: ReaderId, i: nat)
    requires Runs(INIT, steps) && r in After(INIT, steps).readers
    requires After(INIT, steps).readers[r].pc.Idle? && i in After(INIT, steps).readers[r].filed
    ensures i in After(INIT, steps).readers[r].got
  {
    RunSkipsNone(INIT, steps);
    assert NoneSkipped(After(INIT, steps).readers[r]);
  }

  lemma {:induction false} GoneStays(s: State, steps: seq<Step>, r: ReaderId)
    requires Runs(s, steps) && r in s.readers && s.readers[r].pc.Gone?
    ensures r in After(s, steps).readers && After(s, steps).readers[r] == s.readers[r]
    decreases |steps|
  {
    if steps != [] { GoneStays(Do(s, steps[0]), steps[1..], r); }
  }

  /** A waiting call whose context ends is over for good, and its flight goes on without it. */
  lemma {:induction false} CancelledIsOver(s: State, steps: seq<Step>, r: ReaderId)
    requires Enabled(s, Cancel(r)) && Runs(Do(s, Cancel(r)), steps)
    ensures Do(s, Cancel(r)) == s.(readers := s.readers[r := s.readers[r].(pc := Gone)])
    ensures var s' := After(Do(s, Cancel(r)), steps); r in s'.readers && s'.readers[r].pc.Gone?
  {
    GoneStays(Do(s, Cancel(r)), steps, r);
  }
}
