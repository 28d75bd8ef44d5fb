/** The account of a transaction (protocol/modbus/conn.go, protocol/modbus/transaction.go):
    which steps of a run give it its response and its errors and take it out of its pool,
    whose ID the response carried, and in which order requests are written. */
module ConnectionAccount {
  import opened Bytes
  import opened Connection
  import opened ConnectionOwners
  import opened ConnectionRuns
  import opened TransactionPool
  import opened Wrappers

  // ------------------------------------------------------------------
  // Which steps concern a transaction
  // ------------------------------------------------------------------

  /** A read loop completes t, which it holds, with the response. */
  predicate Answers(s: State, step: Step, t: nat) {
    step.ReaderComplete? && step.ok && step.g in s.gens && s.gens[step.g].held == Some(t)
  }

  /** Everything in pool p is cancelled: it is reset, a connect reuses it, or the current
      generation goes down for the first time. */
  predicate Cancels(s: State, step: Step, p: nat) {
    match step
    case ResetPool(q) => q == p
    case Connect(_) => s.pool == p
    case Disconnect => s.pool == p && !s.fired
    case SetDisconnected(g) => g == s.gen && s.pool == p && !s.fired
    case _ => false
  }

  /** t is completed with an error: by the read loop that holds it, by the write loop that
      took it, by a timeout, or with its whole pool. */
  predicate Fails(s: State, step: Step, t: nat) {
    t in s.txs && match step
    case ReaderComplete(g, ok) => !ok && g in s.gens && s.gens[g].held == Some(t)
    case WriterDone(g, failed) => failed && g in s.gens && s.gens[g].writing == Some(t)
    case Timeout(p, id) => p == s.txs[t].pool && id == s.txs[t].id && InPool(s, t)
    case _ => InPool(s, t) && Cancels(s, step, s.txs[t].pool)
  }

  /** t is taken out of its pool: by a received ID, by a sender whose ID names it, by a
      timeout, or with its whole pool. */
  predicate Removes(s: State, step: Step, t: nat) {
    t in s.txs && InPool(s, t) && match step
    case ReaderRelease(g, id) => g in s.gens && s.gens[g].pool == s.txs[t].pool && id == s.txs[t].id
    case CallerRelease(u) => u in s.txs && s.txs[u].pool == s.txs[t].pool && s.txs[u].id == s.txs[t].id
    case Timeout(p, id) => p == s.txs[t].pool && id == s.txs[t].id
    case _ => Cancels(s, step, s.txs[t].pool)
  }

  function One(b: bool): nat { if b then 1 else 0 }

  /** From s to s', t got this and no more. */
  predicate Booked(s: State, s': State, t: nat, answered: bool, failed: bool, removed: bool)
    requires t in s.txs
  {
    && t in s'.txs
    && s'.txs[t].responses == s.txs[t].responses + One(answered)
    && s'.txs[t].errors == s.txs[t].errors + One(failed)
    && (InPool(s', t) <==> InPool(s, t) && !removed)
  }

  // ------------------------------------------------------------------
  // Step by step
  // ------------------------------------------------------------------

  lemma TakeBooked(s: State, p: nat, id: u16, why: Leave, errors: nat, t: nat)
    requires PoolsOk(s) && t in s.txs && errors <= 1
    requires p in s.pools && id in s.pools[p].tx && s.pools[p].tx[id] in s.txs
    ensures var hit := InPool(s, t) && s.txs[t].pool == p && s.txs[t].id == id;
            Booked(s, Take(s, p, id, why, errors), t, false, hit && errors == 1, hit)
  {
    assert PoolOk(s, p);
  }

  lemma CancelBooked(s: State, p: nat, why: Leave, t: nat)
    requires t in s.txs && p in s.pools
    ensures var hit := InPool(s, t) && s.txs[t].pool == p; Booked(s, CancelAll(s, p, why), t, false, hit, hit)
  {
  }

  lemma CloseBooked(s: State, p: nat, t: nat)
    requires PoolsOk(s) && t in s.txs && p in s.pools
    ensures var hit := InPool(s, t) && s.txs[t].pool == p; Booked(s, ClosePool(s, p), t, false, hit, hit)
  {
    assert PoolOk(s, p);
    CancelBooked(s, p, Closed, t);
  }

  lemma TeardownBooked(s: State, s1: State, t: nat)
    requires PoolsOk(s) && t in s.txs && s.gen in s.gens && s.pool in s.pools && s1 == s.(connected := false)
    ensures var hit := InPool(s, t) && s.txs[t].pool == s.pool && !s.fired; Booked(s, Teardown(s1), t, false, hit, hit)
  {
    if !s.fired {
      var g := s.gens[s.gen];
      var s2 := s1.(fired := true, gens := s.gens[s.gen := g.(done := g.done + 1, sock := g.sock + (if s.gen > 0 then 1 else 0))]);
      assert forall p | p in s2.pools :: PoolOk(s, p) && PoolOk(s2, p);
      CloseBooked(s2, s.pool, t);
    }
  }

  lemma FreshBooked(s: State, t: nat)
    requires CurrentOk(s) && PoolsOk(s) && TxsOk(s) && t in s.txs
    ensures var hit := InPool(s, t) && s.txs[t].pool == s.pool; Booked(s, FreshPool(s), t, false, hit, hit)
    ensures InPool(FreshPool(s), t) ==> s.txs[t].pool != FreshPool(s).pool
  {
    assert PoolOk(s, s.pool) && TxOk(s, t);
    if !s.pools[s.pool].closed { CancelBooked(s, s.pool, Reset, t); }
  }

  lemma ConnectBooked(s: State, dialled: bool, t: nat)
    requires Core(s) && !s.connected && t in s.txs
    ensures var hit := InPool(s, t) && s.txs[t].pool == s.pool; Booked(s, DoConnect(s, dialled), t, false, hit, hit)
  {
    FreshBooked(s, t);
    if !dialled {
      FreshPoolCore(s);
      CloseBooked(FreshPool(s), FreshPool(s).pool, t);
    }
  }

  lemma CallerReleaseBooked(s: State, u: nat, t: nat)
    requires PoolsOk(s) && t in s.txs && Enabled(s, CallerRelease(u))
    ensures Booked(s, Do(s, CallerRelease(u)), t, false, false, Removes(s, CallerRelease(u), t))
  {
    var x, s1 := s.txs[u], GiveUp(s, u);
    assert PoolOk(s, x.pool);
    assert forall p | p in s1.pools :: PoolOk(s, p) && PoolOk(s1, p);
    if x.id in s.pools[x.pool].tx { TakeBooked(s1, x.pool, x.id, ByCaller(u, s.pools[x.pool].draws - x.draw), 0, t); }
  }

  lemma ReaderReleaseBooked(s: State, g: nat, id: u16, t: nat)
    requires PoolsOk(s) && t in s.txs && Enabled(s, ReaderRelease(g, id))
    ensures Booked(s, Do(s, ReaderRelease(g, id)), t, false, false, Removes(s, ReaderRelease(g, id), t))
  {
    TakeBooked(s, s.gens[g].pool, id, ByReader(g), 0, t);
  }

  lemma PlaceBooked(s: State, u: nat, g: nat, t: nat)
    requires PoolsOk(s) && t in s.txs && Enabled(s, Place(u, g))
    ensures Booked(s, Do(s, Place(u, g)), t, false, false, false)
  {
    var p, id, draw := PlaceCases(s, u, g);
    assert PoolOk(s, p);
  }

  /** Steps of the loops and the write channel that leave the pools alone. */
  lemma LoopBooked(s: State, step: Step, t: nat)
    requires t in s.txs && Enabled(s, step) && (step.ReaderComplete? || step.Queued? || step.WriterTake? || step.WriterDone?)
    ensures Booked(s, Do(s, step), t, Answers(s, step, t), Fails(s, step, t), false)
  {
  }

  lemma DownBooked(s: State, step: Step, t: nat)
    requires Core(s) && t in s.txs && Enabled(s, step) && (step.Disconnect? || step.SetDisconnected?)
    ensures Booked(s, Do(s, step), t, false, Fails(s, step, t), Removes(s, step, t))
  {
    TeardownBooked(s, s.(connected := false), t);
  }

  lemma TimeoutBooked(s: State, p: nat, id: u16, t: nat)
    requires PoolsOk(s) && t in s.txs && Enabled(s, Timeout(p, id))
    ensures Booked(s, Do(s, Timeout(p, id)), t, false, Fails(s, Timeout(p, id), t), Removes(s, Timeout(p, id), t))
  {
    TakeBooked(s, p, id, TimedOut, 1, t);
  }

  /** Every step books exactly what it is to a transaction that exists. */
  lemma StepBooked(s: State, step: Step, t: nat)
    requires Core(s) && Enabled(s, step) && t in s.txs
    ensures Booked(s, Do(s, step), t, Answers(s, step, t), Fails(s, step, t), Removes(s, step, t))
  {
    match step
    case Connect(dialled) => ConnectBooked(s, dialled, t);
    case Disconnect => DownBooked(s, step, t);
    case SetDisconnected(_) => DownBooked(s, step, t);
    case Place(u, g) => PlaceBooked(s, u, g, t);
    case CallerRelease(u) => CallerReleaseBooked(s, u, t);
    case ReaderRelease(g, id) => ReaderReleaseBooked(s, g, id, t);
    case Timeout(p, id) => TimeoutBooked(s, p, id, t);
    case ResetPool(p) => CancelBooked(s, p, Reset, t);
    case _ => LoopBooked(s, step, t);
  }

  /** A transaction that is new has got nothing yet and is in its pool. */
  lemma NewIsBlank(s: State, step: Step, t: nat)
    requires Sound(s) && Enabled(s, step) && t !in s.txs && t in Do(s, step).txs
    ensures var s' := Do(s, step); s'.txs[t].responses == 0 && s'.txs[t].errors == 0 && InPool(s', t)
  {
    if step.Place? {
      var p, id, draw := PlaceCases(s, step.t, step.g);
    } else {
      StepKeepsDraws(s, step);
    }
  }

  // ------------------------------------------------------------------
  // Whole runs
  // ------------------------------------------------------------------

  /** How often t is answered, and failed, in a run. */
  function TimesAnswered(s: State, steps: seq<Step>, t: nat): nat
    requires Runs(s, steps)
    decreases |steps|
  {
    if steps == [] then 0 else One(Answers(s, steps[0], t)) + TimesAnswered(Do(s, steps[0]), steps[1..], t)
  }

  function TimesFailed(s: State, steps: seq<Step>, t: nat): nat
    requires Runs(s, steps)
    decreases |steps|
  {
    if steps == [] then 0 else One(Fails(s, steps[0], t)) + TimesFailed(Do(s, steps[0]), steps[1..], t)
  }

  lemma HeldExists(s: State, step: Step, t: nat)
    requires Sound(s) && Answers(s, step, t)
    ensures t in s.txs
  {
    assert GenOk(s, step.g);
  }

  lemma {:induction false} RunBooked(s: State, steps: seq<Step>, t: nat)
    requires Sound(s) && Runs(s, steps) && t in After(s, steps).txs
    ensures var x := After(s, steps).txs[t];
      && x.responses == (if t in s.txs then s.txs[t].responses else 0) + TimesAnswered(s, steps, t)
      && x.errors == (if t in s.txs then s.txs[t].errors else 0) + TimesFailed(s, steps, t)
    decreases |steps|
  {
    if steps != [] {
      StepSound(s, steps[0]);
      RunBooked(Do(s, steps[0]), steps[1..], t);
      if t in s.txs {
        StepBooked(s, steps[0], t);
      } else {
        if Answers(s, steps[0], t) { HeldExists(s, steps[0], t); }
        if t in Do(s, steps[0]).txs { NewIsBlank(s, steps[0], t); }
      }
    }
  }

  /** In every run: the responses a transaction got are the completions with a response by
      the read loop that held it, and its errors are the failing completions, failed
      writes, timeouts, resets and closes that hit it, each counted once. */
  lemma {:induction false} AccountIsExact(steps: seq<Step>, t: nat)
    requires Runs(INIT, steps) && t in After(INIT, steps).txs
    ensures After(INIT, steps).txs[t].responses == TimesAnswered(INIT, steps, t)
    ensures After(INIT, steps).txs[t].errors == TimesFailed(INIT, steps, t)
  {
    InitSound();
    RunBooked(INIT, steps, t);
  }

  lemma {:induction false} RunsParts(s: State, steps: seq<Step>, k: nat)
    requires Runs(s, steps) && k <= |steps|
    ensures Runs(s, steps[..k]) && (k < |steps| ==> Enabled(After(s, steps[..k]), steps[k]))
    decreases k
  {
    if k > 0 {
      RunsParts(Do(s, steps[0]), steps[1..], k - 1);
      assert steps[..k][1..] == steps[1..][..k - 1];
    }
  }

  /** Step k of the run answers t. */
  predicate AnsweredAt(s: State, steps: seq<Step>, t: nat, k: nat) {
    k < |steps| && Runs(s, steps[..k]) && Answers(After(s, steps[..k]), steps[k], t)
  }

  lemma {:induction false} LaterAt(s: State, steps: seq<Step>, t: nat, k: nat)
    requires Runs(s, steps) && steps != []
    ensures AnsweredAt(s, steps, t, k + 1) <==> AnsweredAt(Do(s, steps[0]), steps[1..], t, k)
  {
    if k + 1 < |steps| { assert steps[..k + 1][1..] == steps[1..][..k]; }
  }

  lemma {:induction false} AnsweredSomewhere(s: State, steps: seq<Step>, t: nat)
    requires Runs(s, steps)
    ensures TimesAnswered(s, steps, t) >= 1 <==> exists k: nat :: AnsweredAt(s, steps, t, k)
    decreases |steps|
  {
    if steps != [] {
      AnsweredSomewhere(Do(s, steps[0]), steps[1..], t);
      assert steps[..0] == [];
      assert AnsweredAt(s, steps, t, 0) <==> Answers(s, steps[0], t);
      if k: nat :| AnsweredAt(Do(s, steps[0]), steps[1..], t, k) { LaterAt(s, steps, t, k); }
      if k: nat :| k > 0 && AnsweredAt(s, steps, t, k) { LaterAt(s, steps, t, k - 1); }
    }
  }

  /** In every run a transaction has its response if and only if, at some step, the read
      loop that held it completed it with one. */
  lemma {:induction false} AnsweredIff(steps: seq<Step>, t: nat)
    requires Runs(INIT, steps) && t in After(INIT, steps).txs
    ensures After(INIT, steps).txs[t].responses == 1 <==>
      exists k: nat | k < |steps| :: Runs(INIT, steps[..k]) && Answers(After(INIT, steps[..k]), steps[k], t)
  {
    AccountIsExact(steps, t);
    AnsweredAtMostOnce(steps, t);
    AnsweredSomewhere(INIT, steps, t);
    if k: nat :| k < |steps| && Runs(INIT, steps[..k]) && Answers(After(INIT, steps[..k]), steps[k], t) {
      assert AnsweredAt(INIT, steps, t, k);
    }
  }

  // ------------------------------------------------------------------
  // The loops of a generation
  // ------------------------------------------------------------------

  function FiledUnder(s: State, p: nat, id: u16): Option<nat> {
    if p in s.pools && id in s.pools[p].tx then Some(s.pools[p].tx[id]) else None
  }

  /** What a step makes of what generation g's read loop holds, of its write channel, and
      of what its write loop has taken. */
  function HeldAfter(s: State, step: Step, g: nat, x: Gen): Option<nat> {
    match step
    case ReaderRelease(h, id) => if h == g then FiledUnder(s, x.pool, id) else x.held
    case ReaderComplete(h, _) => if h == g then None else x.held
    case _ => x.held
  }

  function QueueAfter(s: State, step: Step, g: nat, x: Gen): seq<nat> {
    match step
    case Queued(t) => if t in s.txs && s.txs[t].gen == g then x.queue + [t] else x.queue
    case WriterTake(h) => if h == g && x.queue != [] then x.queue[1..] else x.queue
    case _ => x.queue
  }

  function WritingAfter(step: Step, g: nat, x: Gen): Option<nat> {
    match step
    case WriterTake(h) => if h == g && x.queue != [] then Some(x.queue[0]) else x.writing
    case WriterDone(h, _) => if h == g then None else x.writing
    case _ => x.writing
  }

  predicate Moved(s: State, step: Step, g: nat, x: Gen, y: Gen) {
    && y.pool == x.pool && y.held == HeldAfter(s, step, g, x)
    && y.queue == QueueAfter(s, step, g, x) && y.writing == WritingAfter(step, g, x)
  }

  lemma LoopMoves(s: State, step: Step, g: nat)
    requires Enabled(s, step) && g in s.gens
    requires step.Queued? || step.ReaderRelease? || step.ReaderComplete? || step.WriterTake? || step.WriterDone?
    ensures Do(s, step).gens.Keys == s.gens.Keys && Moved(s, step, g, s.gens[g], Do(s, step).gens[g])
  {
  }

  lemma PlaceMoves(s: State, t: nat, h: nat)
    requires Enabled(s, Place(t, h))
    ensures Do(s, Place(t, h)).gens == s.gens
  {
    var p, id, draw := PlaceCases(s, t, h);
  }

  lemma NoNextGen(s: State)
    requires GensOk(s)
    ensures s.gen + 1 !in s.gens
  {
    assert forall g | g in s.gens :: GenOk(s, g) && g <= s.gen;
  }

  lemma ConnectMoves(s: State, dialled: bool, g: nat)
    requires Core(s) && Enabled(s, Connect(dialled)) && g in Do(s, Connect(dialled)).gens
    ensures var y := Do(s, Connect(dialled)).gens[g];
      if g in s.gens then SameGen(s.gens[g], y) else y.held == None && y.queue == [] && y.writing == None
  {
    var s1 := FreshPool(s);
    FreshPoolSame(s);
    NoNextGen(s);
    ClosePoolSame(s1, s1.pool);
  }

  lemma QuietMoves(s: State, step: Step, g: nat)
    requires Enabled(s, step) && g in Do(s, step).gens
    requires step.Disconnect? || step.SetDisconnected? || step.CallerRelease? || step.Timeout? || step.ResetPool?
    ensures g in s.gens && Moved(s, step, g, s.gens[g], Do(s, step).gens[g])
  {
    QuietGens(s, step);
  }

  /** Every step moves a generation by the table above; a new one starts with nothing. */
  lemma StepMoves(s: State, step: Step, g: nat)
    requires Core(s) && Enabled(s, step) && g in Do(s, step).gens
    ensures var y := Do(s, step).gens[g];
      if g in s.gens then Moved(s, step, g, s.gens[g], y) else y.held == None && y.queue == [] && y.writing == None
  {
    match step
    case Connect(dialled) => ConnectMoves(s, dialled, g);
    case Place(t, h) => PlaceMoves(s, t, h);
    case Disconnect => QuietMoves(s, step, g);
    case SetDisconnected(_) => QuietMoves(s, step, g);
    case CallerRelease(_) => QuietMoves(s, step, g);
    case Timeout(_, _) => QuietMoves(s, step, g);
    case ResetPool(_) => QuietMoves(s, step, g);
    case _ => LoopKeys(s, step); LoopMoves(s, step, g);
  }

  lemma LoopKeys(s: State, step: Step)
    requires Enabled(s, step)
    requires step.Queued? || step.ReaderRelease? || step.ReaderComplete? || step.WriterTake? || step.WriterDone?
    ensures Do(s, step).gens.Keys == s.gens.Keys
  {
  }

  // ------------------------------------------------------------------
  // Whose response it is
  // ------------------------------------------------------------------

  /** The ID a generation's read loop last looked up with success. */
  function LastLookup(steps: seq<Step>, g: nat): Option<u16> {
    if steps == [] then None
    else match steps[|steps| - 1]
      case ReaderRelease(h, id) => if h == g then Some(id) else LastLookup(steps[..|steps| - 1], g)
      case _ => LastLookup(steps[..|steps| - 1], g)
  }

  /** What a read loop holds carries the ID it looked up. */
  predicate HoldsLookup(steps: seq<Step>, s: State, g: nat)
    requires g in s.gens
  {
    s.gens[g].held.Some? ==>
      s.gens[g].held.value in s.txs && LastLookup(steps, g) == Some(s.txs[s.gens[g].held.value].id)
  }

  predicate AllHoldLookup(steps: seq<Step>, s: State) { forall g | g in s.gens :: HoldsLookup(steps, s, g) }

  lemma SameId(s: State, step: Step, t: nat)
    requires Enabled(s, step) && t in s.txs
    ensures t in Do(s, step).txs && Do(s, step).txs[t].id == s.txs[t].id
  {
    if step.Place? {
      var p, id, draw := PlaceCases(s, step.t, step.g);
    } else {
      StepKeepsDraws(s, step);
    }
  }

  lemma LookupOf(steps: seq<Step>, step: Step, g: nat)
    ensures LastLookup(steps + [step], g) == if step.ReaderRelease? && step.g == g then Some(step.id) else LastLookup(steps, g)
  {
    assert (steps + [step])[..|steps|] == steps;
  }

  lemma GenLookup(steps: seq<Step>, s: State, step: Step, g: nat, s': State)
    requires Sound(s) && Enabled(s, step) && AllHoldLookup(steps, s) && s' == Do(s, step) && g in s'.gens
    ensures HoldsLookup(steps + [step], s', g)
  {
    StepMoves(s, step, g);
    LookupOf(steps, step, g);
    if g in s.gens && s'.gens[g].held.Some? {
      assert HoldsLookup(steps, s, g);
      if step.ReaderRelease? && step.g == g { assert PoolOk(s, s.gens[g].pool); }
      SameId(s, step, s'.gens[g].held.value);
    }
  }

  lemma {:induction false} RunsSnoc(s: State, steps: seq<Step>, step: Step)
    requires Runs(s, steps + [step])
    ensures Runs(s, steps) && Enabled(After(s, steps), step) && After(s, steps + [step]) == Do(After(s, steps), step)
    decreases |steps|
  {
    if steps == [] {
      assert [] + [step] == [step] && [step][1..] == [];
    } else {
      assert (steps + [step])[1..] == steps[1..] + [step];
      RunsSnoc(Do(s, steps[0]), steps[1..], step);
    }
  }

  lemma {:induction false} RunLookup(steps: seq<Step>)
    requires Runs(INIT, steps)
    ensures AllHoldLookup(steps, After(INIT, steps))
    decreases |steps|
  {
    if steps != [] {
      var n := |steps| - 1;
      assert steps == steps[..n] + [steps[n]];
      RunsSnoc(INIT, steps[..n], steps[n]);
      RunLookup(steps[..n]);
      Reached(steps[..n]);
      var s, s' := After(INIT, steps[..n]), After(INIT, steps);
      forall g | g in s'.gens ensures HoldsLookup(steps, s', g) { GenLookup(steps[..n], s, steps[n], g, s'); }
    }
  }

  /** In every run, what a read loop completes is a transaction of its own generation, with
      the ID of the frame it last looked up. */
  lemma {:induction false} ResponseGoesToItsId(steps: seq<Step>, g: nat, ok: bool)
    requires Runs(INIT, steps) && Enabled(After(INIT, steps), ReaderComplete(g, ok))
    ensures var s := After(INIT, steps);
      var t := s.gens[g].held.value;
      t in s.txs && s.txs[t].gen == g && s.txs[t].pool == s.gens[g].pool && LastLookup(steps, g) == Some(s.txs[t].id)
  {
    RunLookup(steps);
    Reached(steps);
    var s := After(INIT, steps);
    assert HoldsLookup(steps, s, g) && OwnOk(s, g);
  }

  // ------------------------------------------------------------------
  // In which order requests are written
  // ------------------------------------------------------------------

  function QueueOf(s: State, g: nat): seq<nat> { if g in s.gens then s.gens[g].queue else [] }

  /** What a step hands to generation g's write channel. */
  function HandedBy(s: State, step: Step, g: nat): seq<nat> {
    if step.Queued? && step.t in s.txs && s.txs[step.t].gen == g then [step.t] else []
  }

  /** What generation g's write loop has in hand after a step, if the step was a take. */
  function TakenBy(step: Step, s': State, g: nat): seq<nat> {
    if step == WriterTake(g) && g in s'.gens && s'.gens[g].writing.Some? then [s'.gens[g].writing.value] else []
  }

  /** The transactions handed to generation g's write channel in a run, in order. */
  function Handed(s: State, steps: seq<Step>, g: nat): seq<nat>
    requires Runs(s, steps)
    decreases |steps|
  {
    if steps == [] then [] else HandedBy(s, steps[0], g) + Handed(Do(s, steps[0]), steps[1..], g)
  }

  /** What generation g's write loop took in a run, in order. */
  function Written(s: State, steps: seq<Step>, g: nat): seq<nat>
    requires Runs(s, steps)
    decreases |steps|
  {
    if steps == [] then [] else TakenBy(steps[0], Do(s, steps[0]), g) + Written(Do(s, steps[0]), steps[1..], g)
  }

  lemma MovedQueue(s: State, step: Step, g: nat, s': State)
    requires Enabled(s, step) && g in s.gens && g in s'.gens && Moved(s, step, g, s.gens[g], s'.gens[g])
    ensures QueueOf(s, g) + HandedBy(s, step, g) == TakenBy(step, s', g) + QueueOf(s', g)
  {
  }

  lemma NewQueue(s: State, step: Step, g: nat, s': State)
    requires OwnersOk(s) && g !in s.gens && (g in s'.gens ==> s'.gens[g].queue == [] && s'.gens[g].writing == None)
    ensures QueueOf(s, g) + HandedBy(s, step, g) == TakenBy(step, s', g) + QueueOf(s', g)
  {
  }

  lemma QueueStep(s: State, step: Step, g: nat)
    requires Sound(s) && Enabled(s, step)
    ensures QueueOf(s, g) + HandedBy(s, step, g) == TakenBy(step, Do(s, step), g) + QueueOf(Do(s, step), g)
  {
    GensStay(s, step, g);
    if g in s.gens {
      StepMoves(s, step, g);
      MovedQueue(s, step, g, Do(s, step));
    } else {
      if g in Do(s, step).gens { StepMoves(s, step, g); }
      NewQueue(s, step, g, Do(s, step));
    }
  }

  lemma GensStay(s: State, step: Step, g: nat)
    requires Core(s) && Enabled(s, step)
    ensures g in s.gens ==> g in Do(s, step).gens
  {
    match step
    case Connect(dialled) => FreshPoolSame(s); ClosePoolSame(FreshPool(s), FreshPool(s).pool);
    case Place(t, h) => PlaceMoves(s, t, h);
    case Disconnect => QuietGens(s, step);
    case SetDisconnected(_) => QuietGens(s, step);
    case CallerRelease(_) => QuietGens(s, step);
    case Timeout(_, _) => QuietGens(s, step);
    case ResetPool(_) => QuietGens(s, step);
    case _ => LoopKeys(s, step);
  }

  lemma {:induction false} RunQueue(s: State, steps: seq<Step>, g: nat)
    requires Sound(s) && Runs(s, steps)
    ensures QueueOf(s, g) + Handed(s, steps, g) == Written(s, steps, g) + QueueOf(After(s, steps), g)
    decreases |steps|
  {
    if steps != [] {
      var s', rest := Do(s, steps[0]), steps[1..];
      StepSound(s, steps[0]);
      RunQueue(s', rest, g);
      QueueStep(s, steps[0], g);
      Shuffle(QueueOf(s, g), HandedBy(s, steps[0], g), Handed(s', rest, g),
              TakenBy(steps[0], s', g), Written(s', rest, g), QueueOf(s', g), QueueOf(After(s', rest), g));
    }
  }

  lemma Shuffle(q0: seq<nat>, a: seq<nat>, b: seq<nat>, c: seq<nat>, d: seq<nat>, q1: seq<nat>, q2: seq<nat>)
    requires q0 + a == c + q1 && q1 + b == d + q2
    ensures q0 + (a + b) == c + d + q2
  {
    assert q0 + (a + b) == q0 + a + b;
    assert c + q1 + b == c + (q1 + b);
    assert c + (d + q2) == c + d + q2;
  }

  /** In every run a generation's write loop takes exactly what was handed to its channel,
      in that order; what it has not yet taken is in the channel. */
  lemma {:induction false} WrittenInOrder(steps: seq<Step>, g: nat)
    requires Runs(INIT, steps)
    ensures Handed(INIT, steps, g) == Written(INIT, steps, g) + QueueOf(After(INIT, steps), g)
  {
    InitSound();
    RunQueue(INIT, steps, g);
    assert [] + Handed(INIT, steps, g) == Handed(INIT, steps, g);
  }

  // ------------------------------------------------------------------
  // Connecting, going down, placing
  // ------------------------------------------------------------------

  /** In every run, connecting opens a new generation on an open, empty pool, and a failed
      attempt leaves the connection down, its pool closed. */
  lemma {:induction false} ConnectOpens(steps: seq<Step>, dialled: bool)
    requires Runs(INIT, steps) && Enabled(After(INIT, steps), Connect(dialled))
    ensures var s := After(INIT, steps);
      var s' := Do(s, Connect(dialled));
      && s'.pool in s'.pools && s'.pools[s'.pool].tx == map[] && s'.connected == dialled
      && (dialled ==> s'.gen == s.gen + 1 && s'.gen in s'.gens && s'.gens[s'.gen] == Gen(s'.pool, 0, 0, None, [], None)
                      && !s'.pools[s'.pool].closed)
      && (!dialled ==> s'.gen == s.gen && s'.pools[s'.pool].closed)
  {
    Reached(steps);
    var s := After(INIT, steps);
    FreshPoolCore(s);
    var s1 := FreshPool(s);
    assert PoolOk(s1, s1.pool);
  }

  /** In every run, when a connected generation is told to go down, or reports its loss, it
      is down: not connected, its done channel and its socket closed, its pool closed and
      empty. */
  lemma {:induction false} DownIsDown(steps: seq<Step>, step: Step)
    requires Runs(INIT, steps) && After(INIT, steps).connected
    requires step == Disconnect || step == SetDisconnected(After(INIT, steps).gen)
    ensures var s := After(INIT, steps);
      && Enabled(s, step)
      && var s' := Do(s, step);
         && !s'.connected && s'.gen == s.gen && s.gen in s'.gens && s'.gens[s.gen].done == 1 && s'.gens[s.gen].sock == 1
         && s.pool in s'.pools && s'.pools[s.pool].closed && s'.pools[s.pool].tx == map[]
  {
    Reached(steps);
    var s := After(INIT, steps);
    CoreBase(s);
    assert GenOk(s, s.gen);
  }

  /** The draw gives a free ID, and none before it does. */
  predicate FirstFree(pool: Pool, draw: nat) {
    pool.draws <= draw && IdOfDraw(draw) !in pool.tx && forall k | pool.draws <= k < draw :: IdOfDraw(k) in pool.tx
  }

  lemma SkippedIff(pool: Pool)
    ensures Skipped(pool.tx.Keys, pool.draws, MAX_ATTEMPTS) < MAX_ATTEMPTS
       <==> exists k | pool.draws <= k < pool.draws + 16 :: IdOfDraw(k) !in pool.tx
  {
    var j := Skipped(pool.tx.Keys, pool.draws, MAX_ATTEMPTS);
    assert j < MAX_ATTEMPTS ==> IdOfDraw(pool.draws + j) !in pool.tx;
  }

  /** A sender gets a place exactly if its pool is open and one of the next 16 draws gives
      a free ID. */
  lemma PlacedIff(s: State, t: nat, g: nat, pool: Pool)
    requires Enabled(s, Place(t, g)) && pool == s.pools[s.gens[g].pool]
    ensures t in Do(s, Place(t, g)).txs <==> !pool.closed && exists k | pool.draws <= k < pool.draws + 16 :: IdOfDraw(k) !in pool.tx
  {
    SkippedIff(pool);
    assert Do(s, Place(t, g)) == DoPlace(s, t, g, s.gens[g].pool);
  }

  /** And then it gets the first such ID. */
  lemma PlacedFirst(s: State, t: nat, g: nat, pool: Pool)
    requires Enabled(s, Place(t, g)) && pool == s.pools[s.gens[g].pool] && t in Do(s, Place(t, g)).txs
    ensures var s' := Do(s, Place(t, g));
      && InPool(s', t) && s'.txs[t].gen == g && s'.txs[t].pool == s.gens[g].pool && s'.txs[t].queueing
      && FirstFree(pool, s'.txs[t].draw) && s'.txs[t].id == IdOfDraw(s'.txs[t].draw)
  {
    var j := Skipped(pool.tx.Keys, pool.draws, MAX_ATTEMPTS);
    assert j < MAX_ATTEMPTS ==> FirstFree(pool, pool.draws + j);
    assert Do(s, Place(t, g)) == DoPlace(s, t, g, s.gens[g].pool);
  }
}
