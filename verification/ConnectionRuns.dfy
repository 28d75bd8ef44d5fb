/** What holds in every run of the Modbus TCP connection. */
module ConnectionRuns {
  import opened Bytes
  import opened Connection
  import opened ConnectionOwners
  import opened Wrappers

  predicate Runs(s: State, steps: seq<Step>)
    decreases |steps|
  {
    steps == [] || (Enabled(s, steps[0]) && Runs(Do(s, steps[0]), steps[1..]))
  }

  function After(s: State, steps: seq<Step>): State
    requires Runs(s, steps)
    decreases |steps|
  {
    if steps == [] then s else After(Do(s, steps[0]), steps[1..])
  }

  predicate Sound(s: State) { Inv(s) && OwnersOk(s) }

  lemma InitSound()
    ensures Sound(INIT)
  {
  }

  lemma StepSound(s: State, step: Step)
    requires Sound(s) && Enabled(s, step)
    ensures Sound(Do(s, step))
  {
    StepInv(s, step);
    StepOwners(s, step);
  }

  lemma {:induction false} RunSound(s: State, steps: seq<Step>)
    requires Sound(s) && Runs(s, steps)
    ensures Sound(After(s, steps))
    decreases |steps|
  {
    if steps != [] {
      StepSound(s, steps[0]);
      RunSound(Do(s, steps[0]), steps[1..]);
    }
  }

  lemma {:induction false} Reached(steps: seq<Step>)
    requires Runs(INIT, steps)
    ensures Sound(After(INIT, steps))
  {
    InitSound();
    RunSound(INIT, steps);
  }

  // ------------------------------------------------------------------
  // Generations
  // ------------------------------------------------------------------

  /** While connected, the current generation's done channel, socket and pool are open. */
  lemma {:induction false} ConnectedIsLive(steps: seq<Step>)
    requires Runs(INIT, steps) && After(INIT, steps).connected
    ensures var s := After(INIT, steps);
            && s.gen > 0 && s.gen in s.gens && s.gens[s.gen].done == 0 && s.gens[s.gen].sock == 0
            && s.gens[s.gen].pool == s.pool && s.pool in s.pools && !s.pools[s.pool].closed
  {
    Reached(steps);
    var s := After(INIT, steps);
    assert GenOk(s, s.gen);
  }

  /** Whoever tears a generation down, and however often, its done channel and its
      socket are closed at most once; a superseded one has been closed, both. */
  lemma {:induction false} ClosedAtMostOnce(steps: seq<Step>, g: nat)
    requires Runs(INIT, steps) && g in After(INIT, steps).gens
    ensures var s := After(INIT, steps);
            && s.gens[g].done <= 1 && s.gens[g].sock <= 1
            && (0 < g < s.gen ==> s.gens[g].done == 1 && s.gens[g].sock == 1)
  {
    Reached(steps);
    assert GenOk(After(INIT, steps), g);
  }

  /** The steps of the read and write loops of generation g, other than reporting that
      the connection is lost. */
  predicate OfLoop(step: Step, g: nat) {
    match step
    case ReaderRelease(h, _) => h == g
    case ReaderComplete(h, _) => h == g
    case WriterTake(h) => h == g
    case WriterDone(h, _) => h == g
    case _ => false
  }

  /** From s to s', nothing outside generation g was touched. */
  predicate OnlyTouches(s: State, s': State, g: nat)
    requires g in s.gens
  {
    && s' == s.(gens := s'.gens, pools := s'.pools, txs := s'.txs)
    && s'.gens.Keys == s.gens.Keys && (forall h | h in s.gens && h != g :: s'.gens[h] == s.gens[h])
    && s'.pools.Keys == s.pools.Keys && (forall p | p in s.pools && p != s.gens[g].pool :: s'.pools[p] == s.pools[p])
    && s'.txs.Keys == s.txs.Keys && (forall t | t in s.txs && s.txs[t].gen != g :: s'.txs[t] == s.txs[t])
  }

  lemma ReleaseTouchesOwn(s: State, g: nat, id: u16)
    requires PoolsOk(s) && OwnersOk(s) && Enabled(s, ReaderRelease(g, id))
    ensures OnlyTouches(s, Do(s, ReaderRelease(g, id)), g)
  {
    assert PoolOk(s, s.gens[g].pool);
    OnePoolOneGen(s, s.pools[s.gens[g].pool].tx[id], g);
  }

  lemma CompleteTouchesOwn(s: State, g: nat, ok: bool)
    requires OwnersOk(s) && Enabled(s, ReaderComplete(g, ok))
    ensures OnlyTouches(s, Do(s, ReaderComplete(g, ok)), g)
  {
    assert OwnOk(s, g);
  }

  lemma TakeTouchesOwn(s: State, g: nat)
    requires Enabled(s, WriterTake(g))
    ensures OnlyTouches(s, Do(s, WriterTake(g)), g)
  {
  }

  lemma WriteTouchesOwn(s: State, g: nat, failed: bool)
    requires OwnersOk(s) && Enabled(s, WriterDone(g, failed))
    ensures OnlyTouches(s, Do(s, WriterDone(g, failed)), g)
  {
    assert OwnOk(s, g);
  }

  /** Whatever the loops of a generation take, write, fail or complete was placed by a
      sender of that very generation. */
  lemma {:induction false} LoopsTouchTheirOwn(steps: seq<Step>, step: Step, g: nat)
    requires Runs(INIT, steps) && Enabled(After(INIT, steps), step) && OfLoop(step, g)
    ensures g in After(INIT, steps).gens && OnlyTouches(After(INIT, steps), Do(After(INIT, steps), step), g)
  {
    Reached(steps);
    var s := After(INIT, steps);
    match step
    case ReaderRelease(_, id) => ReleaseTouchesOwn(s, g, id);
    case ReaderComplete(_, ok) => CompleteTouchesOwn(s, g, ok);
    case WriterTake(_) => TakeTouchesOwn(s, g);
    case WriterDone(_, failed) => WriteTouchesOwn(s, g, failed);
  }

  /** A late loop of an older generation reports its loss in vain, finds no transaction to
      release, and whatever it still writes, fails or completes is neither the current
      generation's nor in the current pool. */
  lemma {:induction false} StaleLoopIsHarmless(steps: seq<Step>, g: nat)
    requires Runs(INIT, steps) && 0 < g < After(INIT, steps).gen && g in After(INIT, steps).gens
    ensures var s := After(INIT, steps);
            && Enabled(s, SetDisconnected(g)) && Do(s, SetDisconnected(g)) == s
            && (forall id: u16 :: !Enabled(s, ReaderRelease(g, id)))
            && forall step | Enabled(s, step) && OfLoop(step, g) ::
                 OnlyTouches(s, Do(s, step), g) && Do(s, step).pools == s.pools
  {
    Reached(steps);
    var s := After(INIT, steps);
    CoreBase(s);
    assert GenOk(s, g);
    assert PoolOk(s, s.gens[g].pool);
    forall step | Enabled(s, step) && OfLoop(step, g)
      ensures OnlyTouches(s, Do(s, step), g) && Do(s, step).pools == s.pools
    {
      LoopsTouchTheirOwn(steps, step, g);
    }
  }

  // ------------------------------------------------------------------
  // Transactions
  // ------------------------------------------------------------------

  /** A transaction leaves its pool at most once and gets at most one response, and a
      response only if the read loop took it out. */
  lemma {:induction false} AnsweredAtMostOnce(steps: seq<Step>, t: nat)
    requires Runs(INIT, steps) && t in After(INIT, steps).txs
    ensures var x := After(INIT, steps).txs[t];
            && |x.leaves| <= 1 && x.responses <= 1
            && (x.responses == 1 ==> x.leaves != [] && x.leaves[0].ByReader?)
  {
    Reached(steps);
    assert TxOk(After(INIT, steps), t);
  }

  lemma {:induction false} StepKeepsTx(s: State, step: Step, t: nat)
    requires Sound(s) && Enabled(s, step) && t in s.txs
    ensures t in Do(s, step).txs && s.txs[t].leaves <= Do(s, step).txs[t].leaves
  {
    if step.Place? {
      var p, id, draw := PlaceCases(s, step.t, step.g);
    } else {
      StepKeepsDraws(s, step);
    }
  }

  lemma {:induction false} RunKeepsTx(s: State, steps: seq<Step>, t: nat)
    requires Sound(s) && Runs(s, steps) && t in s.txs
    ensures t in After(s, steps).txs && s.txs[t].leaves <= After(s, steps).txs[t].leaves
    decreases |steps|
  {
    if steps != [] {
      StepKeepsTx(s, steps[0], t);
      StepSound(s, steps[0]);
      RunKeepsTx(Do(s, steps[0]), steps[1..], t);
    }
  }

  /** Once a timeout, reset or close has cancelled a transaction it never gets a
      response, however the run goes on. */
  lemma {:induction false} NoResponseAfterCancel(steps: seq<Step>, more: seq<Step>, t: nat)
    requires Runs(INIT, steps) && Runs(After(INIT, steps), more) && t in After(INIT, steps).txs
    requires var x := After(INIT, steps).txs[t]; x.leaves != [] && (x.leaves[0].TimedOut? || x.leaves[0].Reset? || x.leaves[0].Closed?)
    ensures var s := After(After(INIT, steps), more);
            t in s.txs && s.txs[t].responses == 0 && s.txs[t].errors >= 1
  {
    Reached(steps);
    var s := After(INIT, steps);
    RunKeepsTx(s, more, t);
    RunSound(s, more);
    assert TxOk(After(s, more), t);
    assert TxOk(s, t);
  }

  /** Nothing is lost when a generation goes down: its pool is closed and empty, and each
      transaction ever placed in it was completed, is about to be completed by the read
      loop that took it out, or was released by a sender: its own, or one that had been
      waiting for more than 65536 draws. */
  lemma {:induction false} TornDownIsAccountedFor(steps: seq<Step>, g: nat, t: nat)
    requires Runs(INIT, steps)
    requires var s := After(INIT, steps);
             g in s.gens && s.gens[g].done == 1 && t in s.txs && s.txs[t].pool == s.gens[g].pool
    ensures var s := After(INIT, steps);
            var x := s.txs[t];
            && x.pool in s.pools && s.pools[x.pool].closed && s.pools[x.pool].tx == map[]
            && |x.leaves| == 1
            && match x.leaves[0]
               case ByReader(h) => x.responses + x.errors >= 1 || (h in s.gens && s.gens[h].held == Some(t))
               case ByCaller(sender, lag) => sender == t || lag > 0x1_0000
               case _ => x.errors >= 1
  {
    Reached(steps);
    var s := After(INIT, steps);
    assert GenOk(s, g) && TxOk(s, t);
    assert PoolOk(s, s.txs[t].pool);
  }
}
