/** Which generation a transaction belongs to: what the read and write loops of a
    generation hold, have queued or complete is that generation's own. */
module ConnectionOwners {
  import opened Bytes
  import opened Connection

  /** A transaction belongs to the generation whose pool it was placed in. */
  predicate Belongs(s: State, t: nat, g: nat) { t in s.txs && s.txs[t].gen == g }

  /** What a generation's write loop has taken or will take, and what its read loop holds,
      is the generation's own; no two connected generations share a pool. */
  predicate OwnOk(s: State, g: nat)
    requires g in s.gens
  {
    var x := s.gens[g];
    && |x.queue| <= QUEUE_SIZE
    && (forall i | 0 <= i < |x.queue| :: Belongs(s, x.queue[i], g))
    && (x.writing.Some? ==> Belongs(s, x.writing.value, g))
    && (x.held.Some? ==> Belongs(s, x.held.value, g))
  }

  predicate OwnersOk(s: State) {
    && (forall g | g in s.gens :: OwnOk(s, g))
    && (forall t | t in s.txs :: 0 < s.txs[t].gen && s.txs[t].gen in s.gens && s.gens[s.txs[t].gen].pool == s.txs[t].pool)
    && (forall g, h | g in s.gens && h in s.gens && 0 < g < h :: s.gens[g].pool != s.gens[h].pool)
  }

  /** Nothing that bears on ownership has changed. */
  predicate SameGen(x: Gen, y: Gen) {
    x.pool == y.pool && x.held == y.held && x.queue == y.queue && x.writing == y.writing
  }

  predicate SameGens(s: State, s': State) {
    s'.gens.Keys == s.gens.Keys && forall g | g in s.gens :: SameGen(s.gens[g], s'.gens[g])
  }

  /** Transactions keep generation and pool. */
  predicate SameTxs(s: State, s': State) {
    && s'.txs.Keys == s.txs.Keys
    && forall t | t in s.txs :: s'.txs[t].gen == s.txs[t].gen && s'.txs[t].pool == s.txs[t].pool
  }

  lemma SameOwners(s: State, s': State)
    requires OwnersOk(s) && SameGens(s, s') && SameTxs(s, s')
    ensures OwnersOk(s')
  {
    forall g | g in s'.gens ensures OwnOk(s', g) { assert OwnOk(s, g); }
  }

  lemma KeptTxs(s: State, step: Step)
    requires Enabled(s, step) && !step.Place?
    ensures SameTxs(s, Do(s, step))
  {
    StepKeepsDraws(s, step);
  }

  lemma QuietGens(s: State, step: Step)
    requires Enabled(s, step)
    requires step.Disconnect? || step.SetDisconnected? || step.CallerRelease? || step.Timeout? || step.ResetPool?
    ensures SameGens(s, Do(s, step))
  {
  }

  // Connecting --------------------------------------------------------

  lemma FreshPoolSame(s: State)
    requires Base(s)
    ensures SameGens(s, FreshPool(s)) && SameTxs(s, FreshPool(s))
  {
  }

  lemma ClosePoolSame(s: State, p: nat)
    requires p in s.pools
    ensures SameGens(s, ClosePool(s, p)) && SameTxs(s, ClosePool(s, p))
  {
  }

  /** A new generation's pool is open, so none of the earlier ones has it. */
  lemma NewGenOwners(s: State)
    requires Core(s) && OwnersOk(s) && !s.connected && !s.pools[s.pool].closed
    ensures OwnersOk(NewGen(s))
  {
    var s' := NewGen(s);
    forall g | g in s'.gens ensures OwnOk(s', g) {
      if g in s.gens { assert OwnOk(s, g) && GenOk(s, g); }
    }
    forall g | g in s.gens && 0 < g ensures g <= s.gen && s.gens[g].pool != s.pool { assert GenOk(s, g); }
  }

  lemma ConnectOwners(s: State, dialled: bool)
    requires Core(s) && OwnersOk(s) && Enabled(s, Connect(dialled))
    ensures OwnersOk(Do(s, Connect(dialled)))
  {
    var s1 := FreshPool(s);
    FreshPoolCore(s);
    FreshPoolSame(s);
    SameOwners(s, s1);
    if dialled {
      NewGenOwners(s1);
    } else {
      ClosePoolSame(s1, s1.pool);
      SameOwners(s1, ClosePool(s1, s1.pool));
    }
  }

  // Sending -----------------------------------------------------------

  lemma PlacedOwners(s: State, s': State, t: nat, g: nat, p: nat, id: u16, draw: nat)
    requires OwnersOk(s) && 0 < g && g in s.gens && p == s.gens[g].pool && p in s.pools && t !in s.txs
    requires s' == Placed(s, t, g, p, id, draw)
    ensures OwnersOk(s')
  {
    forall h | h in s'.gens ensures OwnOk(s', h) { assert OwnOk(s, h); }
  }

  lemma PlaceOwners(s: State, t: nat, g: nat)
    requires OwnersOk(s) && Enabled(s, Place(t, g))
    ensures OwnersOk(Do(s, Place(t, g)))
  {
    var p, id, draw := PlaceCases(s, t, g);
    var s' := Do(s, Place(t, g));
    if s' == s || s' == Skip(s, p) {
      SameOwners(s, s');
    } else {
      PlacedOwners(s, s', t, g, p, id, draw);
    }
  }

  /** Changing what one generation's loops hold, to things of its own. */
  lemma OneGenOwners(s: State, s': State, g: nat)
    requires OwnersOk(s) && g in s.gens && SameTxs(s, s') && s'.gens.Keys == s.gens.Keys
    requires forall h | h in s.gens && h != g :: s'.gens[h] == s.gens[h]
    requires s'.gens[g].pool == s.gens[g].pool && OwnOk(s', g)
    ensures OwnersOk(s')
  {
    forall h | h in s'.gens ensures OwnOk(s', h) { if h != g { assert OwnOk(s, h); } }
  }

  /** Generations with one pool are one generation. */
  lemma OnePoolOneGen(s: State, t: nat, g: nat)
    requires OwnersOk(s) && t in s.txs && g in s.gens && 0 < g && s.txs[t].pool == s.gens[g].pool
    ensures Belongs(s, t, g)
  {
  }

  lemma QueuedOwners(s: State, t: nat)
    requires OwnersOk(s) && Enabled(s, Queued(t))
    ensures OwnersOk(Do(s, Queued(t)))
  {
    KeptTxs(s, Queued(t));
    assert OwnOk(s, s.txs[t].gen);
    OneGenOwners(s, Do(s, Queued(t)), s.txs[t].gen);
  }

  lemma ReaderReleaseOwners(s: State, g: nat, id: u16)
    requires PoolsOk(s) && OwnersOk(s) && Enabled(s, ReaderRelease(g, id))
    ensures OwnersOk(Do(s, ReaderRelease(g, id)))
  {
    var p := s.gens[g].pool;
    KeptTxs(s, ReaderRelease(g, id));
    assert OwnOk(s, g) && PoolOk(s, p);
    OnePoolOneGen(s, s.pools[p].tx[id], g);
    OneGenOwners(s, Do(s, ReaderRelease(g, id)), g);
  }

  lemma ReaderCompleteOwners(s: State, g: nat, ok: bool)
    requires OwnersOk(s) && Enabled(s, ReaderComplete(g, ok))
    ensures OwnersOk(Do(s, ReaderComplete(g, ok)))
  {
    KeptTxs(s, ReaderComplete(g, ok));
    assert OwnOk(s, g);
    OneGenOwners(s, Do(s, ReaderComplete(g, ok)), g);
  }

  lemma WriterTakeOwners(s: State, g: nat)
    requires OwnersOk(s) && Enabled(s, WriterTake(g))
    ensures OwnersOk(Do(s, WriterTake(g)))
  {
    KeptTxs(s, WriterTake(g));
    assert OwnOk(s, g);
    OneGenOwners(s, Do(s, WriterTake(g)), g);
  }

  lemma WriterDoneOwners(s: State, g: nat, failed: bool)
    requires OwnersOk(s) && Enabled(s, WriterDone(g, failed))
    ensures OwnersOk(Do(s, WriterDone(g, failed)))
  {
    KeptTxs(s, WriterDone(g, failed));
    assert OwnOk(s, g);
    OneGenOwners(s, Do(s, WriterDone(g, failed)), g);
  }

  lemma QuietOwners(s: State, step: Step)
    requires OwnersOk(s) && Enabled(s, step)
    requires step.Disconnect? || step.SetDisconnected? || step.CallerRelease? || step.Timeout? || step.ResetPool?
    ensures OwnersOk(Do(s, step))
  {
    KeptTxs(s, step);
    QuietGens(s, step);
    SameOwners(s, Do(s, step));
  }

  lemma StepOwners(s: State, step: Step)
    requires Core(s) && OwnersOk(s) && Enabled(s, step)
    ensures OwnersOk(Do(s, step))
  {
    match step
    case Connect(dialled) => ConnectOwners(s, dialled);
    case Place(t, g) => PlaceOwners(s, t, g);
    case Queued(t) => QueuedOwners(s, t);
    case ReaderRelease(g, id) => ReaderReleaseOwners(s, g, id);
    case ReaderComplete(g, ok) => ReaderCompleteOwners(s, g, ok);
    case WriterTake(g) => WriterTakeOwners(s, g);
    case WriterDone(g, failed) => WriterDoneOwners(s, g, failed);
    case _ => QuietOwners(s, step);
  }
}
