/** The one way in which a transaction is lost: a sender that is still waiting for the
    write channel after the 16-bit counter has come round releases its ID, which is a
    stranger's by then. */
module LateSender {
  import opened Bytes
  import opened TransactionPool
  import opened Connection
  import opened ConnectionRuns
  import opened Wrappers

  ghost predicate Reachable(s: State) {
    exists steps :: Runs(INIT, steps) && After(INIT, steps) == s
  }

  lemma {:induction false} Snoc(s: State, steps: seq<Step>, step: Step)
    requires Runs(s, steps) && Enabled(After(s, steps), step)
    ensures Runs(s, steps + [step]) && After(s, steps + [step]) == Do(After(s, steps), step)
    decreases |steps|
  {
    if steps == [] {
      assert [step][1..] == [];
    } else {
      Snoc(Do(s, steps[0]), steps[1..], step);
      assert (steps + [step])[1..] == steps[1..] + [step];
    }
  }

  lemma {:induction false} ReachStep(s: State, step: Step)
    requires Reachable(s) && Enabled(s, step)
    ensures Reachable(Do(s, step)) && Base(Do(s, step))
  {
    var steps :| Runs(INIT, steps) && After(INIT, steps) == s;
    Snoc(INIT, steps, step);
    Reached(steps + [step]);
    CoreBase(Do(s, step));
  }

  const IDLE := Gen(0, 0, 0, None, [], None)

  /** Sender 0 has drawn ID 0 and has not reached the select that queues it. */
  predicate Waiting(s: State) {
    && 0 in s.txs && s.txs[0].gen == 1 && s.txs[0].pool == 0 && s.txs[0].id == 0 && s.txs[0].draw == 0
    && s.txs[0].queueing
  }

  /** Generation 1 is up, its loops hold x, n IDs have been drawn and inFlight are out. */
  ghost predicate At(s: State, x: Gen, inFlight: map<u16, nat>, n: nat) {
    && Reachable(s) && Base(s)
    && 1 in s.gens && s.gens[1] == x
    && 0 in s.pools && s.pools[0] == Pool(false, inFlight, n)
    && (forall t | t in s.txs :: t < n)
  }

  predicate OwnTx(s: State, t: nat, id: u16) {
    t in s.txs && s.txs[t].gen == 1 && s.txs[t].pool == 0 && s.txs[t].id == id
  }

  lemma Connects() returns (s: State)
    ensures At(s, IDLE, map[], 0)
  {
    assert Runs(INIT, []) && After(INIT, []) == INIT;
    s := Do(INIT, Connect(true));
    ReachStep(INIT, Connect(true));
  }

  /** The next ID is free, and is placed. */
  lemma Places(s: State, inFlight: map<u16, nat>, n: nat) returns (s': State)
    requires At(s, IDLE, inFlight, n) && IdOfDraw(n) !in inFlight
    ensures At(s', IDLE, inFlight[IdOfDraw(n) := n], n + 1) && OwnTx(s', n, IdOfDraw(n)) && s'.txs[n].queueing
    ensures s'.txs[n].draw == n && s'.txs[n].leaves == [] && (Waiting(s) ==> Waiting(s'))
  {
    s' := Do(s, Place(n, 1));
    assert Skipped(inFlight.Keys, n, MAX_ATTEMPTS) == 0;
    assert s' == Placed(s, n, 1, 0, IdOfDraw(n), n);
    ReachStep(s, Place(n, 1));
  }

  /** It goes through the write channel and onto the wire. */
  lemma Sends(s: State, inFlight: map<u16, nat>, n: nat, t: nat, id: u16) returns (s': State)
    requires At(s, IDLE, inFlight, n) && OwnTx(s, t, id) && s.txs[t].queueing && t > 0 && Waiting(s)
    ensures At(s', IDLE, inFlight, n) && OwnTx(s', t, id) && Waiting(s')
    ensures s'.txs[t].leaves == s.txs[t].leaves
  {
    var s1 := Do(s, Queued(t));
    ReachStep(s, Queued(t));
    assert s1.gens[1].queue == [t];
    var s2 := Do(s1, WriterTake(1));
    ReachStep(s1, WriterTake(1));
    assert s2.gens[1] == IDLE.(writing := Some(t));
    s' := Do(s2, WriterDone(1, false));
    ReachStep(s2, WriterDone(1, false));
  }

  /** It is answered. */
  lemma Answers(s: State, inFlight: map<u16, nat>, n: nat, t: nat, id: u16) returns (s': State)
    requires At(s, IDLE, inFlight, n) && id in inFlight && inFlight[id] == t && OwnTx(s, t, id) && t > 0 && Waiting(s)
    ensures At(s', IDLE, inFlight - {id}, n) && Waiting(s')
  {
    var s1 := Do(s, ReaderRelease(1, id));
    ReachStep(s, ReaderRelease(1, id));
    s' := Do(s1, ReaderComplete(1, true));
    ReachStep(s1, ReaderComplete(1, true));
  }

  /** One more ID is drawn, and its transaction comes and goes. */
  lemma OneMore(s: State, inFlight: map<u16, nat>, n: nat) returns (s': State)
    requires At(s, IDLE, inFlight, n) && n > 0 && IdOfDraw(n) !in inFlight && Waiting(s)
    ensures At(s', IDLE, inFlight, n + 1) && Waiting(s')
  {
    s' := Places(s, inFlight, n);
    s' := Sends(s', inFlight[IdOfDraw(n) := n], n + 1, n, IdOfDraw(n));
    s' := Answers(s', inFlight[IdOfDraw(n) := n], n + 1, n, IdOfDraw(n));
    assert inFlight[IdOfDraw(n) := n] - {IdOfDraw(n)} == inFlight;
  }

  /** Sender 0 waits; its own transaction has timed out; n IDs have come and gone. */
  lemma {:induction false} Draws(n: nat) returns (s: State)
    requires n > 0
    ensures At(s, IDLE, map[], n) && Waiting(s)
  {
    if n == 1 {
      var s0 := Connects();
      var s1 := Places(s0, map[], 0);
      s := Do(s1, Timeout(0, 0));
      ReachStep(s1, Timeout(0, 0));
      assert map[0 := 0] - {0} == map[];
    } else {
      s := Draws(n - 1);
      s := OneMore(s, map[], n - 1);
    }
  }

  /** Transaction n has ID 0, is on the wire, and r more IDs have come and gone. */
  lemma {:induction false} InFlight(n: nat, r: nat) returns (s: State)
    requires n > 0 && IdOfDraw(n) == 0 && r < 0x1_0000
    ensures At(s, IDLE, map[0 := n], n + 1 + r) && Waiting(s)
  {
    if r == 0 {
      s := Draws(n);
      s := Places(s, map[], n);
      s := Sends(s, map[0 := n], n + 1, n, 0);
    } else {
      s := InFlight(n, r - 1);
      assert IdOfDraw(n + r) == r;
      s := OneMore(s, map[0 := n], n + r);
    }
  }

  /** In some run the sender of t releases transaction u, not its own, after `lag` draws. */
  ghost predicate StrangerReleased(s: State, t: nat, u: nat, lag: int) {
    Reachable(s) && u in s.txs && u != t && s.txs[u].leaves == [ByCaller(t, lag)]
  }

  lemma {:induction false} FiledHasNotLeft(s: State, p: nat, id: u16)
    requires Reachable(s) && p in s.pools && id in s.pools[p].tx
    ensures s.pools[p].tx[id] in s.txs && s.txs[s.pools[p].tx[id]].leaves == []
  {
    var steps :| Runs(INIT, steps) && After(INIT, steps) == s;
    Reached(steps);
    assert PoolOk(s, p);
  }

  lemma GivesUp(s: State, n: nat, lag: nat)
    requires Base(s) && Waiting(s) && 0 in s.pools && s.pools[0] == Pool(false, map[0 := n], lag)
    requires n > 0 && n in s.txs && s.txs[n].leaves == []
    ensures Enabled(s, CallerRelease(0)) && n in Do(s, CallerRelease(0)).txs
    ensures Do(s, CallerRelease(0)).txs[n].leaves == [ByCaller(0, lag)]
  {
  }

  lemma {:induction false} Released(n: nat, r: nat) returns (s: State)
    requires n > 0 && IdOfDraw(n) == 0 && r < 0x1_0000
    ensures StrangerReleased(s, 0, n, n + 1 + r)
  {
    var s0 := InFlight(n, r);
    FiledHasNotLeft(s0, 0, 0);
    GivesUp(s0, n, n + 1 + r);
    s := Do(s0, CallerRelease(0));
    ReachStep(s0, CallerRelease(0));
  }

  /** A stranger's transaction is released exactly when more than 65536 IDs have been
      drawn since the sender's own, and at every such distance. */
  lemma {:induction false} StrangerReleasedIff(lag: int)
    ensures (exists s, t, u :: StrangerReleased(s, t, u, lag)) <==> lag > 0x1_0000
  {
    if lag > 0x1_0000 {
      var k, r := (lag - 1) / 0x1_0000, (lag - 1) % 0x1_0000;
      IdIs(0x1_0000 * k, k, 0);
      var s := Released(0x1_0000 * k, r);
      assert StrangerReleased(s, 0, 0x1_0000 * k, lag);
    }
    forall s, t, u | StrangerReleased(s, t, u, lag) ensures lag > 0x1_0000 {
      var steps :| Runs(INIT, steps) && After(INIT, steps) == s;
      Reached(steps);
      assert TxOk(s, u);
    }
  }

  /** Its caller never gets a response: whatever happens afterwards, and even if the
      server answers. */
  lemma {:induction false} StrangerIsNeverAnswered(steps: seq<Step>, more: seq<Step>, t: nat, u: nat, lag: int)
    requires Runs(INIT, steps) && StrangerReleased(After(INIT, steps), t, u, lag) && Runs(After(INIT, steps), more)
    ensures u in After(After(INIT, steps), more).txs && After(After(INIT, steps), more).txs[u].responses == 0
  {
    Reached(steps);
    var s := After(INIT, steps);
    RunKeepsTx(s, more, u);
    RunSound(s, more);
    assert TxOk(After(s, more), u);
  }
}
