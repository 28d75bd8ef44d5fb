/** The Modbus TCP connection and its transaction pools (protocol/modbus/conn.go and
    protocol/modbus/transaction.go) as a transition system. A step is one
    mutex-protected section, so a run is any interleaving of connects, disconnects,
    senders, timeouts, resets and the read and write loops of all generations. */
module Connection {
  import opened Bytes
  import opened TransactionPool
  import opened Wrappers

  /** How a transaction left its pool. A caller's release names the transaction whose
      sender issued it and how many IDs had been drawn since that one was placed. */
  datatype Leave =
    | ByReader(gen: nat)
    | TimedOut | Reset | Closed
    | ByCaller(sender: nat, lag: int)

  /** A placed transaction. `gen` is the generation whose state its sender holds;
      `queueing` holds until the write channel takes it or the sender gives up;
      `responses` and `errors` count the Complete calls it received. */
  datatype Tx = Tx(gen: nat, pool: nat, id: u16, draw: nat, queueing: bool, leaves: seq<Leave>, responses: nat, errors: nat)

  datatype Pool = Pool(closed: bool, tx: map<u16, nat>, draws: nat)

  /** A connection generation: how often its done channel and its socket were closed, the
      transaction its read loop has released but not yet completed, its write channel, and
      the transaction its write loop has taken from it. */
  datatype Gen = Gen(pool: nat, done: nat, sock: nat, held: Option<nat>, queue: seq<nat>, writing: Option<nat>)

  /** Capacity of a write channel. */
  const QUEUE_SIZE: nat := 100

  /** `fired` is the state of closeOnce. Generation 0 is the unconnected object. */
  datatype State = State(
    connected: bool, gen: nat, fired: bool, pool: nat,
    gens: map<nat, Gen>, pools: map<nat, Pool>, nextPool: nat, txs: map<nat, Tx>)

  const INIT := State(false, 0, false, 0, map[0 := Gen(0, 0, 0, None, [], None)], map[0 := Pool(false, map[], 0)], 1, map[])

  datatype Step =
    | Connect(dialled: bool)
    | Disconnect
    | SetDisconnected(g: nat)             // from a loop of any generation, however late
    | Place(t: nat, g: nat)               // by a sender that found generation g connected
    | Queued(t: nat)                      // the write channel of that generation took it
    | CallerRelease(t: nat)               // the sender gave up before that
    | ReaderRelease(g: nat, id: u16)      // the read loop looked up a received ID
    | ReaderComplete(g: nat, ok: bool)    // with the response, or a framing error
    | WriterTake(g: nat)                  // the write loop received from its channel
    | WriterDone(g: nat, failed: bool)    // it wrote or skipped that one, or failed it
    | Timeout(p: nat, id: u16)
    | ResetPool(p: nat)                   // ResetTransactions

  /** Transaction t, whose record is x, is filed in its pool. */
  predicate Filed(pools: map<nat, Pool>, t: nat, x: Tx) {
    x.pool in pools && x.id in pools[x.pool].tx && pools[x.pool].tx[x.id] == t
  }

  predicate InPool(s: State, t: nat)
    requires t in s.txs
  {
    Filed(s.pools, t, s.txs[t])
  }

  /** The transaction under an ID leaves its pool. */
  function Take(s: State, p: nat, id: u16, why: Leave, errors: nat): State
    requires p in s.pools && id in s.pools[p].tx && s.pools[p].tx[id] in s.txs
  {
    var t := s.pools[p].tx[id];
    s.(pools := s.pools[p := s.pools[p].(tx := s.pools[p].tx - {id})],
       txs := s.txs[t := s.txs[t].(leaves := s.txs[t].leaves + [why], errors := s.txs[t].errors + errors)])
  }

  function Cancelled(txs: map<nat, Tx>, pools: map<nat, Pool>, p: nat, why: Leave): map<nat, Tx> {
    map t | t in txs ::
      if txs[t].pool == p && Filed(pools, t, txs[t])
      then txs[t].(leaves := txs[t].leaves + [why], errors := txs[t].errors + 1)
      else txs[t]
  }

  /** Every transaction in the pool leaves it and is cancelled. */
  function CancelAll(s: State, p: nat, why: Leave): State
    requires p in s.pools
  {
    s.(pools := s.pools[p := s.pools[p].(tx := map[])], txs := Cancelled(s.txs, s.pools, p, why))
  }

  function ClosePool(s: State, p: nat): State
    requires p in s.pools
  {
    if s.pools[p].closed then s
    else var s1 := CancelAll(s, p, Closed); s1.(pools := s1.pools[p := s1.pools[p].(closed := true)])
  }

  /** unsafeTeardown: once per generation. */
  function Teardown(s: State): State
    requires s.gen in s.gens && s.pool in s.pools
  {
    if s.fired then s
    else
      var g := s.gens[s.gen];
      ClosePool(s.(fired := true,
                   gens := s.gens[s.gen := g.(done := g.done + 1, sock := g.sock + (if s.gen > 0 then 1 else 0))]), s.pool)
  }

  /** The pool a connect starts from: a fresh one if the current one is closed, else the
      current one after a reset. */
  function FreshPool(s: State): State
    requires s.pool in s.pools
  {
    if s.pools[s.pool].closed
    then s.(pool := s.nextPool, nextPool := s.nextPool + 1, pools := s.pools[s.nextPool := Pool(false, map[], 0)])
    else CancelAll(s, s.pool, Reset)
  }

  predicate Base(s: State) {
    && s.gen in s.gens && s.pool in s.pools
    && (forall p | p in s.pools :: forall id | id in s.pools[p].tx :: s.pools[p].tx[id] in s.txs)
  }

  predicate Enabled(s: State, step: Step) {
    && Base(s)
    && match step
       case Connect(_) => !s.connected
       case Disconnect => true
       case SetDisconnected(_) => true
       case Place(t, g) => t !in s.txs && 0 < g && g in s.gens && s.gens[g].pool in s.pools
       case Queued(t) => t in s.txs && s.txs[t].queueing && s.txs[t].gen in s.gens && |s.gens[s.txs[t].gen].queue| < QUEUE_SIZE
       case CallerRelease(t) => t in s.txs && s.txs[t].queueing && s.txs[t].pool in s.pools
       case ReaderRelease(g, id) =>
         && 0 < g && g in s.gens && s.gens[g].held.None?
         && s.gens[g].pool in s.pools && id in s.pools[s.gens[g].pool].tx
       case ReaderComplete(g, _) => g in s.gens && s.gens[g].held.Some? && s.gens[g].held.value in s.txs
       case WriterTake(g) => 0 < g && g in s.gens && s.gens[g].writing.None? && s.gens[g].queue != []
       case WriterDone(g, _) => g in s.gens && s.gens[g].writing.Some? && s.gens[g].writing.value in s.txs
       case Timeout(p, id) => p in s.pools && id in s.pools[p].tx
       case ResetPool(p) => p in s.pools
  }

  function DoPlace(s: State, t: nat, g: nat, p: nat): State
    requires p in s.pools
  {
    var pool := s.pools[p];
    if pool.closed then s
    else
      var j := Skipped(pool.tx.Keys, pool.draws, MAX_ATTEMPTS);
      if j == MAX_ATTEMPTS then s.(pools := s.pools[p := pool.(draws := pool.draws + MAX_ATTEMPTS)])
      else
        Placed(s, t, g, p, IdOfDraw(pool.draws + j), pool.draws + j)
  }

  function Placed(s: State, t: nat, g: nat, p: nat, id: u16, draw: nat): State
    requires p in s.pools
  {
    s.(pools := s.pools[p := Pool(false, s.pools[p].tx[id := t], draw + 1)],
       txs := s.txs[t := Tx(g, p, id, draw, true, [], 0, 0)])
  }

  /** The sender releases whatever its ID names at that moment. */
  function DoCallerRelease(s: State, t: nat): State
    requires Enabled(s, CallerRelease(t))
  {
    var x := s.txs[t];
    if x.id in s.pools[x.pool].tx
    then Take(GiveUp(s, t), x.pool, x.id, ByCaller(t, s.pools[x.pool].draws - x.draw), 0)
    else GiveUp(s, t)
  }

  function GiveUp(s: State, t: nat): State
    requires t in s.txs
  {
    s.(txs := s.txs[t := s.txs[t].(queueing := false)])
  }

  function DoReaderComplete(s: State, g: nat, ok: bool): State
    requires Enabled(s, ReaderComplete(g, ok))
  {
    var t := s.gens[g].held.value;
    s.(gens := s.gens[g := s.gens[g].(held := None)],
       txs := s.txs[t := if ok then s.txs[t].(responses := s.txs[t].responses + 1)
                               else s.txs[t].(errors := s.txs[t].errors + 1)])
  }

  function DoReaderRelease(s: State, g: nat, id: u16): State
    requires Enabled(s, ReaderRelease(g, id))
  {
    var p := s.gens[g].pool;
    Take(s, p, id, ByReader(g), 0).(gens := s.gens[g := s.gens[g].(held := Some(s.pools[p].tx[id]))])
  }

  function DoQueued(s: State, t: nat): State
    requires Enabled(s, Queued(t))
  {
    var g := s.txs[t].gen;
    GiveUp(s, t).(gens := s.gens[g := s.gens[g].(queue := s.gens[g].queue + [t])])
  }

  function DoWriterTake(s: State, g: nat): State
    requires Enabled(s, WriterTake(g))
  {
    s.(gens := s.gens[g := s.gens[g].(writing := Some(s.gens[g].queue[0]), queue := s.gens[g].queue[1..])])
  }

  function Failed(x: Tx, failed: bool): Tx { if failed then x.(errors := x.errors + 1) else x }

  function DoWriterDone(s: State, g: nat, failed: bool): State
    requires Enabled(s, WriterDone(g, failed))
  {
    var t := s.gens[g].writing.value;
    s.(gens := s.gens[g := s.gens[g].(writing := None)], txs := s.txs[t := Failed(s.txs[t], failed)])
  }

  function DoConnect(s: State, dialled: bool): State
    requires Base(s)
  {
    if dialled then NewGen(FreshPool(s)) else ClosePool(FreshPool(s), FreshPool(s).pool)
  }

  function NewGen(s: State): State {
    s.(connected := true, fired := false, gen := s.gen + 1, gens := s.gens[s.gen + 1 := Gen(s.pool, 0, 0, None, [], None)])
  }

  function Do(s: State, step: Step): State
    requires Enabled(s, step)
  {
    match step
    case Connect(dialled) => DoConnect(s, dialled)
    case Disconnect => Teardown(s.(connected := false))
    case SetDisconnected(g) => if g != s.gen then s else Teardown(s.(connected := false))
    case Place(t, g) => DoPlace(s, t, g, s.gens[g].pool)
    case Queued(t) => DoQueued(s, t)
    case CallerRelease(t) => DoCallerRelease(s, t)
    case ReaderRelease(g, id) => DoReaderRelease(s, g, id)
    case ReaderComplete(g, ok) => DoReaderComplete(s, g, ok)
    case WriterTake(g) => DoWriterTake(s, g)
    case WriterDone(g, failed) => DoWriterDone(s, g, failed)
    case Timeout(p, id) => Take(s, p, id, TimedOut, 1)
    case ResetPool(p) => CancelAll(s, p, Reset)
  }

  // ------------------------------------------------------------------
  // Invariant
  // ------------------------------------------------------------------

  /** The current generation is connected exactly while it has not been torn down, and
      then everything it holds is open; only the current pool can be open at all. */
  predicate CurrentOk(s: State) {
    && s.gen in s.gens && s.pool in s.pools
    && (s.gens[s.gen].done == 1 <==> s.fired)
    && (s.connected <==> s.gen > 0 && !s.fired)
    && (s.connected ==> s.gens[s.gen].pool == s.pool && !s.pools[s.pool].closed)
    && (s.fired && s.gens[s.gen].pool == s.pool ==> s.pools[s.pool].closed)
    && (forall p | p in s.pools :: p < s.nextPool)
    && (forall p | p in s.pools && p != s.pool :: s.pools[p].closed)
  }

  predicate GenOk(s: State, g: nat)
    requires g in s.gens
  {
    var x := s.gens[g];
    && g <= s.gen && x.pool in s.pools
    && x.done <= 1 && x.sock == (if g > 0 then x.done else 0)
    && (0 < g < s.gen ==> x.done == 1)
    && (x.done == 1 ==> s.pools[x.pool].closed)
    && (x.held.Some? ==>
          x.held.value in s.txs && s.txs[x.held.value].leaves == [ByReader(g)] && s.txs[x.held.value].responses == 0)
  }

  predicate PoolOk(s: State, p: nat)
    requires p in s.pools
  {
    var x := s.pools[p];
    && (x.closed ==> x.tx == map[])
    && (forall id | id in x.tx ::
          x.tx[id] in s.txs && s.txs[x.tx[id]].pool == p && s.txs[x.tx[id]].id == id && s.txs[x.tx[id]].leaves == [])
  }

  /** A transaction is in its pool until it leaves, which it does once; what it then has
      received follows from how it left. */
  predicate TxOk(s: State, t: nat)
    requires t in s.txs
  {
    var x := s.txs[t];
    && x.pool in s.pools && x.draw < s.pools[x.pool].draws && x.id == IdOfDraw(x.draw)
    && |x.leaves| <= 1 && x.responses <= 1
    && (x.leaves == [] ==> InPool(s, t) && x.responses == 0)
    && (x.leaves != [] ==> Settled(s, t, x, x.leaves[0]))
  }

  predicate Settled(s: State, t: nat, x: Tx, why: Leave) {
    match why
    case ByReader(g) =>
      && g in s.gens && s.gens[g].pool == x.pool
      && (s.gens[g].held == Some(t) || x.responses + x.errors >= 1)
    case ByCaller(sender, lag) => x.responses == 0 && (sender == t || lag > 0x1_0000)
    case _ => x.responses == 0 && x.errors >= 1
  }

  /** Draws are never shared, and a transaction in its pool is the latest with its ID. */
  predicate DrawsOk(s: State) {
    forall t, u | t in s.txs && u in s.txs && t != u && s.txs[t].pool == s.txs[u].pool ::
      && s.txs[t].draw != s.txs[u].draw
      && (s.txs[t].leaves == [] && s.txs[t].id == s.txs[u].id ==> s.txs[u].draw < s.txs[t].draw)
  }

  predicate GensOk(s: State) { forall g | g in s.gens :: GenOk(s, g) }
  predicate PoolsOk(s: State) { forall p | p in s.pools :: PoolOk(s, p) }
  predicate TxsOk(s: State) { forall t | t in s.txs :: TxOk(s, t) }

  predicate Core(s: State) { CurrentOk(s) && GensOk(s) && PoolsOk(s) && TxsOk(s) }

  predicate Inv(s: State) { Core(s) && DrawsOk(s) }

  lemma CoreBase(s: State)
    requires Core(s)
    ensures Base(s)
  {
  }

  // Leaving a pool ----------------------------------------------------

  /** Leaving a pool disturbs nothing but the transaction that leaves. */
  lemma TakeFrame(s: State, p: nat, id: u16, why: Leave, errors: nat)
    requires Core(s) && p in s.pools && id in s.pools[p].tx && s.pools[p].tx[id] in s.txs
    ensures var s' := Take(s, p, id, why, errors); CurrentOk(s') && GensOk(s') && PoolsOk(s')
  {
    var s' := Take(s, p, id, why, errors);
    assert PoolOk(s, p) && TxOk(s, s.pools[p].tx[id]);
    forall g | g in s'.gens ensures GenOk(s', g) { assert GenOk(s, g); }
    forall q | q in s'.pools ensures PoolOk(s', q) { assert PoolOk(s, q); }
  }

  lemma TakeOthers(s: State, p: nat, id: u16, why: Leave, errors: nat)
    requires TxsOk(s) && p in s.pools && id in s.pools[p].tx && s.pools[p].tx[id] in s.txs
    ensures var s' := Take(s, p, id, why, errors);
            forall t | t in s'.txs && t != s.pools[p].tx[id] :: TxOk(s', t)
  {
  }

  /** Leaving a pool, other than through the read loop, keeps the invariant. */
  lemma TakeCore(s: State, p: nat, id: u16, why: Leave, errors: nat)
    requires Core(s) && p in s.pools && id in s.pools[p].tx && s.pools[p].tx[id] in s.txs
    requires var t := s.pools[p].tx[id];
             !why.ByReader? && Settled(s, t, s.txs[t].(errors := s.txs[t].errors + errors), why)
    ensures Core(Take(s, p, id, why, errors))
  {
    TakeFrame(s, p, id, why, errors);
    TakeOthers(s, p, id, why, errors);
    assert PoolOk(s, p) && TxOk(s, s.pools[p].tx[id]);
  }

  lemma HeldNotInPool(s: State, g: nat)
    requires Core(s) && g in s.gens && s.gens[g].held.Some?
    ensures s.gens[g].held.value in s.txs && !InPool(s, s.gens[g].held.value)
  {
  }

  lemma CancelAllFrame(s: State, p: nat, why: Leave)
    requires Core(s) && p in s.pools
    ensures var s' := CancelAll(s, p, why); CurrentOk(s') && GensOk(s') && PoolsOk(s')
  {
    var s' := CancelAll(s, p, why);
    forall g | g in s'.gens ensures GenOk(s', g) {
      assert GenOk(s, g);
      if s.gens[g].held.Some? { HeldNotInPool(s, g); }
    }
    forall q | q in s'.pools ensures PoolOk(s', q) { assert PoolOk(s, q); }
  }

  lemma CancelAllCore(s: State, p: nat, why: Leave)
    requires Core(s) && p in s.pools && (why.Reset? || why.Closed?)
    ensures Core(CancelAll(s, p, why))
  {
    CancelAllFrame(s, p, why);
    var s' := CancelAll(s, p, why);
    forall t | t in s'.txs ensures TxOk(s', t) {
      assert TxOk(s, t);
      if InPool(s, t) { assert PoolOk(s, s.txs[t].pool); }
    }
  }

  // Closing -----------------------------------------------------------

  /** Marking an emptied pool closed, together with a change of generations that keeps
      held transactions, keeps pools and transactions in order. */
  lemma MarkClosed(s: State, s': State, p: nat)
    requires PoolsOk(s) && TxsOk(s) && p in s.pools && s.pools[p].tx == map[]
    requires s'.pools == s.pools[p := s.pools[p].(closed := true)] && s'.txs == s.txs
    requires s'.gens.Keys == s.gens.Keys
    requires forall g | g in s.gens :: s'.gens[g].pool == s.gens[g].pool && s'.gens[g].held == s.gens[g].held
    ensures PoolsOk(s') && TxsOk(s')
  {
  }

  lemma ClosePoolCore(s: State)
    requires Core(s) && !s.connected
    ensures Core(ClosePool(s, s.pool))
  {
    if !s.pools[s.pool].closed {
      CancelAllCore(s, s.pool, Closed);
      var s1 := CancelAll(s, s.pool, Closed);
      var s' := ClosePool(s, s.pool);
      MarkClosed(s1, s', s.pool);
      forall g | g in s'.gens ensures GenOk(s', g) { assert GenOk(s1, g); }
    }
  }

  lemma ClosedPoolEmpty(s: State, p: nat)
    requires Core(s) && p in s.pools && s.pools[p].closed
    ensures s.pools[p].tx == map[] && CancelAll(s, p, Closed) == s
  {
  }

  /** What a first teardown does, as one cancellation and one marking. */
  lemma TeardownParts(s: State)
    requires Core(s) && !s.fired
    ensures var s1, s', g := CancelAll(s, s.pool, Closed), Teardown(s.(connected := false)), s.gens[s.gen];
            && s'.txs == s1.txs && s'.pools == s1.pools[s.pool := s1.pools[s.pool].(closed := true)]
            && s' == s1.(connected := false, fired := true, pools := s'.pools,
                         gens := s.gens[s.gen := g.(done := g.done + 1, sock := g.sock + (if s.gen > 0 then 1 else 0))])
  {
    if s.pools[s.pool].closed { ClosedPoolEmpty(s, s.pool); }
  }

  lemma TornDownGens(s: State, s': State)
    requires CurrentOk(s) && GensOk(s) && !s.fired
    requires var g := s.gens[s.gen];
             s' == s.(connected := false, fired := true, pools := s.pools[s.pool := s.pools[s.pool].(closed := true)],
                      gens := s.gens[s.gen := g.(done := g.done + 1, sock := g.sock + (if s.gen > 0 then 1 else 0))])
    ensures CurrentOk(s') && GensOk(s')
  {
    forall g | g in s'.gens ensures GenOk(s', g) { assert GenOk(s, g); }
  }

  lemma TeardownCore(s: State)
    requires Core(s)
    ensures Core(Teardown(s.(connected := false)))
  {
    var s' := Teardown(s.(connected := false));
    if !s.fired {
      var s1 := CancelAll(s, s.pool, Closed);
      CancelAllCore(s, s.pool, Closed);
      TeardownParts(s);
      MarkClosed(s1, s', s.pool);
      TornDownGens(s1, s');
    } else {
      SameButConnected(s, s');
    }
  }

  lemma SameButConnected(s: State, s': State)
    requires Core(s) && s.fired && s' == s.(connected := false)
    ensures Core(s')
  {
  }

  // Connecting --------------------------------------------------------

  lemma FreshPoolCore(s: State)
    requires Core(s) && !s.connected
    ensures var s1 := FreshPool(s);
            && Core(s1) && !s1.pools[s1.pool].closed && !s1.connected && s1.gen == s.gen && s1.fired == s.fired
  {
    if s.pools[s.pool].closed {
      var s' := FreshPool(s);
      forall g | g in s'.gens ensures GenOk(s', g) { assert GenOk(s, g); }
      forall q | q in s'.pools ensures PoolOk(s', q) { if q in s.pools { assert PoolOk(s, q); } }
      forall t | t in s'.txs ensures TxOk(s', t) { assert TxOk(s, t); }
    } else {
      CancelAllCore(s, s.pool, Reset);
    }
  }

  lemma NewGenCore(s: State)
    requires Core(s) && !s.connected && !s.pools[s.pool].closed
    ensures Core(NewGen(s))
  {
    var s' := NewGen(s);
    forall g | g in s.gens ensures g <= s.gen && GenOk(s', g) { assert GenOk(s, g); }
    forall q | q in s'.pools ensures PoolOk(s', q) { assert PoolOk(s, q); }
    forall t | t in s'.txs ensures TxOk(s', t) { assert TxOk(s, t); }
  }

  lemma ConnectCore(s: State, dialled: bool)
    requires Core(s) && Enabled(s, Connect(dialled))
    ensures Core(Do(s, Connect(dialled)))
  {
    FreshPoolCore(s);
    if !dialled {
      ClosePoolCore(FreshPool(s));
    } else {
      NewGenCore(FreshPool(s));
    }
  }

  // Senders -----------------------------------------------------------

  predicate CanPlace(s: State, t: nat, p: nat, id: u16, draw: nat) {
    && t !in s.txs && p in s.pools && !s.pools[p].closed
    && id !in s.pools[p].tx && s.pools[p].draws <= draw && id == IdOfDraw(draw)
  }

  lemma PlacedFrame(s: State, t: nat, g: nat, p: nat, id: u16, draw: nat)
    requires CurrentOk(s) && GensOk(s) && PoolsOk(s) && CanPlace(s, t, p, id, draw)
    ensures var s' := Placed(s, t, g, p, id, draw); CurrentOk(s') && GensOk(s') && PoolsOk(s')
  {
    var s' := Placed(s, t, g, p, id, draw);
    forall g | g in s'.gens ensures GenOk(s', g) { assert GenOk(s, g); }
    forall q | q in s'.pools ensures PoolOk(s', q) { assert PoolOk(s, q); }
  }

  lemma PlacedTxs(s: State, t: nat, g: nat, p: nat, id: u16, draw: nat)
    requires TxsOk(s) && CanPlace(s, t, p, id, draw)
    ensures TxsOk(Placed(s, t, g, p, id, draw))
  {
  }

  lemma SkipCore(s: State, s': State, p: nat, n: nat)
    requires Core(s) && p in s.pools && s' == s.(pools := s.pools[p := s.pools[p].(draws := s.pools[p].draws + n)])
    ensures Core(s')
  {
    forall g | g in s'.gens ensures GenOk(s', g) { assert GenOk(s, g); }
    forall q | q in s'.pools ensures PoolOk(s', q) { assert PoolOk(s, q); }
    forall u | u in s'.txs ensures TxOk(s', u) { assert TxOk(s, u); }
  }

  function Skip(s: State, p: nat): State
    requires p in s.pools
  {
    s.(pools := s.pools[p := s.pools[p].(draws := s.pools[p].draws + MAX_ATTEMPTS)])
  }

  /** A placement does nothing, burns 16 IDs, or files t under a free one. */
  lemma PlaceCases(s: State, t: nat, g: nat) returns (p: nat, id: u16, draw: nat)
    requires Enabled(s, Place(t, g))
    ensures p == s.gens[g].pool && p in s.pools
    ensures var s' := Do(s, Place(t, g));
            s' == s || s' == Skip(s, p) || (CanPlace(s, t, p, id, draw) && s' == Placed(s, t, g, p, id, draw))
  {
    p := s.gens[g].pool;
    var pool := s.pools[p];
    draw := pool.draws + Skipped(pool.tx.Keys, pool.draws, MAX_ATTEMPTS);
    id := IdOfDraw(draw);
    assert Do(s, Place(t, g)) == DoPlace(s, t, g, p);
  }

  lemma PlaceCore(s: State, t: nat, g: nat)
    requires Core(s) && Enabled(s, Place(t, g))
    ensures Core(Do(s, Place(t, g)))
  {
    var p, id, draw := PlaceCases(s, t, g);
    AnyPlaceCore(s, Do(s, Place(t, g)), t, g, p, id, draw);
  }

  lemma AnyPlaceCore(s: State, s': State, t: nat, g: nat, p: nat, id: u16, draw: nat)
    requires Core(s) && p in s.pools
    requires s' == s || s' == Skip(s, p) || (CanPlace(s, t, p, id, draw) && s' == Placed(s, t, g, p, id, draw))
    ensures Core(s')
  {
    if s' == Skip(s, p) {
      SkipCore(s, s', p, MAX_ATTEMPTS);
    } else if s' != s {
      PlacedCore(s, s', t, g, p, id, draw);
    }
  }

  lemma PlacedCore(s: State, s': State, t: nat, g: nat, p: nat, id: u16, draw: nat)
    requires Core(s) && CanPlace(s, t, p, id, draw) && s' == Placed(s, t, g, p, id, draw)
    ensures Core(s')
  {
    PlacedFrame(s, t, g, p, id, draw);
    PlacedTxs(s, t, g, p, id, draw);
  }

  lemma LocalCore(s: State, s': State, t: nat, x: Tx)
    requires Core(s) && t in s.txs && s' == s.(txs := s.txs[t := x])
    requires x == s.txs[t].(queueing := x.queueing, errors := x.errors) && x.errors >= s.txs[t].errors
    ensures Core(s')
  {
    forall g | g in s'.gens ensures GenOk(s', g) { assert GenOk(s, g); }
    forall q | q in s'.pools ensures PoolOk(s', q) { assert PoolOk(s, q); }
    forall u | u in s'.txs ensures TxOk(s', u) { assert TxOk(s, u); }
  }

  /** If the ID a sender releases names another transaction by then, the counter has
      gone all the way round since the sender's own placement. */
  lemma ReleasedByLateSender(s: State, t: nat)
    requires Inv(s) && t in s.txs
    requires var x := s.txs[t]; x.pool in s.pools && x.id in s.pools[x.pool].tx
    ensures var x := s.txs[t]; s.pools[x.pool].tx[x.id] == t || s.pools[x.pool].draws - x.draw > 0x1_0000
  {
    var x := s.txs[t];
    var u := s.pools[x.pool].tx[x.id];
    assert PoolOk(s, x.pool);
    assert TxOk(s, u) && TxOk(s, t);
    if u != t { SameIdApart(x.draw, s.txs[u].draw); }
  }

  /** From s, in which t has given up, the transaction its ID names has left for s'. */
  predicate Released(s: State, s': State, t: nat)
    requires t in s.txs
  {
    var x := s.txs[t];
    && x.pool in s.pools
    && (x.id in s.pools[x.pool].tx ==>
          var lag := s.pools[x.pool].draws - x.draw;
          && s.pools[x.pool].tx[x.id] in s.txs
          && (s.pools[x.pool].tx[x.id] == t || lag > 0x1_0000)
          && s' == Take(s, x.pool, x.id, ByCaller(t, lag), 0))
    && (x.id !in s.pools[x.pool].tx ==> s' == s)
  }

  lemma CallerReleases(s: State, t: nat)
    requires Enabled(s, CallerRelease(t))
    requires var x := s.txs[t];
             x.id in s.pools[x.pool].tx ==> s.pools[x.pool].tx[x.id] == t || s.pools[x.pool].draws - x.draw > 0x1_0000
    ensures Released(GiveUp(s, t), Do(s, CallerRelease(t)), t)
  {
  }

  lemma CallerReleaseCore(s: State, t: nat)
    requires Inv(s) && Enabled(s, CallerRelease(t))
    ensures Core(Do(s, CallerRelease(t)))
  {
    if s.txs[t].id in s.pools[s.txs[t].pool].tx {
      ReleasedByLateSender(s, t);
    }
    CallerReleases(s, t);
    GiveUpCore(s, t);
    ReleaseFrom(GiveUp(s, t), Do(s, CallerRelease(t)), t);
  }

  lemma GiveUpCore(s: State, t: nat)
    requires Core(s) && t in s.txs
    ensures Core(GiveUp(s, t))
  {
    LocalCore(s, GiveUp(s, t), t, s.txs[t].(queueing := false));
  }

  lemma ReleaseFrom(s: State, s': State, t: nat)
    requires Core(s) && t in s.txs && Released(s, s', t)
    ensures Core(s')
  {
    var x := s.txs[t];
    if x.id in s.pools[x.pool].tx {
      SenderTake(s, s', x.pool, x.id, t, s.pools[x.pool].draws - x.draw);
    }
  }

  lemma SenderTake(s: State, s': State, p: nat, id: u16, sender: nat, lag: int)
    requires Core(s) && p in s.pools && id in s.pools[p].tx && s.pools[p].tx[id] in s.txs
    requires s.pools[p].tx[id] == sender || lag > 0x1_0000
    requires s' == Take(s, p, id, ByCaller(sender, lag), 0)
    ensures Core(s')
  {
    assert PoolOk(s, p);
    assert TxOk(s, s.pools[p].tx[id]);
    TakeCore(s, p, id, ByCaller(sender, lag), 0);
  }

  // The read loop -----------------------------------------------------

  /** The read loop of g comes to hold t, which has just left its pool for it. */
  lemma HoldFrame(s: State, s': State, g: nat, t: nat)
    requires CurrentOk(s) && GensOk(s) && PoolsOk(s) && g in s.gens
    requires t in s.txs && s.txs[t].leaves == [ByReader(g)] && s.txs[t].responses == 0
    requires s' == s.(gens := s.gens[g := s.gens[g].(held := Some(t))])
    ensures CurrentOk(s') && GensOk(s') && PoolsOk(s')
  {
    forall h | h in s'.gens ensures GenOk(s', h) { assert GenOk(s, h); }
    forall q | q in s'.pools ensures PoolOk(s', q) { assert PoolOk(s, q); }
  }

  lemma HoldTxs(s: State, s': State, g: nat, t: nat)
    requires g in s.gens && s.gens[g].held.None? && t in s.txs
    requires forall u | u in s.txs && u != t :: TxOk(s, u)
    requires s' == s.(gens := s.gens[g := s.gens[g].(held := Some(t))])
    ensures forall u | u in s'.txs && u != t :: TxOk(s', u)
  {
    forall u | u in s'.txs && u != t ensures TxOk(s', u) { assert TxOk(s, u); }
  }

  lemma ReaderReleaseCore(s: State, g: nat, id: u16)
    requires Core(s) && Enabled(s, ReaderRelease(g, id))
    ensures Core(Do(s, ReaderRelease(g, id)))
  {
    var p := s.gens[g].pool;
    var t := s.pools[p].tx[id];
    TakeFrame(s, p, id, ByReader(g), 0);
    TakeOthers(s, p, id, ByReader(g), 0);
    assert PoolOk(s, p) && TxOk(s, t);
    var s1, s' := Take(s, p, id, ByReader(g), 0), DoReaderRelease(s, g, id);
    HoldFrame(s1, s', g, t);
    HoldTxs(s1, s', g, t);
    assert TxOk(s', t);
  }

  lemma ReaderCompleteFrame(s: State, g: nat, ok: bool)
    requires CurrentOk(s) && GensOk(s) && PoolsOk(s) && Enabled(s, ReaderComplete(g, ok))
    ensures var s' := DoReaderComplete(s, g, ok); CurrentOk(s') && GensOk(s') && PoolsOk(s')
  {
    var s' := DoReaderComplete(s, g, ok);
    assert GenOk(s, g);
    forall h | h in s'.gens ensures GenOk(s', h) { assert GenOk(s, h); }
    forall q | q in s'.pools ensures PoolOk(s', q) { assert PoolOk(s, q); }
  }

  lemma ReaderCompleteCore(s: State, g: nat, ok: bool)
    requires Core(s) && Enabled(s, ReaderComplete(g, ok))
    ensures Core(Do(s, ReaderComplete(g, ok)))
  {
    ReaderCompleteFrame(s, g, ok);
    ReaderCompleteTxs(s, g, ok);
  }

  lemma ReaderCompleteTxs(s: State, g: nat, ok: bool)
    requires GensOk(s) && TxsOk(s) && Enabled(s, ReaderComplete(g, ok))
    ensures TxsOk(DoReaderComplete(s, g, ok))
  {
  }

  // Draw order --------------------------------------------------------

  /** Transactions keep their draw and can only leave. */
  predicate KeepsDraws(s: State, s': State) {
    && s'.txs.Keys == s.txs.Keys
    && forall t | t in s.txs ::
         && s'.txs[t].gen == s.txs[t].gen && s'.txs[t].pool == s.txs[t].pool && s'.txs[t].draw == s.txs[t].draw && s'.txs[t].id == s.txs[t].id
         && s.txs[t].leaves <= s'.txs[t].leaves
  }

  lemma KeepsDrawsOk(s: State, s': State)
    requires DrawsOk(s) && KeepsDraws(s, s')
    ensures DrawsOk(s')
  {
  }

  lemma TakeKeepsDraws(s: State, s': State, p: nat, id: u16, why: Leave, errors: nat)
    requires p in s.pools && id in s.pools[p].tx && s.pools[p].tx[id] in s.txs
    requires s' == Take(s, p, id, why, errors)
    ensures KeepsDraws(s, s')
  {
  }

  lemma CancelAllKeepsDraws(s: State, s': State, p: nat, why: Leave)
    requires p in s.pools && s'.txs == Cancelled(s.txs, s.pools, p, why)
    ensures KeepsDraws(s, s')
  {
  }

  lemma TeardownKeepsDraws(s: State)
    requires Base(s)
    ensures KeepsDraws(s, Teardown(s.(connected := false)))
  {
  }

  lemma ConnectKeepsDraws(s: State, dialled: bool)
    requires Base(s)
    ensures KeepsDraws(s, DoConnect(s, dialled))
  {
    var s1 := FreshPool(s);
    CancelAllKeepsDraws(s, CancelAll(s, s.pool, Reset), s.pool, Reset);
    CancelAllKeepsDraws(s1, CancelAll(s1, s1.pool, Closed), s1.pool, Closed);
  }

  lemma StepKeepsDraws(s: State, step: Step)
    requires Enabled(s, step) && !step.Place?
    ensures KeepsDraws(s, Do(s, step))
  {
    match step
    case Timeout(p, id) => TakeKeepsDraws(s, Do(s, step), p, id, TimedOut, 1);
    case ReaderRelease(g, id) => TakeKeepsDraws(s, Take(s, s.gens[g].pool, id, ByReader(g), 0), s.gens[g].pool, id, ByReader(g), 0);
    case CallerRelease(t) => CallerReleaseKeepsDraws(s, t);
    case Connect(dialled) => ConnectKeepsDraws(s, dialled);
    case Disconnect => TeardownKeepsDraws(s);
    case SetDisconnected(_) => TeardownKeepsDraws(s);
    case ResetPool(p) => CancelAllKeepsDraws(s, Do(s, step), p, Reset);
    case _ =>
  }

  lemma CallerReleaseKeepsDraws(s: State, t: nat)
    requires Enabled(s, CallerRelease(t))
    ensures KeepsDraws(s, Do(s, CallerRelease(t)))
  {
    var x, s1 := s.txs[t], GiveUp(s, t);
    if x.id in s.pools[x.pool].tx {
      TakeKeepsDraws(s1, Do(s, CallerRelease(t)), x.pool, x.id, ByCaller(t, s.pools[x.pool].draws - x.draw), 0);
    }
  }

  lemma PlacedDraws(s: State, t: nat, g: nat, p: nat, id: u16, draw: nat)
    requires DrawsOk(s) && TxsOk(s) && CanPlace(s, t, p, id, draw)
    ensures DrawsOk(Placed(s, t, g, p, id, draw))
  {
  }

  lemma PlaceDraws(s: State, t: nat, g: nat)
    requires DrawsOk(s) && TxsOk(s) && Enabled(s, Place(t, g))
    ensures DrawsOk(Do(s, Place(t, g)))
  {
    var p, id, draw := PlaceCases(s, t, g);
    if CanPlace(s, t, p, id, draw) {
      PlacedDraws(s, t, g, p, id, draw);
    }
  }

  lemma DisconnectCore(s: State)
    requires Core(s) && Enabled(s, Disconnect)
    ensures Core(Do(s, Disconnect))
  {
    TeardownCore(s);
  }

  lemma SetDisconnectedCore(s: State, g: nat)
    requires Core(s) && Enabled(s, SetDisconnected(g))
    ensures Core(Do(s, SetDisconnected(g)))
  {
    if g == s.gen { TeardownCore(s); }
  }

  /** The write channel and what the write loop holds do not enter the core invariant. */
  lemma WriterFrame(s: State, s': State, g: nat, x: Gen)
    requires Core(s) && g in s.gens && s' == s.(gens := s.gens[g := x])
    requires x == s.gens[g].(queue := x.queue, writing := x.writing)
    ensures Core(s')
  {
    forall h | h in s'.gens ensures GenOk(s', h) { assert GenOk(s, h); }
    forall q | q in s'.pools ensures PoolOk(s', q) { assert PoolOk(s, q); }
    forall u | u in s'.txs ensures TxOk(s', u) { assert TxOk(s, u); }
  }

  lemma QueuedCore(s: State, t: nat)
    requires Core(s) && Enabled(s, Queued(t))
    ensures Core(Do(s, Queued(t)))
  {
    GiveUpCore(s, t);
    var g := s.txs[t].gen;
    WriterFrame(GiveUp(s, t), Do(s, Queued(t)), g, s.gens[g].(queue := s.gens[g].queue + [t]));
  }

  lemma WriterTakeCore(s: State, g: nat)
    requires Core(s) && Enabled(s, WriterTake(g))
    ensures Core(Do(s, WriterTake(g)))
  {
    WriterFrame(s, Do(s, WriterTake(g)), g, Do(s, WriterTake(g)).gens[g]);
  }

  lemma WriterDoneCore(s: State, g: nat, failed: bool)
    requires Core(s) && Enabled(s, WriterDone(g, failed))
    ensures Core(Do(s, WriterDone(g, failed)))
  {
    var t, x := s.gens[g].writing.value, s.gens[g].(writing := None);
    var s1 := s.(gens := s.gens[g := x]);
    WriterFrame(s, s1, g, x);
    LocalCore(s1, Do(s, WriterDone(g, failed)), t, Failed(s.txs[t], failed));
  }

  lemma TimeoutCore(s: State, p: nat, id: u16)
    requires Core(s) && Enabled(s, Timeout(p, id))
    ensures Core(Do(s, Timeout(p, id)))
  {
    assert PoolOk(s, p) && TxOk(s, s.pools[p].tx[id]);
    TakeCore(s, p, id, TimedOut, 1);
  }

  lemma ResetPoolCore(s: State, p: nat)
    requires Core(s) && Enabled(s, ResetPool(p))
    ensures Core(Do(s, ResetPool(p)))
  {
    CancelAllCore(s, p, Reset);
  }

  lemma StepCore(s: State, step: Step)
    requires Inv(s) && Enabled(s, step)
    ensures Core(Do(s, step))
  {
    match step
    case Connect(dialled) => ConnectCore(s, dialled);
    case Disconnect => DisconnectCore(s);
    case SetDisconnected(g) => SetDisconnectedCore(s, g);
    case Place(t, g) => PlaceCore(s, t, g);
    case Queued(t) => QueuedCore(s, t);
    case CallerRelease(t) => CallerReleaseCore(s, t);
    case ReaderRelease(g, id) => ReaderReleaseCore(s, g, id);
    case ReaderComplete(g, ok) => ReaderCompleteCore(s, g, ok);
    case WriterTake(g) => WriterTakeCore(s, g);
    case WriterDone(g, failed) => WriterDoneCore(s, g, failed);
    case Timeout(p, id) => TimeoutCore(s, p, id);
    case ResetPool(p) => ResetPoolCore(s, p);
  }

  lemma StepInv(s: State, step: Step)
    requires Inv(s) && Enabled(s, step)
    ensures Inv(Do(s, step))
  {
    StepCore(s, step);
    if step.Place? {
      PlaceDraws(s, step.t, step.g);
    } else {
      StepKeepsDraws(s, step);
      KeepsDrawsOk(s, Do(s, step));
    }
  }
}
