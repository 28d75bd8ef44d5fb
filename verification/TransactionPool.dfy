/** The transaction pool (protocol/modbus/transaction.go): 16-bit transaction IDs drawn
    from a wrapping 32-bit counter, with at most 16 attempts per placement. */
module TransactionPool {
  import opened Bytes

  const MAX_ATTEMPTS: nat := 16

  /** The ID the n-th draw yields. */
  function IdOfDraw(n: nat): u16 { n % 0x1_0000 }

  /** Some ID of the next 16 draws is not in flight. */
  ghost predicate FreeAhead(inFlight: set<u16>, draws: nat) {
    exists k | draws <= k < draws + MAX_ATTEMPTS :: IdOfDraw(k) !in inFlight
  }

  /** How many draws beyond `draws` until an ID that is not in flight, if fewer than
      `tries`; otherwise `tries`. */
  function Skipped(inFlight: set<u16>, draws: nat, tries: nat): (j: nat)
    ensures j <= tries
    ensures forall k | draws <= k < draws + j :: IdOfDraw(k) in inFlight
    ensures j < tries ==> IdOfDraw(draws + j) !in inFlight
    decreases tries
  {
    if tries == 0 || IdOfDraw(draws) !in inFlight then 0
    else 1 + Skipped(inFlight, draws + 1, tries - 1)
  }

  /** Placement works exactly when one of the next 16 IDs is free. */
  lemma PlaceableIff(inFlight: set<u16>, draws: nat)
    ensures Skipped(inFlight, draws, MAX_ATTEMPTS) < MAX_ATTEMPTS <==> FreeAhead(inFlight, draws)
  {
  }

  /** The first free draw is the one Skipped points at. */
  lemma FirstFreeIsSkipped(inFlight: set<u16>, draws: nat, d: nat)
    requires draws <= d < draws + MAX_ATTEMPTS && IdOfDraw(d) !in inFlight
    requires forall k | draws <= k < d :: IdOfDraw(k) in inFlight
    ensures d == draws + Skipped(inFlight, draws, MAX_ATTEMPTS)
  {
    var j := Skipped(inFlight, draws, MAX_ATTEMPTS);
    if j < MAX_ATTEMPTS {
      assert IdOfDraw(draws + j) !in inFlight;
    }
  }

  /** The IDs of n consecutive draws. */
  function IdsFrom(draws: nat, n: nat): set<u16> {
    if n == 0 then {} else IdsFrom(draws, n - 1) + {IdOfDraw(draws + n - 1)}
  }

  lemma {:induction false} IdsFromSize(draws: nat, n: nat)
    requires n <= 0x1_0000
    ensures |IdsFrom(draws, n)| == n
    ensures forall id | id in IdsFrom(draws, n) :: exists k | draws <= k < draws + n :: IdOfDraw(k) == id
  {
    if n > 0 {
      IdsFromSize(draws, n - 1);
      if IdOfDraw(draws + n - 1) in IdsFrom(draws, n - 1) {
        var k :| draws <= k < draws + n - 1 && IdOfDraw(k) == IdOfDraw(draws + n - 1);
        SameIdApart(k, draws + n - 1);
        assert false;
      }
    }
  }

  /** Two draws with the same ID lie at least 65536 draws apart. */
  lemma SameIdApart(m: nat, n: nat)
    requires m < n && IdOfDraw(m) == IdOfDraw(n)
    ensures n - m >= 0x1_0000
  {
  }

  /** With fewer than 16 transactions in flight a placement always finds a free ID. */
  lemma {:induction false} FewInFlightAlwaysPlaceable(inFlight: set<u16>, draws: nat)
    requires |inFlight| < MAX_ATTEMPTS
    ensures FreeAhead(inFlight, draws)
  {
    var ids := IdsFrom(draws, MAX_ATTEMPTS);
    IdsFromSize(draws, MAX_ATTEMPTS);
    if !FreeAhead(inFlight, draws) {
      forall id | id in ids ensures id in inFlight {
        var k :| draws <= k < draws + MAX_ATTEMPTS && IdOfDraw(k) == id;
      }
      SubsetSize(ids, inFlight);
      assert false;
    }
  }

  lemma {:induction false} SubsetSize(a: set<u16>, b: set<u16>)
    requires a <= b
    ensures |a| <= |b|
  {
    assert b == a + (b - a);
    assert a !! (b - a);
    assert |b| == |a| + |b - a|;
  }

  /** The 32-bit counter wraps at a multiple of 65536, so IDs run on undisturbed. */
  lemma Wrap(next: u32, draws: nat)
    requires next == draws % 0x1_0000_0000
    ensures next % 0x1_0000 == IdOfDraw(draws)
    ensures (next as int + 1) % 0x1_0000_0000 == (draws + 1) % 0x1_0000_0000
  {
    var q: int, k: int, r: int := draws / 0x1_0000_0000, next / 0x1_0000, next % 0x1_0000;
    assert draws == 0x1_0000 * (0x1_0000 * q + k) + r;
    IdIs(draws, 0x1_0000 * q + k, r);
  }

  lemma IdIs(draws: nat, k: int, r: int)
    requires draws == 0x1_0000 * k + r && 0 <= r < 0x1_0000
    ensures IdOfDraw(draws) == r
  {
  }

  datatype Why = TransportClosing | TransactionTimeout
  datatype Entry = Entry(serial: nat, created: nat)

  /** The pool object. `cancelled` logs each Cancel it issued; `draws` counts draws,
      of which nextID is the 32-bit remainder. */
  class TransactionPool {
    var transactions: map<u16, Entry>
    var nextID: u32
    var closed: bool
    var cancelled: set<(nat, Why)>
    const timeout: nat
    ghost var draws: nat

    ghost predicate Valid()
      reads this
    {
      nextID == draws % 0x1_0000_0000 && (closed ==> transactions == map[])
    }

    constructor (timeout: nat)
      ensures Valid() && transactions == map[] && !closed && draws == 0 && cancelled == {}
      ensures this.timeout == timeout
    {
      this.timeout := timeout;
      transactions, nextID, closed, cancelled, draws := map[], 0, false, {}, 0;
    }

    /** `nextID.Add(1) - 1`, reduced to 16 bits. */
    method DrawOne() returns (id: u16)
      requires nextID == draws % 0x1_0000_0000
      modifies this`nextID, this`draws
      ensures nextID == draws % 0x1_0000_0000 && draws == old(draws) + 1
      ensures id == IdOfDraw(old(draws))
    {
      Wrap(nextID, draws);
      id := nextID % 0x1_0000;
      nextID := (nextID as int + 1) % 0x1_0000_0000;
      draws := draws + 1;
    }

    /** The ID search of Place: the first free ID among the next 16 draws. */
    method Draw() returns (ok: bool, id: u16)
      requires nextID == draws % 0x1_0000_0000
      modifies this`nextID, this`draws
      ensures nextID == draws % 0x1_0000_0000
      ensures old(draws) < draws <= old(draws) + MAX_ATTEMPTS
      ensures forall k | old(draws) <= k < draws - 1 :: IdOfDraw(k) in transactions
      ensures ok <==> FreeAhead(transactions.Keys, old(draws))
      ensures ok ==> id == IdOfDraw(draws - 1) && id !in transactions
    {
      id, ok := 0, false;
      for i := 0 to MAX_ATTEMPTS
        invariant nextID == draws % 0x1_0000_0000 && draws == old(draws) + i && !ok
        invariant forall k | old(draws) <= k < draws :: IdOfDraw(k) in transactions
      {
        id := DrawOne();
        if id !in transactions {
          return true, id;
        }
      }
    }

    /** Place: fails exactly on a closed pool or when all of the next 16 IDs are in
        flight, and never disturbs a transaction in flight. */
    method Place(serial: nat, now: nat) returns (ok: bool, id: u16)
      requires Valid()
      modifies this`nextID, this`draws, this`transactions
      ensures Valid()
      ensures ok <==> !closed && FreeAhead(old(transactions).Keys, old(draws))
      ensures ok ==> id !in old(transactions) && transactions == old(transactions)[id := Entry(serial, now)]
      ensures ok ==> draws == old(draws) + Skipped(old(transactions).Keys, old(draws), MAX_ATTEMPTS) + 1
      ensures ok ==> id == IdOfDraw(draws - 1)
      ensures !ok ==> transactions == old(transactions)
      ensures !closed && |old(transactions)| < MAX_ATTEMPTS ==> ok
    {
      if closed {
        return false, 0;
      }
      if |transactions| < MAX_ATTEMPTS {
        assert |transactions.Keys| == |transactions|;
        FewInFlightAlwaysPlaceable(transactions.Keys, draws);
      }
      ok, id := Draw();
      if ok {
        FirstFreeIsSkipped(transactions.Keys, old(draws), draws - 1);
        transactions := transactions[id := Entry(serial, now)];
      }
    }

    /** Release: hands out the transaction under an ID, once. */
    method Release(id: u16) returns (e: Entry, ok: bool)
      requires Valid()
      modifies this`transactions
      ensures Valid()
      ensures ok <==> id in old(transactions)
      ensures ok ==> e == old(transactions)[id]
      ensures transactions == old(transactions) - {id}
    {
      e, ok := Entry(0, 0), false;
      if id in transactions {
        e, ok := transactions[id], true;
        transactions := transactions - {id};
      }
    }

    predicate Hit(e: Entry, all: bool, now: nat) { all || now - e.created > timeout }

    /** The entries a cancellation pass hits: all of them, or those past the timeout. */
    function Hits(all: bool, now: nat, why: Why): set<(nat, Why)>
      reads this`transactions
    {
      set id | id in transactions && Hit(transactions[id], all, now) :: (transactions[id].serial, why)
    }

    function Misses(all: bool, now: nat): map<u16, Entry>
      reads this`transactions
    {
      map id | id in transactions && !Hit(transactions[id], all, now) :: transactions[id]
    }

    /** Halfway through a pass, with `left` still to visit: what is in the table, and what
        has been cancelled. */
    function Kept(m: map<u16, Entry>, left: set<u16>, all: bool, now: nat): map<u16, Entry> {
      map k | k in m && (k in left || !Hit(m[k], all, now)) :: m[k]
    }

    function Gone(m: map<u16, Entry>, left: set<u16>, all: bool, now: nat, why: Why): set<(nat, Why)> {
      set k | k in m && k !in left && Hit(m[k], all, now) :: (m[k].serial, why)
    }

    lemma KeptStep(m: map<u16, Entry>, left: set<u16>, id: u16, all: bool, now: nat)
      requires id in left && id in m
      ensures Kept(m, left - {id}, all, now)
           == if Hit(m[id], all, now) then Kept(m, left, all, now) - {id} else Kept(m, left, all, now)
    {
    }

    lemma GoneStep(m: map<u16, Entry>, left: set<u16>, id: u16, all: bool, now: nat, why: Why)
      requires id in left && id in m
      ensures Gone(m, left - {id}, all, now, why)
           == if Hit(m[id], all, now) then Gone(m, left, all, now, why) + {(m[id].serial, why)} else Gone(m, left, all, now, why)
    {
    }

    /** Cancels and forgets what the pass hits; the order in which the Go map yields the
        entries cannot be observed. */
    method CancelPass(all: bool, now: nat, why: Why)
      modifies this`transactions, this`cancelled
      ensures transactions == old(Misses(all, now))
      ensures cancelled == old(cancelled) + old(Hits(all, now, why))
    {
      var left := transactions.Keys;
      ghost var m, c := transactions, cancelled;
      while exists id :: id in left
        invariant left <= m.Keys
        invariant transactions == Kept(m, left, all, now)
        invariant cancelled == c + Gone(m, left, all, now, why)
        decreases |left|
      {
        var id :| id in left;
        KeptStep(m, left, id, all, now);
        GoneStep(m, left, id, all, now, why);
        if Hit(transactions[id], all, now) {
          cancelled := cancelled + {(transactions[id].serial, why)};
          transactions := transactions - {id};
        }
        left := left - {id};
      }
    }

    /** Close: once; cancels everything in flight. */
    method Close()
      requires Valid()
      modifies this`closed, this`transactions, this`cancelled
      ensures Valid() && closed && transactions == map[]
      ensures cancelled == old(cancelled) + (if old(closed) then {} else old(Hits(true, 0, TransportClosing)))
      ensures forall n: nat, why :: (n, why) in cancelled <==>
                || (n, why) in old(cancelled)
                || (!old(closed) && why == TransportClosing && exists id: u16 | id in old(transactions) :: old(transactions)[id].serial == n)
    {
      if closed {
        return;
      }
      closed := true;
      CancelPass(true, 0, TransportClosing);
    }

    /** checkTimeouts: cancels exactly the transactions past the timeout. */
    method CheckTimeouts(now: nat)
      requires Valid()
      modifies this`transactions, this`cancelled
      ensures Valid() && transactions == old(Misses(false, now))
      ensures cancelled == old(cancelled) + old(Hits(false, now, TransactionTimeout))
      ensures forall id: u16 :: id in transactions <==> id in old(transactions) && now - old(transactions)[id].created <= timeout
      ensures forall id | id in transactions :: transactions[id] == old(transactions)[id]
      ensures forall n: nat, why :: (n, why) in cancelled <==>
                || (n, why) in old(cancelled)
                || (why == TransactionTimeout && exists id: u16 | id in old(transactions) ::
                      old(transactions)[id].serial == n && now - old(transactions)[id].created > timeout)
    {
      CancelPass(false, now, TransactionTimeout);
    }

    /** unsafeReset: cancels everything in flight and leaves the pool as it was. */
    method Reset()
      requires Valid()
      modifies this`transactions, this`cancelled
      ensures Valid() && transactions == map[]
      ensures cancelled == old(cancelled) + old(Hits(true, 0, TransportClosing))
      ensures forall n: nat, why :: (n, why) in cancelled <==>
                || (n, why) in old(cancelled)
                || (why == TransportClosing && exists id: u16 | id in old(transactions) :: old(transactions)[id].serial == n)
    {
      CancelPass(true, 0, TransportClosing);
    }
  }
}
