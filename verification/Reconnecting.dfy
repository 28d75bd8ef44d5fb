/** The reconnecting transport (transport/reconnecting.go). Each method is one critical
    section under the write lock, apart from the read-only fast path of Conn, so a
    concurrent run is a sequence of whole steps. The dialler is taken to return a
    connection it has not returned before. */
module Reconnecting {
  import opened Wrappers

  datatype Act = Opened(c: nat) | ConnectHook | Closed(c: nat) | DisconnectHook

  /** conn None is the zero connection; log records what was done, in order. */
  datatype State = State(conn: Option<nat>, closed: bool, log: seq<Act>)

  const INIT := State(None, false, [])

  /** dialled: what the connector returns if it is asked; None is a failure. */
  datatype Step = Conn(dialled: Option<nat>) | Reset(stale: Option<nat>) | Close

  predicate NeverOpened(log: seq<Act>, c: nat) { Opened(c) !in log }

  predicate Enabled(st: State, step: Step) {
    step.Conn? && step.dialled.Some? ==> NeverOpened(st.log, step.dialled.value)
  }

  function Do(st: State, step: Step): State {
    match step
    case Conn(dialled) =>
      if st.closed || st.conn.Some? || dialled.None? then st
      else st.(conn := dialled, log := st.log + [Opened(dialled.value), ConnectHook])
    case Reset(stale) =>
      if st.conn.None? || st.conn != stale then st
      else st.(conn := None, log := st.log + [Closed(st.conn.value), DisconnectHook])
    case Close =>
      if st.closed then st
      else if st.conn.None? then st.(closed := true)
      else State(None, true, st.log + [Closed(st.conn.value), DisconnectHook])
  }

  /** The transport object. */
  class ReconnectingTransport {
    var conn: Option<nat>
    var closed: bool
    ghost var log: seq<Act>

    ghost function Value(): State
      reads this
    {
      State(conn, closed, log)
    }

    constructor ()
      ensures Value() == INIT
    {
      conn, closed, log := None, false, [];
    }

    /** Conn: the fast path, then the slow path, which checks again because others may have
        run in between. */
    method GetConn(between: seq<Step>, dialled: Option<nat>) returns (r: Option<nat>)
      requires Runs(Value(), between) && Enabled(After(Value(), between), Conn(dialled))
      modifies this
      ensures old(closed || conn.Some?) ==> Value() == old(Value()) && r == (if closed then None else conn)
      ensures old(!closed && conn.None?) ==> Value() == Do(After(old(Value()), between), Conn(dialled))
      ensures r == if closed then None else conn
      ensures old(!closed && conn.None?) ==>
                var st := After(old(Value()), between);
                if st.closed || st.conn.Some? || dialled.None? then Value() == st
                else r == dialled && conn == dialled && !closed && log == st.log + [Opened(dialled.value), ConnectHook]
    {
      if closed {
        return None;
      }
      if conn != None {
        return conn;
      }
      for i := 0 to |between|
        invariant Runs(Value(), between[i..]) && After(Value(), between[i..]) == After(old(Value()), between)
      {
        assert between[i..][1..] == between[i + 1..];
        Perform(between[i]);
      }
      r := SlowConn(dialled);
    }

    /** What another goroutine does. */
    method Perform(step: Step)
      requires Enabled(Value(), step)
      modifies this
      ensures Value() == Do(old(Value()), step)
    {
      match step
      case Conn(dialled) => var c := SlowConn(dialled);
      case Reset(stale) => ResetConn(stale);
      case Close => CloseTransport();
    }

    method SlowConn(dialled: Option<nat>) returns (r: Option<nat>)
      requires Enabled(Value(), Conn(dialled))
      modifies this
      ensures Value() == Do(old(Value()), Conn(dialled))
      ensures r == if closed then None else conn
      ensures old(closed) ==> r == None && Value() == old(Value())
      ensures old(!closed && conn.Some?) ==> r == old(conn) && Value() == old(Value())
      ensures old(!closed && conn.None?) && dialled.None? ==> r == None && Value() == old(Value())
      ensures old(!closed && conn.None?) && dialled.Some? ==>
                && r == dialled && conn == dialled && !closed
                && log == old(log) + [Opened(dialled.value), ConnectHook]
    {
      if closed {
        return None;
      }
      if conn != None {
        return conn;
      }
      if dialled.None? {
        return None;
      }
      conn := dialled;
      log := log + [Opened(dialled.value)];
      log := log + [ConnectHook];
      return dialled;
    }

    method ResetConn(stale: Option<nat>)
      modifies this
      ensures Value() == Do(old(Value()), Reset(stale))
      ensures old(conn.Some? && conn == stale) ==>
                conn == None && log == old(log) + [Closed(stale.value), DisconnectHook] && closed == old(closed)
      ensures !old(conn.Some? && conn == stale) ==> Value() == old(Value())
    {
      if conn == None || conn != stale {
        return;
      }
      log := log + [Closed(conn.value)];
      conn := None;
      log := log + [DisconnectHook];
    }

    method CloseTransport()
      modifies this
      ensures Value() == Do(old(Value()), Close)
      ensures closed && conn == if old(closed) then old(conn) else None
      ensures log == if old(!closed && conn.Some?) then old(log) + [Closed(old(conn).value), DisconnectHook] else old(log)
    {
      if closed {
        return;
      }
      closed := true;
      if conn == None {
        return;
      }
      log := log + [Closed(conn.value)];
      log := log + [DisconnectHook];
      conn := None;
    }
  }

  /** The one shape a log can have: whole lives of connections, then perhaps the
      beginning of one more. */
  function LogOf(past: seq<nat>, current: Option<nat>): seq<Act> {
    if past == [] then (if current.None? then [] else [Opened(current.value), ConnectHook])
    else [Opened(past[0]), ConnectHook, Closed(past[0]), DisconnectHook] + LogOf(past[1..], current)
  }

  ghost predicate Distinct(past: seq<nat>, current: Option<nat>) {
    && (forall i, j | 0 <= i < j < |past| :: past[i] != past[j])
    && (current.Some? ==> current.value !in past)
  }

  ghost predicate Inv(st: State, past: seq<nat>) {
    && st.log == LogOf(past, st.conn)
    && Distinct(past, st.conn)
    && (st.closed ==> st.conn.None?)
  }

  lemma {:induction false} LogOpen(past: seq<nat>, c: nat)
    ensures LogOf(past, None) + [Opened(c), ConnectHook] == LogOf(past, Some(c))
  {
    if past != [] { LogOpen(past[1..], c); }
  }

  lemma {:induction false} LogClose(past: seq<nat>, c: nat)
    ensures LogOf(past, Some(c)) + [Closed(c), DisconnectHook] == LogOf(past + [c], None)
  {
    if past == [] {
      assert LogOf([c], None) == [Opened(c), ConnectHook, Closed(c), DisconnectHook] + LogOf([], None);
    } else {
      LogClose(past[1..], c);
      assert (past + [c])[1..] == past[1..] + [c];
    }
  }

  /** A log opens exactly the connections of its shape. */
  lemma {:induction false} LogMembers(past: seq<nat>, current: Option<nat>, c: nat)
    ensures Opened(c) in LogOf(past, current) <==> c in past || current == Some(c)
    ensures Closed(c) in LogOf(past, current) <==> c in past
  {
    if past != [] { LogMembers(past[1..], current, c); }
  }

  lemma StepInv(st: State, past: seq<nat>, step: Step) returns (past': seq<nat>)
    requires Inv(st, past) && Enabled(st, step)
    ensures Inv(Do(st, step), past') && past <= past'
  {
    past' := past;
    if step.Conn? && step.dialled.Some? {
      LogMembers(past, st.conn, step.dialled.value);
      LogOpen(past, step.dialled.value);
    }
    if !step.Conn? && st.conn.Some? && Do(st, step).conn.None? {
      LogClose(past, st.conn.value);
      past' := past + [st.conn.value];
    }
  }

  ghost predicate Runs(st: State, steps: seq<Step>)
    decreases |steps|
  {
    steps == [] || (Enabled(st, steps[0]) && Runs(Do(st, steps[0]), steps[1..]))
  }

  function After(st: State, steps: seq<Step>): State
    decreases |steps|
  {
    if steps == [] then st else After(Do(st, steps[0]), steps[1..])
  }

  lemma {:induction false} RunInv(st: State, past: seq<nat>, steps: seq<Step>) returns (past': seq<nat>)
    requires Inv(st, past) && Runs(st, steps)
    ensures Inv(After(st, steps), past') && past <= past'
    decreases |steps|
  {
    past' := past;
    if steps != [] {
      past' := StepInv(st, past, steps[0]);
      past' := RunInv(Do(st, steps[0]), past', steps[1..]);
    }
  }

  function Count(log: seq<Act>, a: Act): nat {
    if log == [] then 0 else (if log[0] == a then 1 else 0) + Count(log[1..], a)
  }

  function HookOf(a: Act): seq<bool> {
    if a.ConnectHook? then [true] else if a.DisconnectHook? then [false] else []
  }

  /** The hooks a log fires, in order; true is a connect. */
  function Hooks(log: seq<Act>): seq<bool> {
    if log == [] then [] else HookOf(log[0]) + Hooks(log[1..])
  }

  lemma TwoMore(a: Act, b: Act, rest: seq<Act>, x: Act)
    ensures Count([a, b] + rest, x) == (if a == x then 1 else 0) + (if b == x then 1 else 0) + Count(rest, x)
    ensures Hooks([a, b] + rest) == HookOf(a) + HookOf(b) + Hooks(rest)
  {
  }

  lemma LifeMore(p: nat, rest: seq<Act>, x: Act)
    ensures var log := [Opened(p), ConnectHook, Closed(p), DisconnectHook] + rest;
      && (x.Opened? || x.Closed? ==> Count(log, x) == (if x.c == p then 1 else 0) + Count(rest, x))
      && Hooks(log) == [true, false] + Hooks(rest)
  {
    var mid := [Closed(p), DisconnectHook] + rest;
    TwoMore(Closed(p), DisconnectHook, rest, x);
    TwoMore(Opened(p), ConnectHook, mid, x);
    assert [Opened(p), ConnectHook] + mid == [Opened(p), ConnectHook, Closed(p), DisconnectHook] + rest;
  }

  lemma LastLife(current: Option<nat>, x: Act)
    ensures var log := LogOf([], current);
      && (x.Opened? || x.Closed? ==> Count(log, x) == if x.Opened? && current == Some(x.c) then 1 else 0)
      && Hooks(log) == if current.Some? then [true] else []
  {
    if current.Some? {
      TwoMore(Opened(current.value), ConnectHook, [], x);
      assert [Opened(current.value), ConnectHook] + [] == LogOf([], current);
    }
  }

  lemma {:induction false} CountOfLog(past: seq<nat>, current: Option<nat>, c: nat)
    requires Distinct(past, current)
    ensures Count(LogOf(past, current), Opened(c)) == if c in past || current == Some(c) then 1 else 0
    ensures Count(LogOf(past, current), Closed(c)) == if c in past then 1 else 0
  {
    if past == [] {
      LastLife(current, Opened(c));
      LastLife(current, Closed(c));
    } else {
      var rest := LogOf(past[1..], current);
      CountOfLog(past[1..], current, c);
      LifeMore(past[0], rest, Opened(c));
      LifeMore(past[0], rest, Closed(c));
    }
  }

  /** Connects and disconnects take turns, a connect first. */
  ghost predicate Alternate(h: seq<bool>, first: bool) {
    h == [] || (h[0] == first && Alternate(h[1..], !first))
  }

  lemma {:induction false} HooksOfLog(past: seq<nat>, current: Option<nat>)
    ensures var h := Hooks(LogOf(past, current));
      Alternate(h, true) && (current.Some? <==> h != [] && h[|h| - 1])
  {
    if past == [] {
      LastLife(current, ConnectHook);
    } else {
      HooksOfLog(past[1..], current);
      LifeMore(past[0], LogOf(past[1..], current), ConnectHook);
      PairFirst(Hooks(LogOf(past[1..], current)));
    }
  }

  lemma PairFirst(h: seq<bool>)
    requires Alternate(h, true)
    ensures Alternate([true, false] + h, true)
    ensures h != [] ==> ([true, false] + h)[|h| + 1] == h[|h| - 1]
  {
  }

  /** In every run: each connection is opened at most once and closed at most once, the
      only one opened and not closed is the current one, and connect and disconnect
      hooks alternate, beginning with a connect; the last one tells whether a
      connection is held. */
  lemma {:induction false} EveryRun(steps: seq<Step>, c: nat)
    requires Runs(INIT, steps)
    ensures var st := After(INIT, steps);
      && Count(st.log, Closed(c)) <= Count(st.log, Opened(c)) <= 1
      && (Count(st.log, Closed(c)) < Count(st.log, Opened(c)) <==> st.conn == Some(c))
      && Alternate(Hooks(st.log), true)
      && (st.conn.Some? <==> Hooks(st.log) != [] && Hooks(st.log)[|Hooks(st.log)| - 1])
  {
    var past := RunInv(INIT, [], steps);
    var st := After(INIT, steps);
    CountOfLog(past, st.conn, c);
    HooksOfLog(past, st.conn);
  }

  /** Once closed, no connection is open and nothing is opened, closed or fired again. */
  lemma {:induction false} ClosedForGood(st: State, past: seq<nat>, steps: seq<Step>)
    requires Inv(st, past) && st.closed && Runs(st, steps)
    ensures After(st, steps) == st && st.conn.None?
    decreases |steps|
  {
    if steps != [] {
      ClosedForGood(st, past, steps[1..]);
    }
  }

  /** A connection that was closed never becomes current again, so a Reset by a caller
      that still holds it changes nothing, however late it comes. */
  lemma {:induction false} StaleResetIsHarmless(steps: seq<Step>, later: seq<Step>, c: nat)
    requires Runs(INIT, steps) && Runs(After(INIT, steps), later)
    requires Closed(c) in After(INIT, steps).log
    ensures var st := After(After(INIT, steps), later);
      st.conn != Some(c) && Do(st, Reset(Some(c))) == st
  {
    var past := RunInv(INIT, [], steps);
    var mid := After(INIT, steps);
    LogMembers(past, mid.conn, c);
    var past' := RunInv(mid, past, later);
    var i :| 0 <= i < |past| && past[i] == c;
    assert past'[i] == c;
  }

  // ------------------------------------------------------------------
  // What a run opens and closes, step by step
  // ------------------------------------------------------------------

  lemma {:induction false} AfterSnoc(st: State, steps: seq<Step>, step: Step)
    ensures After(st, steps + [step]) == Do(After(st, steps), step)
    ensures Runs(st, steps + [step]) <==> Runs(st, steps) && Enabled(After(st, steps), step)
    decreases |steps|
  {
    if steps == [] {
      assert [] + [step] == [step] && [step][1..] == [];
    } else {
      assert (steps + [step])[1..] == steps[1..] + [step];
      AfterSnoc(Do(st, steps[0]), steps[1..], step);
    }
  }

  /** Step k finds the transport open and unconnected, and the dialler returns c. */
  ghost predicate OpensAt(steps: seq<Step>, k: nat, c: nat) {
    && k < |steps| && steps[k] == Conn(Some(c))
    && !After(INIT, steps[..k]).closed && After(INIT, steps[..k]).conn.None?
  }

  /** Step k finds c current and resets it or closes the transport. */
  ghost predicate ClosesAt(steps: seq<Step>, k: nat, c: nat) {
    k < |steps| && After(INIT, steps[..k]).conn == Some(c) && (steps[k] == Reset(Some(c)) || steps[k] == Close)
  }

  /** What one more step adds. */
  lemma OneMoreStep(steps: seq<Step>, step: Step, c: nat)
    ensures (exists k: nat :: OpensAt(steps + [step], k, c)) <==> (exists k: nat :: OpensAt(steps, k, c)) || OpensAt(steps + [step], |steps|, c)
    ensures (exists k: nat :: ClosesAt(steps + [step], k, c)) <==> (exists k: nat :: ClosesAt(steps, k, c)) || ClosesAt(steps + [step], |steps|, c)
  {
    var all := steps + [step];
    assert forall k | 0 <= k < |steps| :: all[k] == steps[k] && all[..k] == steps[..k];
    if k: nat :| OpensAt(steps, k, c) { assert OpensAt(all, k, c); }
    if k: nat :| k != |steps| && OpensAt(all, k, c) { assert OpensAt(steps, k, c); }
    if k: nat :| ClosesAt(steps, k, c) { assert ClosesAt(all, k, c); }
    if k: nat :| k != |steps| && ClosesAt(all, k, c) { assert ClosesAt(steps, k, c); }
  }

  lemma StepLog(st: State, step: Step, c: nat)
    requires st.closed ==> st.conn.None?
    ensures Opened(c) in Do(st, step).log <==> Opened(c) in st.log || (step == Conn(Some(c)) && !st.closed && st.conn.None?)
    ensures Closed(c) in Do(st, step).log <==> Closed(c) in st.log || (st.conn == Some(c) && (step == Reset(Some(c)) || step == Close))
    ensures Do(st, step).closed <==> st.closed || step == Close
  {
  }

  /** In every run: a connection was opened if and only if some Conn that found the
      transport open and unconnected dialled it; it was closed if and only if a Reset that
      named it, or Close, found it current; and the transport is closed if and only if
      Close was called. */
  lemma {:induction false} LogIsExact(steps: seq<Step>, c: nat)
    requires Runs(INIT, steps)
    ensures Opened(c) in After(INIT, steps).log <==> exists k: nat :: OpensAt(steps, k, c)
    ensures Closed(c) in After(INIT, steps).log <==> exists k: nat :: ClosesAt(steps, k, c)
    ensures After(INIT, steps).closed <==> Close in steps
    decreases |steps|
  {
    if steps != [] {
      var n := |steps| - 1;
      var before, step := steps[..n], steps[n];
      assert steps == before + [step];
      AfterSnoc(INIT, before, step);
      LogIsExact(before, c);
      var past := RunInv(INIT, [], before);
      StepLog(After(INIT, before), step, c);
      OneMoreStep(before, step, c);
    }
  }
}
