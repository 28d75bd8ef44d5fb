/** In which order the monitor's events arrive, and which arrive at all. */
module MonitorOrder {
  import opened Monitor

  /** Events of one source appear in the order of their numbers, none twice. */
  ghost predicate Ordered(es: seq<Event>) {
    forall i, j | 0 <= i < j < |es| && es[i].source == es[j].source :: es[i].n < es[j].n
  }

  /** The numbers below `top` of a source may already be in the channel. */
  ghost predicate Below(es: seq<Event>, source: nat, top: int) {
    forall i | 0 <= i < |es| && es[i].source == source :: es[i].n < top
  }

  ghost predicate Sources(es: seq<Event>, n: nat) {
    forall i | 0 <= i < |es| :: es[i].source < n
  }

  /** The first number of this loop that the channel of subscriber s cannot hold yet. */
  function Top(loop: Loop, s: nat): int {
    if loop.emit.Checked? || (loop.emit.Sending? && s !in loop.emit.visited) then loop.count - 1 else loop.count
  }

  /** Likewise for the events channel. */
  function LogTop(loop: Loop): int {
    if loop.emit.Checked? || loop.emit.Sending? || loop.emit.Tail? then loop.count - 1 else loop.count
  }

  ghost predicate GotOk(loops: seq<Loop>, s: nat, got: seq<Event>) {
    Ordered(got) && Sources(got, |loops|) && forall l | 0 <= l < |loops| :: Below(got, l, Top(loops[l], s))
  }

  ghost predicate LogOk(loops: seq<Loop>, log: seq<Event>) {
    Ordered(log) && Sources(log, |loops|) && forall l | 0 <= l < |loops| :: Below(log, l, LogTop(loops[l]))
  }

  ghost predicate SubsInOrder(loops: seq<Loop>, subs: seq<Sub>) {
    forall s | 0 <= s < |subs| :: GotOk(loops, s, subs[s].ch.sent)
  }

  ghost predicate InOrder(st: State) {
    LogOk(st.loops, st.events.sent) && LogOk(st.loops, st.events.offered) && SubsInOrder(st.loops, st.subs)
  }

  /** The next event of a source goes behind all its earlier ones. */
  lemma Appended(es: seq<Event>, e: Event)
    requires Ordered(es) && Below(es, e.source, e.n)
    ensures Ordered(es + [e]) && Below(es + [e], e.source, e.n + 1)
    ensures forall source: nat, top | source != e.source && Below(es, source, top) :: Below(es + [e], source, top)
  {
  }

  /** Moving one loop on keeps what is below its mark, as long as the mark does not fall. */
  lemma LogMoves(loops: seq<Loop>, l: nat, loop: Loop, log: seq<Event>)
    requires l < |loops| && LogOk(loops, log) && LogTop(loops[l]) <= LogTop(loop)
    ensures LogOk(loops[l := loop], log)
  {
  }

  lemma SubsMove(loops: seq<Loop>, subs: seq<Sub>, l: nat, loop: Loop)
    requires SubsInOrder(loops, subs) && l < |loops| && forall s: nat :: Top(loops[l], s) <= Top(loop, s)
    ensures SubsInOrder(loops[l := loop], subs)
  {
    forall s | 0 <= s < |subs| ensures GotOk(loops[l := loop], s, subs[s].ch.sent) {
      assert GotOk(loops, s, subs[s].ch.sent);
    }
  }

  /** A loop moves on and sends nothing. */
  lemma MoveInOrder(st: State, st': State, l: nat, loop: Loop)
    requires InOrder(st) && l < |st.loops| && LogTop(st.loops[l]) <= LogTop(loop)
    requires forall s: nat :: Top(st.loops[l], s) <= Top(loop, s)
    requires st'.loops == st.loops[l := loop] && st'.subs == st.subs && st'.events == st.events
    ensures InOrder(st')
  {
    LogMoves(st.loops, l, loop, st.events.sent);
    LogMoves(st.loops, l, loop, st.events.offered);
    SubsMove(st.loops, st.subs, l, loop);
  }

  lemma LoopStepInOrder(st: State, step: Step)
    requires InOrder(st) && Enabled(st, step) && (step.EmitBegin? || step.Lock? || step.Unlock? || step.Exit?)
    ensures InOrder(Do(st, step))
  {
    MoveInOrder(st, Do(st, step), step.l, Do(st, step).loops[step.l]);
  }

  lemma AskInOrder(st: State, l: nat)
    requires InOrder(st) && l < |st.loops|
    ensures InOrder(Ask(st, l))
  {
    if !st.loops[l].stopOnce { MoveInOrder(st, Ask(st, l), l, Ask(st, l).loops[l]); }
  }

  lemma SubscribeInOrder(st: State)
    requires InOrder(st)
    ensures InOrder(Do(st, Subscribe))
  {
    var st' := Do(st, Subscribe);
    forall s | 0 <= s < |st.subs| ensures GotOk(st'.loops, s, st.subs[s].ch.sent) {
      assert GotOk(st.loops, s, st.subs[s].ch.sent);
    }
  }

  /** The event now broadcast goes behind the earlier ones of its source. */
  lemma SentInOrder(loops: seq<Loop>, l: nat, loop: Loop, s: nat, got: seq<Event>)
    requires l < |loops| && GotOk(loops, s, got) && loops[l].emit.Sending? && s !in loops[l].emit.visited
    requires loop == loops[l].(emit := Sending(loops[l].emit.visited + {s}))
    ensures GotOk(loops[l := loop], s, got) && GotOk(loops[l := loop], s, got + [Current(loops, l)])
  {
    var e, loops' := Current(loops, l), loops[l := loop];
    assert Below(got, l, Top(loops[l], s));
    Appended(got, e);
    forall j | 0 <= j < |loops'| ensures Below(got, j, Top(loops'[j], s)) && Below(got + [e], j, Top(loops'[j], s)) {
      assert Below(got, j, Top(loops[j], s));
    }
  }

  lemma DeliverInOrder(st: State, l: nat, s: nat)
    requires InOrder(st) && Enabled(st, Deliver(l, s))
    ensures InOrder(Do(st, Deliver(l, s)))
  {
    var st' := Do(st, Deliver(l, s));
    var loop := st'.loops[l];
    LogMoves(st.loops, l, loop, st.events.sent);
    LogMoves(st.loops, l, loop, st.events.offered);
    SubsMove(st.loops, st.subs, l, loop);
    assert GotOk(st.loops, s, st.subs[s].ch.sent);
    SentInOrder(st.loops, l, loop, s, st.subs[s].ch.sent);
  }

  lemma LoggedInOrder(loops: seq<Loop>, l: nat, loop: Loop, log: seq<Event>)
    requires l < |loops| && LogOk(loops, log) && loops[l].emit.Tail? && loop == loops[l].(emit := Quiet)
    ensures LogOk(loops[l := loop], log) && LogOk(loops[l := loop], log + [Current(loops, l)])
  {
    var e, loops' := Current(loops, l), loops[l := loop];
    assert Below(log, l, LogTop(loops[l]));
    Appended(log, e);
    forall j | 0 <= j < |loops'| ensures Below(log, j, LogTop(loops'[j])) && Below(log + [e], j, LogTop(loops'[j])) {
      assert Below(log, j, LogTop(loops[j]));
    }
  }

  lemma EmitEndInOrder(st: State, l: nat, gaveWay: bool)
    requires InOrder(st) && Enabled(st, EmitEnd(l, gaveWay))
    ensures InOrder(Do(st, EmitEnd(l, gaveWay)))
  {
    var st' := Do(st, EmitEnd(l, gaveWay));
    LoggedInOrder(st.loops, l, st'.loops[l], st.events.sent);
    LoggedInOrder(st.loops, l, st'.loops[l], st.events.offered);
    SubsMove(st.loops, st.subs, l, st'.loops[l]);
  }

  /** Steps that move no loop and send nothing. */
  lemma OtherInOrder(st: State, step: Step)
    requires InOrder(st) && Enabled(st, step)
    requires step.StopRemove? || step.NewSubscriber? || step.Receive? || step.ReceiveEvent? || step.DoneUnregister? || step.DoneClose?
          || step.CloseStop? || step.CloseTake? || step.CloseEvents? || step.CloseSubs?
    ensures InOrder(Do(st, step))
  {
    var st' := Do(st, step);
    forall s | 0 <= s < |st'.subs| ensures GotOk(st'.loops, s, st'.subs[s].ch.sent) {
      assert s < |st.subs| ==> GotOk(st.loops, s, st.subs[s].ch.sent);
    }
  }

  lemma StepInOrder(st: State, step: Step)
    requires InOrder(st) && Enabled(st, step)
    ensures InOrder(Do(st, step))
  {
    match step
    case Subscribe => SubscribeInOrder(st);
    case StopAsk(l) => AskInOrder(st, l);
    case CloseAsk(l) => AskInOrder(st, l);
    case Deliver(l, s) => DeliverInOrder(st, l, s);
    case EmitEnd(l, gaveWay) => EmitEndInOrder(st, l, gaveWay);
    case EmitBegin(_) => LoopStepInOrder(st, step);
    case Lock(_) => LoopStepInOrder(st, step);
    case Unlock(_) => LoopStepInOrder(st, step);
    case Exit(_) => LoopStepInOrder(st, step);
    case _ => OtherInOrder(st, step);
  }

  lemma {:induction false} RunInOrder(st: State, steps: seq<Step>)
    requires InOrder(st) && Runs(st, steps)
    ensures InOrder(After(st, steps))
    decreases |steps|
  {
    if steps != [] {
      StepInOrder(st, steps[0]);
      RunInOrder(Do(st, steps[0]), steps[1..]);
    }
  }

  /** Every subscriber's channel, and the events channel, holds for each subscription a
      strictly increasing sequence of the events that subscription has begun to emit. */
  lemma {:induction false} ReceivedInOrder(size: int, steps: seq<Step>, s: nat)
    requires Runs(Init(size), steps) && s < |After(Init(size), steps).subs|
    ensures var st := After(Init(size), steps); var got, log := st.subs[s].ch.sent, st.events.sent;
      && Ordered(got) && Ordered(log)
      && (forall i | 0 <= i < |got| :: got[i].source < |st.loops| && got[i].n < st.loops[got[i].source].count)
      && (forall i | 0 <= i < |log| :: log[i].source < |st.loops| && log[i].n < st.loops[log[i].source].count)
  {
    RunInOrder(Init(size), steps);
    var st := After(Init(size), steps);
    var got, log := st.subs[s].ch.sent, st.events.sent;
    assert GotOk(st.loops, s, got);
    forall i | 0 <= i < |got| ensures got[i].source < |st.loops| && got[i].n < st.loops[got[i].source].count {
      assert Below(got, got[i].source, Top(st.loops[got[i].source], s));
    }
    forall i | 0 <= i < |log| ensures log[i].source < |st.loops| && log[i].n < st.loops[log[i].source].count {
      assert Below(log, log[i].source, LogTop(st.loops[log[i].source]));
    }
  }

  // -- every event reaches the events channel until the monitor stops

  ghost predicate Offered(loops: seq<Loop>, es: seq<Event>) {
    forall l, n: int | 0 <= l < |loops| && 0 <= n < LogTop(loops[l]) :: Event(l, n) in es
  }

  ghost predicate AllOffered(st: State) { !st.stopped ==> Offered(st.loops, st.events.offered) }

  lemma OfferedMoves(loops: seq<Loop>, es: seq<Event>, l: nat, loop: Loop)
    requires Offered(loops, es) && l < |loops| && LogTop(loop) <= LogTop(loops[l])
    ensures Offered(loops[l := loop], es)
  {
  }

  lemma OfferedEnds(loops: seq<Loop>, ch: Chan, l: nat, loop: Loop)
    requires Offered(loops, ch.offered) && l < |loops| && loops[l].emit.Tail? && loop == loops[l].(emit := Quiet)
    ensures Offered(loops[l := loop], Offer(ch, Current(loops, l)).offered)
  {
    var e := Current(loops, l);
    assert forall f | f in ch.offered :: f in ch.offered + [e];
    assert (ch.offered + [e])[|ch.offered|] == e;
  }

  lemma LoopStepOffered(st: State, step: Step)
    requires AllOffered(st) && Enabled(st, step) && (step.EmitBegin? || step.Lock? || step.Deliver? || step.Unlock? || step.Exit?)
    ensures AllOffered(Do(st, step))
  {
    if !st.stopped { OfferedMoves(st.loops, st.events.offered, step.l, Do(st, step).loops[step.l]); }
  }

  lemma AskOffered(st: State, l: nat)
    requires AllOffered(st) && l < |st.loops|
    ensures AllOffered(Ask(st, l))
  {
    if !st.stopped { OfferedMoves(st.loops, st.events.offered, l, Ask(st, l).loops[l]); }
  }

  lemma StepAllOffered(st: State, step: Step)
    requires AllOffered(st) && Enabled(st, step)
    ensures AllOffered(Do(st, step))
  {
    match step
    case EmitEnd(l, _) => if !st.stopped { OfferedEnds(st.loops, st.events, l, Do(st, step).loops[l]); }
    case StopAsk(l) => AskOffered(st, l);
    case CloseAsk(l) => AskOffered(st, l);
    case EmitBegin(_) => LoopStepOffered(st, step);
    case Lock(_) => LoopStepOffered(st, step);
    case Deliver(_, _) => LoopStepOffered(st, step);
    case Unlock(_) => LoopStepOffered(st, step);
    case Exit(_) => LoopStepOffered(st, step);
    case _ =>
  }

  lemma {:induction false} RunAllOffered(st: State, steps: seq<Step>)
    requires AllOffered(st) && Runs(st, steps)
    ensures AllOffered(After(st, steps))
    decreases |steps|
  {
    if steps != [] {
      StepAllOffered(st, steps[0]);
      RunAllOffered(Do(st, steps[0]), steps[1..]);
    }
  }

  lemma {:induction false} DistinctFit(a: seq<Event>, b: seq<Event>)
    requires (forall i, j | 0 <= i < j < |a| :: a[i] != a[j]) && forall e | e in a :: e in b
    ensures |a| <= |b|
    decreases |a|
  {
    if a != [] {
      var n := |a| - 1;
      assert a[n] in a;
      var k :| 0 <= k < |b| && b[k] == a[n];
      var b' := b[..k] + b[k + 1..];
      forall e | e in a[..n] ensures e in b' {
        var i :| 0 <= i < n && a[i] == e;
        assert e in a && e != b[k];
        var j :| 0 <= j < |b| && b[j] == e;
        assert e == if j < k then b'[j] else b'[j - 1];
      }
      DistinctFit(a[..n], b');
    }
  }

  /** The events channel carries all it was offered exactly if it took as many. */
  lemma {:induction false} AllTakenIff(size: int, steps: seq<Step>)
    requires Runs(Init(size), steps)
    ensures var ch := After(Init(size), steps).events;
      (forall e | e in ch.offered :: e in ch.sent) <==> |ch.sent| == |ch.offered|
  {
    Reached(size, steps);
    RunInOrder(Init(size), steps);
    var ch := After(Init(size), steps).events;
    assert ChanOk(ch);
    assert forall i, j | 0 <= i < j < |ch.offered| :: ch.offered[i] != ch.offered[j];
    if forall e | e in ch.offered :: e in ch.sent { DistinctFit(ch.offered, ch.sent); }
  }
}
