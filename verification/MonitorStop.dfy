/** What stopping does (monitor/monitor.go): a subscription that was stopped, or a monitor
    that is closing, lets its goroutines go, and no event begun after that reaches anyone. */
module MonitorStop {
  import opened Monitor
  import opened MonitorOrder

  // ------------------------------------------------------------------
  // Stopped subscriptions may leave
  // ------------------------------------------------------------------

  /** Goroutines stay, and once asked to stop they stay asked. */
  predicate StaysAsked(st: State, st': State) {
    |st.loops| <= |st'.loops| && forall l | 0 <= l < |st.loops| && st.loops[l].stopAsked :: st'.loops[l].stopAsked
  }

  predicate Emits(step: Step) { step.EmitBegin? || step.Lock? || step.Deliver? || step.Unlock? || step.EmitEnd? || step.Exit? }

  lemma EmitStaysAsked(st: State, step: Step)
    requires Enabled(st, step) && Emits(step)
    ensures StaysAsked(st, Do(st, step)) && Do(st, step).stopped == st.stopped
  {
  }

  lemma OtherStaysAsked(st: State, step: Step)
    requires Enabled(st, step) && !Emits(step)
    ensures StaysAsked(st, Do(st, step)) && (st.stopped ==> Do(st, step).stopped)
  {
  }

  lemma StepStaysAsked(st: State, step: Step)
    requires Enabled(st, step)
    ensures StaysAsked(st, Do(st, step)) && (st.stopped ==> Do(st, step).stopped)
  {
    if Emits(step) { EmitStaysAsked(st, step); } else { OtherStaysAsked(st, step); }
  }

  lemma StepAsks(st: State, step: Step)
    requires Safe(st) && Enabled(st, step)
    ensures step.StopAsk? || step.CloseAsk? ==> Do(st, step).loops[step.l].stopAsked
    ensures step.CloseStop? ==> Do(st, step).stopped
    ensures step.StopRemove? ==> step.l !in Do(st, step).table
  {
    if step.StopAsk? || step.CloseAsk? { assert LoopOk(st.loops[step.l]); }
  }

  lemma {:induction false} RunAsks(st: State, steps: seq<Step>, l: nat)
    requires Safe(st) && Runs(st, steps)
    requires (l < |st.loops| && st.loops[l].stopAsked) || StopAsk(l) in steps || CloseAsk(l) in steps
    ensures l < |After(st, steps).loops| && After(st, steps).loops[l].stopAsked
    decreases |steps|
  {
    if steps != [] {
      StepSafe(st, steps[0]);
      StepStaysAsked(st, steps[0]);
      StepAsks(st, steps[0]);
      RunAsks(Do(st, steps[0]), steps[1..], l);
    }
  }

  lemma {:induction false} RunStops(st: State, steps: seq<Step>)
    requires Runs(st, steps) && (st.stopped || CloseStop in steps)
    ensures After(st, steps).stopped
    decreases |steps|
  {
    if steps != [] {
      StepStaysAsked(st, steps[0]);
      RunStops(Do(st, steps[0]), steps[1..]);
    }
  }

  /** In every run, a goroutine whose subscription was stopped, or whose monitor is
      closing, can return as soon as it is not emitting. */
  lemma {:induction false} StoppedCanLeave(size: int, steps: seq<Step>, l: nat)
    requires Runs(Init(size), steps) && l < |After(Init(size), steps).loops|
    requires StopAsk(l) in steps || CloseAsk(l) in steps || CloseStop in steps
    ensures After(Init(size), steps).loops[l].emit.Quiet? ==> Enabled(After(Init(size), steps), Exit(l))
  {
    InitSafe(size);
    if CloseStop in steps { RunStops(Init(size), steps); } else { RunAsks(Init(size), steps, l); }
  }

  // ------------------------------------------------------------------
  // Nothing begun after the stop reaches anyone
  // ------------------------------------------------------------------

  /** The number of events a goroutine had begun; none for one that was not there. */
  function Begun(base: State, l: nat): int { if l < |base.loops| then base.loops[l].count else 0 }

  /** All these events were begun before `base`. */
  ghost predicate AllOld(base: State, es: seq<Event>) { forall i | 0 <= i < |es| :: es[i].n < Begun(base, es[i].source) }

  /** Whoever is emitting began before `base`, and so did all that was offered. */
  ghost predicate Quiescent(base: State, st: State) {
    && st.stopped && |base.loops| <= |st.loops| && |base.subs| <= |st.subs|
    && (forall l | 0 <= l < |st.loops| && !st.loops[l].emit.Quiet? && !st.loops[l].emit.Exited? :: st.loops[l].count <= Begun(base, l))
    && AllOld(base, st.events.offered)
    && (forall s | 0 <= s < |st.subs| :: AllOld(base, st.subs[s].ch.sent))
  }

  /** A goroutine moves on without sending. */
  lemma MoveQuiet(base: State, st: State, l: nat, loop: Loop, st': State)
    requires Quiescent(base, st) && l < |st.loops| && st'.loops == st.loops[l := loop]
    requires !loop.emit.Quiet? && !loop.emit.Exited? ==> loop.count <= Begun(base, l)
    requires st'.stopped && st'.events == st.events && st'.subs == st.subs
    ensures Quiescent(base, st')
  {
  }

  lemma LoopStepQuiet(base: State, st: State, step: Step)
    requires Quiescent(base, st) && Enabled(st, step) && (step.EmitBegin? || step.Lock? || step.Unlock? || step.Exit?)
    ensures Quiescent(base, Do(st, step))
  {
    MoveQuiet(base, st, step.l, Do(st, step).loops[step.l], Do(st, step));
  }

  lemma EmitEndQuiet(base: State, st: State, l: nat, gaveWay: bool)
    requires Quiescent(base, st) && Enabled(st, EmitEnd(l, gaveWay))
    ensures Quiescent(base, Do(st, EmitEnd(l, gaveWay)))
  {
  }

  lemma DeliverQuiet(base: State, st: State, l: nat, s: nat)
    requires Quiescent(base, st) && Enabled(st, Deliver(l, s))
    ensures Quiescent(base, Do(st, Deliver(l, s)))
  {
  }

  lemma SubStepQuiet(base: State, st: State, step: Step)
    requires Quiescent(base, st) && Enabled(st, step)
    requires step.NewSubscriber? || step.Receive? || step.DoneUnregister? || step.DoneClose? || step.CloseSubs?
    ensures Quiescent(base, Do(st, step))
  {
  }

  lemma OtherQuiet(base: State, st: State, step: Step)
    requires Quiescent(base, st) && Enabled(st, step) && !Emits(step)
    requires !(step.NewSubscriber? || step.Receive? || step.DoneUnregister? || step.DoneClose? || step.CloseSubs?)
    ensures Quiescent(base, Do(st, step))
  {
  }

  lemma StepQuiet(base: State, st: State, step: Step)
    requires Quiescent(base, st) && Enabled(st, step)
    ensures Quiescent(base, Do(st, step))
  {
    match step
    case Deliver(l, s) => DeliverQuiet(base, st, l, s);
    case EmitEnd(l, gaveWay) => EmitEndQuiet(base, st, l, gaveWay);
    case EmitBegin(_) => LoopStepQuiet(base, st, step);
    case Lock(_) => LoopStepQuiet(base, st, step);
    case Unlock(_) => LoopStepQuiet(base, st, step);
    case Exit(_) => LoopStepQuiet(base, st, step);
    case NewSubscriber(_) => SubStepQuiet(base, st, step);
    case Receive(_) => SubStepQuiet(base, st, step);
    case DoneUnregister(_) => SubStepQuiet(base, st, step);
    case DoneClose(_) => SubStepQuiet(base, st, step);
    case CloseSubs => SubStepQuiet(base, st, step);
    case _ => OtherQuiet(base, st, step);
  }

  lemma {:induction false} RunQuiet(base: State, st: State, steps: seq<Step>)
    requires Quiescent(base, st) && Runs(st, steps)
    ensures Quiescent(base, After(st, steps))
    decreases |steps|
  {
    if steps != [] {
      StepQuiet(base, st, steps[0]);
      RunQuiet(base, Do(st, steps[0]), steps[1..]);
    }
  }

  lemma {:induction false} StartsQuiet(size: int, steps: seq<Step>)
    requires Runs(Init(size), steps) && After(Init(size), steps).stopped
    ensures Quiescent(After(Init(size), steps), After(Init(size), steps))
  {
    RunInOrder(Init(size), steps);
    var st := After(Init(size), steps);
    var log := st.events.offered;
    forall i | 0 <= i < |log| ensures log[i].n < Begun(st, log[i].source) {
      assert Below(log, log[i].source, LogTop(st.loops[log[i].source]));
    }
    forall s | 0 <= s < |st.subs| ensures AllOld(st, st.subs[s].ch.sent) {
      ReceivedInOrder(size, steps, s);
    }
  }

  /** In every run, once Close has begun, no event that a goroutine begins is ever offered
      to the events channel or sent to a subscriber. */
  lemma {:induction false} NothingNewAfterStop(size: int, steps: seq<Step>, more: seq<Step>, e: Event)
    requires Runs(Init(size), steps) && After(Init(size), steps).stopped && Runs(After(Init(size), steps), more)
    requires e.n >= Begun(After(Init(size), steps), e.source)
    ensures var st := After(After(Init(size), steps), more);
      e !in st.events.offered && forall s | 0 <= s < |st.subs| :: e !in st.subs[s].ch.sent
  {
    var base := After(Init(size), steps);
    StartsQuiet(size, steps);
    RunQuiet(base, base, more);
    var st := After(base, more);
    forall s | 0 <= s < |st.subs| ensures e !in st.subs[s].ch.sent { assert AllOld(base, st.subs[s].ch.sent); }
  }
}
