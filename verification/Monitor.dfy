/** The monitor's subscribe, emit and close protocol (monitor/monitor.go,
    monitor/subscriber.go) as a transition system. A step is one critical section or
    one channel operation; polling goroutines, callers of Subscribe, Stop,
    NewSubscriber and Done, consumers, and the one running Close interleave freely. A
    broadcast holds the read lock over many steps, so steps under the write lock wait for
    it. */
module Monitor {

  /** The n-th event of one subscription. */
  datatype Event = Event(source: nat, n: int)

  /** A buffered channel of events: what was offered to it, what it took, how much of that
      has been received, and how often an offer found it full. */
  datatype Chan = Chan(cap: nat, offered: seq<Event>, sent: seq<Event>, received: nat, full: nat)

  predicate HasRoom(ch: Chan) { |ch.sent| - ch.received < ch.cap }

  /** A non-blocking send. */
  function Offer(ch: Chan, e: Event): Chan {
    if HasRoom(ch) then ch.(offered := ch.offered + [e], sent := ch.sent + [e])
    else ch.(offered := ch.offered + [e], full := ch.full + 1)
  }

  /** Where a polling goroutine stands in emit: outside; past the first stop check;
      broadcasting under the read lock; about to send on the events channel; returned. */
  datatype Emit = Quiet | Checked | Sending(visited: set<nat>) | Tail | Exited

  /** count: events begun so far; the one being emitted is number count - 1. stopAsked and
      doneClosed: the subscription's stop and done channels are closed; stopOnce has fired
      before the former is. */
  datatype Loop = Loop(count: nat, emit: Emit, stopOnce: bool, stopAsked: bool, doneClosed: bool)

  const NEW_LOOP := Loop(0, Quiet, false, false, false)

  /** The event a goroutine is emitting. */
  function Current(loops: seq<Loop>, l: nat): Event
    requires l < |loops|
  {
    Event(l, loops[l].count - 1)
  }

  datatype DoneStage = NotCalled | Unregistered | Returned

  /** registered: in the monitor's subscriber table. closed: the channel is closed.
      once: closeOnce has fired. */
  datatype Sub = Sub(registered: bool, closed: bool, once: bool, done: DoneStage, ch: Chan)

  function NewSub(size: int): Sub {
    Sub(true, false, false, NotCalled, Chan(if size <= 0 then 64 else size, [], [], 0, 0))
  }

  /** How far Close has come. */
  datatype Closing = Idle | Stopping | Draining | EventsClosed | Finished

  /** table: the subscriptions; removed: those a Stop has taken out and not yet asked to
      stop; taken: those Close has taken out. locked and unlocked: when the broadcast of an event took and released the read lock,
      by a clock that counts these moments. panicked: some goroutine sent on, or closed, a
      closed channel. */
  datatype State = State(
    stopped: bool, closed: bool, closing: Closing, table: set<nat>, removed: set<nat>, taken: set<nat>, wg: int,
    loops: seq<Loop>, subs: seq<Sub>, events: Chan, eventsClosed: bool,
    locked: map<Event, nat>, unlocked: map<Event, nat>, clock: nat, panicked: bool)

  /** The events buffer of a monitor, at least one. */
  function Buffer(size: int): nat { if size <= 0 then 1 else size }

  /** A fresh monitor with the given event buffer. */
  function Init(size: int): State {
    State(false, false, Idle, {}, {}, {}, 0, [], [], Chan(Buffer(size), [], [], 0, 0), false, map[], map[], 0, false)
  }

  datatype Step =
    | Subscribe
    | StopRemove(l: nat)
    | StopAsk(l: nat)
    | NewSubscriber(size: int)
    | EmitBegin(l: nat)
    | Lock(l: nat)
    | Deliver(l: nat, s: nat)
    | Unlock(l: nat)
    | EmitEnd(l: nat, gaveWay: bool)  // gaveWay: the select took the stop branch
    | Exit(l: nat)
    | Receive(s: nat)
    | ReceiveEvent
    | DoneUnregister(s: nat)
    | DoneClose(s: nat)
    | CloseStop
    | CloseTake
    | CloseAsk(l: nat)
    | CloseEvents
    | CloseSubs

  /** No goroutine holds the read lock. */
  ghost predicate NoReaders(st: State) {
    forall l | 0 <= l < |st.loops| :: !st.loops[l].emit.Sending?
  }

  ghost predicate Enabled(st: State, step: Step) {
    match step
    case Subscribe => true
    case StopRemove(l) => l in st.table && l < |st.loops|
    case StopAsk(l) => l in st.removed && l < |st.loops|
    case NewSubscriber(_) => NoReaders(st)
    case EmitBegin(l) => l < |st.loops| && st.loops[l].emit.Quiet?
    case Lock(l) => l < |st.loops| && st.loops[l].emit.Checked?
    case Deliver(l, s) => l < |st.loops| && st.loops[l].emit.Sending? && s < |st.subs|
                       && st.subs[s].registered && s !in st.loops[l].emit.visited
    case Unlock(l) => l < |st.loops| && st.loops[l].emit.Sending?
                   && forall s | 0 <= s < |st.subs| && st.subs[s].registered :: s in st.loops[l].emit.visited
    case EmitEnd(l, gaveWay) => l < |st.loops| && st.loops[l].emit.Tail?
                             && (if gaveWay then st.stopped else st.stopped ==> HasRoom(st.events))
    case Exit(l) => l < |st.loops| && st.loops[l].emit.Quiet? && (st.stopped || st.loops[l].stopAsked)
    case Receive(s) => s < |st.subs| && st.subs[s].ch.received < |st.subs[s].ch.sent|
    case ReceiveEvent => st.events.received < |st.events.sent|
    case DoneUnregister(s) => s < |st.subs| && st.subs[s].done.NotCalled? && NoReaders(st)
    case DoneClose(s) => s < |st.subs| && st.subs[s].done.Unregistered?
    case CloseStop => st.closing.Idle?
    case CloseTake => st.closing.Stopping?
    case CloseAsk(l) => st.closing.Draining? && l in st.taken && l < |st.loops|
    case CloseEvents => st.closing.Draining? && st.wg == 0
    case CloseSubs => st.closing.EventsClosed? && NoReaders(st)
  }

  function SetEmit(st: State, l: nat, e: Emit): State
    requires l < |st.loops|
  {
    st.(loops := st.loops[l := st.loops[l].(emit := e)])
  }

  /** subscription.stop: closes its stop channel, through stopOnce. */
  function Ask(st: State, l: nat): State
    requires l < |st.loops|
  {
    if st.loops[l].stopOnce then st
    else st.(loops := st.loops[l := st.loops[l].(stopOnce := true, stopAsked := true)],
             panicked := st.panicked || st.loops[l].stopAsked)
  }

  /** closeCh: closes the channel, through closeOnce. */
  function CloseCh(sub: Sub): Sub { if sub.once then sub else sub.(once := true, closed := true) }

  predicate ClosesTwice(sub: Sub) { !sub.once && sub.closed }

  function CloseRegistered(sub: Sub): Sub {
    if sub.registered then CloseCh(sub).(registered := false) else sub
  }

  function Do(st: State, step: Step): State
    requires Enabled(st, step)
  {
    match step
    case Subscribe =>
      if st.closed then st
      else st.(table := st.table + {|st.loops|}, wg := st.wg + 1, loops := st.loops + [NEW_LOOP])
    case StopRemove(l) => st.(table := st.table - {l}, removed := st.removed + {l})
    case StopAsk(l) => Ask(st, l).(removed := st.removed - {l})
    case NewSubscriber(size) => if st.stopped then st else st.(subs := st.subs + [NewSub(size)])
    case EmitBegin(l) =>
      st.(loops := st.loops[l := st.loops[l].(count := st.loops[l].count + 1, emit := if st.stopped then Quiet else Checked)])
    case Lock(l) =>
      SetEmit(st, l, Sending({})).(locked := st.locked[Current(st.loops, l) := st.clock], clock := st.clock + 1)
    case Deliver(l, s) =>
      SetEmit(st, l, Sending(st.loops[l].emit.visited + {s})).(
        subs := st.subs[s := st.subs[s].(ch := Offer(st.subs[s].ch, Current(st.loops, l)))],
        panicked := st.panicked || st.subs[s].closed)
    case Unlock(l) =>
      SetEmit(st, l, Tail).(unlocked := st.unlocked[Current(st.loops, l) := st.clock], clock := st.clock + 1)
    case EmitEnd(l, gaveWay) =>
      if gaveWay then SetEmit(st, l, Quiet)
      else SetEmit(st, l, Quiet).(events := Offer(st.events, Current(st.loops, l)), panicked := st.panicked || st.eventsClosed)
    case Exit(l) =>
      st.(loops := st.loops[l := st.loops[l].(emit := Exited, doneClosed := true)], wg := st.wg - 1,
          panicked := st.panicked || st.loops[l].doneClosed)
    case Receive(s) =>
      st.(subs := st.subs[s := st.subs[s].(ch := st.subs[s].ch.(received := st.subs[s].ch.received + 1))])
    case ReceiveEvent => st.(events := st.events.(received := st.events.received + 1))
    case DoneUnregister(s) => st.(subs := st.subs[s := st.subs[s].(registered := false, done := Unregistered)])
    case DoneClose(s) =>
      st.(subs := st.subs[s := CloseCh(st.subs[s]).(done := Returned)],
          panicked := st.panicked || ClosesTwice(st.subs[s]))
    case CloseStop => st.(stopped := true, closing := Stopping, panicked := st.panicked || st.stopped)
    case CloseTake => st.(closed := true, closing := Draining, taken := st.table, table := {})
    case CloseAsk(l) => Ask(st, l)
    case CloseEvents => st.(closing := EventsClosed, eventsClosed := true, panicked := st.panicked || st.eventsClosed)
    case CloseSubs =>
      st.(closing := Finished,
          subs := seq(|st.subs|, s requires 0 <= s < |st.subs| => CloseRegistered(st.subs[s])),
          panicked := st.panicked || exists s | 0 <= s < |st.subs| :: st.subs[s].registered && ClosesTwice(st.subs[s]))
  }

  /** The goroutines the wait group still counts. */
  ghost function Live(loops: seq<Loop>): set<nat> {
    set l: nat | l < |loops| && !loops[l].emit.Exited?
  }

  /** The buffer is never exceeded, and what was offered and not taken found it full. */
  ghost predicate ChanOk(ch: Chan) {
    && 1 <= ch.cap && ch.received <= |ch.sent| <= ch.received + ch.cap
    && |ch.offered| == |ch.sent| + ch.full
    && (ch.full == 0 ==> ch.sent == ch.offered)
  }

  ghost predicate SubOk(sub: Sub) {
    && (sub.once <==> sub.closed)
    && (sub.registered ==> !sub.closed && sub.done.NotCalled?)
    && (!sub.registered ==> sub.closed || sub.done.Unregistered?)
    && ChanOk(sub.ch)
  }

  ghost predicate PhaseOk(st: State) {
    && (st.stopped <==> !st.closing.Idle?)
    && (st.closed <==> st.closing.Draining? || st.closing.EventsClosed? || st.closing.Finished?)
    && (st.eventsClosed <==> st.closing.EventsClosed? || st.closing.Finished?)
    && ChanOk(st.events)
  }

  predicate LoopOk(loop: Loop) { (loop.stopOnce <==> loop.stopAsked) && (loop.doneClosed <==> loop.emit.Exited?) }

  ghost predicate LoopsOk(loops: seq<Loop>, wg: int, eventsClosed: bool) {
    && wg == |Live(loops)|
    && (forall l | 0 <= l < |loops| :: LoopOk(loops[l]))
    && (eventsClosed ==> forall l | 0 <= l < |loops| :: loops[l].emit.Exited?)
  }

  ghost predicate SubsOk(subs: seq<Sub>, finished: bool) {
    && (forall s | 0 <= s < |subs| :: SubOk(subs[s]))
    && (finished ==> forall s | 0 <= s < |subs| :: !subs[s].registered)
  }

  /** Every channel is open while it can still be sent on, and closed once. */
  ghost predicate Safe(st: State) {
    && !st.panicked
    && PhaseOk(st)
    && LoopsOk(st.loops, st.wg, st.eventsClosed)
    && SubsOk(st.subs, st.closing.Finished?)
  }

  lemma OfferOk(ch: Chan, e: Event)
    requires ChanOk(ch)
    ensures ChanOk(Offer(ch, e))
  {
  }

  /** One goroutine moves on, still running. */
  lemma LoopMoved(loops: seq<Loop>, wg: int, eventsClosed: bool, l: nat, loop: Loop)
    requires LoopsOk(loops, wg, eventsClosed) && l < |loops| && LoopOk(loop) && loop.emit.Exited? == loops[l].emit.Exited?
    ensures LoopsOk(loops[l := loop], wg, eventsClosed)
  {
    assert Live(loops[l := loop]) == Live(loops);
  }

  lemma LoopAdded(loops: seq<Loop>, wg: int)
    requires LoopsOk(loops, wg, false)
    ensures LoopsOk(loops + [NEW_LOOP], wg + 1, false)
  {
    assert Live(loops + [NEW_LOOP]) == Live(loops) + {|loops|};
  }

  lemma LoopReturned(loops: seq<Loop>, wg: int, eventsClosed: bool, l: nat, loop: Loop)
    requires LoopsOk(loops, wg, eventsClosed) && l < |loops| && !loops[l].emit.Exited? && loop.emit.Exited? && LoopOk(loop)
    ensures LoopsOk(loops[l := loop], wg - 1, eventsClosed)
  {
    assert Live(loops[l := loop]) == Live(loops) - {l};
  }

  /** When the wait group is down to zero, every goroutine has returned. */
  lemma NoneLive(loops: seq<Loop>, wg: int, eventsClosed: bool)
    requires LoopsOk(loops, wg, eventsClosed) && wg == 0
    ensures LoopsOk(loops, wg, true)
  {
    assert Live(loops) == {};
    forall l | 0 <= l < |loops| ensures loops[l].emit.Exited? {
      assert l !in Live(loops);
    }
  }

  lemma SubMoved(subs: seq<Sub>, finished: bool, s: nat, sub: Sub)
    requires SubsOk(subs, finished) && s < |subs| && SubOk(sub) && (sub.registered ==> subs[s].registered)
    ensures SubsOk(subs[s := sub], finished)
  {
  }

  /** Steps of the polling goroutines. */
  lemma EmitSafe(st: State, step: Step)
    requires Safe(st) && Enabled(st, step)
    requires step.EmitBegin? || step.Lock? || step.Unlock? || step.EmitEnd? || step.Exit?
    ensures Safe(Do(st, step))
  {
    var l, st' := step.l, Do(st, step);
    assert LoopOk(st.loops[l]);
    OfferOk(st.events, Current(st.loops, l));
    if step.Exit? {
      LoopReturned(st.loops, st.wg, st.eventsClosed, l, st'.loops[l]);
    } else {
      LoopMoved(st.loops, st.wg, st.eventsClosed, l, st'.loops[l]);
    }
  }

  lemma DeliverSafe(st: State, l: nat, s: nat)
    requires Safe(st) && Enabled(st, Deliver(l, s))
    ensures Safe(Do(st, Deliver(l, s)))
  {
    var st' := Do(st, Deliver(l, s));
    assert LoopOk(st.loops[l]) && SubOk(st.subs[s]);
    OfferOk(st.subs[s].ch, Current(st.loops, l));
    LoopMoved(st.loops, st.wg, st.eventsClosed, l, st'.loops[l]);
    SubMoved(st.subs, st.closing.Finished?, s, st'.subs[s]);
  }

  /** Steps of subscribers and consumers. */
  lemma SubSafe(st: State, step: Step)
    requires Safe(st) && Enabled(st, step) && (step.Receive? || step.DoneUnregister? || step.DoneClose?)
    ensures Safe(Do(st, step))
  {
    assert SubOk(st.subs[step.s]);
    SubMoved(st.subs, st.closing.Finished?, step.s, Do(st, step).subs[step.s]);
  }

  lemma AskSafe(st: State, l: nat)
    requires Safe(st) && l < |st.loops|
    ensures Safe(Ask(st, l))
  {
    assert LoopOk(st.loops[l]);
    if !st.loops[l].stopOnce {
      LoopMoved(st.loops, st.wg, st.eventsClosed, l, Ask(st, l).loops[l]);
    }
  }

  lemma SubscribeSafe(st: State)
    requires Safe(st)
    ensures Safe(Do(st, Subscribe))
  {
    if !st.closed { LoopAdded(st.loops, st.wg); }
  }

  lemma CloseSubsSafe(st: State)
    requires Safe(st) && Enabled(st, CloseSubs)
    ensures Safe(Do(st, CloseSubs))
  {
    var subs := Do(st, CloseSubs).subs;
    forall s | 0 <= s < |subs| ensures SubOk(subs[s]) && !subs[s].registered { assert SubOk(st.subs[s]); }
  }

  lemma StepSafe(st: State, step: Step)
    requires Safe(st) && Enabled(st, step)
    ensures Safe(Do(st, step))
  {
    match step
    case Subscribe => SubscribeSafe(st);
    case StopAsk(l) => AskSafe(st, l);
    case CloseAsk(l) => AskSafe(st, l);
    case Deliver(l, s) => DeliverSafe(st, l, s);
    case EmitBegin(_) => EmitSafe(st, step);
    case Lock(_) => EmitSafe(st, step);
    case Unlock(_) => EmitSafe(st, step);
    case EmitEnd(_, _) => EmitSafe(st, step);
    case Exit(_) => EmitSafe(st, step);
    case Receive(_) => SubSafe(st, step);
    case DoneUnregister(_) => SubSafe(st, step);
    case DoneClose(_) => SubSafe(st, step);
    case CloseEvents => NoneLive(st.loops, st.wg, st.eventsClosed);
    case CloseSubs => CloseSubsSafe(st);
    case _ =>
  }

  // -- whole runs

  ghost predicate Runs(st: State, steps: seq<Step>)
    decreases |steps|
  {
    steps == [] || (Enabled(st, steps[0]) && Runs(Do(st, steps[0]), steps[1..]))
  }

  ghost function After(st: State, steps: seq<Step>): State
    requires Runs(st, steps)
    decreases |steps|
  {
    if steps == [] then st else After(Do(st, steps[0]), steps[1..])
  }

  lemma {:induction false} Prepend(st: State, step: Step, rest: seq<Step>)
    requires Enabled(st, step) && Runs(Do(st, step), rest)
    ensures Runs(st, [step] + rest) && After(st, [step] + rest) == After(Do(st, step), rest)
  {
    assert ([step] + rest)[1..] == rest;
  }

  lemma InitSafe(size: int)
    ensures Safe(Init(size))
  {
    assert Live([]) == {};
  }

  lemma {:induction false} RunSafe(st: State, steps: seq<Step>)
    requires Safe(st) && Runs(st, steps)
    ensures Safe(After(st, steps))
    decreases |steps|
  {
    if steps != [] {
      StepSafe(st, steps[0]);
      RunSafe(Do(st, steps[0]), steps[1..]);
    }
  }

  lemma {:induction false} Reached(size: int, steps: seq<Step>)
    requires Runs(Init(size), steps)
    ensures Safe(After(Init(size), steps))
  {
    InitSafe(size);
    RunSafe(Init(size), steps);
  }

  /** In every interleaving, nothing is ever sent on a closed channel and no channel, a
      subscriber's, a subscription's or the monitor's own, is closed twice. */
  lemma {:induction false} NeverPanics(size: int, steps: seq<Step>)
    requires Runs(Init(size), steps)
    ensures !After(Init(size), steps).panicked
  {
    Reached(size, steps);
  }

  /** Once Close has returned, every goroutine has returned, the events channel is
      closed and every subscriber's channel is closed, or its Done is about to close it. */
  lemma {:induction false} CloseLeavesNothingOpen(size: int, steps: seq<Step>)
    requires Runs(Init(size), steps) && After(Init(size), steps).closing.Finished?
    ensures var st := After(Init(size), steps);
      && st.eventsClosed && st.wg == 0 && st.table == {}
      && (forall l | 0 <= l < |st.loops| :: st.loops[l].emit.Exited? && st.loops[l].doneClosed)
      && (forall s | 0 <= s < |st.subs| :: st.subs[s].closed || st.subs[s].done.Unregistered?)
  {
    Reached(size, steps);
    var st := After(Init(size), steps);
    assert Live(st.loops) == {};
    forall s | 0 <= s < |st.subs| ensures st.subs[s].closed || st.subs[s].done.Unregistered? { assert SubOk(st.subs[s]); }
    forall l | 0 <= l < |st.loops| ensures st.loops[l].doneClosed { assert LoopOk(st.loops[l]); }
    InitSafe(size);
    RunTable(Init(size), steps);
  }

  lemma StepTable(st: State, step: Step)
    requires PhaseOk(st) && Enabled(st, step) && (st.closed ==> st.table == {})
    ensures Do(st, step).closed ==> Do(st, step).table == {}
  {
  }

  /** After Close has marked the monitor closed, the subscription table stays empty. */
  lemma {:induction false} RunTable(st: State, steps: seq<Step>)
    requires Safe(st) && Runs(st, steps) && (st.closed ==> st.table == {})
    ensures After(st, steps).closed ==> After(st, steps).table == {}
    decreases |steps|
  {
    if steps != [] {
      StepSafe(st, steps[0]);
      StepTable(st, steps[0]);
      RunTable(Do(st, steps[0]), steps[1..]);
    }
  }

  /** Nothing was offered to any channel, and no subscription or subscriber added. */
  ghost predicate NothingNew(st: State, st': State) {
    && st'.events.offered == st.events.offered && |st'.subs| == |st.subs| && |st'.loops| == |st.loops|
    && forall s | 0 <= s < |st.subs| :: st'.subs[s].ch.offered == st.subs[s].ch.offered
  }

  lemma ClosedStep(st: State, step: Step)
    requires Safe(st) && st.closing.Finished? && Enabled(st, step)
    ensures Do(st, step).closing.Finished? && NothingNew(st, Do(st, step))
  {
  }

  /** After Close nothing more is offered to any channel, and no subscription or
      subscriber is added. */
  lemma {:induction false} SilentAfterClose(st: State, steps: seq<Step>)
    requires Safe(st) && st.closing.Finished? && Runs(st, steps)
    ensures NothingNew(st, After(st, steps))
    decreases |steps|
  {
    if steps != [] {
      StepSafe(st, steps[0]);
      ClosedStep(st, steps[0]);
      SilentAfterClose(Do(st, steps[0]), steps[1..]);
    }
  }

  // -- what gets lost

  /** In every run: a channel holds at most its capacity unreceived, it lost exactly as
      many offered events as found it full, and lost none if and only if it took all. */
  lemma {:induction false} LostOnlyWhenFull(size: int, steps: seq<Step>, s: nat)
    requires Runs(Init(size), steps) && s < |After(Init(size), steps).subs|
    ensures var st := After(Init(size), steps);
      var ch := st.subs[s].ch;
      && |ch.sent| - ch.received <= ch.cap && |ch.offered| - |ch.sent| == ch.full && (ch.full == 0 <==> ch.sent == ch.offered)
      && |st.events.offered| - |st.events.sent| == st.events.full && (st.events.full == 0 <==> st.events.sent == st.events.offered)
  {
    Reached(size, steps);
    assert SubOk(After(Init(size), steps).subs[s]);
  }
}
