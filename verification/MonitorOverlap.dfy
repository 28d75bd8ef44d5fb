/** Across subscriptions: broadcasts that do not overlap are seen by all subscribers in
    the same order, and only overlapping ones can be seen in different orders. */
module MonitorOverlap {
  import opened Monitor
  import opened MonitorOrder

  /** Lock times are past, and come before the unlock times. */
  ghost predicate ClockOk(st: State) {
    && (forall e | e in st.locked :: st.locked[e] < st.clock)
    && (forall e | e in st.unlocked :: e in st.locked && st.locked[e] < st.unlocked[e] < st.clock)
  }

  /** Only events already begun have been locked; the one being sent is not unlocked. */
  ghost predicate LocksOk(loops: seq<Loop>, locked: map<Event, nat>, unlocked: map<Event, nat>) {
    && (forall e | e in locked :: e.source < |loops| && e.n < loops[e.source].count)
    && (forall l | 0 <= l < |loops| && loops[l].emit.Checked? :: Current(loops, l) !in locked)
    && (forall l | 0 <= l < |loops| && loops[l].emit.Sending? :: Current(loops, l) in locked && Current(loops, l) !in unlocked)
  }

  /** Whatever stands before an event in a channel was locked before that event was
      unlocked. */
  ghost predicate Timely(got: seq<Event>, locked: map<Event, nat>, unlocked: map<Event, nat>) {
    && (forall i | 0 <= i < |got| :: got[i] in locked)
    && forall i, j | 0 <= i < j < |got| && got[j] in unlocked :: locked[got[i]] < unlocked[got[j]]
  }

  ghost predicate SubsTimely(st: State) {
    forall s | 0 <= s < |st.subs| :: Timely(st.subs[s].ch.sent, st.locked, st.unlocked)
  }

  ghost predicate Timed(st: State) { ClockOk(st) && LocksOk(st.loops, st.locked, st.unlocked) && SubsTimely(st) }

  /** A loop moves on without broadcasting. */
  lemma LocksMove(loops: seq<Loop>, locked: map<Event, nat>, unlocked: map<Event, nat>, l: nat, loop: Loop)
    requires LocksOk(loops, locked, unlocked) && l < |loops|
    requires
      || (loop.emit == loops[l].emit && loop.count == loops[l].count)
      || (loop.emit.Checked? && loop.count == loops[l].count + 1)
      || (loop.count >= loops[l].count && !loop.emit.Checked? && !loop.emit.Sending?)
    ensures LocksOk(loops[l := loop], locked, unlocked)
  {
  }

  lemma TimelyLocked(got: seq<Event>, locked: map<Event, nat>, unlocked: map<Event, nat>, e: Event, t: nat)
    requires Timely(got, locked, unlocked) && e !in locked
    ensures Timely(got, locked[e := t], unlocked)
  {
  }

  lemma TimelyUnlocked(got: seq<Event>, locked: map<Event, nat>, unlocked: map<Event, nat>, e: Event, t: nat)
    requires Timely(got, locked, unlocked) && forall f | f in locked :: locked[f] < t
    ensures Timely(got, locked, unlocked[e := t])
  {
  }

  lemma LockLocks(loops: seq<Loop>, locked: map<Event, nat>, unlocked: map<Event, nat>, l: nat, loop: Loop, t: nat)
    requires LocksOk(loops, locked, unlocked) && l < |loops| && loops[l].emit.Checked?
    requires loop == loops[l].(emit := Sending({})) && (forall e | e in unlocked :: e in locked)
    ensures LocksOk(loops[l := loop], locked[Current(loops, l) := t], unlocked)
  {
  }

  lemma LockTimed(st: State, l: nat)
    requires Timed(st) && Enabled(st, Lock(l))
    ensures Timed(Do(st, Lock(l)))
  {
    var st' := Do(st, Lock(l));
    LockLocks(st.loops, st.locked, st.unlocked, l, st'.loops[l], st.clock);
    forall s | 0 <= s < |st'.subs| ensures Timely(st'.subs[s].ch.sent, st'.locked, st'.unlocked) {
      assert Timely(st.subs[s].ch.sent, st.locked, st.unlocked);
      TimelyLocked(st.subs[s].ch.sent, st.locked, st.unlocked, Current(st.loops, l), st.clock);
    }
  }

  lemma UnlockLocks(loops: seq<Loop>, locked: map<Event, nat>, unlocked: map<Event, nat>, l: nat, loop: Loop, t: nat)
    requires LocksOk(loops, locked, unlocked) && l < |loops| && loop == loops[l].(emit := Tail)
    ensures LocksOk(loops[l := loop], locked, unlocked[Current(loops, l) := t])
  {
  }

  lemma UnlockTimed(st: State, l: nat)
    requires Timed(st) && Enabled(st, Unlock(l))
    ensures Timed(Do(st, Unlock(l)))
  {
    var st' := Do(st, Unlock(l));
    UnlockLocks(st.loops, st.locked, st.unlocked, l, st'.loops[l], st.clock);
    forall s | 0 <= s < |st'.subs| ensures Timely(st'.subs[s].ch.sent, st'.locked, st'.unlocked) {
      assert Timely(st.subs[s].ch.sent, st.locked, st.unlocked);
      TimelyUnlocked(st.subs[s].ch.sent, st.locked, st.unlocked, Current(st.loops, l), st.clock);
    }
  }

  lemma DeliverTimed(st: State, l: nat, s: nat)
    requires Timed(st) && Enabled(st, Deliver(l, s))
    ensures Timed(Do(st, Deliver(l, s)))
  {
    var st' := Do(st, Deliver(l, s));
    assert Timely(st.subs[s].ch.sent, st.locked, st.unlocked);
    TimelyMore(st.subs[s].ch.sent, Current(st.loops, l), st.locked, st.unlocked);
    forall k | 0 <= k < |st'.subs| ensures Timely(st'.subs[k].ch.sent, st.locked, st.unlocked) {
      assert Timely(st.subs[k].ch.sent, st.locked, st.unlocked);
    }
  }

  lemma TimelyMore(got: seq<Event>, e: Event, locked: map<Event, nat>, unlocked: map<Event, nat>)
    requires Timely(got, locked, unlocked) && e in locked && e !in unlocked
    ensures Timely(got + [e], locked, unlocked)
  {
  }

  /** Subscribers' channels receive nothing, and nothing is locked or unlocked. */
  ghost predicate Still(st: State, st': State) {
    && st'.locked == st.locked && st'.unlocked == st.unlocked && st'.clock == st.clock
    && |st.subs| <= |st'.subs|
    && forall s | 0 <= s < |st'.subs| :: st'.subs[s].ch.sent == if s < |st.subs| then st.subs[s].ch.sent else []
  }

  lemma StillTimed(st: State, st': State)
    requires Timed(st) && Still(st, st') && LocksOk(st'.loops, st.locked, st.unlocked)
    ensures Timed(st')
  {
    forall s | 0 <= s < |st'.subs| ensures Timely(st'.subs[s].ch.sent, st'.locked, st'.unlocked) {
      assert s < |st.subs| ==> Timely(st.subs[s].ch.sent, st.locked, st.unlocked);
    }
  }

  lemma LoopStepTimed(st: State, step: Step)
    requires Timed(st) && Enabled(st, step) && (step.EmitBegin? || step.EmitEnd? || step.Exit?)
    ensures Timed(Do(st, step))
  {
    var st' := Do(st, step);
    LocksMove(st.loops, st.locked, st.unlocked, step.l, st'.loops[step.l]);
    StillTimed(st, st');
  }

  lemma AskTimed(st: State, l: nat, st': State)
    requires Timed(st) && l < |st.loops| && st' == Ask(st, l).(removed := st'.removed)
    ensures Timed(st')
  {
    LocksMove(st.loops, st.locked, st.unlocked, l, Ask(st, l).loops[l]);
    assert st'.loops == st.loops || st'.loops == st.loops[l := Ask(st, l).loops[l]];
    StillTimed(st, st');
  }

  lemma SubscribeTimed(st: State)
    requires Timed(st)
    ensures Timed(Do(st, Subscribe))
  {
    StillTimed(st, Do(st, Subscribe));
  }

  lemma CloseSubsTimed(st: State)
    requires Timed(st) && Enabled(st, CloseSubs)
    ensures Timed(Do(st, CloseSubs))
  {
    StillTimed(st, Do(st, CloseSubs));
  }

  lemma SubStepTimed(st: State, step: Step)
    requires Timed(st) && Enabled(st, step) && (step.NewSubscriber? || step.Receive? || step.DoneUnregister? || step.DoneClose?)
    ensures Timed(Do(st, step))
  {
    StillTimed(st, Do(st, step));
  }

  lemma OtherTimed(st: State, step: Step)
    requires Timed(st) && Enabled(st, step) && (step.StopRemove? || step.ReceiveEvent? || step.CloseStop? || step.CloseTake? || step.CloseEvents?)
    ensures Timed(Do(st, step))
  {
    StillTimed(st, Do(st, step));
  }

  lemma StepTimed(st: State, step: Step)
    requires Timed(st) && Enabled(st, step)
    ensures Timed(Do(st, step))
  {
    match step
    case Lock(l) => LockTimed(st, l);
    case Unlock(l) => UnlockTimed(st, l);
    case Deliver(l, s) => DeliverTimed(st, l, s);
    case EmitBegin(_) => LoopStepTimed(st, step);
    case EmitEnd(_, _) => LoopStepTimed(st, step);
    case Exit(_) => LoopStepTimed(st, step);
    case StopAsk(l) => AskTimed(st, l, Do(st, step));
    case CloseAsk(l) => AskTimed(st, l, Do(st, step));
    case Subscribe => SubscribeTimed(st);
    case CloseSubs => CloseSubsTimed(st);
    case NewSubscriber(_) => SubStepTimed(st, step);
    case Receive(_) => SubStepTimed(st, step);
    case DoneUnregister(_) => SubStepTimed(st, step);
    case DoneClose(_) => SubStepTimed(st, step);
    case _ => OtherTimed(st, step);
  }

  lemma {:induction false} RunTimed(st: State, steps: seq<Step>)
    requires Timed(st) && Runs(st, steps)
    ensures Timed(After(st, steps))
    decreases |steps|
  {
    if steps != [] {
      StepTimed(st, steps[0]);
      RunTimed(Do(st, steps[0]), steps[1..]);
    }
  }

  /** In the channel, a stands somewhere before b. */
  ghost predicate Before(got: seq<Event>, a: Event, b: Event) {
    exists i, j | 0 <= i < j < |got| :: got[i] == a && got[j] == b
  }

  /** The broadcast of a was over before that of b began. */
  predicate Precedes(st: State, a: Event, b: Event) {
    a in st.unlocked && b in st.locked && st.unlocked[a] < st.locked[b]
  }

  /** No subscriber sees b before a if a's broadcast was over before b's began. */
  lemma {:induction false} PrecedingComesFirst(size: int, steps: seq<Step>, s: nat, a: Event, b: Event)
    requires Runs(Init(size), steps) && s < |After(Init(size), steps).subs| && Precedes(After(Init(size), steps), a, b)
    ensures !Before(After(Init(size), steps).subs[s].ch.sent, b, a)
  {
    RunTimed(Init(size), steps);
    var st := After(Init(size), steps);
    assert Timely(st.subs[s].ch.sent, st.locked, st.unlocked);
  }

  /** Two subscribers see two events in opposite orders only if these are of different
      subscriptions and their broadcasts overlap. */
  lemma {:induction false} OrdersDifferOnlyInOverlap(size: int, steps: seq<Step>, s: nat, t: nat, a: Event, b: Event)
    requires Runs(Init(size), steps) && s < |After(Init(size), steps).subs| && t < |After(Init(size), steps).subs|
    requires Before(After(Init(size), steps).subs[s].ch.sent, a, b) && Before(After(Init(size), steps).subs[t].ch.sent, b, a)
    ensures a.source != b.source && !Precedes(After(Init(size), steps), a, b) && !Precedes(After(Init(size), steps), b, a)
  {
    PrecedesOrNot(size, steps, s, t, a, b);
    ReceivedInOrder(size, steps, s);
    ReceivedInOrder(size, steps, t);
  }

  lemma {:induction false} PrecedesOrNot(size: int, steps: seq<Step>, s: nat, t: nat, a: Event, b: Event)
    requires Runs(Init(size), steps) && s < |After(Init(size), steps).subs| && t < |After(Init(size), steps).subs|
    requires Before(After(Init(size), steps).subs[s].ch.sent, a, b) && Before(After(Init(size), steps).subs[t].ch.sent, b, a)
    ensures !Precedes(After(Init(size), steps), a, b) && !Precedes(After(Init(size), steps), b, a)
  {
    var st := After(Init(size), steps);
    if Precedes(st, a, b) { PrecedingComesFirst(size, steps, t, a, b); }
    if Precedes(st, b, a) { PrecedingComesFirst(size, steps, s, b, a); }
  }

  // -- and then they can

  function Sent(es: seq<Event>): Sub { NewSub(8).(ch := Chan(8, es, es, 0, 0)) }

  const SENDING := Loop(1, Sending({}), false, false, false)

  /** Two subscriptions and two subscribers, both subscriptions mid-broadcast. */
  const BOTH_SENDING := Init(8).(table := {0, 1}, wg := 2, loops := [SENDING, SENDING], subs := [Sent([]), Sent([])],
    locked := map[Event(0, 0) := 0, Event(1, 0) := 1], clock := 2)

  lemma {:induction false} ReachBothSending(rest: seq<Step>) returns (steps: seq<Step>)
    requires Runs(BOTH_SENDING, rest)
    ensures Runs(Init(8), steps) && After(Init(8), steps) == After(BOTH_SENDING, rest)
  {
    var s1 := Do(Init(8), Subscribe);
    var s2 := Do(s1, Subscribe);
    var s3 := Do(s2, NewSubscriber(8));
    var s4 := Do(s3, NewSubscriber(8));
    assert s4.subs == BOTH_SENDING.subs;
    steps := StartSending(s4, rest);
    Prepend(s3, NewSubscriber(8), steps);
    steps := [NewSubscriber(8)] + steps;
    Prepend(s2, NewSubscriber(8), steps);
    steps := [NewSubscriber(8)] + steps;
    Prepend(s1, Subscribe, steps);
    steps := [Subscribe] + steps;
    Prepend(Init(8), Subscribe, steps);
    steps := [Subscribe] + steps;
  }

  lemma {:induction false} StartSending(s4: State, rest: seq<Step>) returns (steps: seq<Step>)
    requires Runs(BOTH_SENDING, rest)
    requires s4 == BOTH_SENDING.(loops := [NEW_LOOP, NEW_LOOP], locked := map[], clock := 0)
    ensures Runs(s4, steps) && After(s4, steps) == After(BOTH_SENDING, rest)
  {
    var s5 := Do(s4, EmitBegin(0));
    var s6 := Do(s5, EmitBegin(1));
    var s7 := Do(s6, Lock(0));
    assert Do(s7, Lock(1)) == BOTH_SENDING;
    Prepend(s7, Lock(1), rest);
    steps := [Lock(1)] + rest;
    Prepend(s6, Lock(0), steps);
    steps := [Lock(0)] + steps;
    Prepend(s5, EmitBegin(1), steps);
    steps := [EmitBegin(1)] + steps;
    Prepend(s4, EmitBegin(0), steps);
    steps := [EmitBegin(0)] + steps;
  }

  /** Each subscription has served one subscriber, not the same one. */
  const CROSSED := BOTH_SENDING.(
    loops := [SENDING.(emit := Sending({0})), SENDING.(emit := Sending({1}))],
    subs := [Sent([Event(0, 0)]), Sent([Event(1, 0)])])

  lemma {:induction false} ReachCrossed(rest: seq<Step>) returns (steps: seq<Step>)
    requires Runs(CROSSED, rest)
    ensures Runs(BOTH_SENDING, steps) && After(BOTH_SENDING, steps) == After(CROSSED, rest)
  {
    var s1 := Do(BOTH_SENDING, Deliver(0, 0));
    var s2 := Do(s1, Deliver(1, 1));
    assert s2.subs[0].ch.sent == [Event(0, 0)] && s2.subs[1].ch.sent == [Event(1, 0)];
    assert s2.subs[0].ch.offered == [Event(0, 0)] && s2.subs[1].ch.offered == [Event(1, 0)];
    assert s2.loops[0].emit.visited == {0} && s2.loops[1].emit.visited == {1};
    assert s2.loops == CROSSED.loops && s2.subs == CROSSED.subs;
    Prepend(s1, Deliver(1, 1), rest);
    steps := [Deliver(1, 1)] + rest;
    Prepend(BOTH_SENDING, Deliver(0, 0), steps);
    steps := [Deliver(0, 0)] + steps;
  }

  lemma {:induction false} FinishCrossed() returns (steps: seq<Step>)
    ensures Runs(CROSSED, steps) && |After(CROSSED, steps).subs| == 2
    ensures After(CROSSED, steps).subs[0].ch.sent == [Event(0, 0), Event(1, 0)]
    ensures After(CROSSED, steps).subs[1].ch.sent == [Event(1, 0), Event(0, 0)]
  {
    var s1 := Do(CROSSED, Deliver(1, 0));
    Prepend(s1, Deliver(0, 1), []);
    steps := [Deliver(0, 1)] + [];
    Prepend(CROSSED, Deliver(1, 0), steps);
    steps := [Deliver(1, 0)] + steps;
  }

  /** Overlapping broadcasts do arrive in opposite orders: two subscribers receive the
      events of two subscriptions crosswise. */
  lemma {:induction false} NoCommonOrder() returns (steps: seq<Step>)
    ensures Runs(Init(8), steps) && |After(Init(8), steps).subs| == 2
    ensures After(Init(8), steps).subs[0].ch.sent == [Event(0, 0), Event(1, 0)]
    ensures After(Init(8), steps).subs[1].ch.sent == [Event(1, 0), Event(0, 0)]
  {
    steps := FinishCrossed();
    steps := ReachCrossed(steps);
    steps := ReachBothSending(steps);
  }
}
