/** Which events the monitor's channels lose (monitor/monitor.go, monitor/subscriber.go),
    told from the schedule of sends and receives alone. A channel is the events channel
    (None) or that of a subscriber. */
module MonitorLoss {
  import opened Monitor
  import opened MonitorOrder
  import opened Wrappers

  /** What a step adds to the surplus of sends over receives. */
  function Surplus(step: Step, who: Option<nat>): int {
    match step
    case EmitEnd(_, gaveWay) => if who == None && !gaveWay then 1 else 0
    case ReceiveEvent => if who == None then -1 else 0
    case Deliver(_, s) => if who == Some(s) then 1 else 0
    case Receive(s) => if who == Some(s) then -1 else 0
    case _ => 0
  }

  /** Sends minus receives of a schedule. */
  function Net(steps: seq<Step>, who: Option<nat>): int {
    if steps == [] then 0 else Surplus(steps[0], who) + Net(steps[1..], who)
  }

  predicate Has(st: State, who: Option<nat>) { who.Some? ==> who.value < |st.subs| }

  function ChanOf(st: State, who: Option<nat>): Chan
    requires Has(st, who)
  {
    if who.None? then st.events else st.subs[who.value].ch
  }

  function Max(a: int, b: int): int { if a < b then b else a }

  /** The highest surplus on the way. */
  function Peak(steps: seq<Step>, who: Option<nat>): nat {
    if steps == [] then 0 else Max(0, Surplus(steps[0], who) + Peak(steps[1..], who))
  }

  /** How far a channel is filled. */
  function Level(ch: Chan): int { |ch.sent| - ch.received }

  /** Peak is the maximum of Net over all beginnings of the schedule. */
  lemma {:induction false} PeakIsHighest(steps: seq<Step>, who: Option<nat>)
    ensures forall k | 0 <= k <= |steps| :: Net(steps[..k], who) <= Peak(steps, who)
    ensures exists k | 0 <= k <= |steps| :: Net(steps[..k], who) == Peak(steps, who)
  {
    if steps == [] {
      assert steps[..0] == [];
    } else {
      PeakIsHighest(steps[1..], who);
      forall k | 0 < k <= |steps| ensures Net(steps[..k], who) == Surplus(steps[0], who) + Net(steps[1..][..k - 1], who) {
        assert steps[..k][1..] == steps[1..][..k - 1];
      }
      assert Net(steps[..0], who) == 0;
      var k :| 0 <= k <= |steps[1..]| && Net(steps[1..][..k], who) == Peak(steps[1..], who);
      assert Net(steps[..k + 1], who) == Surplus(steps[0], who) + Peak(steps[1..], who);
      assert Peak(steps, who) == Net(steps[..0], who) || Peak(steps, who) == Net(steps[..k + 1], who);
    }
  }

  lemma EventsLevel(st: State, step: Step)
    requires Enabled(st, step)
    ensures Do(st, step).events ==
      (match step
       case EmitEnd(l, gaveWay) => if gaveWay then st.events else Offer(st.events, Current(st.loops, l))
       case ReceiveEvent => st.events.(received := st.events.received + 1)
       case _ => st.events)
  {
  }

  predicate OnSubs(step: Step) {
    step.NewSubscriber? || step.Deliver? || step.Receive? || step.DoneUnregister? || step.DoneClose? || step.CloseSubs?
  }

  lemma LoopsLeaveSubs(st: State, step: Step)
    requires Enabled(st, step) && (step.EmitBegin? || step.Lock? || step.Unlock? || step.EmitEnd? || step.Exit?)
    ensures Do(st, step).subs == st.subs
  {
  }

  lemma OthersLeaveSubs(st: State, step: Step)
    requires Enabled(st, step) && !OnSubs(step)
    ensures Do(st, step).subs == st.subs
  {
    if step.EmitBegin? || step.Lock? || step.Unlock? || step.EmitEnd? || step.Exit? { LoopsLeaveSubs(st, step); }
  }

  /** What a step makes of a subscriber's channel. */
  function SubChanAfter(st: State, step: Step, s: nat): Chan
    requires Enabled(st, step) && s < |st.subs|
  {
    match step
    case Deliver(l, t) => if t == s then Offer(st.subs[s].ch, Current(st.loops, l)) else st.subs[s].ch
    case Receive(t) => if t == s then st.subs[s].ch.(received := st.subs[s].ch.received + 1) else st.subs[s].ch
    case _ => st.subs[s].ch
  }

  lemma SubLevel(st: State, step: Step, s: nat)
    requires Enabled(st, step) && s < |st.subs|
    ensures s < |Do(st, step).subs| && Do(st, step).subs[s].ch == SubChanAfter(st, step, s)
  {
    if !OnSubs(step) { OthersLeaveSubs(st, step); }
  }

  /** One step fills or drains a channel, or overflows it. */
  lemma StepLevel(st: State, step: Step, who: Option<nat>)
    requires Enabled(st, step) && Has(st, who) && ChanOk(ChanOf(st, who))
    ensures Has(Do(st, step), who)
    ensures var ch, ch' := ChanOf(st, who), ChanOf(Do(st, step), who);
      && ChanOk(ch') && ch'.cap == ch.cap
      && ch'.full == ch.full + Max(0, Level(ch) + Surplus(step, who) - ch.cap)
      && Level(ch') == Level(ch) + Surplus(step, who) - (ch'.full - ch.full)
  {
    if who.None? { EventsLevel(st, step); } else { SubLevel(st, step, who.value); }
  }

  lemma {:induction false} RunLevel(st: State, steps: seq<Step>, who: Option<nat>)
    requires Runs(st, steps) && Has(st, who) && ChanOk(ChanOf(st, who))
    ensures Has(After(st, steps), who)
    ensures var ch, ch' := ChanOf(st, who), ChanOf(After(st, steps), who);
      && ch'.cap == ch.cap && ChanOk(ch')
      && ch'.full == ch.full + Max(0, Level(ch) + Peak(steps, who) - ch.cap)
      && Level(ch') == Level(ch) + Net(steps, who) - (ch'.full - ch.full)
    decreases |steps|
  {
    if steps != [] {
      StepLevel(st, steps[0], who);
      RunLevel(Do(st, steps[0]), steps[1..], who);
    }
  }

  /** In every run, as many events are lost as the surplus of sends over receives at its
      highest exceeded the buffer, and the rest is in the buffer or received. */
  lemma {:induction false} LostIsExcess(size: int, steps: seq<Step>)
    requires Runs(Init(size), steps)
    ensures var ch := After(Init(size), steps).events;
      && |ch.offered| - |ch.sent| == Max(0, Peak(steps, None) - Buffer(size))
      && Level(ch) == Net(steps, None) - Max(0, Peak(steps, None) - Buffer(size))
  {
    Reached(size, steps);
    RunLevel(Init(size), steps, None);
  }

  /** Every send finds fewer than cap of the earlier sends not yet received. */
  ghost predicate KeepsUp(steps: seq<Step>, cap: nat) {
    forall k | 0 <= k < |steps| && steps[k].EmitEnd? && !steps[k].gaveWay :: Net(steps[..k], None) < cap
  }

  lemma {:induction false} NetSnoc(steps: seq<Step>, step: Step)
    ensures Net(steps + [step], None) == Net(steps, None) + Surplus(step, None)
  {
    if steps == [] {
      assert [] + [step] == [step] && Net([step], None) == Surplus(step, None) + Net([], None);
    } else {
      assert (steps + [step])[1..] == steps[1..] + [step];
      NetSnoc(steps[1..], step);
    }
  }

  lemma {:induction false} BelowPeak(steps: seq<Step>, cap: nat, k: nat)
    requires KeepsUp(steps, cap) && cap >= 1 && k <= |steps|
    ensures Net(steps[..k], None) <= cap
  {
    if k > 0 {
      BelowPeak(steps, cap, k - 1);
      assert steps[..k] == steps[..k - 1] + [steps[k - 1]];
      NetSnoc(steps[..k - 1], steps[k - 1]);
    }
  }

  lemma {:induction false} KeepsUpIff(steps: seq<Step>, cap: nat)
    requires cap >= 1
    ensures Peak(steps, None) <= cap <==> KeepsUp(steps, cap)
  {
    PeakIsHighest(steps, None);
    if KeepsUp(steps, cap) {
      var k :| 0 <= k <= |steps| && Net(steps[..k], None) == Peak(steps, None);
      BelowPeak(steps, cap, k);
    } else {
      var k :| 0 <= k < |steps| && steps[k].EmitEnd? && !steps[k].gaveWay && Net(steps[..k], None) >= cap;
      assert steps[..k + 1] == steps[..k] + [steps[k]];
      NetSnoc(steps[..k], steps[k]);
      assert Net(steps[..k + 1], None) <= Peak(steps, None);
    }
  }

  /** Until Close is called, the events channel has been offered every event but those
      still being emitted; and it carries all it was offered if and only if every send
      found fewer than the buffer's size of earlier sends not yet received. */
  lemma {:induction false} EventsCarriesAllIff(size: int, steps: seq<Step>)
    requires Runs(Init(size), steps)
    ensures var st := After(Init(size), steps);
      && (!st.stopped ==> Offered(st.loops, st.events.offered))
      && ((forall e | e in st.events.offered :: e in st.events.sent) <==> KeepsUp(steps, Buffer(size)))
  {
    Reached(size, steps);
    RunAllOffered(Init(size), steps);
    LostIsExcess(size, steps);
    KeepsUpIff(steps, Buffer(size));
    AllTakenIff(size, steps);
  }

  /** The send that follows a schedule is taken exactly if it does not raise the surplus
      above both the buffer and its highest so far. */
  lemma {:induction false} EventTakenIff(size: int, steps: seq<Step>, l: nat)
    requires Runs(Init(size), steps) && Enabled(After(Init(size), steps), EmitEnd(l, false))
    ensures var st := After(Init(size), steps);
      Current(st.loops, l) in Do(st, EmitEnd(l, false)).events.sent <==> Net(steps, None) < Max(Buffer(size), Peak(steps, None))
  {
    LostIsExcess(size, steps);
    Reached(size, steps);
    RunLevel(Init(size), steps, None);
    RunInOrder(Init(size), steps);
    var st := After(Init(size), steps);
    var e, ch := Current(st.loops, l), st.events;
    assert Below(ch.sent, l, LogTop(st.loops[l]));
    assert e !in ch.sent;
    assert (ch.sent + [e])[|ch.sent|] == e;
  }

  // -- and it does lose events

  /** One subscription emits once, with nobody subscribed. */
  const ROUND: seq<Step> := [EmitBegin(0), Lock(0), Unlock(0), EmitEnd(0, false)]

  function Rounds(n: nat): seq<Step> { if n == 0 then [] else ROUND + Rounds(n - 1) }

  predicate Alone(st: State) {
    !st.stopped && st.subs == [] && |st.loops| == 1 && st.loops[0].emit.Quiet?
  }

  lemma FourRun(st: State, a: Step, b: Step, c: Step, d: Step, rest: seq<Step>)
    requires Enabled(st, a) && Enabled(Do(st, a), b) && Enabled(Do(Do(st, a), b), c) && Enabled(Do(Do(Do(st, a), b), c), d)
    requires Runs(Do(Do(Do(Do(st, a), b), c), d), rest)
    ensures Runs(st, [a] + ([b] + ([c] + ([d] + rest))))
  {
    Prepend(Do(Do(Do(st, a), b), c), d, rest);
    Prepend(Do(Do(st, a), b), c, [d] + rest);
    Prepend(Do(st, a), b, [c] + ([d] + rest));
    Prepend(st, a, [b] + ([c] + ([d] + rest)));
  }

  lemma {:induction false} RoundsRun(st: State, n: nat)
    requires Alone(st)
    ensures Runs(st, Rounds(n))
    decreases n
  {
    if n > 0 {
      RoundsRun(Do(Do(Do(Do(st, EmitBegin(0)), Lock(0)), Unlock(0)), EmitEnd(0, false)), n - 1);
      FourRun(st, EmitBegin(0), Lock(0), Unlock(0), EmitEnd(0, false), Rounds(n - 1));
      RoundOpens(Rounds(n - 1));
    }
  }

  lemma RoundOpens(rest: seq<Step>)
    ensures ROUND + rest == [EmitBegin(0)] + ([Lock(0)] + ([Unlock(0)] + ([EmitEnd(0, false)] + rest)))
  {
  }

  lemma PeakCons(step: Step, rest: seq<Step>)
    ensures Peak([step] + rest, None) == Max(0, Surplus(step, None) + Peak(rest, None))
  {
    assert ([step] + rest)[1..] == rest;
  }

  lemma {:induction false} RoundsPeak(n: nat)
    ensures Peak(Rounds(n), None) == n
  {
    if n > 0 {
      var rest := Rounds(n - 1);
      RoundsPeak(n - 1);
      RoundOpens(rest);
      PeakCons(EmitEnd(0, false), rest);
      PeakCons(Unlock(0), [EmitEnd(0, false)] + rest);
      PeakCons(Lock(0), [Unlock(0)] + ([EmitEnd(0, false)] + rest));
      PeakCons(EmitBegin(0), [Lock(0)] + ([Unlock(0)] + ([EmitEnd(0, false)] + rest)));
    }
  }

  /** For every buffer and every n, one subscription that emits n events more than the
      buffer holds, with nobody receiving, loses exactly n of them. */
  lemma {:induction false} UnreadIsLost(size: int, n: nat)
    ensures var steps := [Subscribe] + Rounds(Buffer(size) + n);
      Runs(Init(size), steps) && var ch := After(Init(size), steps).events; |ch.offered| - |ch.sent| == n
  {
    var rounds := Rounds(Buffer(size) + n);
    var steps := [Subscribe] + rounds;
    assert steps[1..] == rounds;
    RoundsRun(Do(Init(size), Subscribe), Buffer(size) + n);
    RoundsPeak(Buffer(size) + n);
    LostIsExcess(size, steps);
  }

  // -- subscribers

  /** A new subscriber is registered and open, with the buffer asked for or 64; from then
      on its channel loses exactly as many events as the surplus of sends to it over its
      receives, at its highest, exceeds that buffer. */
  lemma {:induction false} SubscriberLosesExcess(st: State, size: int, steps: seq<Step>)
    requires Safe(st) && !st.stopped && Enabled(st, NewSubscriber(size)) && Runs(Do(st, NewSubscriber(size)), steps)
    ensures var s, st1, st2 := |st.subs|, Do(st, NewSubscriber(size)), After(Do(st, NewSubscriber(size)), steps);
      && s < |st1.subs| && st1.subs[s].registered && !st1.subs[s].closed && st1.subs[s].ch.sent == [] && s < |st2.subs|
      && var ch := st2.subs[s].ch;
         && |ch.offered| - |ch.sent| == Max(0, Peak(steps, Some(s)) - (if size <= 0 then 64 else size))
         && Level(ch) == Net(steps, Some(s)) - (|ch.offered| - |ch.sent|)
  {
    RunLevel(Do(st, NewSubscriber(size)), steps, Some(|st.subs|));
  }
}
