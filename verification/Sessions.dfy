/** Sessions of the EtherNet/IP server (protocol/ethernetip/server.go, session.go) as a
    transition system: connections come and go, each served by a loop of its own, and all
    loops draw session handles from one 32-bit counter. */
module Sessions {
  import opened Bytes
  import opened CipMessage
  import opened Encapsulation
  import opened Wrappers

  /** next: the handle counter. conns: the open connections and the session of each, zero
      before it registers. seen: all connections there have been. */
  datatype State = State(next: u32, conns: map<nat, u32>, seen: set<nat>)

  const INIT := State(0, map[], {})

  datatype Step = Accept(c: nat) | Packet(c: nat, h: Header, data: seq<u8>) | Drop(c: nat)

  predicate Enabled(s: State, step: Step) {
    match step
    case Accept(c) => c !in s.seen
    case Packet(c, _, data) => c in s.conns && |data| <= MAX_PACKET
    case Drop(c) => c in s.conns
  }

  function Do(s: State, step: Step, sv: Services): State
    requires Enabled(s, step)
  {
    match step
    case Accept(c) => s.(conns := s.conns[c := 0], seen := s.seen + {c})
    case Packet(c, h, data) =>
      var turn := Answered(h, data, s.conns[c], s.next, sv);
      if turn.answer.None? then s.(conns := s.conns - {c}, next := turn.next)
      else s.(conns := s.conns[c := turn.session], next := turn.next)
    case Drop(c) => s.(conns := s.conns - {c})
  }

  predicate Runs(steps: seq<Step>, sv: Services)
    decreases |steps|, 0
  {
    steps == [] || (Runs(steps[..|steps| - 1], sv) && Enabled(After(steps[..|steps| - 1], sv), steps[|steps| - 1]))
  }

  function After(steps: seq<Step>, sv: Services): State
    requires Runs(steps, sv)
    decreases |steps|, 1
  {
    if steps == [] then INIT else Do(After(steps[..|steps| - 1], sv), steps[|steps| - 1], sv)
  }

  lemma RunsSnoc(steps: seq<Step>, step: Step, sv: Services)
    requires Runs(steps, sv) && Enabled(After(steps, sv), step)
    ensures Runs(steps + [step], sv) && After(steps + [step], sv) == Do(After(steps, sv), step, sv)
  {
    assert (steps + [step])[..|steps|] == steps;
  }

  // -- what the history says

  predicate IsRegister(step: Step) { step.Packet? && step.h.command == REGISTER_SESSION }

  /** The number of registrations, on all connections. */
  function Registrations(steps: seq<Step>): nat {
    if steps == [] then 0
    else Registrations(steps[..|steps| - 1]) + if IsRegister(steps[|steps| - 1]) then 1 else 0
  }

  /** Which registration of all was the last on this connection, counting from one. */
  function LastOf(steps: seq<Step>, c: nat): (r: Option<nat>)
    ensures r.Some? ==> 1 <= r.value <= Registrations(steps)
  {
    if steps == [] then None
    else if IsRegister(steps[|steps| - 1]) && steps[|steps| - 1].c == c then Some(Registrations(steps))
    else LastOf(steps[..|steps| - 1], c)
  }

  /** The handle of the k-th registration. */
  function HandleOf(k: nat): u32 { k % 0x1_0000_0000 }

  predicate ConnOk(steps: seq<Step>, s: State, c: nat)
    requires c in s.conns
  {
    && c in s.seen
    && s.conns[c] == match LastOf(steps, c) case None => 0 case Some(k) => HandleOf(k)
  }

  ghost predicate Inv(steps: seq<Step>, s: State) {
    && s.next == HandleOf(Registrations(steps))
    && (forall c | c in s.conns :: ConnOk(steps, s, c))
    && (forall c: nat | c !in s.seen :: LastOf(steps, c).None?)
    && s.conns.Keys <= s.seen
  }

  lemma NextHandle(k: nat)
    ensures Drawn(HandleOf(k)) == HandleOf(k + 1)
  {
  }

  lemma StepInv(steps: seq<Step>, s: State, step: Step, sv: Services)
    requires Inv(steps, s) && Enabled(s, step)
    ensures Inv(steps + [step], Do(s, step, sv))
  {
    var steps', s' := steps + [step], Do(s, step, sv);
    assert steps'[..|steps|] == steps;
    NextHandle(Registrations(steps));
    forall c | c in s'.conns ensures ConnOk(steps', s', c) { assert c in s.conns ==> ConnOk(steps, s, c); }
  }

  lemma {:induction false} RunInv(steps: seq<Step>, sv: Services)
    requires Runs(steps, sv)
    ensures Inv(steps, After(steps, sv))
    decreases |steps|
  {
    if steps != [] {
      var n := |steps| - 1;
      RunInv(steps[..n], sv);
      StepInv(steps[..n], After(steps[..n], sv), steps[n], sv);
      assert steps == steps[..n] + [steps[n]];
    }
  }

  /** In every run, unconnected data on an open connection is served, and not refused for
      its handle, exactly if the connection has registered and the handle is the one of its
      last registration, the k-th of all, with k no multiple of 2^32. */
  lemma {:induction false} ServedIff(steps: seq<Step>, sv: Services, c: nat, h: Header, data: seq<u8>)
    requires Runs(steps, sv) && c in After(steps, sv).conns && h.command == SEND_RR_DATA
    ensures var s := After(steps, sv);
      var answer := Answered(h, data, s.conns[c], s.next, sv).answer;
      && answer.Some? && answer.value.0.context == h.context
      && (answer.value.0.status != INVALID_SESSION <==>
            exists k :: LastOf(steps, c) == Some(k) && h.session == HandleOf(k) != 0)
      && (answer.value.0.status != INVALID_SESSION ==> answer.value == Reply(h, RRReply(data, sv.dispatch)))
  {
    RunInv(steps, sv);
    assert ConnOk(steps, After(steps, sv), c);
    if LastOf(steps, c).Some? {
      var k := LastOf(steps, c).value;
      assert LastOf(steps, c) == Some(k);
    }
  }

  lemma {:induction false} LastOfDiffer(steps: seq<Step>, c: nat, d: nat)
    requires c != d && LastOf(steps, c).Some? && LastOf(steps, d).Some?
    ensures LastOf(steps, c) != LastOf(steps, d)
    decreases |steps|
  {
    var step := steps[|steps| - 1];
    if !(IsRegister(step) && (step.c == c || step.c == d)) { LastOfDiffer(steps[..|steps| - 1], c, d); }
  }

  lemma SameHandle(i: nat, j: nat)
    ensures HandleOf(i) == HandleOf(j) <==> (i - j) % 0x1_0000_0000 == 0
  {
  }

  /** Two open, registered connections share a handle exactly if their registrations are a
      multiple of 2^32 apart; the two are never the same registration. */
  lemma {:induction false} HandlesCollideIff(steps: seq<Step>, sv: Services, c: nat, d: nat, i: nat, j: nat)
    requires Runs(steps, sv) && c in After(steps, sv).conns && d in After(steps, sv).conns && c != d
    requires LastOf(steps, c) == Some(i) && LastOf(steps, d) == Some(j)
    ensures i != j && (After(steps, sv).conns[c] == After(steps, sv).conns[d] <==> (i - j) % 0x1_0000_0000 == 0)
  {
    RunInv(steps, sv);
    LastOfDiffer(steps, c, d);
    SameHandle(i, j);
    assert ConnOk(steps, After(steps, sv), c) && ConnOk(steps, After(steps, sv), d);
  }

  // -- a client's session

  /** What Register sends and what it takes from the answer. */
  const REGISTER := Header(REGISTER_SESSION, 0, 0, NO_CONTEXT)

  /** Session.Register, over the wire: the handle, or none on an error. */
  method Register(session: u32, next: u32, sv: Services) returns (handle: Option<u32>, session': u32, next': u32)
    ensures handle == Some(Drawn(next)) && session' == next' == Drawn(next)
  {
    var sent := Send(REGISTER, REGISTERED);
    ReceivedIsCarried(REGISTER, REGISTERED);
    var out;
    out, session', next' := ServerLoopBody(sent, session, next, sv);
    ReceivedIsCarried(REGISTER.(session := Drawn(next)), REGISTERED);
    var packet := Receive(out.value);
    var (h, _) := packet.value;
    if h.status != SUCCESS {
      return None, session', next';
    }
    return Some(h.session), session', next';
  }

  lemma {:induction false} LastStays(steps: seq<Step>, more: seq<Step>, c: nat)
    requires forall k | 0 <= k < |more| && IsRegister(more[k]) :: more[k].c != c
    ensures LastOf(steps + more, c) == LastOf(steps, c)
    decreases |more|
  {
    if more == [] {
      assert steps + more == steps;
    } else {
      var n := |more| - 1;
      assert (steps + more)[..|steps + more| - 1] == steps + more[..n];
      LastStays(steps, more[..n], c);
    }
  }

  lemma {:induction false} PrefixRuns(steps: seq<Step>, more: seq<Step>, sv: Services)
    requires Runs(steps + more, sv)
    ensures Runs(steps, sv)
    decreases |more|
  {
    if more == [] {
      assert steps + more == steps;
    } else {
      assert (steps + more)[..|steps + more| - 1] == steps + more[..|more| - 1];
      PrefixRuns(steps, more[..|more| - 1], sv);
    }
  }

  /** The session of a connection that registered after `steps` is the handle drawn then. */
  lemma {:induction false} SessionSince(steps: seq<Step>, more: seq<Step>, sv: Services, c: nat)
    requires Runs(steps + [Packet(c, REGISTER, REGISTERED)] + more, sv)
    requires c in After(steps + [Packet(c, REGISTER, REGISTERED)] + more, sv).conns
    requires forall k | 0 <= k < |more| && IsRegister(more[k]) :: more[k].c != c
    ensures Runs(steps, sv) && Drawn(After(steps, sv).next) == HandleOf(Registrations(steps) + 1)
    ensures After(steps + [Packet(c, REGISTER, REGISTERED)] + more, sv).conns[c] == HandleOf(Registrations(steps) + 1)
  {
    var begun := steps + [Packet(c, REGISTER, REGISTERED)];
    PrefixRuns(begun, more, sv);
    PrefixRuns(steps, [Packet(c, REGISTER, REGISTERED)], sv);
    RunInv(steps, sv);
    NextHandle(Registrations(steps));
    RunInv(begun + more, sv);
    assert ConnOk(begun + more, After(begun + more, sv), c);
    LastStays(begun, more, c);
    assert begun[..|begun| - 1] == steps;
  }

  /** A client that registers, on a connection that has not hung up since and whatever the
      others do meanwhile, has its requests answered by the addressed object if and only
      if the registration was not a multiple of 2^32; its handle is zero then. */
  lemma {:induction false} RegisteredIsServedIff(steps: seq<Step>, more: seq<Step>, sv: Services, c: nat, req: Request)
    requires Runs(steps + [Packet(c, REGISTER, REGISTERED)] + more, sv)
    requires c in After(steps + [Packet(c, REGISTER, REGISTERED)] + more, sv).conns
    requires forall k | 0 <= k < |more| && IsRegister(more[k]) :: more[k].c != c
    requires Carriable(req) && sv.dispatch(req).Some? && CarriableBack(sv.dispatch(req).value)
    ensures Runs(steps, sv)
    ensures var handle := Drawn(After(steps, sv).next);
      && handle == HandleOf(Registrations(steps) + 1)
      && (Exchanged(req, handle, After(steps + [Packet(c, REGISTER, REGISTERED)] + more, sv).conns[c], sv.dispatch) == sv.dispatch(req)
          <==> handle != 0)
  {
    SessionSince(steps, more, sv, c);
    var handle := HandleOf(Registrations(steps) + 1);
    if handle != 0 { ExchangeIsDispatch(req, handle, sv.dispatch); }
  }

  /** A connection that registers again and again. */
  function Registering(n: nat): seq<Step> {
    if n == 0 then [Accept(0)] else Registering(n - 1) + [Packet(0, REGISTER, REGISTERED)]
  }

  lemma {:induction false} RegisteringRuns(n: nat, sv: Services)
    ensures Runs(Registering(n), sv) && 0 in After(Registering(n), sv).conns && Registrations(Registering(n)) == n
    decreases n
  {
    if n == 0 {
      RunsSnoc([], Accept(0), sv);
      assert [] + [Accept(0)] == [Accept(0)] && [Accept(0)][..0] == [];
    } else {
      RegisteringRuns(n - 1, sv);
      RunsSnoc(Registering(n - 1), Packet(0, REGISTER, REGISTERED), sv);
      assert Registering(n)[..|Registering(n)| - 1] == Registering(n - 1);
    }
  }

  /** The counter does come round: in a run with 2^32 registrations the last one is
      granted the handle zero, and every request on it is refused. */
  lemma {:induction false} ZeroHandleIsRefused(sv: Services, req: Request, handle: u32)
    ensures var steps := Registering(0x1_0000_0000);
      && Runs(steps, sv) && 0 in After(steps, sv).conns && After(steps, sv).conns[0] == 0
      && Exchanged(req, handle, After(steps, sv).conns[0], sv.dispatch) == None
  {
    var n := 0x1_0000_0000;
    RegisteringRuns(n, sv);
    var steps := Registering(n);
    RunInv(steps, sv);
    assert ConnOk(steps, After(steps, sv), 0);
    assert steps[|steps| - 1] == Packet(0, REGISTER, REGISTERED);
    WrongSessionIsRefused(req, handle, 0, sv.dispatch);
  }
}
