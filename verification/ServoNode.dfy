/** The depth servo's node: the one-way handoff latch, the stop mute and the final stop.

    A stop signal may arrive between any two statements of a running tick, so the node is a transition
    system: a tick is entered, decides, passes the two publish gates one after the other, and sends.
    The candidate output and the core's reactive block are arbitrary; so are signals, the loss of the ROS
    context and an exception that leaves a tick for the shutdown block. */
module ServoNode {
  import opened Options

  datatype Phase = HandoffProbe | HandoffReady | Reached | HandoffAbandoned | OtherPhase(name: string)

  datatype Twist = Twist(linear: real, angular: real)

  const ZERO: Twist := Twist(0.0, 0.0)

  datatype Output = Output(phase: Phase, proposed: Twist, published: Twist, done: bool, reactivePhase: Option<Phase>,
                           needsProbe: bool)

  datatype Reactive = Reactive(phase: Phase, needsProbe: bool, handoffReady: bool)

  datatype Status = Status(phase: Phase, output: Output, reactive: Option<Reactive>)

  // ----- the pure helpers

  predicate Terminal(p: Phase) { p == HandoffProbe || p == HandoffReady || p == Reached }

  predicate Probing(p: Phase) { p == HandoffProbe || p == HandoffReady }

  predicate Asks(o: Output)
  {
    Terminal(o.phase) || o.needsProbe || (o.reactivePhase.Some? && Probing(o.reactivePhase.value))
  }

  function LatchHandoff(latched: Option<Output>, candidate: Output): Option<Output>
  {
    if latched.Some? then latched
    else if !Asks(candidate) then None
    else Some(candidate.(proposed := ZERO, published := ZERO))
  }

  const LATCH_TIMEOUT: real := 20.0

  /** The latch after a reading of the clock; `None` is a reading that is not finite. */
  function HeldLatch(latched: Option<Output>, since: Option<real>, now: Option<real>, timeout: real): Option<Output>
  {
    if latched.None? || latched.value.phase == HandoffAbandoned then latched
    else if since.None? || timeout <= 0.0 || now.None? || now.value - since.value < timeout then latched
    else Some(latched.value.(phase := HandoffAbandoned, proposed := ZERO, published := ZERO, done := true,
                             needsProbe := false, reactivePhase := None))
  }

  function StrippedReactive(r: Option<Reactive>, phase: Phase): Option<Reactive>
  {
    if r.None? || phase != HandoffAbandoned then r
    else Some(r.value.(phase := HandoffAbandoned, needsProbe := false, handoffReady := false))
  }

  predicate ReactiveAsks(r: Option<Reactive>) { r.Some? && (r.value.needsProbe || Probing(r.value.phase)) }

  /** The supervisor's reading of a status document. */
  predicate RequestsHandoff(s: Status) { Terminal(s.phase) || Asks(s.output) || ReactiveAsks(s.reactive) }

  predicate Suppressed(stopRequested: bool, rosOk: bool, finalStop: bool)
  {
    if !rosOk then true else if finalStop then false else stopRequested
  }

  // ----- the transition system

  /** `finals` counts the zero commands the final stop has still to send; 0 in a tick. */
  datatype Pc =
    | Idle
    | Entered
    | FirstGate(twist: Twist, finals: nat)
    | SecondGate(twist: Twist, finals: nat)
    | Sending(twist: Twist, finals: nat)
    | Ended

  datatype Node = Node(live: bool, pc: Pc, stop: bool, rosOk: bool, latch: Option<Output>, since: Option<real>,
                       last: Output, reactive: Option<Reactive>, sent: seq<Twist>, statuses: seq<Status>,
                       closing: Phase)

  datatype Step =
    | Signal
    | ContextLost
    | Timer
    | Decide(candidate: Output, reactive: Option<Reactive>, now: Option<real>)
    | Gate
    | Send(ok: bool)
    | Close(phase: Phase)

  predicate Publishing(pc: Pc) { pc.FirstGate? || pc.SecondGate? || pc.Sending? }

  predicate ShuttingDown(pc: Pc) { pc.Ended? || (Publishing(pc) && pc.finals > 0) }

  /** When a step can happen.  Neither core nor whole-body controller emits the abandoned phase, and the phase
      of a final stop is one of the process lifecycle. */
  predicate Enabled(n: Node, s: Step)
  {
    match s
    case Signal => true
    case ContextLost => true
    case Timer => n.pc.Idle?
    case Decide(candidate, _, _) => n.pc.Entered? && candidate.phase != HandoffAbandoned
    case Gate => n.pc.FirstGate? || n.pc.SecondGate?
    case Send(_) => n.pc.Sending?
    case Close(phase) => !ShuttingDown(n.pc) && phase.OtherPhase?
  }

  function StatusOf(n: Node, phase: Phase): Status { Status(phase, n.last, StrippedReactive(n.reactive, phase)) }

  const STOPPED_OUTPUT: Output := Output(OtherPhase("stopped"), ZERO, ZERO, false, None, false)

  function Closed(n: Node): Node
  {
    var m := n.(last := STOPPED_OUTPUT.(phase := n.closing), pc := Ended);
    m.(statuses := n.statuses + [StatusOf(m, n.closing)])
  }

  /** After one publish call has returned, whether or not it sent. */
  function Returned(n: Node, finals: nat): Node
  {
    if finals == 0 then n.(pc := Idle, statuses := n.statuses + [StatusOf(n, n.last.phase)])
    else if finals > 1 then n.(pc := FirstGate(ZERO, finals - 1))
    else Closed(n)
  }

  /** Publish in live mode, otherwise go on as if the call had returned. */
  function Published(n: Node, twist: Twist): Node
  {
    if n.live then n.(pc := FirstGate(twist, 0)) else Returned(n, 0)
  }

  function Decided(n: Node, candidate: Output, reactive: Option<Reactive>, now: Option<real>): Node
  {
    if n.latch.Some? then
      var latch := HeldLatch(n.latch, n.since, now, LATCH_TIMEOUT);
      Published(n.(latch := latch, last := latch.value), ZERO)
    else
      var latch := LatchHandoff(None, candidate);
      if latch.Some? then Published(n.(latch := latch, since := now, last := latch.value, reactive := reactive), ZERO)
      else Published(n.(last := candidate, reactive := reactive), candidate.published)
  }

  function Next(n: Node, s: Step): Node
    requires Enabled(n, s)
  {
    match s
    case Signal => n.(stop := true)
    case ContextLost => n.(rosOk := false)
    case Timer => if n.stop || !n.rosOk then n else n.(pc := Entered)
    case Decide(candidate, reactive, now) => Decided(n, candidate, reactive, now)
    case Gate =>
      if Suppressed(n.stop, n.rosOk, n.pc.finals > 0) then Returned(n, n.pc.finals)
      else if n.pc.FirstGate? then n.(pc := SecondGate(n.pc.twist, n.pc.finals))
      else n.(pc := Sending(n.pc.twist, n.pc.finals))
    case Send(ok) => Returned(if ok then n.(sent := n.sent + [n.pc.twist]) else n, n.pc.finals)
    case Close(phase) => if n.live then n.(pc := FirstGate(ZERO, 3), closing := phase) else Closed(n.(closing := phase))
  }

  predicate CanRun(n: Node, steps: seq<Step>)
    decreases |steps|
  {
    steps == [] || (Enabled(n, steps[0]) && CanRun(Next(n, steps[0]), steps[1..]))
  }

  function Run(n: Node, steps: seq<Step>): Node
    requires CanRun(n, steps)
    decreases |steps|
  {
    if steps == [] then n else Run(Next(n, steps[0]), steps[1..])
  }

  predicate Starts(n: Node)
  {
    && n.pc.Idle? && !n.stop && n.latch.None? && n.since.None? && n.sent == [] && n.statuses == []
    && n.closing.OtherPhase?
  }

  ghost predicate Reachable(n: Node)
  {
    exists start, steps :: Starts(start) && CanRun(start, steps) && Run(start, steps) == n
  }

  // ----- what every reachable node keeps

  ghost predicate Kept(n: Node)
  {
    && (!n.live ==> !Publishing(n.pc) && n.sent == [])
    && (Publishing(n.pc) && (n.latch.Some? || n.pc.finals > 0) ==> n.pc.twist == ZERO)
    && (n.latch.Some? ==> n.latch.value.published == ZERO && n.latch.value.proposed == ZERO)
    && (n.latch.Some? && n.latch.value.phase == HandoffAbandoned ==> !Asks(n.latch.value))
    && (n.latch.Some? && !ShuttingDown(n.pc) ==> n.last == n.latch.value)
    && n.closing.OtherPhase?
  }

  lemma NextKeeps(n: Node, s: Step)
    requires Kept(n) && Enabled(n, s)
    ensures Kept(Next(n, s))
  {
    if s.Decide? { DecidedKeeps(n, s); }
    else if s.Gate? || s.Send? { hide Closed, StatusOf; ReturnKeeps(n, s); }
  }

  lemma DecidedKeeps(n: Node, s: Step)
    requires Kept(n) && Enabled(n, s) && s.Decide?
    ensures Kept(Next(n, s))
  {
    hide StatusOf;
  }

  lemma ReturnKeeps(n: Node, s: Step)
    requires Kept(n) && Enabled(n, s) && (s.Gate? || s.Send?)
    ensures Kept(Next(n, s))
  {
    hide StatusOf;
  }

  lemma {:induction false} RunKeeps(n: Node, steps: seq<Step>)
    requires Kept(n) && CanRun(n, steps)
    ensures Kept(Run(n, steps))
    decreases |steps|
  {
    if steps != [] {
      NextKeeps(n, steps[0]);
      RunKeeps(Next(n, steps[0]), steps[1..]);
    }
  }

  lemma ReachableKeeps(n: Node)
    requires Reachable(n)
    ensures Kept(n)
  {
    var start, steps :| Starts(start) && CanRun(start, steps) && Run(start, steps) == n;
    RunKeeps(start, steps);
  }

  lemma {:induction false} RunThen(n: Node, steps: seq<Step>, s: Step)
    requires CanRun(n, steps) && Enabled(Run(n, steps), s)
    ensures CanRun(n, steps + [s]) && Run(n, steps + [s]) == Next(Run(n, steps), s)
    decreases |steps|
  {
    if steps == [] {
      assert steps + [s] == [s] && [s][1..] == [];
    } else {
      RunThen(Next(n, steps[0]), steps[1..], s);
      assert (steps + [s])[0] == steps[0] && (steps + [s])[1..] == steps[1..] + [s];
    }
  }

  lemma ReachNext(n: Node, s: Step)
    requires Reachable(n) && Enabled(n, s)
    ensures Reachable(Next(n, s))
  {
    hide Next, Enabled;
    var start, steps :| Starts(start) && CanRun(start, steps) && Run(start, steps) == n;
    RunThen(start, steps, s);
  }

  /** A node as it comes up. */
  function StartNode(live: bool): (n: Node)
    ensures Starts(n)
  {
    Node(live, Idle, false, true, None, None, STOPPED_OUTPUT, None, [], [], OtherPhase("stopped"))
  }

  lemma StartIsReachable(live: bool)
    ensures Reachable(StartNode(live))
  {
    assert CanRun(StartNode(live), []) && Run(StartNode(live), []) == StartNode(live);
  }

  /** Shadow mode never publishes a velocity. */
  lemma ShadowIsSilent(n: Node)
    requires Reachable(n) && !n.live
    ensures n.sent == []
  {
    ReachableKeeps(n);
  }

  // ----- after the latch, after a stop

  /** `b` continues `a` with zero commands only. */
  ghost predicate ZeroTail(a: seq<Twist>, b: seq<Twist>)
  {
    |a| <= |b| && b[..|a|] == a && forall k :: |a| <= k < |b| ==> b[k] == ZERO
  }

  lemma ZeroTailTrans(a: seq<Twist>, b: seq<Twist>, c: seq<Twist>)
    requires ZeroTail(a, b) && ZeroTail(b, c)
    ensures ZeroTail(a, c)
  {
    assert a == b[..|a|] == c[..|b|][..|a|];
    assert forall k :: 0 <= k < |b| ==> c[k] == c[..|b|][k];
  }

  /** A step sends at most the pending command. */
  lemma StepSends(n: Node, s: Step)
    requires Enabled(n, s)
    ensures Next(n, s).sent == n.sent || (s.Send? && Next(n, s).sent == n.sent + [n.pc.twist])
  {
    hide StatusOf;
  }

  /** The latch, once set, is kept or abandoned; abandoned, it stays. */
  ghost predicate LatchMoves(a: Node, b: Node)
    requires a.latch.Some?
  {
    && b.latch.Some? && b.reactive == a.reactive
    && (b.latch == a.latch || b.latch.value.phase == HandoffAbandoned)
    && (a.latch.value.phase == HandoffAbandoned ==> b.latch == a.latch)
  }

  lemma LatchStep(n: Node, s: Step)
    requires Kept(n) && Enabled(n, s) && n.latch.Some?
    ensures var m := Next(n, s); LatchMoves(n, m) && ZeroTail(n.sent, m.sent)
  {
    StepSends(n, s);
    hide StatusOf;
  }

  /** From the moment the handoff is latched, every velocity published is zero, and the latch moves only to
      the abandoned phase, where it stays. */
  lemma {:induction false} LatchIsOneWay(n: Node, steps: seq<Step>)
    requires Kept(n) && n.latch.Some? && CanRun(n, steps)
    ensures var m := Run(n, steps); LatchMoves(n, m) && ZeroTail(n.sent, m.sent)
    decreases |steps|
  {
    if steps != [] {
      var m := Next(n, steps[0]);
      NextKeeps(n, steps[0]);
      LatchStep(n, steps[0]);
      LatchIsOneWay(m, steps[1..]);
      ZeroTailTrans(n.sent, m.sent, Run(m, steps[1..]).sent);
    }
  }

  /** A command has passed both gates and is about to go out. */
  predicate Committed(n: Node) { n.pc.Sending? && n.pc.twist != ZERO }

  /** With the stop requested, no command commits. */
  lemma StoppedStep(n: Node, s: Step)
    requires Kept(n) && Enabled(n, s) && n.stop && !Committed(n)
    ensures var m := Next(n, s); m.stop && !Committed(m) && ZeroTail(n.sent, m.sent)
  {
    StepSends(n, s);
    hide StatusOf;
  }

  lemma {:induction false} StopMutes(n: Node, steps: seq<Step>)
    requires Kept(n) && n.stop && !Committed(n) && CanRun(n, steps)
    ensures ZeroTail(n.sent, Run(n, steps).sent)
    decreases |steps|
  {
    if steps != [] {
      var m := Next(n, steps[0]);
      NextKeeps(n, steps[0]);
      StoppedStep(n, steps[0]);
      StopMutes(m, steps[1..]);
      ZeroTailTrans(n.sent, m.sent, Run(m, steps[1..]).sent);
    }
  }

  /** After a stop request every velocity is zero in every continuation, exactly unless a non-zero command had
      already passed its last gate when the request came. */
  lemma StopIsZeroUnlessCommitted(n: Node)
    requires Kept(n) && n.stop
    ensures (forall steps :: CanRun(n, steps) ==> ZeroTail(n.sent, Run(n, steps).sent)) <==> !Committed(n)
  {
    if Committed(n) {
      var steps := [Send(true)];
      assert steps[1..] == [];
      assert CanRun(n, steps) && Run(n, steps) == Next(n, Send(true));
      assert Next(n, Send(true)).sent == n.sent + [n.pc.twist] by { hide StatusOf; }
      assert !ZeroTail(n.sent, Run(n, steps).sent) by { assert (n.sent + [n.pc.twist])[|n.sent|] != ZERO; }
    } else {
      forall steps | CanRun(n, steps) ensures ZeroTail(n.sent, Run(n, steps).sent) { StopMutes(n, steps); }
    }
  }

  /** It does come to that: any command of a live tick can be overtaken by a signal after its last gate. */
  lemma CommittedStopIsReachable(candidate: Output)
    requires candidate.phase != HandoffAbandoned && !Asks(candidate) && candidate.published != ZERO
    ensures exists n :: Reachable(n) && n.stop && Committed(n) && n.pc.twist == candidate.published
  {
    var n0 := StartNode(true);
    StartIsReachable(true);
    var n1 := Next(n0, Timer);
    ReachNext(n0, Timer);
    var n2 := Next(n1, Decide(candidate, None, None));
    ReachNext(n1, Decide(candidate, None, None));
    assert n2.pc == FirstGate(candidate.published, 0) && n2.rosOk && !n2.stop;
    hide Reachable, Decided;
    var n3 := Next(n2, Gate);
    ReachNext(n2, Gate);
    var n4 := Next(n3, Gate);
    ReachNext(n3, Gate);
    ReachNext(n4, Signal);
    assert Committed(Next(n4, Signal));
  }

  /** Even then one command goes out at most: the one that was committed. */
  lemma {:induction false} AtMostOneLateCommand(n: Node, steps: seq<Step>)
    requires Kept(n) && n.stop && CanRun(n, steps)
    ensures ZeroTail(n.sent, Run(n, steps).sent)
            || (Committed(n) && ZeroTail(n.sent + [n.pc.twist], Run(n, steps).sent))
    decreases |steps|
  {
    if !Committed(n) {
      StopMutes(n, steps);
    } else if steps != [] {
      var s := steps[0];
      var m := Next(n, s);
      NextKeeps(n, s);
      CommittedStep(n, s);
      if m.pc == n.pc { AtMostOneLateCommand(m, steps[1..]); }
      else { StopMutes(m, steps[1..]); }
    }
  }

  lemma CommittedStep(n: Node, s: Step)
    requires Kept(n) && Enabled(n, s) && n.stop && Committed(n)
    ensures var m := Next(n, s);
            m.stop && ((m.pc == n.pc && m.sent == n.sent)
                       || (!Committed(m) && (m.sent == n.sent || m.sent == n.sent + [n.pc.twist])))
  {
    hide StatusOf;
  }

  // ----- what the status documents ask for

  /** A step of a node whose latch is abandoned writes at most one status; it asks for a handoff only if it is
      the document of the final stop and the frozen reactive block asks. */
  lemma AbandonedStep(n: Node, s: Step)
    requires Kept(n) && Enabled(n, s) && n.latch.Some? && n.latch.value.phase == HandoffAbandoned
    ensures var m := Next(n, s);
            m.statuses == n.statuses
            || (|m.statuses| == |n.statuses| + 1 && m.statuses[..|n.statuses|] == n.statuses
                && (RequestsHandoff(m.statuses[|n.statuses|]) <==> m.pc.Ended? && ReactiveAsks(n.reactive)))
  {
    hide Closed, Returned;
    if s.Gate? { ReturnedStatus(n, n.pc.finals); }
    else if s.Send? { ReturnedStatus(if s.ok then n.(sent := n.sent + [n.pc.twist]) else n, n.pc.finals); }
    else if s.Decide? { ReturnedStatus(n.(last := n.latch.value), 0); }
    else if s.Close? { ClosedStatus(n.(closing := s.phase)); }
  }

  lemma ClosedStatus(n: Node)
    requires n.closing.OtherPhase?
    ensures var m := Closed(n);
            |m.statuses| == |n.statuses| + 1 && m.statuses[..|n.statuses|] == n.statuses && m.pc.Ended?
            && (RequestsHandoff(m.statuses[|n.statuses|]) <==> ReactiveAsks(n.reactive))
  {}

  /** The status a tick writes under an abandoned latch asks for nothing. */
  lemma ReturnedStatus(n: Node, finals: nat)
    requires n.closing.OtherPhase? && (finals == 0 ==> n.last.phase == HandoffAbandoned && !Asks(n.last))
    ensures var m := Returned(n, finals);
            (m.statuses == n.statuses && !m.pc.Ended?)
            || (|m.statuses| == |n.statuses| + 1 && m.statuses[..|n.statuses|] == n.statuses
                && (RequestsHandoff(m.statuses[|n.statuses|]) <==> m.pc.Ended? && ReactiveAsks(n.reactive)))
  {
    ClosedStatus(n);
    hide Closed;
  }

  /** `b` continues `a` with statuses that ask for no handoff. */
  ghost predicate QuietTail(a: seq<Status>, b: seq<Status>)
  {
    |a| <= |b| && b[..|a|] == a && forall k :: |a| <= k < |b| ==> !RequestsHandoff(b[k])
  }

  lemma QuietTailTrans(a: seq<Status>, b: seq<Status>, c: seq<Status>)
    requires QuietTail(a, b) && QuietTail(b, c)
    ensures QuietTail(a, c)
  {
    hide RequestsHandoff;
    assert a == b[..|a|] == c[..|b|][..|a|];
    assert forall k :: 0 <= k < |b| ==> c[k] == c[..|b|][k];
  }

  lemma QuietStep(n: Node, s: Step)
    requires Kept(n) && Enabled(n, s) && n.latch.Some? && n.latch.value.phase == HandoffAbandoned
    requires !Next(n, s).pc.Ended? || !ReactiveAsks(n.reactive)
    ensures QuietTail(n.statuses, Next(n, s).statuses)
  {
    hide Next, Kept, RequestsHandoff, ReactiveAsks;
    AbandonedStep(n, s);
  }

  /** Once abandoned, no status written before the final stop asks for a handoff; nor does the final one unless
      the core's last decision did. */
  lemma {:induction false} AbandonedAsksForNothing(n: Node, steps: seq<Step>)
    requires Kept(n) && n.latch.Some? && n.latch.value.phase == HandoffAbandoned && CanRun(n, steps)
    requires !Run(n, steps).pc.Ended? || !ReactiveAsks(n.reactive)
    ensures QuietTail(n.statuses, Run(n, steps).statuses)
    decreases |steps|
  {
    hide Next, Kept, RequestsHandoff, ReactiveAsks, QuietTail, Enabled;
    if steps == [] {
      NoTail(n.statuses);
    } else {
      var m := Next(n, steps[0]);
      NextKeeps(n, steps[0]);
      LatchStep(n, steps[0]);
      if m.pc.Ended? { EndedStays(m, steps[1..]); }
      QuietStep(n, steps[0]);
      AbandonedAsksForNothing(m, steps[1..]);
      QuietTailTrans(n.statuses, m.statuses, Run(m, steps[1..]).statuses);
    }
  }

  lemma NoTail(a: seq<Status>)
    ensures QuietTail(a, a)
  {}

  lemma {:induction false} EndedStays(n: Node, steps: seq<Step>)
    requires n.pc.Ended? && CanRun(n, steps)
    ensures var m := Run(n, steps); m.pc.Ended? && m.statuses == n.statuses && m.sent == n.sent
    decreases |steps|
  {
    if steps != [] { EndedStays(Next(n, steps[0]), steps[1..]); }
  }

  /** A run that ends under an abandoned latch writes quiet statuses only exactly when the core's last decision did
      not ask: the document of the final stop is not stripped. */
  lemma EndedRunIsQuietIff(n: Node, steps: seq<Step>)
    requires Kept(n) && n.latch.Some? && n.latch.value.phase == HandoffAbandoned && !n.pc.Ended? && CanRun(n, steps)
    requires Run(n, steps).pc.Ended?
    ensures QuietTail(n.statuses, Run(n, steps).statuses) <==> !ReactiveAsks(n.reactive)
  {
    if ReactiveAsks(n.reactive) {
      var k := FinalStatusAsks(n, steps);
      hide *;
      LoudTail(n.statuses, Run(n, steps).statuses, k);
    } else {
      AbandonedAsksForNothing(n, steps);
    }
  }

  lemma LoudTail(a: seq<Status>, b: seq<Status>, k: nat)
    requires |a| <= k < |b| && RequestsHandoff(b[k])
    ensures !QuietTail(a, b)
  {
    hide RequestsHandoff;
  }

  lemma {:induction false} FinalStatusAsks(n: Node, steps: seq<Step>) returns (k: nat)
    requires Kept(n) && n.latch.Some? && n.latch.value.phase == HandoffAbandoned && !n.pc.Ended? && CanRun(n, steps)
    requires Run(n, steps).pc.Ended? && ReactiveAsks(n.reactive)
    ensures |n.statuses| <= k < |Run(n, steps).statuses| && RequestsHandoff(Run(n, steps).statuses[k])
    decreases |steps|
  {
    hide Next, Kept, RequestsHandoff, ReactiveAsks, Enabled;
    var m := Next(n, steps[0]);
    NextKeeps(n, steps[0]);
    LatchStep(n, steps[0]);
    AbandonedStep(n, steps[0]);
    if m.pc.Ended? {
      EndingWrites(n, steps[0]);
      EndedStays(m, steps[1..]);
      k := |n.statuses|;
    } else {
      k := FinalStatusAsks(m, steps[1..]);
    }
  }

  /** The step that ends the node writes a status. */
  lemma EndingWrites(n: Node, s: Step)
    requires Enabled(n, s) && !n.pc.Ended? && Next(n, s).pc.Ended?
    ensures |Next(n, s).statuses| == |n.statuses| + 1
  {
    hide StatusOf;
  }

  // ----- and it comes to that, in both modes

  /** What one publish call and the status after it come to, in a tick under way. */
  lemma TickReturns(n: Node) returns (m: Node)
    requires Reachable(n) && n.rosOk && !n.stop && (n.pc == FirstGate(ZERO, 0) || n.pc.Idle?)
    ensures Reachable(m) && m.pc.Idle? && m.latch == n.latch && m.since == n.since && m.reactive == n.reactive
    ensures m.rosOk && !m.stop && m.live == n.live
  {
    m := n;
    if !n.pc.Idle? {
      hide Reachable, StatusOf;
      var a := Next(n, Gate);
      ReachNext(n, Gate);
      var b := Next(a, Gate);
      ReachNext(a, Gate);
      m := Next(b, Send(true));
      ReachNext(b, Send(true));
    }
  }

  /** One tick of an idle node, through to its return. */
  lemma TickRuns(n: Node, candidate: Output, reactive: Option<Reactive>, now: real) returns (m: Node)
    requires Reachable(n) && n.pc.Idle? && n.rosOk && !n.stop && candidate.phase != HandoffAbandoned
    requires n.latch.Some? || Asks(candidate)
    ensures Reachable(m) && m.pc.Idle? && m.rosOk && !m.stop && m.live == n.live
    ensures m.latch == if n.latch.Some? then HeldLatch(n.latch, n.since, Some(now), LATCH_TIMEOUT)
                       else LatchHandoff(None, candidate)
    ensures m.since == (if n.latch.Some? then n.since else Some(now))
    ensures m.reactive == (if n.latch.Some? then n.reactive else reactive)
  {
    hide Reachable, StatusOf, HeldLatch, LatchHandoff, Asks;
    assert n.latch.None? ==> LatchHandoff(None, candidate).Some? by { AskingLatches(candidate); }
    var a := Next(n, Timer);
    ReachNext(n, Timer);
    var b := Next(a, Decide(candidate, reactive, Some(now)));
    ReachNext(a, Decide(candidate, reactive, Some(now)));
    m := TickReturns(b);
  }

  lemma AskingLatches(candidate: Output)
    ensures Asks(candidate) ==> LatchHandoff(None, candidate).Some?
  {}

  /** In either mode a handoff can be abandoned with the core's last decision still asking. */
  lemma AbandonedIsReachable(live: bool, candidate: Output, reactive: Option<Reactive>) returns (n: Node)
    requires candidate.phase != HandoffAbandoned && Asks(candidate)
    ensures Reachable(n) && n.live == live && n.pc.Idle? && n.rosOk && n.reactive == reactive
    ensures n.latch.Some? && n.latch.value.phase == HandoffAbandoned
  {
    hide Reachable;
    StartIsReachable(live);
    AskingLatches(candidate);
    var a := TickRuns(StartNode(live), candidate, reactive, 0.0);
    n := TickRuns(a, candidate, reactive, LATCH_TIMEOUT);
  }

  /** The final stop of an idle node runs to its end. */
  lemma StopRuns(n: Node) returns (steps: seq<Step>)
    requires n.pc.Idle? && n.rosOk
    ensures CanRun(n, steps) && Run(n, steps).pc.Ended?
  {
    var close := Close(OtherPhase("stopped"));
    steps := [close];
    var m := Next(n, close);
    assert CanRun(n, []) && Run(n, []) == n && [] + [close] == steps;
    RunThen(n, [], close);
    if n.live {
      hide StatusOf;
      steps := FinalRuns(n, steps, 3);
    }
  }

  lemma {:induction false} FinalRuns(n: Node, steps: seq<Step>, finals: nat) returns (more: seq<Step>)
    requires CanRun(n, steps) && Run(n, steps).pc == FirstGate(ZERO, finals) && Run(n, steps).rosOk && finals > 0
    ensures CanRun(n, more) && Run(n, more).pc.Ended?
    decreases finals
  {
    hide StatusOf, CanRun, Run;
    RunThen(n, steps, Gate);
    RunThen(n, steps + [Gate], Gate);
    RunThen(n, steps + [Gate] + [Gate], Send(true));
    more := steps + [Gate] + [Gate] + [Send(true)];
    if finals > 1 { more := FinalRuns(n, more, finals - 1); }
  }

  /** So, live or not, some run abandons its handoff and ends with a status that is read as a request. */
  lemma FinalStatusAsksAgain(live: bool, candidate: Output, reactive: Reactive)
    requires candidate.phase != HandoffAbandoned && Asks(candidate) && ReactiveAsks(Some(reactive))
    ensures exists n, steps ::
              && Reachable(n) && n.live == live && n.latch.Some? && n.latch.value.phase == HandoffAbandoned
              && CanRun(n, steps) && Run(n, steps).pc.Ended? && !QuietTail(n.statuses, Run(n, steps).statuses)
  {
    var n := AbandonedIsReachable(live, candidate, Some(reactive));
    var steps := StopRuns(n);
    ReachableKeeps(n);
    hide *;
    EndedRunIsQuietIff(n, steps);
  }
}
