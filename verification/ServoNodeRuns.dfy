/** When the servo node latches, gives up and publishes, over whole runs. */
module ServoNodeRuns {
  import opened Options
  import opened ServoNode

  // ----- when the latch is set

  /** The step decides on a candidate that asks for a handoff: by its phase, by its flag or by the core's phase. */
  predicate AsksNow(s: Step)
  {
    && s.Decide?
    && var c := s.candidate;
       || c.phase == HandoffProbe || c.phase == HandoffReady || c.phase == Reached || c.needsProbe
       || c.reactivePhase == Some(HandoffProbe) || c.reactivePhase == Some(HandoffReady)
  }

  lemma UnlatchedStep(n: Node, s: Step)
    requires n.latch.None? && Enabled(n, s)
    ensures var m := Next(n, s);
            if AsksNow(s) then
              m.latch == Some(s.candidate.(proposed := ZERO, published := ZERO)) && m.since == s.now
            else m.latch.None?
  {
    hide StatusOf;
  }

  /** The first asking decision, step `k`. */
  ghost predicate FirstAsks(steps: seq<Step>, k: nat)
  {
    k < |steps| && AsksNow(steps[k]) && forall j :: 0 <= j < k ==> !AsksNow(steps[j])
  }

  /** In every run of an unlatched node the latch is set exactly if some decision asks. */
  lemma {:induction false} LatchedIffAsked(n: Node, steps: seq<Step>)
    requires Kept(n) && n.latch.None? && CanRun(n, steps)
    ensures Run(n, steps).latch.Some? <==> exists k: nat :: FirstAsks(steps, k)
    decreases |steps|
  {
    hide Next, Kept, AsksNow, LatchMoves, ZeroTail;
    if steps != [] {
      var m := Next(n, steps[0]);
      NextKeeps(n, steps[0]);
      UnlatchedStep(n, steps[0]);
      if AsksNow(steps[0]) {
        StaysLatched(m, steps[1..]);
        assert FirstAsks(steps, 0);
      } else {
        LatchedIffAsked(m, steps[1..]);
        if k: nat :| FirstAsks(steps[1..], k) {
          assert forall j :: 0 < j < |steps| ==> steps[j] == steps[1..][j - 1];
          assert FirstAsks(steps, k + 1);
        }
        if k: nat :| FirstAsks(steps, k) {
          assert forall j :: 0 <= j < |steps| - 1 ==> steps[1..][j] == steps[j + 1];
          assert FirstAsks(steps[1..], k - 1);
        }
      }
    }
  }

  lemma StaysLatched(n: Node, steps: seq<Step>)
    requires Kept(n) && n.latch.Some? && CanRun(n, steps)
    ensures Run(n, steps).latch.Some?
  {
    hide Next, Kept, Run, CanRun;
    LatchIsOneWay(n, steps);
  }

  // ----- when the latch gives up

  /** The step decides 20 seconds or more after the latch was set. */
  predicate TooLate(s: Step, since: real) { s.Decide? && s.now.Some? && s.now.value - since >= 20.0 }

  /** The latch once it is given up: it is done, asks for nothing and moves nothing. */
  const GIVEN_UP: Output := Output(HandoffAbandoned, ZERO, ZERO, true, None, false)

  predicate Abandoned(n: Node) { n.latch.Some? && n.latch.value.phase == HandoffAbandoned }

  lemma HeldStep(n: Node, s: Step, since: real)
    requires n.latch.Some? && n.since == Some(since) && Enabled(n, s)
    ensures var m := Next(n, s);
            && m.latch.Some? && m.since == n.since
            && (Abandoned(m) <==> Abandoned(n) || TooLate(s, since))
            && (!Abandoned(m) ==> m.latch == n.latch)
            && (Abandoned(n) ==> m.latch == n.latch)
            && (Abandoned(m) && !Abandoned(n) ==> m.latch.value == GIVEN_UP)
  {
    hide StatusOf;
  }

  /** In every run of a node that latched at `since`, the latch is given up exactly if some decision comes 20 seconds or
      more later; until then it is the same latch. */
  lemma {:induction false} AbandonedIffTooLate(n: Node, steps: seq<Step>, since: real)
    requires n.latch.Some? && !Abandoned(n) && n.since == Some(since) && CanRun(n, steps)
    ensures Abandoned(Run(n, steps)) <==> exists k :: 0 <= k < |steps| && TooLate(steps[k], since)
    ensures Run(n, steps).latch == if Abandoned(Run(n, steps)) then Some(GIVEN_UP) else n.latch
    decreases |steps|
  {
    hide Next, TooLate;
    if steps != [] {
      HeldStep(n, steps[0], since);
      var m := Next(n, steps[0]);
      if Abandoned(m) {
        StaysAbandoned(m, steps[1..], since);
      } else {
        AbandonedIffTooLate(m, steps[1..], since);
        if k :| 0 <= k < |steps[1..]| && TooLate(steps[1..][k], since) { assert TooLate(steps[k + 1], since); }
        if k :| 0 <= k < |steps| && TooLate(steps[k], since) { assert steps[1..][k - 1] == steps[k]; }
      }
    }
  }

  lemma {:induction false} StaysAbandoned(n: Node, steps: seq<Step>, since: real)
    requires Abandoned(n) && n.since == Some(since) && CanRun(n, steps)
    ensures Run(n, steps).latch == n.latch
    decreases |steps|
  {
    hide Next, TooLate;
    if steps != [] {
      HeldStep(n, steps[0], since);
      StaysAbandoned(Next(n, steps[0]), steps[1..], since);
    }
  }

  // ----- what goes out

  /** The steps of one tick of a live node that nothing interrupts. */
  function OneTick(candidate: Output, reactive: Option<Reactive>, now: Option<real>): seq<Step>
  {
    [Timer, Decide(candidate, reactive, now), Gate, Gate, Send(true)]
  }

  /** A live node that is not stopped publishes exactly what its core decided, and then the status of it; once the core
      asks for a handoff, or has asked, it publishes zero. */
  lemma LiveTickPublishes(n: Node, candidate: Output, reactive: Option<Reactive>, now: Option<real>)
    requires n.live && n.pc.Idle? && n.rosOk && !n.stop && candidate.phase != HandoffAbandoned
    ensures CanRun(n, OneTick(candidate, reactive, now))
    ensures var m := Run(n, OneTick(candidate, reactive, now));
            var asks := AsksNow(Decide(candidate, reactive, now));
            && m.pc.Idle? && m.sent == n.sent + [if n.latch.Some? || asks then ZERO else candidate.published]
            && (n.latch.None? && !asks ==>
                  m.last == candidate && m.reactive == reactive && m.latch.None?
                  && m.statuses == n.statuses + [Status(candidate.phase, candidate, reactive)])
  {
    var steps := OneTick(candidate, reactive, now);
    var a := Next(n, Timer);
    var b := Next(a, Decide(candidate, reactive, now));
    var twist := if n.latch.Some? || AsksNow(Decide(candidate, reactive, now)) then ZERO else candidate.published;
    assert b.pc == FirstGate(twist, 0) && b.sent == n.sent && b.statuses == n.statuses && b.rosOk && !b.stop;
    if n.latch.None? && !AsksNow(Decide(candidate, reactive, now)) {
      assert b.last == candidate && b.reactive == reactive && b.latch.None?;
    }
    hide Decided;
    var c := Next(b, Gate);
    assert c == b.(pc := SecondGate(twist, 0));
    var d := Next(c, Gate);
    assert d == b.(pc := Sending(twist, 0));
    RunsFive(n, steps);
  }

  lemma RunsFive(n: Node, steps: seq<Step>)
    requires |steps| == 5 && Enabled(n, steps[0])
    requires var a := Next(n, steps[0]); Enabled(a, steps[1])
    requires var b := Next(Next(n, steps[0]), steps[1]); Enabled(b, steps[2])
    requires var c := Next(Next(Next(n, steps[0]), steps[1]), steps[2]); Enabled(c, steps[3])
    requires var d := Next(Next(Next(Next(n, steps[0]), steps[1]), steps[2]), steps[3]); Enabled(d, steps[4])
    ensures CanRun(n, steps)
    ensures Run(n, steps) == Next(Next(Next(Next(Next(n, steps[0]), steps[1]), steps[2]), steps[3]), steps[4])
  {
    hide Next, Enabled;
    var a := Next(n, steps[0]);
    var b := Next(a, steps[1]);
    var c := Next(b, steps[2]);
    var d := Next(c, steps[3]);
    var e := Next(d, steps[4]);
    assert CanRun(e, []) && Run(e, []) == e;
    assert steps[4..][1..] == [] && CanRun(d, steps[4..]) && Run(d, steps[4..]) == e;
    assert steps[3..][1..] == steps[4..] && CanRun(c, steps[3..]) && Run(c, steps[3..]) == e;
    assert steps[2..][1..] == steps[3..] && CanRun(b, steps[2..]) && Run(b, steps[2..]) == e;
    assert steps[1..][1..] == steps[2..] && CanRun(a, steps[1..]) && Run(a, steps[1..]) == e;
  }

  /** `twist` is zero or was decided on in one of the steps by a candidate that does not ask. */
  ghost predicate Decidedly(steps: seq<Step>, twist: Twist)
  {
    twist == ZERO || exists k :: 0 <= k < |steps| && DecidesOn(steps[k], twist)
  }

  predicate DecidesOn(s: Step, twist: Twist) { s.Decide? && !AsksNow(s) && s.candidate.published == twist }

  /** What is on its way to the gates, and what has been sent since `start`, was decided on. */
  ghost predicate OnlyDecided(steps: seq<Step>, start: nat, n: Node)
  {
    && (Publishing(n.pc) ==> Decidedly(steps, n.pc.twist))
    && start <= |n.sent| && forall i :: start <= i < |n.sent| ==> Decidedly(steps, n.sent[i])
  }

  lemma DecidedLater(steps: seq<Step>, s: Step, twist: Twist)
    requires Decidedly(steps, twist)
    ensures Decidedly(steps + [s], twist)
  {
    hide DecidesOn;
    if twist != ZERO {
      var k :| 0 <= k < |steps| && DecidesOn(steps[k], twist);
      assert (steps + [s])[k] == steps[k];
    }
  }

  lemma DecidedNow(steps: seq<Step>, s: Step, twist: Twist)
    requires DecidesOn(s, twist)
    ensures Decidedly(steps + [s], twist)
  {
    assert (steps + [s])[|steps|] == s;
  }

  /** A step puts on its way what is already, zero, or what it decides on. */
  lemma StepPublishes(n: Node, s: Step)
    requires Kept(n) && Enabled(n, s)
    ensures var m := Next(n, s);
            Publishing(m.pc) ==>
              m.pc.twist == ZERO || (Publishing(n.pc) && m.pc.twist == n.pc.twist) || DecidesOn(s, m.pc.twist)
  {
    hide StatusOf;
  }

  lemma OnlyDecidedStep(steps: seq<Step>, start: nat, n: Node, s: Step)
    requires Kept(n) && Enabled(n, s) && OnlyDecided(steps, start, n)
    ensures OnlyDecided(steps + [s], start, Next(n, s))
  {
    var m := Next(n, s);
    StepPublishes(n, s);
    StepSends(n, s);
    hide Next, Decidedly, DecidesOn, Kept;
    assert Decidedly(steps + [s], ZERO) by { ZeroIsDecided(steps + [s]); }
    if Publishing(n.pc) { DecidedLater(steps, s, n.pc.twist); }
    if Publishing(m.pc) && DecidesOn(s, m.pc.twist) { DecidedNow(steps, s, m.pc.twist); }
    forall i | start <= i < |n.sent| ensures Decidedly(steps + [s], n.sent[i]) { DecidedLater(steps, s, n.sent[i]); }
  }

  lemma ZeroIsDecided(steps: seq<Step>)
    ensures Decidedly(steps, ZERO)
  {}

  lemma {:induction false} OnlyDecidedRun(done: seq<Step>, start: nat, n: Node, steps: seq<Step>)
    requires Kept(n) && CanRun(n, steps) && OnlyDecided(done, start, n)
    ensures OnlyDecided(done + steps, start, Run(n, steps))
    decreases |steps|
  {
    hide Next, Kept, OnlyDecided, Enabled;
    if steps == [] {
      assert done + steps == done;
    } else {
      NextKeeps(n, steps[0]);
      OnlyDecidedStep(done, start, n, steps[0]);
      OnlyDecidedRun(done + [steps[0]], start, Next(n, steps[0]), steps[1..]);
      assert done + [steps[0]] + steps[1..] == done + steps;
    }
  }

  /** In every run from an idle node, every velocity sent is zero or what some decision of the run that asks for no
      handoff put out. */
  lemma SentIsDecided(n: Node, steps: seq<Step>, i: nat)
    requires Kept(n) && n.pc.Idle? && CanRun(n, steps) && |n.sent| <= i < |Run(n, steps).sent|
    ensures var twist := Run(n, steps).sent[i];
            twist == ZERO || exists k :: 0 <= k < |steps| && DecidesOn(steps[k], twist)
  {
    hide Next, Kept, Enabled, DecidesOn;
    assert OnlyDecided([], |n.sent|, n);
    OnlyDecidedRun([], |n.sent|, n, steps);
    assert [] + steps == steps;
  }

  // ----- the final stop

  /** One zero command of the final stop. */
  const ONE_ZERO: seq<Step> := [Gate, Gate, Send(true)]

  /** The final stop of a live node sends three zero commands, even though a stop was requested, and ends the node. */
  lemma FinalStopSendsThree(n: Node, phase: Phase)
    requires n.live && n.pc.Idle? && n.rosOk && phase.OtherPhase?
    ensures CanRun(n, [Close(phase)] + ONE_ZERO + ONE_ZERO + ONE_ZERO)
    ensures var m := Run(n, [Close(phase)] + ONE_ZERO + ONE_ZERO + ONE_ZERO);
            m.pc.Ended? && m.sent == n.sent + [ZERO, ZERO, ZERO]
            && m.statuses == n.statuses + [Status(phase, STOPPED_OUTPUT.(phase := phase), n.reactive)]
  {
    hide CanRun, Run;
    var close := Close(phase);
    RunsNothing(n);
    RunThen(n, [], close);
    assert [] + [close] == [close];
    var a := FinalZero(n, [close], 3);
    var b := FinalZero(n, [close] + ONE_ZERO, 2);
    var c := FinalZero(n, [close] + ONE_ZERO + ONE_ZERO, 1);
  }

  lemma RunsNothing(n: Node)
    ensures CanRun(n, []) && Run(n, []) == n
  {}

  lemma FinalZero(n: Node, steps: seq<Step>, finals: nat) returns (m: Node)
    requires CanRun(n, steps) && Run(n, steps).pc == FirstGate(ZERO, finals) && Run(n, steps).rosOk && finals > 0
    ensures CanRun(n, steps + ONE_ZERO) && Run(n, steps + ONE_ZERO) == m
    ensures var a := Run(n, steps).(sent := Run(n, steps).sent + [ZERO]);
            m == if finals > 1 then a.(pc := FirstGate(ZERO, finals - 1)) else Closed(a.(pc := Sending(ZERO, 1)))
  {
    hide CanRun, Run, Closed;
    RunThen(n, steps, Gate);
    RunThen(n, steps + [Gate], Gate);
    RunThen(n, steps + [Gate] + [Gate], Send(true));
    assert steps + ONE_ZERO == steps + [Gate] + [Gate] + [Send(true)];
    m := Run(n, steps + ONE_ZERO);
  }
}
