/** What the owner's requests and heartbeats achieve at the latch, and which runs keep the lease alive. */
module BaseLockLease {
  import opened Options
  import opened BaseLock

  // ----- one move of a joint run

  lemma PlayedStep(lease: real, moves: seq<Move>, m: Move)
    ensures Played(lease, moves + [m]) == Moved(Played(lease, moves), lease, m)
  {
    hide Moved;
    assert (moves + [m])[..|moves|] == moves;
  }

  lemma {:induction false} DefaultLeaseStays(lease: real, moves: seq<Move>)
    ensures Played(lease, moves).latch.defaultLease == lease
  {
    if moves != [] { DefaultLeaseStays(lease, moves[..|moves| - 1]); }
    hide Confirmed, LeaseOf;
  }

  /** One command was sent: this one. */
  predicate SentOne(j: Joint, j': Joint, c: Command) { j'.sent == j.sent + [c] }

  /** Whether the link reported the command delivered. */
  predicate Reported(fate: Fate) { fate.Acked? || (fate.Unread? && fate.delivered) }

  /** The name a heartbeat goes by. */
  function BeatName(o: Owner): string
  {
    if o.source.None? || o.source == Some("") then "heartbeat" else o.source.value
  }

  /** The latch is locked until one lease from now, under this number. */
  predicate LeasedFrom(l: Latch, now: real, lease: real, seqNo: nat)
  {
    l.locked && l.deadline == Some(now + lease) && l.seqNo == Some(seqNo)
  }

  lemma EmitAchieves(j: Joint, o: Owner, c: Command, fate: Fate, now: real, note: bool, lease: real)
    requires j.latch.defaultLease == lease && c.lease == lease
    ensures var j' := Emitted(j, o, c, fate, now, note);
            && SentOne(j, j', c)
            && j'.owner.seqNo == o.seqNo && j'.owner.refused == o.refused
            && j'.owner.delivered == (if note then Reported(fate) else o.delivered)
            && (fate.Lost? ==> j'.latch == j.latch)
            && (!fate.Lost? && c.lock ==> LeasedFrom(j'.latch, now, lease, c.seqNo))
            && (!fate.Lost? && !c.lock ==> !j'.latch.locked)
            && (!fate.Acked? ==> j'.owner == o.(delivered := j'.owner.delivered))
            && (fate.Acked? && c.lock && Engaged(o.state) ==>
                  j'.owner == o.(state := Locked, delivered := j'.owner.delivered))
            && (fate.Acked? && !c.lock && o.state == UnlockRequested ==>
                  j'.owner == o.(state := Unlocked, source := None, since := None, delivered := j'.owner.delivered))
            && j'.latch.expiries == j.latch.expiries
  {}

  /** In every joint run, a heartbeat of an engaged owner sends one lock command with the owner's name and number;
      unless it is lost, the base is locked until one lease later.  With an unlock pending it sends that unlock again,
      and if that is acknowledged, owner and base are both unlocked.  Otherwise it does nothing. */
  lemma BeatAchieves(lease: real, moves: seq<Move>, now: real, fate: Fate)
    ensures var j, j' := Played(lease, moves), Played(lease, moves + [DoBeat(now, fate)]); var o := j.owner;
            && (Engaged(o.state) ==>
                  && SentOne(j, j', Command(true, BeatName(o), o.seqNo, lease))
                  && (fate.Lost? ==> j'.latch == j.latch)
                  && (!fate.Lost? ==> LeasedFrom(j'.latch, now, lease, o.seqNo))
                  && j'.owner == o.(state := if fate.Acked? then Locked else o.state, delivered := Reported(fate)))
            && (o.state == UnlockRequested ==>
                  && SentOne(j, j', Command(false, BeatName(o), o.seqNo, lease))
                  && (fate.Lost? ==> j'.latch == j.latch)
                  && (!fate.Lost? ==> !j'.latch.locked)
                  && j'.owner == if fate.Acked? then o.(state := Unlocked, source := None, since := None) else o)
            && (o.state == Unlocked ==> j' == j)
  {
    hide Emitted, Played;
    PlayedStep(lease, moves, DoBeat(now, fate));
    DefaultLeaseStays(lease, moves);
    var j := Played(lease, moves);
    var o := j.owner;
    if o.state != Unlocked {
      EmitAchieves(j, o, Command(Engaged(o.state), BeatName(o), o.seqNo, lease), fate, now, Engaged(o.state), lease);
    }
  }

  /** In every joint run, a lock request is refused while the base moves and sends nothing for an engaged owner; any
      other takes the next number and sends one lock command with it, and unless that is lost the base is locked until
      one lease later. */
  lemma LockAchieves(lease: real, moves: seq<Move>, source: string, stopped: bool, now: real, fate: Fate)
    ensures var j, j' := Played(lease, moves), Played(lease, moves + [AskLock(source, stopped, now, fate)]);
            var o := j.owner;
            && (!stopped || Engaged(o.state) ==> j' == j.(owner := o.(refused := !stopped)))
            && (stopped && !Engaged(o.state) ==>
                  && SentOne(j, j', Command(true, source, o.seqNo + 1, lease))
                  && (fate.Lost? ==> j'.latch == j.latch)
                  && (!fate.Lost? ==> LeasedFrom(j'.latch, now, lease, o.seqNo + 1))
                  && j'.owner == Owner(if fate.Acked? then Locked else LockRequested, Some(source), Some(now),
                                       o.seqNo + 1, false, Reported(fate)))
  {
    hide Emitted, Played;
    PlayedStep(lease, moves, AskLock(source, stopped, now, fate));
    DefaultLeaseStays(lease, moves);
    var j := Played(lease, moves);
    var o := j.owner;
    if stopped && !Engaged(o.state) {
      var o' := o.(refused := false, seqNo := o.seqNo + 1, state := LockRequested, source := Some(source),
                   since := Some(now));
      EmitAchieves(j, o', Command(true, source, o'.seqNo, lease), fate, now, true, lease);
    }
  }

  /** In every joint run, an unlock request of an engaged owner takes the next number and sends one unlock command with
      it; unless that is lost the base is unlocked, and if it is acknowledged so is the owner.  Others do nothing. */
  lemma UnlockAchieves(lease: real, moves: seq<Move>, source: string, now: real, fate: Fate)
    ensures var j, j' := Played(lease, moves), Played(lease, moves + [AskUnlock(source, now, fate)]);
            var o := j.owner;
            && (!Engaged(o.state) ==> j' == j)
            && (Engaged(o.state) ==>
                  && SentOne(j, j', Command(false, source, o.seqNo + 1, lease))
                  && (fate.Lost? ==> j'.latch == j.latch)
                  && (!fate.Lost? ==> !j'.latch.locked)
                  && j'.owner == if fate.Acked?
                                 then Owner(Unlocked, None, None, o.seqNo + 1, o.refused, true)
                                 else o.(state := UnlockRequested, seqNo := o.seqNo + 1, delivered := Reported(fate)))
  {
    hide Emitted, Played;
    PlayedStep(lease, moves, AskUnlock(source, now, fate));
    DefaultLeaseStays(lease, moves);
    var j := Played(lease, moves);
    var o := j.owner;
    if Engaged(o.state) {
      var o' := o.(seqNo := o.seqNo + 1, state := UnlockRequested);
      EmitAchieves(j, o', Command(false, source, o'.seqNo, lease), fate, now, true, lease);
    }
  }

  /** What the latch reports of a document is what it did with it: it began to be locked, was renewed, was released, or
      stayed as it was. */
  lemma EventTells(l: Latch, d: Document, now: real)
    ensures var (l', event) := Received(l, d, now);
            && (event == LockedEvent <==> !l.locked && l'.locked)
            && (event == UnlockedEvent <==> l.locked && !l'.locked)
            && (event == RenewedEvent <==> l.locked && IsLock(d))
            && (event == RenewedEvent ==> l'.locked && l'.source == l.source && l'.since == l.since)
            && (event == IgnoredEvent ==> l' == l)
            && (!IsLock(d) && !IsUnlock(d) ==> event == IgnoredEvent)
  {
    hide LeaseOf;
  }

  // ----- which runs keep the lease alive

  predicate Timed(m: Move) { !m.ReadStatus? }

  function When(m: Move): real
    requires Timed(m)
  {
    m.now
  }

  ghost predicate ClockRuns(moves: seq<Move>)
  {
    forall a, b :: 0 <= a < b < |moves| && Timed(moves[a]) && Timed(moves[b]) ==> When(moves[a]) <= When(moves[b])
  }

  /** The owner when move `i` is made. */
  function OwnerAt(lease: real, moves: seq<Move>, i: nat): OwnerState
    requires i <= |moves|
  {
    Played(lease, moves[..i]).owner.state
  }

  /** Move `i` is a heartbeat of an engaged owner, or a new lock request, that reaches the latch. */
  predicate Renews(lease: real, moves: seq<Move>, i: nat)
  {
    && i < |moves| && var m := moves[i];
       || (m.DoBeat? && !m.fate.Lost? && Engaged(OwnerAt(lease, moves, i)))
       || (m.AskLock? && !m.fate.Lost? && m.stopped && !Engaged(OwnerAt(lease, moves, i)))
  }

  /** Move `i` is an unlock request, or a heartbeat that repeats one, that reaches the latch. */
  predicate Frees(lease: real, moves: seq<Move>, i: nat)
  {
    && i < |moves| && var m := moves[i];
       || (m.AskUnlock? && !m.fate.Lost? && Engaged(OwnerAt(lease, moves, i)))
       || (m.DoBeat? && !m.fate.Lost? && OwnerAt(lease, moves, i) == UnlockRequested)
  }

  /** The renewal `i` comes before move `k`, and nothing has freed the base in between. */
  ghost predicate InForce(lease: real, moves: seq<Move>, i: nat, k: nat)
  {
    i < k <= |moves| && Renews(lease, moves, i) && forall m: nat :: i < m < k ==> !Frees(lease, moves, m)
  }

  ghost predicate Covers(lease: real, moves: seq<Move>, i: nat, k: nat)
  {
    InForce(lease, moves, i, k) && k < |moves| && Timed(moves[k]) && When(moves[k]) <= When(moves[i]) + lease
  }

  /** The poll `k` finds no renewal in force, or one at most a lease old. */
  ghost predicate CoveredAt(lease: real, moves: seq<Move>, k: nat)
    requires k < |moves|
  {
    moves[k].DoPoll? ==>
      (forall i: nat :: !InForce(lease, moves, i, k)) || exists i: nat :: Covers(lease, moves, i, k)
  }

  ghost predicate Covered(lease: real, moves: seq<Move>)
  {
    forall k :: 0 <= k < |moves| ==> CoveredAt(lease, moves, k)
  }

  /** The base is locked exactly while a renewal is in force, and until a lease after the latest of them. */
  ghost predicate Leased(lease: real, moves: seq<Move>, l: Latch)
  {
    var n := |moves|;
    && l.expiries == 0
    && (l.locked <==> exists i: nat :: InForce(lease, moves, i, n))
    && (l.locked ==> l.deadline.Some?)
    && (l.locked ==> exists i: nat :: InForce(lease, moves, i, n) && l.deadline.value == When(moves[i]) + lease)
    && (forall i: nat :: InForce(lease, moves, i, n) ==> l.locked && When(moves[i]) + lease <= l.deadline.value)
  }

  /** How one more move decides which renewals are in force. */
  lemma InForceStep(lease: real, moves: seq<Move>, n: nat, i: nat)
    requires |moves| == n + 1
    ensures InForce(lease, moves, i, |moves|) <==>
            if i == n then Renews(lease, moves, n) else InForce(lease, moves[..n], i, n) && !Frees(lease, moves, n)
  {
    forall m: nat | m < n
      ensures Renews(lease, moves, m) == Renews(lease, moves[..n], m)
      ensures Frees(lease, moves, m) == Frees(lease, moves[..n], m)
    {
      assert moves[..n][..m] == moves[..m] && moves[..n][m] == moves[m];
    }
    hide Renews, Frees;
  }

  lemma CoveredStep(lease: real, moves: seq<Move>, n: nat)
    requires |moves| == n + 1
    ensures Covered(lease, moves) <==> Covered(lease, moves[..n]) && CoveredAt(lease, moves, n)
    ensures forall i: nat :: InForce(lease, moves, i, n) <==> InForce(lease, moves[..n], i, n)
  {
    var before := moves[..n];
    forall m: nat | m < n
      ensures Renews(lease, moves, m) == Renews(lease, before, m)
      ensures Frees(lease, moves, m) == Frees(lease, before, m) && moves[m] == before[m]
    {
      assert before[..m] == moves[..m] && before[m] == moves[m];
    }
    hide Renews, Frees;
    forall k: nat, i: nat | k <= n ensures InForce(lease, moves, i, k) <==> InForce(lease, before, i, k) {}
    hide InForce;
    forall k | 0 <= k < n ensures CoveredAt(lease, moves, k) <==> CoveredAt(lease, before, k) {
      CoveredAlike(lease, moves, before, k);
    }
    hide CoveredAt;
  }

  lemma CoveredAlike(lease: real, moves: seq<Move>, before: seq<Move>, k: nat)
    requires k < |before| < |moves| && forall m: nat :: m < |before| ==> moves[m] == before[m]
    requires forall i: nat :: InForce(lease, moves, i, k) <==> InForce(lease, before, i, k)
    ensures CoveredAt(lease, moves, k) <==> CoveredAt(lease, before, k)
  {
    forall i: nat ensures Covers(lease, moves, i, k) <==> Covers(lease, before, i, k) {
      if InForce(lease, moves, i, k) { InForceIsInside(lease, moves, i, k); }
    }
  }

  lemma InForceIsInside(lease: real, moves: seq<Move>, i: nat, k: nat)
    requires InForce(lease, moves, i, k)
    ensures i < k <= |moves| && Timed(moves[i]) && !moves[i].DoPoll?
  {}

  /** What the last move did to the latch. */
  lemma LatchMoves(lease: real, moves: seq<Move>, n: nat)
    requires |moves| == n + 1
    ensures var l, l' := Played(lease, moves[..n]).latch, Played(lease, moves).latch;
            && (Renews(lease, moves, n) ==>
                  l'.locked && l'.deadline == Some(When(moves[n]) + lease) && l'.expiries == l.expiries)
            && (Frees(lease, moves, n) ==> !l'.locked && l'.expiries == l.expiries)
            && (moves[n].DoPoll? ==>
                  if l.locked && l.deadline.Some? && moves[n].now > l.deadline.value
                  then l'.expiries == l.expiries + 1 else l' == l)
            && (!Renews(lease, moves, n) && !Frees(lease, moves, n) && !moves[n].DoPoll? ==> l' == l)
            && !(Renews(lease, moves, n) && Frees(lease, moves, n))
  {
    hide Played, LockAsked, UnlockAsked, Beat, Observed;
    var before, m := moves[..n], moves[n];
    assert moves == before + [m];
    PlayedStep(lease, before, m);
    match m
    case AskLock(source, stopped, now, fate) =>
      LockAchieves(lease, before, source, stopped, now, fate);
      LockExpiresNothing(Played(lease, before), source, stopped, lease, now, fate);
    case AskUnlock(source, now, fate) =>
      UnlockAchieves(lease, before, source, now, fate);
      UnlockExpiresNothing(Played(lease, before), source, lease, now, fate);
    case DoBeat(now, fate) =>
      BeatAchieves(lease, before, now, fate);
      BeatExpiresNothing(Played(lease, before), lease, now, fate);
    case ReadStatus =>
    case DoPoll(now) =>
  }

  lemma LockExpiresNothing(j: Joint, source: string, stopped: bool, lease: real, now: real, fate: Fate)
    ensures LockAsked(j, source, stopped, lease, now, fate).latch.expiries == j.latch.expiries
  {}

  lemma UnlockExpiresNothing(j: Joint, source: string, lease: real, now: real, fate: Fate)
    ensures UnlockAsked(j, source, lease, now, fate).latch.expiries == j.latch.expiries
  {}

  lemma BeatExpiresNothing(j: Joint, lease: real, now: real, fate: Fate)
    ensures Beat(j, lease, now, fate).latch.expiries == j.latch.expiries
  {}

  lemma LeasedStep(lease: real, moves: seq<Move>, n: nat)
    requires |moves| == n + 1 && ClockRuns(moves)
    requires Leased(lease, moves[..n], Played(lease, moves[..n]).latch)
    ensures if CoveredAt(lease, moves, n) then Leased(lease, moves, Played(lease, moves).latch)
            else Played(lease, moves).latch.expiries > 0
  {
    hide Played, InForce, Renews, Frees, Leased, CoveredAt, ClockRuns;
    var before := moves[..n];
    var l, l' := Played(lease, before).latch, Played(lease, moves).latch;
    LatchMoves(lease, moves, n);
    CoveredStep(lease, moves, n);
    forall i: nat
      ensures i == n ==> (InForce(lease, moves, i, |moves|) <==> Renews(lease, moves, n))
      ensures i != n ==>
                (InForce(lease, moves, i, |moves|) <==> InForce(lease, before, i, n) && !Frees(lease, moves, n))
      ensures InForce(lease, before, i, n) ==> i < n && Timed(moves[i]) && before[i] == moves[i]
    {
      InForceStep(lease, moves, n, i);
      if InForce(lease, before, i, n) { InForceIsInside(lease, before, i, n); }
    }
    LeasedMoves(lease, moves, n, l, l');
  }

  /** The same, on what the move does to the latch and to the renewals in force. */
  lemma LeasedMoves(lease: real, moves: seq<Move>, n: nat, l: Latch, l': Latch)
    requires |moves| == n + 1 && ClockRuns(moves) && Leased(lease, moves[..n], l)
    requires Renews(lease, moves, n) ==>
               l'.locked && l'.deadline == Some(When(moves[n]) + lease) && l'.expiries == l.expiries
    requires Frees(lease, moves, n) ==> !l'.locked && l'.expiries == l.expiries
    requires moves[n].DoPoll? ==>
               if l.locked && l.deadline.Some? && moves[n].now > l.deadline.value
               then l'.expiries == l.expiries + 1 else l' == l
    requires !Renews(lease, moves, n) && !Frees(lease, moves, n) && !moves[n].DoPoll? ==> l' == l
    requires !(Renews(lease, moves, n) && Frees(lease, moves, n))
    requires forall i: nat :: InForce(lease, moves, i, n) <==> InForce(lease, moves[..n], i, n)
    requires InForce(lease, moves, n, |moves|) <==> Renews(lease, moves, n)
    requires forall i: nat :: i != n ==>
               (InForce(lease, moves, i, |moves|) <==> InForce(lease, moves[..n], i, n) && !Frees(lease, moves, n))
    requires forall i: nat :: InForce(lease, moves[..n], i, n) ==>
               i < n && Timed(moves[i]) && moves[..n][i] == moves[i]
    ensures if CoveredAt(lease, moves, n) then Leased(lease, moves, l') else l'.expiries > 0
  {
    hide InForce, Frees, OwnerAt;
    var before := moves[..n];
    if moves[n].DoPoll? {
      PollFreesNot(lease, moves, n);
      if l.locked {
        var i: nat :| InForce(lease, before, i, n) && l.deadline.value == When(before[i]) + lease;
        assert InForce(lease, moves, i, n) && InForce(lease, moves, i, |moves|);
        assert moves[n].now <= l.deadline.value <==> Covers(lease, moves, i, n);
      }
    } else if Renews(lease, moves, n) {
      assert InForce(lease, moves, n, |moves|);
    } else if l.locked && !Frees(lease, moves, n) {
      var i: nat :| InForce(lease, before, i, n) && l.deadline.value == When(before[i]) + lease;
      assert InForce(lease, moves, i, |moves|);
    } else {
      forall i: nat ensures !InForce(lease, moves, i, |moves|) {}
    }
  }

  lemma PollFreesNot(lease: real, moves: seq<Move>, n: nat)
    requires n < |moves| && moves[n].DoPoll?
    ensures !Frees(lease, moves, n)
  {}

  lemma {:induction false} ExpiriesStay(lease: real, moves: seq<Move>, n: nat)
    requires |moves| == n + 1
    ensures Played(lease, moves).latch.expiries >= Played(lease, moves[..n]).latch.expiries
  {
    LatchMoves(lease, moves, n);
    hide Played;
  }

  lemma {:induction false} LeasedRun(lease: real, moves: seq<Move>)
    requires ClockRuns(moves)
    ensures if Covered(lease, moves) then Leased(lease, moves, Played(lease, moves).latch)
            else Played(lease, moves).latch.expiries > 0
  {
    hide Covered, CoveredAt, Leased, Played, ClockRuns;
    if moves == [] {
      NothingLeased(lease, moves);
    } else {
      var n := |moves| - 1;
      EarlierClock(moves, n);
      LeasedRun(lease, moves[..n]);
      CoveredStep(lease, moves, n);
      ExpiriesStay(lease, moves, n);
      if Covered(lease, moves[..n]) { LeasedStep(lease, moves, n); }
    }
  }

  lemma NothingLeased(lease: real, moves: seq<Move>)
    requires moves == []
    ensures Covered(lease, moves) && Leased(lease, moves, Played(lease, moves).latch)
  {}

  lemma EarlierClock(moves: seq<Move>, n: nat)
    requires n <= |moves| && ClockRuns(moves)
    ensures ClockRuns(moves[..n])
  {}

  /** With a monotone clock, the watchdog never releases the base in a joint run exactly if every poll that finds a
      renewal in force finds one at most a lease old.  Heartbeats and requests may be lost on the way.  And then the
      base is locked exactly while a delivered lock request or heartbeat is in force. */
  lemma BeatsKeepTheBaseLocked(lease: real, moves: seq<Move>)
    requires ClockRuns(moves)
    ensures Played(lease, moves).latch.expiries == 0 <==> Covered(lease, moves)
    ensures Covered(lease, moves) ==>
              (Played(lease, moves).latch.locked <==> exists i: nat :: InForce(lease, moves, i, |moves|))
  {
    hide Covered, Played, InForce;
    LeasedRun(lease, moves);
  }

  // ----- what the latch remembers of a lock

  /** Input `b` locked the latch, which has been locked since. */
  ghost predicate Began(lease: real, log: seq<Input>, b: nat)
  {
    && b < |log| && LockInput(log[b]) && !Fed(lease, log[..b]).locked
    && forall k :: b < k <= |log| ==> Fed(lease, log[..k]).locked
  }

  ghost predicate BegunBy(lease: real, log: seq<Input>, b: nat, l: Latch)
  {
    Began(lease, log, b) && l.source == log[b].doc.source && l.since == Some(log[b].now)
  }

  /** A locked latch reports who locked it and when: the lock that began the stretch, not the last renewal.  An unlocked
      one reports nothing and has its default lease. */
  ghost predicate Remembers(lease: real, log: seq<Input>, l: Latch)
  {
    && l.defaultLease == lease
    && if l.locked then exists b: nat :: BegunBy(lease, log, b, l)
       else l.source.None? && l.since.None? && l.deadline.None? && l.lease == lease
  }

  lemma {:induction false} LatchRemembers(lease: real, log: seq<Input>)
    ensures Remembers(lease, log, Fed(lease, log))
  {
    if log != [] {
      var n := |log| - 1;
      LatchRemembers(lease, log[..n]);
      RemembersStep(lease, log, n);
    }
  }

  lemma RemembersStep(lease: real, log: seq<Input>, n: nat)
    requires |log| == n + 1 && Remembers(lease, log[..n], Fed(lease, log[..n]))
    ensures Remembers(lease, log, Fed(lease, log))
  {
    hide Fed, LeaseOf, WellFormed;
    FedStep(lease, log, n);
    var before, l, l' := log[..n], Fed(lease, log[..n]), Fed(lease, log);
    assert log[..n + 1] == log;
    if l'.locked {
      if l.locked {
        var b: nat :| BegunBy(lease, before, b, l);
        BegunLonger(lease, log, n, b, l, l');
      } else {
        assert BegunBy(lease, log, n, l');
      }
    }
  }

  lemma BegunLonger(lease: real, log: seq<Input>, n: nat, b: nat, l: Latch, l': Latch)
    requires |log| == n + 1 && BegunBy(lease, log[..n], b, l) && Fed(lease, log) == l' && l'.locked
    requires l'.source == l.source && l'.since == l.since
    ensures BegunBy(lease, log, b, l')
  {
    hide Fed;
    assert log[..n][..b] == log[..b] && log[..n][b] == log[b];
    forall k | b < k <= |log| ensures Fed(lease, log[..k]).locked {
      if k <= n { assert log[..n][..k] == log[..k]; } else { assert log[..k] == log; }
    }
  }
}
