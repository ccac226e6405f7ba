/** What holds in every schedule of the session protocol. */
module SessionRuns {
  import opened Options
  import opened SessionProtocol
  import opened SessionInvariants

  // ----- whole runs

  datatype Act = Act(r: Request, e: Event)

  ghost predicate Inv(c: Config, s: State)
  {
    && References(s) && Locking(s) && Histories(c, s) && TableOk(s)
    && Reservations(s) && Capacity(c, s.tables) && Commitments(s)
  }

  lemma StepInv(c: Config, s: State, r: Request, e: Event)
    requires c.historyLimit > 0 && Inv(c, s)
    ensures Inv(c, Step(c, s, r, e))
  {
    StepReferences(c, s, r, e);
    StepLocking(c, s, r, e);
    StepHistories(c, s, r, e);
    StepTable(c, s, r, e);
    StepReservations(c, s, r, e);
    StepCapacity(c, s, r, e);
    StepCommitments(c, s, r, e);
    hide *;
  }

  /** The state after a schedule: any sequence of steps of any requests.  Handles resolve all the way. */
  ghost function Run(c: Config, s: State, acts: seq<Act>): (s': State)
    requires References(s)
    ensures References(s')
    decreases |acts|
  {
    if acts == [] then s
    else
      StepReferences(c, s, acts[0].r, acts[0].e);
      Run(c, Step(c, s, acts[0].r, acts[0].e), acts[1..])
  }

  lemma InitialInv(c: Config)
    ensures Inv(c, INITIAL)
  {}

  ghost function Reached(c: Config, acts: seq<Act>): State
  {
    InitialInv(c);
    Run(c, INITIAL, acts)
  }

  /** Every schedule keeps the invariant. */
  lemma {:induction false} RunInv(c: Config, s: State, acts: seq<Act>)
    requires c.historyLimit > 0 && Inv(c, s)
    ensures Inv(c, Run(c, s, acts))
    decreases |acts|
  {
    if acts != [] {
      StepInv(c, s, acts[0].r, acts[0].e);
      var s' := Step(c, s, acts[0].r, acts[0].e);
      hide Step, Locking, Histories, TableOk, Reservations, Capacity, Commitments, References;
      RunInv(c, s', acts[1..]);
    }
  }

  lemma ReachedInv(c: Config, acts: seq<Act>)
    requires c.historyLimit > 0
    ensures Inv(c, Reached(c, acts))
  {
    InitialInv(c);
    hide Inv, Run;
    RunInv(c, INITIAL, acts);
  }

  /** The request is inside a backend call on this inference state. */
  predicate InBackend(pc: Pc, h: Handle) { (pc.UpdCalling? || pc.ResetRunning?) && pc.h == h }

  /** Two backend calls on one inference state never overlap, in any schedule. */
  lemma NoOverlap(c: Config, acts: seq<Act>, q: Request, r: Request, h: Handle)
    requires c.historyLimit > 0 && q != r
    ensures var s := Reached(c, acts); !(InBackend(Position(s, q), h) && InBackend(Position(s, r), h))
  {
    ReachedInv(c, acts);
    var s := Reached(c, acts);
    hide Reached;
    if InBackend(Position(s, q), h) && InBackend(Position(s, r), h) {
      Exclusive(s, q, r, h);
      assert false;
    }
  }

  lemma Exclusive(s: State, q: Request, r: Request, h: Handle)
    requires References(s) && Locking(s) && InBackend(Position(s, q), h) && InBackend(Position(s, r), h)
    ensures q == r
  {
    assert Refers(s.tracks, q, s.pcs[q]) && Refers(s.tracks, r, s.pcs[r]);
  }

  /** Calls of `backend.update` so far on the state of `h`. */
  function Updates(s: State, h: Handle): seq<nat> { if h in s.tracks then s.tracks[h].work.started else [] }

  predicate ResetSeen(s: State, h: Handle) { h in s.tracks && s.tracks[h].wasReset }

  lemma TrackAfterReset(c: Config, s: State, pc: Pc, k: Track, i: Input)
    requires HasHandle(pc) && k.wasReset && (Held(pc).Some? ==> TrackOk(c, k, pc))
    ensures var d := TrackMove(c, s, pc, k, i);
            d.h == pc.h && (d.track.Some? ==> d.track.value.wasReset && d.track.value.work.started == k.work.started)
  {
    hide Prune, Pop, Settled, Midway, Numbered, ReturnMove;
  }

  lemma TrackMoveIsLocal(c: Config, s: State, pc: Pc, k: Track, i: Input)
    requires HasHandle(pc)
    ensures TrackMove(c, s, pc, k, i).h == pc.h
  {
    hide Prune, Pop;
  }

  lemma MoveAfterReset(c: Config, s: State, r: Request, i: Input, h: Handle)
    requires c.historyLimit > 0 && References(s) && Locking(s) && Histories(c, s) && r in s.pcs && ResetSeen(s, h)
    ensures var s' := Apply(s, r, Move(c, s, r, s.pcs[r], i)); ResetSeen(s', h) && Updates(s', h) == Updates(s, h)
  {
    hide Prune, Discard, Publish, Settle, TrackOk, TrackMove, Histories, ScanMove;
    var pc := s.pcs[r];
    assert Refers(s.tracks, r, pc);
    if HasHandle(pc) {
      TrackMoveIsLocal(c, s, pc, s.tracks[pc.h], i);
      if pc.h == h {
        TrackIsOk(c, s, h);
        TrackAfterReset(c, s, pc, s.tracks[h], i);
      }
    } else if pc.Scan? {
      ScanTouchesNoTrack(c, s, r, pc);
    }
  }

  lemma TrackIsOk(c: Config, s: State, h: Handle)
    requires Histories(c, s) && h in s.tracks
    ensures TrackOk(c, s.tracks[h], Stage(s, h))
  {
    hide TrackOk;
  }

  lemma ScanTouchesNoTrack(c: Config, s: State, r: Request, pc: Pc)
    requires pc.Scan?
    ensures ScanMove(c, s, r, pc).track.None?
  {}

  lemma BeginAfterReset(s: State, r: Request, e: Event, h: Handle)
    requires References(s) && r !in s.pcs && !e.Advance? && ResetSeen(s, h)
    ensures !e.BeginClose? ==>
              ResetSeen(Apply(s, r, Begin(s, r, e)), h) && Updates(Apply(s, r, Begin(s, r, e)), h) == Updates(s, h)
    ensures e.BeginClose? ==>
              ResetSeen(CloseAll(s, r, e.order), h) && Updates(CloseAll(s, r, e.order), h) == Updates(s, h)
  {
    hide Lists, Discard;
  }

  lemma StepAfterReset(c: Config, s: State, r: Request, e: Event, h: Handle)
    requires c.historyLimit > 0 && Inv(c, s) && ResetSeen(s, h)
    ensures var s' := Step(c, s, r, e); ResetSeen(s', h) && Updates(s', h) == Updates(s, h)
  {
    if e.Advance? {
      if r in s.pcs { MoveAfterReset(c, s, r, e.input, h); }
    } else if r !in s.pcs {
      BeginAfterReset(s, r, e, h);
    }
    hide Lists, Begin, CloseAll, Move, Apply, Inv;
  }

  /** Once `backend.reset` was called on a state, `backend.update` is never called on it again. */
  lemma {:induction false} NoUpdateAfterReset(c: Config, s: State, more: seq<Act>, h: Handle)
    requires c.historyLimit > 0 && Inv(c, s) && ResetSeen(s, h)
    ensures ResetSeen(Run(c, s, more), h) && Updates(Run(c, s, more), h) == Updates(s, h)
    decreases |more|
  {
    if more != [] {
      var s' := Step(c, s, more[0].r, more[0].e);
      StepInv(c, s, more[0].r, more[0].e);
      StepAfterReset(c, s, more[0].r, more[0].e, h);
      hide Inv, Step, ResetSeen, Updates;
      NoUpdateAfterReset(c, s', more[1..], h);
    }
  }

  /** Frames reach each inference state as 1, 2, 3, ... without gap or repeat, for ever. */
  lemma FramesInOrder(c: Config, acts: seq<Act>, h: Handle)
    requires c.historyLimit > 0
    ensures Numbered(Updates(Reached(c, acts), h))
  {
    ReachedInv(c, acts);
    var s := Reached(c, acts);
    hide Reached;
    if h in s.tracks { assert TrackOk(c, s.tracks[h], Stage(s, h)); }
  }

  lemma {:induction false} IntervalSize(frames: set<int>, lo: int, hi: int)
    requires lo <= hi && forall f :: f in frames ==> lo < f <= hi
    ensures |frames| <= hi - lo
    decreases hi - lo
  {
    if lo == hi {
      forall f ensures f !in frames {}
      assert frames == {};
    } else {
      IntervalSize(frames - {hi}, lo, hi - 1);
      assert |frames| <= |frames - {hi}| + 1;
    }
  }

  /** Between requests a live session has coasted exactly as long as its trailing run of failed masks,
      within the budget, and retains a bounded history. */
  lemma LiveSessionBounds(c: Config, acts: seq<Act>, id: Id)
    requires c.historyLimit > 0
    ensures var s := Reached(c, acts);
            id in s.tables.sessions && s.tables.sessions[id] !in s.locks ==>
              && s.tables.sessions[id] in s.tracks
              && var w := s.tracks[s.tables.sessions[id]].work;
                 && |w.started| == w.lastSeq == |w.outcomes|
                 && w.coast == Trailing(w.outcomes) <= c.maxCoast
                 && |w.frames| <= c.historyLimit + c.maxCoast
  {
    ReachedInv(c, acts);
    var s := Reached(c, acts);
    hide Reached;
    if id in s.tables.sessions && s.tables.sessions[id] !in s.locks {
      var h := s.tables.sessions[id];
      var w := s.tracks[h].work;
      assert TrackOk(c, s.tracks[h], Stage(s, h));
      IntervalSize(w.frames, w.lastSeq - w.coast - c.historyLimit, w.lastSeq);
    }
  }

  /** The bound on sessions and reservations, and what it costs to exceed the configured capacity. */
  lemma CapacityBound(c: Config, acts: seq<Act>)
    requires c.historyLimit > 0
    ensures var t := Reached(c, acts).tables;
            && t.sessions.Keys !! t.reserved.Keys
            && |t.sessions| + |t.reserved| <= c.maxSessions + t.lost - |t.orphans|
            && (t.lost == 0 ==> |t.sessions| + |t.reserved| <= c.maxSessions)
  {
    ReachedInv(c, acts);
    hide Reached;
  }

  /** The orphans of the account are the inits still in flight without their reservation. */
  lemma OrphansAreInits(c: Config, acts: seq<Act>, r: Request)
    requires c.historyLimit > 0
    ensures var s := Reached(c, acts);
            r in s.tables.orphans <==>
            PendingId(Position(s, r)).Some? && !Owns(s.tables, r, PendingId(Position(s, r)).value)
  {
    ReachedInv(c, acts);
    var s := Reached(c, acts);
    assert Reservations(s);
    assert r in s.tables.orphans <==> Orphaned(s.tables, r, Position(s, r));
  }

  /** With no request in flight, every inference state is listed, was reset, or was overwritten in the
      table; and a state is overwritten only at the price of a lost reservation. */
  lemma QuiescentStates(c: Config, acts: seq<Act>, h: Handle)
    requires c.historyLimit > 0
    ensures var s := Reached(c, acts);
            && (s.pcs == map[] && h in s.tracks ==>
                  s.tracks[h].wasReset || Listed(s.tables, s.tracks[h].id, h) || h in s.tables.replaced)
            && |s.tables.replaced| <= s.tables.lost
  {
    ReachedInv(c, acts);
    var s := Reached(c, acts);
    hide Reached;
    if s.pcs == map[] && h in s.tracks {
      assert TrackOk(c, s.tracks[h], Stage(s, h));
      assert !Overdue(s.tracks[h]) by { NothingOverdue(s, h); }
    }
  }

  lemma NothingOverdue(s: State, h: Handle)
    requires Commitments(s) && s.pcs == map[] && h in s.tracks
    ensures !Overdue(s.tracks[h])
  {
    forall r ensures !Committed(Position(s, r), h) {}
  }
}
