/** What every step of the session protocol keeps.

    Each invariant is shown for the difference a step makes, and then for the step. */
module SessionInvariants {
  import opened Options
  import opened SessionProtocol

  /** The same object: its name and parentage never change, and it never reopens. */
  predicate Same(k: Track, k': Track)
  {
    k'.id == k.id && k'.published == k.published && k'.owner == k.owner && (k.closed ==> k'.closed)
  }

  ghost predicate Grown(tracks: map<Handle, Track>, tracks': map<Handle, Track>)
  {
    forall h :: h in tracks ==> h in tracks' && Same(tracks[h], tracks'[h])
  }

  lemma RefersGrows(tracks: map<Handle, Track>, tracks': map<Handle, Track>, r: Request, pc: Pc)
    requires Grown(tracks, tracks') && Refers(tracks, r, pc)
    ensures Refers(tracks', r, pc)
  {}

  /** The parts of a difference that matter to `References`. */
  ghost predicate Sound(s: State, r: Request, d: Delta)
  {
    var s' := Apply(s, r, d);
    && (d.track.Some? && d.h in s.tracks ==> Same(s.tracks[d.h], d.track.value))
    && Refers(s'.tracks, r, d.pc)
    && forall id :: id in d.tables.sessions ==>
         (id in s.tables.sessions && d.tables.sessions[id] == s.tables.sessions[id])
         || SessionIn(s'.tracks, d.tables.sessions[id], id)
  }

  lemma ApplyReferences(s: State, r: Request, d: Delta)
    requires References(s) && Sound(s, r, d)
    ensures References(Apply(s, r, d)) && Grown(s.tracks, Apply(s, r, d).tracks)
  {
    var s' := Apply(s, r, d);
    assert Grown(s.tracks, s'.tracks);
    forall q | q in s'.pcs ensures !s'.pcs[q].Gone? && Refers(s'.tracks, q, s'.pcs[q]) {
      if q != r { RefersGrows(s.tracks, s'.tracks, q, s.pcs[q]); }
    }
  }

  lemma TrackMoveSound(c: Config, s: State, r: Request, pc: Pc, i: Input)
    requires References(s) && HasHandle(pc) && Refers(s.tracks, r, pc)
    ensures Sound(s, r, TrackMove(c, s, pc, s.tracks[pc.h], i))
  {
    hide Sound, ReturnMove, AfterReset;
    if pc.UpdCalling? {
      ReturnMoveSound(c, s, r, pc, i);
    } else if pc.ResetRunning? {
      AfterResetSound(s, r, pc);
    } else if pc.ScanHeld? || pc.ResetPending? {
      CleaningSound(c, s, r, pc, i);
    } else {
      UpdateSound(c, s, r, pc, i);
    }
  }

  lemma AfterResetSound(s: State, r: Request, pc: Pc)
    requires References(s) && pc.ResetRunning? && Refers(s.tracks, r, pc)
    ensures Sound(s, r, AfterReset(s, pc.h, pc.next))
  {}

  /** Expiry and the start of a reset. */
  lemma CleaningSound(c: Config, s: State, r: Request, pc: Pc, i: Input)
    requires References(s) && (pc.ScanHeld? || pc.ResetPending?) && Refers(s.tracks, r, pc)
    ensures Sound(s, r, TrackMove(c, s, pc, s.tracks[pc.h], i))
  {
    hide ReturnMove, AfterReset;
  }

  lemma UpdateSound(c: Config, s: State, r: Request, pc: Pc, i: Input)
    requires References(s) && Refers(s.tracks, r, pc)
    requires pc.UpdWait? || pc.UpdLocked? || pc.UpdChecked? || pc.UpdActive? || pc.UpdDrop?
    ensures Sound(s, r, TrackMove(c, s, pc, s.tracks[pc.h], i))
  {
    hide ReturnMove, AfterReset;
  }

  lemma ReturnMoveSound(c: Config, s: State, r: Request, pc: Pc, i: Input)
    requires References(s) && pc.UpdCalling? && Refers(s.tracks, r, pc)
    ensures Sound(s, r, ReturnMove(c, s, pc, s.tracks[pc.h], i))
  {
    hide Prune;
  }

  lemma ScanMoveSound(c: Config, s: State, r: Request, pc: Pc)
    requires References(s) && pc.Scan? && Refers(s.tracks, r, pc)
    ensures Sound(s, r, ScanMove(c, s, r, pc))
  {
    if pc.rest != [] { assert pc.rest[0] in pc.rest; }
  }

  lemma InitMoveSound(s: State, r: Request, pc: Pc, i: Input)
    requires References(s) && pc.InitRunning?
    ensures Sound(s, r, InitMove(s, r, pc, i))
  {}

  lemma MoveSound(c: Config, s: State, r: Request, pc: Pc, i: Input)
    requires References(s) && !pc.Gone? && Refers(s.tracks, r, pc)
    ensures Sound(s, r, Move(c, s, r, pc, i))
  {
    if HasHandle(pc) {
      hide Sound, TrackMove;
      TrackMoveSound(c, s, r, pc, i);
    } else if pc.Scan? {
      hide Sound, ScanMove;
      ScanMoveSound(c, s, r, pc);
    } else if pc.InitRunning? {
      hide Sound, InitMove;
      InitMoveSound(s, r, pc, i);
    } else if pc.Batch? {
      if pc.rest != [] { assert pc.rest[0] in pc.rest; }
    }
  }

  lemma ListsShared(s: State, order: seq<Handle>)
    requires References(s) && Lists(s.tables, order)
    ensures Shared(s.tracks, order, false)
  {
    forall h | h in order ensures h in s.tracks && s.tracks[h].published {
      assert h in (set g | g in order);
      assert h in s.tables.sessions.Values;
    }
  }

  lemma BeginSound(s: State, r: Request, e: Event)
    requires References(s) && !e.Advance? && !e.BeginClose?
    ensures Sound(s, r, Begin(s, r, e))
  {
    match e
    case BeginHealth(order) => if Lists(s.tables, order) { ListsShared(s, order); }
    case BeginInit(id, order) => if Lists(s.tables, order) { ListsShared(s, order); }
    case BeginUpdate(id, frame, size) =>
    case BeginReset(id) =>
  }

  lemma CloseAllReferences(s: State, r: Request, order: seq<Handle>)
    requires References(s) && r !in s.pcs && Lists(s.tables, order)
    ensures References(CloseAll(s, r, order)) && Grown(s.tracks, CloseAll(s, r, order).tracks)
  {
    var s' := CloseAll(s, r, order);
    ListsShared(s, order);
    hide Lists;
    assert Grown(s.tracks, s'.tracks);
    assert Shared(s'.tracks, order, true);
    forall q | q in s'.pcs ensures !s'.pcs[q].Gone? && Refers(s'.tracks, q, s'.pcs[q]) {
      if q != r { RefersGrows(s.tracks, s'.tracks, q, s.pcs[q]); }
    }
  }

  lemma StepReferences(c: Config, s: State, r: Request, e: Event)
    requires References(s)
    ensures References(Step(c, s, r, e)) && Grown(s.tracks, Step(c, s, r, e).tracks)
  {
    hide Sound, Lists, Move, Begin, CloseAll, Apply;
    if e.Advance? {
      if r in s.pcs {
        MoveSound(c, s, r, s.pcs[r], e.input);
        ApplyReferences(s, r, Move(c, s, r, s.pcs[r], e.input));
      }
    } else if r !in s.pcs {
      if e.BeginClose? {
        if Lists(s.tables, e.order) { CloseAllReferences(s, r, e.order); }
      } else {
        BeginSound(s, r, e);
        ApplyReferences(s, r, Begin(s, r, e));
      }
    }
  }

  // ----- session locks

  /** The session lock a request holds. */
  function Held(pc: Pc): Option<Handle>
  {
    if HasHandle(pc) && !pc.UpdWait? && !FailsInit(pc) then Some(pc.h) else None
  }

  ghost predicate Locking(s: State)
  {
    && (forall h :: h in s.locks ==> Held(Position(s, s.locks[h])) == Some(h))
    && (forall r :: r in s.pcs && Held(s.pcs[r]).Some? ==>
          Held(s.pcs[r]).value in s.locks && s.locks[Held(s.pcs[r]).value] == r)
  }

  ghost predicate Handles(s: State, pc: Pc, d: Delta)
  {
    && (Held(pc).Some? ==> Held(pc) == Some(d.h))
    && match d.hold
       case Keep => Held(d.pc) == Held(pc)
       case Take => Held(pc).None? && Held(d.pc) == Some(d.h) && d.h !in s.locks
       case Release => Held(pc) == Some(d.h) && Held(d.pc).None?
  }

  lemma MoveHandles(c: Config, s: State, r: Request, pc: Pc, i: Input)
    requires !pc.Gone? && (HasHandle(pc) ==> pc.h in s.tracks)
    ensures Handles(s, pc, Move(c, s, r, pc, i))
  {
    hide Prune, Discard, Publish, Settle, Pop, NewTrack;
  }

  lemma BeginHandles(s: State, r: Request, e: Event)
    requires References(s) && !e.Advance? && !e.BeginClose?
    ensures Handles(s, Gone, Begin(s, r, e))
  {
    hide Lists, Discard;
  }

  lemma ApplyLocking(s: State, r: Request, d: Delta)
    requires Locking(s) && Handles(s, Position(s, r), d)
    ensures Locking(Apply(s, r, d))
  {}

  lemma StepLocking(c: Config, s: State, r: Request, e: Event)
    requires References(s) && Locking(s)
    ensures Locking(Step(c, s, r, e))
  {
    hide Handles, Lists, Move, Begin, Apply;
    if e.Advance? {
      if r in s.pcs {
        MoveHandles(c, s, r, s.pcs[r], e.input);
        ApplyLocking(s, r, Move(c, s, r, s.pcs[r], e.input));
      }
    } else if r !in s.pcs {
      if !e.BeginClose? {
        BeginHandles(s, r, e);
        ApplyLocking(s, r, Begin(s, r, e));
      }
    }
  }

  // ----- the backend calls on each inference state

  /** Frames reach the backend as 1, 2, 3, ... */
  ghost predicate Numbered(started: seq<nat>) { forall i :: 0 <= i < |started| ==> started[i] == i + 1 }

  /** Length of the trailing run of failed masks. */
  function Trailing(outcomes: seq<bool>): nat
  {
    if outcomes == [] || outcomes[|outcomes| - 1] then 0 else 1 + Trailing(outcomes[..|outcomes| - 1])
  }

  /** Retained frames lie in the history window before the current coasting run, or in that run. */
  ghost predicate Windowed(c: Config, w: Work)
  {
    forall f :: f in w.frames ==> 0 <= f <= w.lastSeq && w.lastSeq - w.coast - c.historyLimit < f
  }

  ghost predicate Counted(c: Config, w: Work)
  {
    && |w.outcomes| == w.lastSeq && w.coast == Trailing(w.outcomes) && w.coast <= c.maxCoast
    && Windowed(c, w)
  }

  /** Between two calls of `backend.update`. */
  ghost predicate Settled(c: Config, w: Work) { |w.started| == w.lastSeq && Counted(c, w) }

  /** Inside the call for `frame`. */
  ghost predicate Midway(c: Config, w: Work, frame: nat)
  {
    frame == w.lastSeq + 1 && |w.started| == frame && Counted(c, w)
  }

  /** The position of the request holding the lock of `h`. */
  function Stage(s: State, h: Handle): Pc { if h in s.locks then Position(s, s.locks[h]) else Gone }

  ghost predicate TrackOk(c: Config, k: Track, stage: Pc)
  {
    && Numbered(k.work.started) && (k.wasReset || !k.published ==> k.closed)
    && (stage.Gone? || stage.ScanHeld? || stage.UpdLocked? ==> k.closed || Settled(c, k.work))
    && (stage.UpdChecked? || stage.UpdActive? ==> !k.wasReset && Settled(c, k.work))
    && (stage.UpdCalling? ==> !k.wasReset && Midway(c, k.work, stage.frame))
    && (stage.ResetPending? || stage.ResetRunning? ==> k.closed)
  }

  ghost predicate Histories(c: Config, s: State)
  {
    forall h :: h in s.tracks ==> TrackOk(c, s.tracks[h], Stage(s, h))
  }

  /** The stage of `d.h` after the difference. */
  function NextStage(s: State, d: Delta): Pc
  {
    if Held(d.pc).Some? then d.pc else if d.hold.Release? then Gone else Stage(s, d.h)
  }

  ghost predicate Healthy(c: Config, s: State, pc: Pc, d: Delta)
  {
    && (d.track.Some? ==> TrackOk(c, d.track.value, NextStage(s, d)))
    && (d.track.None? && d.h in s.tracks && (Held(pc).Some? || Held(d.pc).Some?) ==>
        TrackOk(c, s.tracks[d.h], NextStage(s, d)))
  }

  lemma ApplyHistories(c: Config, s: State, r: Request, d: Delta)
    requires Locking(s) && Handles(s, Position(s, r), d) && Histories(c, s) && Healthy(c, s, Position(s, r), d)
    ensures Histories(c, Apply(s, r, d))
  {
    hide TrackOk;
    var s' := Apply(s, r, d);
    forall h | h in s'.tracks ensures TrackOk(c, s'.tracks[h], Stage(s', h)) {
      if h == d.h {
        assert Held(Position(s, r)).Some? || Held(d.pc).Some? || Stage(s', h) == Stage(s, h);
      } else {
        assert Stage(s', h) == Stage(s, h);
      }
    }
  }

  lemma TrailingStep(outcomes: seq<bool>)
    ensures Trailing(outcomes + [true]) == 0 && Trailing(outcomes + [false]) == Trailing(outcomes) + 1
  {
    assert (outcomes + [false])[..|outcomes|] == outcomes;
  }

  lemma MaskSettles(c: Config, w: Work, frame: nat, now: real)
    requires c.historyLimit > 0 && Midway(c, w, frame)
    ensures Settled(c, Work(frame, 0, now, w.size, w.started, w.outcomes + [true],
                            Prune(w.frames + {frame}, frame, c.historyLimit)))
  {
    TrailingStep(w.outcomes);
  }

  lemma CoastSettles(c: Config, w: Work, frame: nat, now: real)
    requires c.historyLimit > 0 && Midway(c, w, frame) && w.coast < c.maxCoast
    ensures Settled(c, w.(outcomes := w.outcomes + [false], frames := w.frames + {frame},
                          coast := w.coast + 1, lastSeq := frame, lastAccess := now))
  {
    TrailingStep(w.outcomes);
  }

  lemma ReturnHealthy(c: Config, s: State, pc: Pc, k: Track, i: Input)
    requires c.historyLimit > 0 && pc.UpdCalling? && TrackOk(c, k, pc)
    ensures var d := ReturnMove(c, s, pc, k, i); d.track.Some? && TrackOk(c, d.track.value, NextStage(s, d))
  {
    MaskSettles(c, k.work, pc.frame, i.now);
    if k.work.coast < c.maxCoast { CoastSettles(c, k.work, pc.frame, i.now); }
    hide Prune, Settled, Midway;
  }

  lemma TrackHealthy(c: Config, s: State, r: Request, pc: Pc, i: Input)
    requires c.historyLimit > 0 && HasHandle(pc) && pc.h in s.tracks
        && (FailsInit(pc) ==> s.tracks[pc.h].closed && Stage(s, pc.h).Gone?)
    requires Histories(c, s) && (Held(pc).Some? ==> Stage(s, pc.h) == pc)
    ensures Healthy(c, s, pc, TrackMove(c, s, pc, s.tracks[pc.h], i))
  {
    hide TrackOk, ReturnMove;
    var k := s.tracks[pc.h];
    assert TrackOk(c, k, Stage(s, pc.h));
    if pc.UpdCalling? {
      ReturnHealthy(c, s, pc, k, i);
    } else if pc.UpdActive? {
      CallHealthy(c, s, pc, k, i);
    } else {
      OtherHealthy(c, s, pc, k, i);
    }
  }

  lemma CallHealthy(c: Config, s: State, pc: Pc, k: Track, i: Input)
    requires c.historyLimit > 0 && pc.UpdActive? && pc.h in s.tracks && k == s.tracks[pc.h]
    requires TrackOk(c, k, pc) && Stage(s, pc.h) == pc
    ensures Healthy(c, s, pc, TrackMove(c, s, pc, k, i))
  {
    hide ReturnMove;
  }

  lemma OtherHealthy(c: Config, s: State, pc: Pc, k: Track, i: Input)
    requires c.historyLimit > 0 && HasHandle(pc) && pc.h in s.tracks && k == s.tracks[pc.h]
    requires !pc.UpdCalling? && !pc.UpdActive? && TrackOk(c, k, Stage(s, pc.h))
    requires Held(pc).Some? ==> Stage(s, pc.h) == pc
    requires FailsInit(pc) ==> k.closed && Stage(s, pc.h).Gone?
    ensures Healthy(c, s, pc, TrackMove(c, s, pc, k, i))
  {
    hide ReturnMove, Settled, Midway, Numbered;
  }

  /** Nobody holds the lock of a session that was never published. */
  lemma UnpublishedIsFree(s: State, r: Request)
    requires References(s) && Locking(s) && r in s.pcs && FailsInit(s.pcs[r])
    ensures Stage(s, s.pcs[r].h).Gone?
  {}

  lemma MoveHealthy(c: Config, s: State, r: Request, i: Input)
    requires c.historyLimit > 0 && References(s) && Locking(s) && Histories(c, s) && r in s.pcs
    ensures Healthy(c, s, s.pcs[r], Move(c, s, r, s.pcs[r], i))
  {
    hide TrackMove, InitMove, Settle, TrackOk, Histories, Stage;
    var pc := s.pcs[r];
    assert Refers(s.tracks, r, pc);
    if HasHandle(pc) {
      if FailsInit(pc) { UnpublishedIsFree(s, r); }
      if Held(pc).Some? { HeldStage(s, r); }
      TrackHealthy(c, s, r, pc, i);
    } else if pc.InitRunning? {
      InitHealthy(c, s, r, pc, i);
    } else if (pc.Scan? || pc.Batch?) && pc.rest != [] {
      assert pc.rest[0] in pc.rest;
      FreeTrackOk(c, s, pc.rest[0]);
      ListHealthy(c, s, s.tracks[pc.rest[0]], pc);
    }
  }

  /** What is taken from a list is free, and closed if it is to be reset. */
  lemma ListHealthy(c: Config, s: State, k: Track, pc: Pc)
    requires (pc.Scan? || pc.Batch?) && pc.rest != [] && (pc.Batch? ==> k.closed)
    ensures TrackOk(c, k, Gone) ==>
              if pc.Scan? then TrackOk(c, k, ScanHeld(pc.rest[0], pc.rest[1..], pc.goal))
              else TrackOk(c, k, ResetPending(pc.rest[0], NextOf(pc.rest[1..])))
  {
    hide Numbered, Settled, Midway;
  }

  lemma HeldStage(s: State, r: Request)
    requires Locking(s) && r in s.pcs && Held(s.pcs[r]).Some?
    ensures Stage(s, Held(s.pcs[r]).value) == s.pcs[r]
  {}

  lemma FreeTrackOk(c: Config, s: State, h: Handle)
    requires Histories(c, s) && h in s.tracks
    ensures h !in s.locks ==> TrackOk(c, s.tracks[h], Gone)
  {
    assert h !in s.locks ==> Stage(s, h).Gone?;
  }

  lemma InitHealthy(c: Config, s: State, r: Request, pc: Pc, i: Input)
    requires c.historyLimit > 0 && References(s) && Locking(s) && pc.InitRunning?
    ensures Healthy(c, s, pc, InitMove(s, r, pc, i))
  {
    FreshHealthy(c, r, i);
    FreshIsFree(s, i.created);
    hide TrackOk, Publish, NewTrack;
  }

  lemma FreshHealthy(c: Config, r: Request, i: Input)
    requires c.historyLimit > 0
    ensures forall id, p :: TrackOk(c, NewTrack(r, id, i.now, i.size, p), Gone)
  {}

  lemma FreshIsFree(s: State, h: Handle)
    requires References(s) && Locking(s)
    ensures h !in s.tracks ==> Stage(s, h).Gone?
  {
    if h in s.locks { assert Refers(s.tracks, s.locks[h], s.pcs[s.locks[h]]); }
  }

  lemma BeginHealthy(c: Config, s: State, r: Request, e: Event)
    requires References(s) && Histories(c, s) && !e.Advance? && !e.BeginClose?
    ensures Healthy(c, s, Gone, Begin(s, r, e))
  {
    hide Lists, Discard, Settled, Midway;
    if e.BeginReset? && e.id in s.tables.sessions {
      var h := s.tables.sessions[e.id];
      assert TrackOk(c, s.tracks[h], Stage(s, h));
    }
  }

  lemma CloseAllHistories(c: Config, s: State, r: Request, order: seq<Handle>)
    requires Locking(s) && Histories(c, s) && r !in s.pcs
    ensures Histories(c, CloseAll(s, r, order))
  {
    hide Settled, Midway;
    var s' := CloseAll(s, r, order);
    forall h | h in s'.tracks ensures TrackOk(c, s'.tracks[h], Stage(s', h)) {
      assert TrackOk(c, s.tracks[h], Stage(s, h));
      assert h in s.locks ==> s.locks[h] != r;
      assert Stage(s', h) == Stage(s, h);
    }
  }

  lemma StepHistories(c: Config, s: State, r: Request, e: Event)
    requires c.historyLimit > 0 && References(s) && Locking(s) && Histories(c, s)
    ensures Histories(c, Step(c, s, r, e))
  {
    hide Healthy, Handles, Lists, Move, Begin, Apply, CloseAll, Histories;
    if e.Advance? {
      if r in s.pcs {
        MoveHandles(c, s, r, s.pcs[r], e.input);
        MoveHealthy(c, s, r, e.input);
        ApplyHistories(c, s, r, Move(c, s, r, s.pcs[r], e.input));
      }
    } else if r !in s.pcs {
      if e.BeginClose? {
        CloseAllHistories(c, s, r, e.order);
      } else {
        BeginHandles(s, r, e);
        BeginHealthy(c, s, r, e);
        ApplyHistories(c, s, r, Begin(s, r, e));
      }
    }
  }

  // ----- the session table

  predicate Open(k: Track) { k.published && !k.closed }

  /** Reserved ids are not in the table, and the open published sessions are exactly the listed ones,
      plus those another publication has overwritten. */
  ghost predicate TableOk(s: State)
  {
    && s.tables.sessions.Keys !! s.tables.reserved.Keys
    && (forall id :: id in s.tables.sessions ==>
          s.tables.sessions[id] in s.tracks && Open(s.tracks[s.tables.sessions[id]]))
    && (forall h :: h in s.tracks && Open(s.tracks[h]) ==>
          Listed(s.tables, s.tracks[h].id, h) || h in s.tables.replaced)
    && s.tables.replaced <= s.tracks.Keys
  }

  /** The table keeps its sessions, and no session opens or closes. */
  lemma TableUnmoved(s: State, r: Request, d: Delta)
    requires References(s) && TableOk(s) && d.tables.sessions == s.tables.sessions
        && d.tables.replaced == s.tables.replaced
    requires d.tables.sessions.Keys !! d.tables.reserved.Keys
    requires d.track.Some? ==>
               if d.h in s.tracks then Same(s.tracks[d.h], d.track.value)
                   && s.tracks[d.h].closed == d.track.value.closed
               else !d.track.value.published
    ensures TableOk(Apply(s, r, d))
  {}

  /** A session is closed and leaves the table, if it was listed. */
  lemma TablePopped(s: State, r: Request, d: Delta)
    requires References(s) && TableOk(s) && d.h in s.tracks && d.track.Some?
    requires d.track.value == s.tracks[d.h].(closed := true)
    requires d.tables.sessions == Pop(s.tables, s.tracks[d.h].id, d.h).sessions
        && d.tables.replaced == s.tables.replaced
    requires d.tables.reserved.Keys <= s.tables.reserved.Keys
    ensures TableOk(Apply(s, r, d))
  {
    var s' := Apply(s, r, d);
    forall id | id in s'.tables.sessions
        ensures s'.tables.sessions[id] in s'.tracks && Open(s'.tracks[s'.tables.sessions[id]]) {
      assert SessionIn(s.tracks, s.tables.sessions[id], id);
    }
  }

  lemma DiscardKeys(t: Tables, r: Request, id: Id)
    ensures Discard(t, r, id).reserved.Keys == t.reserved.Keys - {id}
    ensures Discard(t, r, id).sessions == t.sessions && Discard(t, r, id).replaced == t.replaced
  {}

  lemma TablePublished(s: State, r: Request, id: Id, d: Delta)
    requires References(s) && TableOk(s) && d.h !in s.tracks && d.track.Some?
    requires d.track.value.id == id && Open(d.track.value)
    requires d.tables == Publish(s.tables, r, id, d.h)
    ensures TableOk(Apply(s, r, d))
  {
    DiscardKeys(s.tables, r, id);
    hide Discard;
  }

  lemma TrackMoveTable(c: Config, s: State, r: Request, pc: Pc, i: Input)
    requires References(s) && TableOk(s) && HasHandle(pc) && Refers(s.tracks, r, pc)
    ensures TableOk(Apply(s, r, TrackMove(c, s, pc, s.tracks[pc.h], i)))
  {
    hide Apply, TableOk, Prune;
    var d := TrackMove(c, s, pc, s.tracks[pc.h], i);
    assert s.tables.sessions.Keys !! s.tables.reserved.Keys by { TableDisjoint(s); }
    if pc.UpdDrop? || (d.track.Some? && d.track.value.closed && !s.tracks[pc.h].closed) {
      TablePopped(s, r, d);
    } else {
      TableUnmoved(s, r, d);
    }
  }

  lemma TableDisjoint(s: State)
    requires TableOk(s)
    ensures s.tables.sessions.Keys !! s.tables.reserved.Keys
  {}

  lemma MoveTable(c: Config, s: State, r: Request, pc: Pc, i: Input)
    requires References(s) && TableOk(s) && !pc.Gone? && Refers(s.tracks, r, pc)
    ensures TableOk(Apply(s, r, Move(c, s, r, pc, i)))
  {
    hide Apply, TableOk;
    TableDisjoint(s);
    if HasHandle(pc) {
      hide TrackMove;
      TrackMoveTable(c, s, r, pc, i);
    } else if pc.InitRunning? && i.outcome.Masked? && i.created !in s.tracks && i.outcome.ok {
      hide Publish;
      TablePublished(s, r, pc.id, Move(c, s, r, pc, i));
    } else {
      if pc.InitFinally? {
        DiscardKeys(s.tables, r, pc.id);
        hide Discard;
      }
      TableUnmoved(s, r, Move(c, s, r, pc, i));
    }
  }

  lemma BeginTable(s: State, r: Request, e: Event)
    requires References(s) && TableOk(s) && !e.Advance? && !e.BeginClose?
    ensures TableOk(Apply(s, r, Begin(s, r, e)))
  {
    hide Apply, TableOk, Lists;
    TableDisjoint(s);
    if e.BeginReset? {
      DiscardKeys(s.tables, r, e.id);
      hide Discard;
      if e.id in s.tables.sessions {
        assert SessionIn(s.tracks, s.tables.sessions[e.id], e.id);
        TablePopped(s, r, Begin(s, r, e));
      } else {
        TableUnmoved(s, r, Begin(s, r, e));
      }
    } else {
      TableUnmoved(s, r, Begin(s, r, e));
    }
  }

  lemma ListedInOrder(t: Tables, order: seq<Handle>, id: Id, h: Handle)
    requires Lists(t, order) && Listed(t, id, h)
    ensures h in order
  {
    assert h in t.sessions.Values;
    assert h in (set g | g in order);
  }

  lemma CloseAllTable(s: State, r: Request, order: seq<Handle>)
    requires References(s) && TableOk(s) && Lists(s.tables, order)
    ensures TableOk(CloseAll(s, r, order))
  {
    var s' := CloseAll(s, r, order);
    forall h | h in s'.tracks && Open(s'.tracks[h]) ensures h in s'.tables.replaced {
      if Listed(s.tables, s.tracks[h].id, h) { ListedInOrder(s.tables, order, s.tracks[h].id, h); }
    }
  }

  lemma StepTable(c: Config, s: State, r: Request, e: Event)
    requires References(s) && TableOk(s)
    ensures TableOk(Step(c, s, r, e))
  {
    hide Lists, Move, Begin, Apply, CloseAll, TableOk;
    if e.Advance? {
      if r in s.pcs { MoveTable(c, s, r, s.pcs[r], e.input); }
    } else if r !in s.pcs {
      if e.BeginClose? {
        if Lists(s.tables, e.order) { CloseAllTable(s, r, e.order); }
      } else {
        BeginTable(s, r, e);
      }
    }
  }

  // ----- reservations and capacity

  /** The id an init still has to publish, and so should have reserved. */
  function PendingId(pc: Pc): Option<Id>
  {
    match pc
    case InitRunning(id) => Some(id)
    case InitFinally(id, published) => if published then None else Some(id)
    case ResetPending(_, next) => if next.FailInit? then Some(next.id) else None
    case ResetRunning(_, next) => if next.FailInit? then Some(next.id) else None
    case _ => None
  }

  predicate Owns(t: Tables, r: Request, id: Id) { id in t.reserved && t.reserved[id] == r }

  predicate Orphaned(t: Tables, r: Request, pc: Pc)
  {
    PendingId(pc).Some? && !Owns(t, r, PendingId(pc).value)
  }

  /** Every reservation belongs to an init that needs it; the orphans are the inits without theirs. */
  ghost predicate Reservations(s: State)
  {
    && (forall id :: id in s.tables.reserved ==> PendingId(Position(s, s.tables.reserved[id])) == Some(id))
    && (forall r :: r in s.tables.orphans <==> Orphaned(s.tables, r, Position(s, r)))
  }

  lemma ReservationsUnmoved(s: State, r: Request, d: Delta)
    requires Reservations(s) && PendingId(d.pc) == PendingId(Position(s, r))
    requires d.tables.reserved == s.tables.reserved && d.tables.orphans == s.tables.orphans
    ensures Reservations(Apply(s, r, d))
  {}

  lemma ReservationsAdded(s: State, r: Request, id: Id, d: Delta)
    requires Reservations(s) && PendingId(Position(s, r)).None? && PendingId(d.pc) == Some(id)
    requires id !in s.tables.reserved && d.tables.reserved == s.tables.reserved[id := r]
    requires d.tables.orphans == s.tables.orphans
    ensures Reservations(Apply(s, r, d))
  {}

  /** The request gives up its own reservation, if it has one, and perhaps somebody else's. */
  lemma ReservationsSettled(s: State, r: Request, id: Id, d: Delta)
    requires Reservations(s) && PendingId(d.pc).None?
    requires PendingId(Position(s, r)).None? || PendingId(Position(s, r)) == Some(id)
    requires d.tables.reserved == Settle(s.tables, r, id).reserved
        && d.tables.orphans == Settle(s.tables, r, id).orphans
    ensures Reservations(Apply(s, r, d))
  {
    var s' := Apply(s, r, d);
    forall q ensures q in s'.tables.orphans <==> Orphaned(s'.tables, q, Position(s', q)) {
      assert q in s.tables.orphans <==> Orphaned(s.tables, q, Position(s, q));
    }
  }

  lemma TrackMoveReservations(c: Config, s: State, pc: Pc, k: Track, i: Input)
    requires HasHandle(pc)
    ensures var d := TrackMove(c, s, pc, k, i);
            && PendingId(d.pc) == PendingId(pc) && d.tables.lost == s.tables.lost
            && d.tables.reserved == s.tables.reserved && d.tables.orphans == s.tables.orphans
            && d.tables.replaced == s.tables.replaced
            && (d.tables.sessions == s.tables.sessions || d.tables.sessions == s.tables.sessions - {k.id})
  {
    hide Prune;
  }

  lemma MoveReservations(c: Config, s: State, r: Request, i: Input)
    requires References(s) && Reservations(s) && r in s.pcs
    ensures Reservations(Apply(s, r, Move(c, s, r, s.pcs[r], i)))
  {
    hide Apply, Reservations, Discard;
    var pc := s.pcs[r];
    assert Refers(s.tracks, r, pc);
    var d := Move(c, s, r, pc, i);
    if HasHandle(pc) {
      hide TrackMove;
      TrackMoveReservations(c, s, pc, s.tracks[pc.h], i);
      ReservationsUnmoved(s, r, d);
    } else if pc.Scan? && d.pc.InitRunning? {
      ReservationsAdded(s, r, d.pc.id, d);
    } else if pc.InitFinally? {
      ReservationsSettled(s, r, pc.id, d);
    } else if d.pc.InitFinally? && d.pc.published {
      ReservationsSettled(s, r, pc.id, d);
    } else {
      ReservationsUnmoved(s, r, d);
    }
  }

  lemma BeginReservations(s: State, r: Request, e: Event)
    requires References(s) && Reservations(s) && r !in s.pcs && !e.Advance? && !e.BeginClose?
    ensures Reservations(Apply(s, r, Begin(s, r, e)))
  {
    var d := Begin(s, r, e);
    if e.BeginReset? {
      assert r !in s.tables.orphans;
      assert Settle(s.tables, r, e.id).orphans == d.tables.orphans;
      hide Apply, Reservations, Discard;
      ReservationsSettled(s, r, e.id, d);
    } else {
      hide Apply, Reservations, Lists;
      ReservationsUnmoved(s, r, d);
    }
  }

  lemma CloseAllReservations(s: State, r: Request, order: seq<Handle>)
    requires Reservations(s) && r !in s.pcs
    ensures Reservations(CloseAll(s, r, order))
  {
    var s' := CloseAll(s, r, order);
    forall q ensures q in s'.tables.orphans <==> Orphaned(s'.tables, q, Position(s', q)) {
      assert q in s.tables.orphans <==> Orphaned(s.tables, q, Position(s, q));
    }
  }

  lemma StepReservations(c: Config, s: State, r: Request, e: Event)
    requires References(s) && Reservations(s)
    ensures Reservations(Step(c, s, r, e))
  {
    hide Lists, Move, Begin, Apply, CloseAll, Reservations;
    if e.Advance? {
      if r in s.pcs { MoveReservations(c, s, r, e.input); }
    } else if r !in s.pcs {
      if e.BeginClose? {
        CloseAllReservations(s, r, e.order);
      } else {
        BeginReservations(s, r, e);
      }
    }
  }

  /** At most `maxSessions` sessions and reservations, plus one for every reservation that was lost and
      whose init has since ended; likewise for the sessions overwritten in the table. */
  ghost predicate Capacity(c: Config, t: Tables)
  {
    && |t.sessions| + |t.reserved| + |t.orphans| <= c.maxSessions + t.lost
    && |t.orphans| + |t.replaced| <= t.lost
  }

  lemma MapSizes<K, V>(m: map<K, V>, k: K, v: V)
    ensures |m[k := v]| == if k in m then |m| else |m| + 1
    ensures |m - {k}| == if k in m then |m| - 1 else |m|
  {
    assert m[k := v].Keys == m.Keys + {k};
    assert (m - {k}).Keys == m.Keys - {k};
  }

  lemma DiscardCapacity(c: Config, t: Tables, r: Request, id: Id)
    requires Capacity(c, t)
    ensures var d := Discard(t, r, id);
            Capacity(c, d) && d.sessions == t.sessions
                && |d.reserved| == |t.reserved| - if id in t.reserved then 1 else 0
  {
    if id in t.reserved {
      MapSizes(t.reserved, id, r);
      assert |t.orphans + {t.reserved[id]}| <= |t.orphans| + 1;
    }
  }

  lemma PublishCapacity(c: Config, t: Tables, r: Request, id: Id, h: Handle)
    requires Capacity(c, t) && t.sessions.Keys !! t.reserved.Keys && (Owns(t, r, id) || r in t.orphans)
    ensures Capacity(c, Publish(t, r, id, h))
  {
    var d := Discard(t, r, id);
    DiscardCapacity(c, t, r, id);
    MapSizes(d.sessions, id, h);
    assert |d.orphans - {r}| == |d.orphans| - if r in d.orphans then 1 else 0;
    if id in d.sessions { assert |d.replaced + {d.sessions[id]}| <= |d.replaced| + 1; }
  }

  lemma ReserveCapacity(c: Config, t: Tables, r: Request, id: Id)
    requires Capacity(c, t) && id !in t.reserved && |t.sessions| + |t.reserved| < c.maxSessions
    ensures Capacity(c, t.(reserved := t.reserved[id := r]))
  {
    MapSizes(t.reserved, id, r);
  }

  lemma ShrunkCapacity(c: Config, t: Tables, t': Tables, id: Id)
    requires Capacity(c, t) && t'.reserved == t.reserved && t'.orphans == t.orphans
    requires t'.lost == t.lost && t'.replaced == t.replaced
    requires t'.sessions == t.sessions || t'.sessions == t.sessions - {id}
    ensures Capacity(c, t')
  {
    if id in t.sessions { MapSizes(t.sessions, id, t.sessions[id]); } else { assert t.sessions - {id} == t.sessions; }
  }

  lemma MoveCapacity(c: Config, s: State, r: Request, i: Input)
    requires References(s) && TableOk(s) && Reservations(s) && Capacity(c, s.tables) && r in s.pcs
    ensures Capacity(c, Move(c, s, r, s.pcs[r], i).tables)
  {
    hide Capacity, Discard, Publish;
    var pc, t := s.pcs[r], s.tables;
    assert Refers(s.tracks, r, pc);
    var d := Move(c, s, r, pc, i);
    if HasHandle(pc) {
      TrackMoveReservations(c, s, pc, s.tracks[pc.h], i);
      hide TrackMove;
      ShrunkCapacity(c, t, d.tables, s.tracks[pc.h].id);
    } else if pc.Scan? && d.pc.InitRunning? {
      ReserveCapacity(c, t, r, d.pc.id);
    } else if pc.InitFinally? {
      SettleCapacity(c, t, r, pc.id);
    } else if d.pc.InitFinally? && d.pc.published {
      assert Owns(t, r, pc.id) || r in t.orphans;
      TableDisjoint(s);
      PublishCapacity(c, t, r, pc.id, i.created);
    }
  }

  lemma SettleCapacity(c: Config, t: Tables, r: Request, id: Id)
    requires Capacity(c, t)
    ensures Capacity(c, Settle(t, r, id))
  {
    DiscardCapacity(c, t, r, id);
    var d := Discard(t, r, id);
    assert |d.orphans - {r}| <= |d.orphans|;
  }

  lemma BeginCapacity(c: Config, s: State, r: Request, e: Event)
    requires References(s) && Capacity(c, s.tables) && !e.Advance? && !e.BeginClose?
    ensures Capacity(c, Begin(s, r, e).tables)
  {
    hide Lists;
    if e.BeginReset? {
      var d := Discard(s.tables, r, e.id);
      DiscardCapacity(c, s.tables, r, e.id);
      hide Capacity;
      ShrunkCapacity(c, d, Begin(s, r, e).tables, e.id);
    }
  }

  lemma {:induction false} ValuesSize<K, V>(m: map<K, V>)
    ensures |m.Values| <= |m|
    decreases |m|
  {
    if m != map[] {
      var k :| k in m;
      var m' := m - {k};
      MapSizes(m, k, m[k]);
      ValuesSize(m');
      assert m.Values == m'.Values + {m[k]} by {
        forall v | v in m.Values ensures v in m'.Values + {m[k]} {
          var j :| j in m && m[j] == v;
          if j != k { assert j in m' && m'[j] == v; }
        }
      }
    } else {
      assert m.Values == {};
    }
  }

  lemma CloseAllCapacity(c: Config, s: State, r: Request, order: seq<Handle>)
    requires Capacity(c, s.tables)
    ensures Capacity(c, CloseAll(s, r, order).tables)
  {
    ValuesSize(s.tables.reserved);
    assert |s.tables.orphans + s.tables.reserved.Values| <= |s.tables.orphans| + |s.tables.reserved.Values|;
  }

  lemma StepCapacity(c: Config, s: State, r: Request, e: Event)
    requires References(s) && TableOk(s) && Reservations(s) && Capacity(c, s.tables)
    ensures Capacity(c, Step(c, s, r, e).tables)
  {
    hide Lists, Move, Begin, Capacity, CloseAll;
    if e.Advance? {
      if r in s.pcs { MoveCapacity(c, s, r, e.input); }
    } else if r !in s.pcs {
      if e.BeginClose? {
        CloseAllCapacity(c, s, r, e.order);
      } else {
        BeginCapacity(c, s, r, e);
      }
    }
  }

  // ----- nothing closed is forgotten

  /** The request is bound to call `backend.reset` on `h`, if `h` is closed. */
  predicate Committed(pc: Pc, h: Handle)
  {
    || (Evicts(pc) && h in Rest(pc))
    || ((pc.ResetPending? || pc.UpdChecked?) && pc.h == h)
  }

  predicate Overdue(k: Track) { k.closed && !k.wasReset }

  ghost predicate Commitments(s: State)
  {
    forall h :: h in s.tracks && Overdue(s.tracks[h]) ==> exists r :: Committed(Position(s, r), h)
  }

  ghost predicate Commits(s: State, r: Request, pc: Pc, d: Delta)
  {
    var tracks' := Apply(s, r, d).tracks;
    && (forall h :: Committed(pc, h) && h in s.tracks && Overdue(s.tracks[h]) && Overdue(tracks'[h]) ==>
        Committed(d.pc, h))
    && (d.track.Some? && Overdue(d.track.value) && (d.h in s.tracks ==> !Overdue(s.tracks[d.h])) ==>
        Committed(d.pc, d.h))
  }

  lemma ApplyCommitments(s: State, r: Request, d: Delta)
    requires Commitments(s) && Commits(s, r, Position(s, r), d)
    ensures Commitments(Apply(s, r, d))
  {
    var s' := Apply(s, r, d);
    forall h | h in s'.tracks && Overdue(s'.tracks[h]) ensures exists q :: Committed(Position(s', q), h) {
      if h in s.tracks && Overdue(s.tracks[h]) {
        var q :| Committed(Position(s, q), h);
        if q == r { assert Committed(Position(s', r), h); } else { assert Position(s', q) == Position(s, q); }
      } else {
        assert Committed(Position(s', r), h);
      }
    }
  }

  lemma MoveCommits(c: Config, s: State, r: Request, pc: Pc, i: Input)
    requires !pc.Gone? && (HasHandle(pc) ==> pc.h in s.tracks)
    ensures Commits(s, r, pc, Move(c, s, r, pc, i))
  {
    hide TrackMove, ScanMove, InitMove, Settle, Commits;
    if HasHandle(pc) {
      TrackMoveCommits(c, s, r, pc, i);
    } else if pc.Scan? {
      ScanMoveCommits(c, s, r, pc);
    } else if pc.InitRunning? {
      InitMoveCommits(s, r, pc, i);
    } else if pc.InitFinally? {
      NoTrackCommits(s, r, pc, Move(c, s, r, pc, i));
    } else {
      BatchCommits(s, r, pc, Move(c, s, r, pc, i));
    }
  }

  lemma NoTrackCommits(s: State, r: Request, pc: Pc, d: Delta)
    requires d.track.None? && forall h :: !Committed(pc, h)
    ensures Commits(s, r, pc, d)
  {
    hide Committed;
  }

  lemma ScanMoveCommits(c: Config, s: State, r: Request, pc: Pc)
    requires pc.Scan?
    ensures Commits(s, r, pc, ScanMove(c, s, r, pc))
  {
    NoTrackCommits(s, r, pc, ScanMove(c, s, r, pc));
    hide Commits;
  }

  lemma InitMoveCommits(s: State, r: Request, pc: Pc, i: Input)
    requires pc.InitRunning?
    ensures Commits(s, r, pc, InitMove(s, r, pc, i))
  {
    hide Publish;
  }

  lemma BatchCommits(s: State, r: Request, pc: Pc, d: Delta)
    requires pc.Batch?
    requires d == if pc.rest == [] then Delta(Gone, Keep, 0, None, s.tables)
                  else if pc.rest[0] in s.locks then Stay(s, pc)
                  else Delta(ResetPending(pc.rest[0], NextOf(pc.rest[1..])), Take, pc.rest[0], None, s.tables)
    ensures Commits(s, r, pc, d)
  {}

  lemma TrackMoveCommits(c: Config, s: State, r: Request, pc: Pc, i: Input)
    requires HasHandle(pc) && pc.h in s.tracks
    ensures Commits(s, r, pc, TrackMove(c, s, pc, s.tracks[pc.h], i))
  {
    hide Prune, Pop;
  }

  lemma BeginCommits(s: State, r: Request, e: Event)
    requires References(s) && !e.Advance? && !e.BeginClose?
    ensures Commits(s, r, Gone, Begin(s, r, e))
  {
    hide Lists, Discard;
  }

  lemma CloseAllCommitments(s: State, r: Request, order: seq<Handle>)
    requires Commitments(s) && r !in s.pcs
    ensures Commitments(CloseAll(s, r, order))
  {
    var s' := CloseAll(s, r, order);
    forall h | h in s'.tracks && Overdue(s'.tracks[h]) ensures exists q :: Committed(Position(s', q), h) {
      if h in s.tracks && Overdue(s.tracks[h]) {
        var q :| Committed(Position(s, q), h);
        assert Position(s', q) == Position(s, q);
      } else {
        assert Committed(Position(s', r), h);
      }
    }
  }

  lemma StepCommitments(c: Config, s: State, r: Request, e: Event)
    requires References(s) && Commitments(s)
    ensures Commitments(Step(c, s, r, e))
  {
    hide Lists, Move, Begin, Apply, CloseAll, Commits, Commitments;
    if e.Advance? {
      if r in s.pcs {
        MoveCommits(c, s, r, s.pcs[r], e.input);
        ApplyCommitments(s, r, Move(c, s, r, s.pcs[r], e.input));
      }
    } else if r !in s.pcs {
      if e.BeginClose? {
        CloseAllCommitments(s, r, e.order);
      } else {
        BeginCommits(s, r, e);
        ApplyCommitments(s, r, Begin(s, r, e));
      }
    }
  }
}
