/** What a session gets: when it enters and leaves the table, and which updates are served.

    Everything here is stated on clock readings, frame numbers and backend outcomes. */
module SessionProgress {
  import opened Options
  import opened SessionProtocol
  import opened SessionInvariants
  import opened SessionRuns
  import opened SessionCapacity

  // ----- the table, one step at a time

  predicate Advances(s: State, r: Request, e: Event) { r in s.pcs && e.Advance? }

  /** An init whose mask is accepted puts `h` into the table under `id`. */
  predicate Publishes(s: State, r: Request, e: Event, id: Id, h: Handle)
  {
    && Advances(s, r, e) && s.pcs[r] == InitRunning(id)
    && e.input.outcome == Masked(true) && e.input.created == h && h !in s.tracks
  }

  /** A reset of `id`, a shutdown, or a publication under the same id. */
  ghost predicate Displaces(s: State, r: Request, e: Event, id: Id)
  {
    || (r !in s.pcs && e == BeginReset(id))
    || (r !in s.pcs && e.BeginClose? && Lists(s.tables, e.order))
    || (e.Advance? && Publishes(s, r, e, id, e.input.created))
  }

  /** A scan or an update looks at the session more than the timeout after its last access. */
  predicate TimesOut(c: Config, s: State, r: Request, e: Event, h: Handle)
  {
    && Advances(s, r, e) && (s.pcs[r].ScanHeld? || s.pcs[r].UpdLocked?) && s.pcs[r].h == h
    && h in s.tracks && e.input.now - s.tracks[h].work.lastAccess > c.timeout
  }

  /** The update that was refused takes the session out. */
  predicate Drops(s: State, r: Request, e: Event, h: Handle) { Advances(s, r, e) && s.pcs[r] == UpdDrop(h) }

  ghost predicate Departs(c: Config, s: State, r: Request, e: Event, id: Id, h: Handle)
  {
    Displaces(s, r, e, id) || TimesOut(c, s, r, e, h) || Drops(s, r, e, h)
  }

  lemma ListedIsOpen(s: State, id: Id, h: Handle)
    requires References(s) && TableOk(s) && Listed(s.tables, id, h)
    ensures h in s.tracks && s.tracks[h].id == id && s.tracks[h].published && !s.tracks[h].closed
  {
    assert SessionIn(s.tracks, s.tables.sessions[id], id);
  }

  lemma PopIff(t: Tables, j: Id, g: Handle, id: Id, h: Handle)
    ensures Listed(Pop(t, j, g), id, h) <==> Listed(t, id, h) && !(j == id && g == h)
  {}

  lemma TrackMoveTableIff(c: Config, s: State, r: Request, i: Input, id: Id, h: Handle)
    requires References(s) && TableOk(s) && r in s.pcs && HasHandle(s.pcs[r]) && s.pcs[r].h in s.tracks
    ensures Listed(TrackMove(c, s, s.pcs[r], s.tracks[s.pcs[r].h], i).tables, id, h) <==>
            Listed(s.tables, id, h) && !TimesOut(c, s, r, Advance(i), h) && !Drops(s, r, Advance(i), h)
  {
    hide Pop, Prune;
    if Listed(s.tables, id, h) { ListedIsOpen(s, id, h); }
    hide References, TableOk;
    PopIff(s.tables, s.tracks[s.pcs[r].h].id, s.pcs[r].h, id, h);
  }

  lemma PublishIff(t: Tables, r: Request, j: Id, g: Handle, id: Id, h: Handle)
    ensures Listed(Publish(t, r, j, g), id, h) <==> if j == id then g == h else Listed(t, id, h)
  {
    DiscardKeys(t, r, j);
    hide Discard;
  }

  lemma OtherMoveTableIff(c: Config, s: State, r: Request, i: Input, id: Id, h: Handle)
    requires r in s.pcs && !s.pcs[r].Gone? && !HasHandle(s.pcs[r])
    requires forall j :: j in s.tables.sessions ==> s.tables.sessions[j] in s.tracks
    ensures Listed(Move(c, s, r, s.pcs[r], i).tables, id, h) <==>
            || (Listed(s.tables, id, h) && !Publishes(s, r, Advance(i), id, i.created))
            || Publishes(s, r, Advance(i), id, h)
  {
    hide Publish, Discard;
    var pc := s.pcs[r];
    if pc.InitRunning? {
      PublishIff(s.tables, r, pc.id, i.created, id, h);
    } else if pc.InitFinally? {
      DiscardKeys(s.tables, r, pc.id);
    }
  }

  lemma BeginTableIff(s: State, r: Request, e: Event, id: Id, h: Handle)
    requires References(s) && r !in s.pcs && !e.Advance? && !e.BeginClose?
    ensures Listed(Begin(s, r, e).tables, id, h) <==> Listed(s.tables, id, h) && e != BeginReset(id)
  {
    hide Discard, Lists;
    if e.BeginReset? { DiscardKeys(s.tables, r, e.id); }
  }

  /** The table after any step: a session is in it exactly if it was and the step is none of the listed departures, or
      if the step publishes it. */
  lemma TableAfter(c: Config, s: State, r: Request, e: Event, id: Id, h: Handle)
    requires References(s) && TableOk(s)
    ensures Listed(Step(c, s, r, e).tables, id, h) <==>
            || (Listed(s.tables, id, h) && !Departs(c, s, r, e, id, h))
            || Publishes(s, r, e, id, h)
  {
    hide Lists, Move, Begin;
    if e.Advance? {
      if r in s.pcs {
        var pc := s.pcs[r];
        assert Refers(s.tracks, r, pc);
        MovesApart(c, s, r, e.input);
        if HasHandle(pc) {
          TrackMoveTableIff(c, s, r, e.input, id, h);
        } else {
          OtherMoveTableIff(c, s, r, e.input, id, h);
        }
      }
    } else if r !in s.pcs && !e.BeginClose? {
      BeginTableIff(s, r, e, id, h);
    }
  }

  lemma MovesApart(c: Config, s: State, r: Request, i: Input)
    requires References(s) && r in s.pcs
    ensures !s.pcs[r].Gone? && (HasHandle(s.pcs[r]) ==> s.pcs[r].h in s.tracks)
    ensures HasHandle(s.pcs[r]) ==>
              Move(c, s, r, s.pcs[r], i) == TrackMove(c, s, s.pcs[r], s.tracks[s.pcs[r].h], i)
  {
    assert Refers(s.tracks, r, s.pcs[r]);
    hide TrackMove;
  }

  // ----- why a session is gone

  /** The state after the first `n` steps of a schedule. */
  ghost function Cut(c: Config, acts: seq<Act>, n: nat): State
    requires n <= |acts|
  {
    Reached(c, acts[..n])
  }

  lemma CutSteps(c: Config, acts: seq<Act>, n: nat)
    requires n < |acts|
    ensures References(Cut(c, acts, n)) && Cut(c, acts, n + 1) == Step(c, Cut(c, acts, n), acts[n].r, acts[n].e)
  {
    hide Step, References;
    InitialReferences(c);
    RunThen(c, INITIAL, acts[..n], acts[n]);
    assert acts[..n + 1] == acts[..n] + [acts[n]];
  }

  lemma CutInv(c: Config, acts: seq<Act>, n: nat)
    requires c.historyLimit > 0 && n <= |acts|
    ensures Inv(c, Cut(c, acts, n))
  {
    hide Inv, Reached;
    ReachedInv(c, acts[..n]);
  }

  /** The wrong frame, a frame at the limit, the wrong image size; a fault, a mask the response checks reject, or no
      mask with the coasting budget used up. */
  predicate Condemns(c: Config, s: State, r: Request, e: Event, h: Handle)
  {
    && Advances(s, r, e) && h in s.tracks && var w := s.tracks[h].work;
       || (s.pcs[r].UpdActive? && s.pcs[r].h == h
             && (s.pcs[r].frame != w.lastSeq + 1 || s.pcs[r].frame >= c.maxFrames || s.pcs[r].size != w.size))
       || (s.pcs[r].UpdCalling? && s.pcs[r].h == h
             && (e.input.outcome.Fault? || e.input.outcome == Masked(false)
                 || (e.input.outcome.NoMask? && w.coast >= c.maxCoast)))
  }

  lemma TrackMoveCondemns(c: Config, s: State, r: Request, i: Input, h: Handle)
    requires References(s) && r in s.pcs && HasHandle(s.pcs[r]) && s.pcs[r].h in s.tracks
    ensures TrackMove(c, s, s.pcs[r], s.tracks[s.pcs[r].h], i).pc == UpdDrop(h) <==> Condemns(c, s, r, Advance(i), h)
  {
    hide Pop, Prune, References;
  }

  lemma OtherMoveDropsNot(c: Config, s: State, r: Request, i: Input)
    requires r in s.pcs && !s.pcs[r].Gone? && !HasHandle(s.pcs[r])
    ensures !Move(c, s, r, s.pcs[r], i).pc.UpdDrop?
  {
    hide Publish, Discard;
  }

  /** A request is about to drop a session exactly if its last step condemned it. */
  lemma DropIff(c: Config, s: State, q: Request, e: Event, r: Request, h: Handle)
    requires References(s)
    ensures Position(Step(c, s, q, e), r) == UpdDrop(h) <==>
            if q == r && Advances(s, r, e) then Condemns(c, s, r, e, h) else Position(s, r) == UpdDrop(h)
  {
    hide Lists, Move, Begin;
    if e.Advance? {
      if q in s.pcs {
        MovesApart(c, s, q, e.input);
        if q != r {
        } else if HasHandle(s.pcs[r]) {
          TrackMoveCondemns(c, s, r, e.input, h);
        } else {
          OtherMoveDropsNot(c, s, r, e.input);
        }
      }
    } else if q !in s.pcs && !e.BeginClose? {
      BeginDropsNot(s, q, e);
    }
  }

  lemma BeginDropsNot(s: State, r: Request, e: Event)
    requires References(s) && r !in s.pcs && !e.Advance? && !e.BeginClose?
    ensures !Begin(s, r, e).pc.UpdDrop?
  {
    hide Discard, Lists;
  }

  /** Step `j` of the schedule is a step of `r` that condemned `h`. */
  ghost predicate CondemnedAt(c: Config, acts: seq<Act>, j: nat, r: Request, h: Handle)
    requires j < |acts|
  {
    acts[j].r == r && Condemns(c, Cut(c, acts, j), r, acts[j].e, h)
  }

  lemma {:induction false} CondemnedBefore(c: Config, acts: seq<Act>, n: nat, r: Request, h: Handle)
    requires n <= |acts| && Position(Cut(c, acts, n), r) == UpdDrop(h)
    ensures exists j :: 0 <= j < n && CondemnedAt(c, acts, j, r, h)
  {
    if n == 0 {
      assert false;
    } else {
      CutSteps(c, acts, n - 1);
      var s, a := Cut(c, acts, n - 1), acts[n - 1];
      hide Cut, Step, References, Condemns;
      DropIff(c, s, a.r, a.e, r, h);
      if a.r == r && Advances(s, r, a.e) {
        assert CondemnedAt(c, acts, n - 1, r, h);
      } else {
        CondemnedBefore(c, acts, n - 1, r, h);
      }
    }
  }

  /** Step `k` of the schedule takes `h` out of the table: by a reset, a shutdown or an overwriting publication, by an
      access or a scan after the timeout, or by an update that an earlier step of its own condemned. */
  ghost predicate LeavesAt(c: Config, acts: seq<Act>, k: nat, id: Id, h: Handle)
    requires k < |acts|
  {
    var s, a := Cut(c, acts, k), acts[k];
    || Displaces(s, a.r, a.e, id) || TimesOut(c, s, a.r, a.e, h)
    || (Drops(s, a.r, a.e, h) && exists j :: 0 <= j < k && CondemnedAt(c, acts, j, a.r, h))
  }

  /** In every schedule a session that was listed and no longer is left for one of these reasons, and each of them takes
      a listed session out. */
  lemma {:induction false} LeavesForAReason(c: Config, acts: seq<Act>, n: nat, m: nat, id: Id, h: Handle)
    requires c.historyLimit > 0 && n <= m <= |acts| && Listed(Cut(c, acts, n).tables, id, h)
    ensures !Listed(Cut(c, acts, m).tables, id, h) <==> exists k :: n <= k < m && LeavesAt(c, acts, k, id, h)
    decreases m
  {
    hide Cut, LeavesAt, Listed;
    if n < m {
      LeavesForAReason(c, acts, n, m - 1, id, h);
      if Listed(Cut(c, acts, m - 1).tables, id, h) {
        LeavesNow(c, acts, m - 1, id, h);
      } else {
        StaysOut(c, acts, n, m - 1, id, h);
      }
    }
  }

  lemma LeavesNow(c: Config, acts: seq<Act>, k: nat, id: Id, h: Handle)
    requires c.historyLimit > 0 && k < |acts| && Listed(Cut(c, acts, k).tables, id, h)
    ensures !Listed(Cut(c, acts, k + 1).tables, id, h) <==> LeavesAt(c, acts, k, id, h)
  {
    CutInv(c, acts, k);
    CutSteps(c, acts, k);
    var s, a := Cut(c, acts, k), acts[k];
    ListedIsOpen(s, id, h);
    hide Cut, Step, CondemnedAt, Displaces, TimesOut;
    TableAfter(c, s, a.r, a.e, id, h);
    if Drops(s, a.r, a.e, h) { CondemnedBefore(c, acts, k, a.r, h); }
  }

  /** A session object enters the table once at most: handles in the table are of sessions that exist. */
  lemma StaysOut(c: Config, acts: seq<Act>, n: nat, k: nat, id: Id, h: Handle)
    requires c.historyLimit > 0 && n <= k < |acts|
    requires Listed(Cut(c, acts, n).tables, id, h) && !Listed(Cut(c, acts, k).tables, id, h)
    ensures !Listed(Cut(c, acts, k + 1).tables, id, h)
  {
    CutInv(c, acts, n);
    CutInv(c, acts, k);
    ListedIsOpen(Cut(c, acts, n), id, h);
    TracksStay(c, acts, n, k, h);
    CutSteps(c, acts, k);
    var s, a := Cut(c, acts, k), acts[k];
    hide Cut, Step, Departs;
    TableAfter(c, s, a.r, a.e, id, h);
  }

  lemma {:induction false} TracksStay(c: Config, acts: seq<Act>, n: nat, m: nat, h: Handle)
    requires n <= m <= |acts| && h in Cut(c, acts, n).tracks
    ensures h in Cut(c, acts, m).tracks
    decreases m
  {
    hide Cut, Step, References;
    if n < m {
      TracksStay(c, acts, n, m - 1, h);
      CutSteps(c, acts, m - 1);
      var s, a := Cut(c, acts, m - 1), acts[m - 1];
      StepReferences(c, s, a.r, a.e);
    }
  }

  // ----- which updates are served

  /** How far the update of `frame` by `r` has come; `w` is the session's work when the update took its lock. */
  ghost predicate Serving(s: State, r: Request, h: Handle, frame: nat, w: Work, n: nat)
  {
    && h in s.tracks && Position(s, r) == ServingAt(h, frame, w.size, n)
    && s.tracks[h].work == if n < 3 then w else w.(started := w.started + [frame])
  }

  /** Where the request is after `n` steps of its own. */
  function ServingAt(h: Handle, frame: nat, size: Size, n: nat): Pc
  {
    if n == 0 then UpdLocked(h, frame, size)
    else if n == 1 then UpdChecked(h, frame, size)
    else if n == 2 then UpdActive(h, frame, size)
    else UpdCalling(h, frame)
  }

  lemma OtherMoveSpares(c: Config, s: State, q: Request, r: Request, i: Input, h: Handle)
    requires References(s) && Locking(s) && q in s.pcs && r in s.pcs && q != r && Held(s.pcs[r]) == Some(h)
    ensures var s' := Apply(s, q, Move(c, s, q, s.pcs[q], i));
            && h in s.tracks && h in s'.tracks && s'.tracks[h] == s.tracks[h] && Position(s', r) == s.pcs[r]
  {
    hide Prune, Discard, Publish, Settle, Pop, TrackMove, ScanMove;
    var pc := s.pcs[q];
    assert Refers(s.tracks, r, s.pcs[r]) && Refers(s.tracks, q, pc);
    if HasHandle(pc) {
      TrackMoveIsLocal(c, s, pc, s.tracks[pc.h], i);
      if pc.h == h { WaitingTouchesNoTrack(c, s, pc, s.tracks[h], i); }
    } else if pc.Scan? {
      ScanTouchesNoTrack(c, s, q, pc);
    }
  }

  lemma WaitingTouchesNoTrack(c: Config, s: State, pc: Pc, k: Track, i: Input)
    requires HasHandle(pc)
    ensures pc.UpdWait? ==> TrackMove(c, s, pc, k, i).track.None?
  {
    hide Prune, Pop, ReturnMove;
  }

  lemma BeginSpares(s: State, q: Request, e: Event, h: Handle)
    requires References(s) && q !in s.pcs && !e.Advance? && h in s.tracks
    ensures var s' := if e.BeginClose? then CloseAll(s, q, e.order) else Apply(s, q, Begin(s, q, e));
            && h in s'.tracks && s'.tracks[h].work == s.tracks[h].work
            && (forall r :: r != q ==> Position(s', r) == Position(s, r))
  {
    hide Lists, Discard;
  }

  /** While a request holds a session's lock, no step of another request touches the session's work or moves it. */
  lemma OthersSpare(c: Config, s: State, q: Request, e: Event, r: Request, h: Handle)
    requires References(s) && Locking(s) && r in s.pcs && Held(s.pcs[r]) == Some(h)
    requires q != r || !e.Advance?
    ensures var s' := Step(c, s, q, e);
            && h in s.tracks && h in s'.tracks && s'.tracks[h].work == s.tracks[h].work && Position(s', r) == s.pcs[r]
  {
    assert Refers(s.tracks, r, s.pcs[r]);
    hide Lists, Move, Begin, CloseAll, Apply;
    if e.Advance? {
      if q in s.pcs { OtherMoveSpares(c, s, q, r, e.input, h); }
    } else if q !in s.pcs {
      BeginSpares(s, q, e, h);
    }
  }

  /** The request's own step takes it one stage on, if the session is listed and was accessed in time. */
  lemma OwnStepServes(c: Config, s: State, r: Request, i: Input, id: Id, h: Handle, frame: nat, w: Work, n: nat)
    requires References(s) && TableOk(s) && Listed(s.tables, id, h) && n < 3 && Serving(s, r, h, frame, w, n)
    requires n == 0 ==> i.now - w.lastAccess <= c.timeout
    requires frame == w.lastSeq + 1 && frame < c.maxFrames
    ensures Serving(Step(c, s, r, Advance(i)), r, h, frame, w, n + 1)
  {
    ListedIsOpen(s, id, h);
    hide TableOk, Prune, Pop, ReturnMove;
  }

  /** Steps of its own that a request takes in a schedule. */
  function Own(acts: seq<Act>, r: Request): nat
  {
    if acts == [] then 0
    else Own(acts[..|acts| - 1], r) + if acts[|acts| - 1].r == r && acts[|acts| - 1].e.Advance? then 1 else 0
  }

  /** No other request displaces the session, and this one looks at the clock in time. */
  ghost predicate Undisturbed(c: Config, s: State, acts: seq<Act>, r: Request, id: Id, w: Work)
    requires References(s)
  {
    forall k :: 0 <= k < |acts| ==>
      && !Displaces(Run(c, s, acts[..k]), acts[k].r, acts[k].e, id)
      && (acts[k].r == r && acts[k].e.Advance? && Own(acts[..k], r) == 0 ==>
            acts[k].e.input.now - w.lastAccess <= c.timeout)
  }

  lemma UndisturbedPrefix(c: Config, s: State, acts: seq<Act>, r: Request, id: Id, w: Work)
    requires References(s) && Undisturbed(c, s, acts, r, id, w) && acts != []
    ensures Undisturbed(c, s, acts[..|acts| - 1], r, id, w)
  {
    hide Run, Displaces, References;
    var n := |acts| - 1;
    var front := acts[..n];
    forall k | 0 <= k < n
      ensures !Displaces(Run(c, s, front[..k]), front[k].r, front[k].e, id)
      ensures front[k].r == r && front[k].e.Advance? && Own(front[..k], r) == 0 ==>
                front[k].e.input.now - w.lastAccess <= c.timeout
    {
      assert front[..k] == acts[..k];
    }
  }

  /** An update that holds the lock of a listed session, in time and with the next frame of the right size below the
      limit, reaches the backend with that frame after three steps of its own, whatever the other requests do in
      between short of displacing the session; and the session is still listed. */
  lemma {:induction false} UpdateIsServed(c: Config, s: State, acts: seq<Act>, r: Request, id: Id, h: Handle,
                                          frame: nat, w: Work)
    requires c.historyLimit > 0 && Inv(c, s) && Listed(s.tables, id, h)
    requires h in s.tracks && s.tracks[h].work == w && Position(s, r) == UpdLocked(h, frame, w.size)
    requires frame == w.lastSeq + 1 && frame < c.maxFrames
    requires Undisturbed(c, s, acts, r, id, w) && Own(acts, r) <= 3
    ensures var s' := Run(c, s, acts);
            Listed(s'.tables, id, h) && Serving(s', r, h, frame, w, Own(acts, r))
    decreases |acts|
  {
    hide Run, Step, References, Locking, TableOk, Histories, Reservations, Capacity, Commitments, Displaces;
    if acts == [] {
      RunNone(c, s);
    } else {
      var front, a := acts[..|acts| - 1], acts[|acts| - 1];
      assert acts == front + [a];
      UndisturbedPrefix(c, s, acts, r, id, w);
      UpdateIsServed(c, s, front, r, id, h, frame, w);
      RunInv(c, s, front);
      RunThen(c, s, front, a);
      ServedOneMore(c, Run(c, s, front), a, r, id, h, frame, w, Own(front, r));
    }
  }

  lemma RunNone(c: Config, s: State)
    requires References(s)
    ensures Run(c, s, []) == s
  {
    hide References;
  }

  lemma ServedOneMore(c: Config, s: State, a: Act, r: Request, id: Id, h: Handle, frame: nat, w: Work, n: nat)
    requires Inv(c, s) && Listed(s.tables, id, h) && Serving(s, r, h, frame, w, n)
    requires frame == w.lastSeq + 1 && frame < c.maxFrames && n <= 3
    requires !Displaces(s, a.r, a.e, id)
    requires a.r == r && a.e.Advance? ==> n < 3 && (n == 0 ==> a.e.input.now - w.lastAccess <= c.timeout)
    ensures var s' := Step(c, s, a.r, a.e);
            && Listed(s'.tables, id, h)
            && Serving(s', r, h, frame, w, if a.r == r && a.e.Advance? then n + 1 else n)
  {
    hide Step, Displaces, Histories, Reservations, Capacity, Commitments, TableOk, References, Locking;
    TableAfter(c, s, a.r, a.e, id, h);
    if a.r == r && a.e.Advance? {
      OwnStepServes(c, s, r, a.e.input, id, h, frame, w, n);
    } else {
      if a.r != r { OnlyHolderTouches(s, a.r, a.e, r, h); }
      OthersSpare(c, s, a.r, a.e, r, h);
    }
  }

  /** Whoever scans, checks or drops a session holds its lock. */
  lemma OnlyHolderTouches(s: State, q: Request, e: Event, r: Request, h: Handle)
    requires Locking(s) && r in s.pcs && Held(s.pcs[r]) == Some(h) && q != r
    ensures Advances(s, q, e) ==> Held(s.pcs[q]) != Some(h)
  {}

  // ----- how an update ends

  /** An accepted mask ends the update with the session listed and free: the frame is the last one seen, the coasting
      count is zero, the clock is read again, and the history keeps exactly the frames within the limit. */
  lemma MaskAnswers(c: Config, s: State, r: Request, i: Input, id: Id, h: Handle, frame: nat)
    requires c.historyLimit > 0 && Inv(c, s) && Listed(s.tables, id, h)
    requires Position(s, r) == UpdCalling(h, frame) && i.outcome == Masked(true)
    ensures var s' := Step(c, s, r, Advance(i));
            && Position(s', r) == Gone && h !in s'.locks && Listed(s'.tables, id, h) && h in s.tracks && h in s'.tracks
            && var w, w' := s.tracks[h].work, s'.tracks[h].work;
               && w'.lastSeq == frame == w.lastSeq + 1 && w'.coast == 0 && w'.lastAccess == i.now && w'.size == w.size
               && w'.started == w.started && w'.outcomes == w.outcomes + [true]
               && (forall f :: f in w'.frames <==> (f in w.frames || f == frame) && f > frame - c.historyLimit)
  {
    hide Step, Histories, TableOk, Reservations, Capacity, Commitments, References, Locking;
    ListedIsOpen(s, id, h);
    InsideCall(c, s, r, h, frame);
    CallReturns(c, s, r, i, h, frame);
    CallKeepsListing(c, s, r, i, id, h, frame);
    MaskedWork(c, s, s.pcs[r], s.tracks[h], i);
  }

  /** What the invariants say of a session inside a call. */
  lemma InsideCall(c: Config, s: State, r: Request, h: Handle, frame: nat)
    requires References(s) && Locking(s) && Histories(c, s) && Position(s, r) == UpdCalling(h, frame)
    ensures h in s.tracks && Midway(c, s.tracks[h].work, frame) && h in s.locks
  {
    assert Refers(s.tracks, r, s.pcs[r]);
    TrackIsOk(c, s, h);
    HeldStage(s, r);
    hide Histories, References, Numbered, Midway;
  }

  lemma CallReturns(c: Config, s: State, r: Request, i: Input, h: Handle, frame: nat)
    requires References(s) && Position(s, r) == UpdCalling(h, frame) && h in s.tracks
    ensures Step(c, s, r, Advance(i)) == Apply(s, r, ReturnMove(c, s, s.pcs[r], s.tracks[h], i))
  {
    hide References, ReturnMove, Prune, Pop, Apply;
  }

  /** The return of a call leaves the table as it is. */
  lemma CallKeepsListing(c: Config, s: State, r: Request, i: Input, id: Id, h: Handle, frame: nat)
    requires References(s) && TableOk(s) && Listed(s.tables, id, h) && Position(s, r) == UpdCalling(h, frame)
    ensures Listed(Step(c, s, r, Advance(i)).tables, id, h)
  {
    hide References, TableOk, Step;
    TableAfter(c, s, r, Advance(i), id, h);
  }

  lemma MaskedWork(c: Config, s: State, pc: Pc, k: Track, i: Input)
    requires pc.UpdCalling? && i.outcome == Masked(true) && Midway(c, k.work, pc.frame)
    ensures var d := ReturnMove(c, s, pc, k, i);
            && d.pc.Gone? && d.hold.Release? && d.h == pc.h && d.track.Some?
            && var w, w' := k.work, d.track.value.work;
               && w'.lastSeq == pc.frame && w'.coast == 0 && w'.lastAccess == i.now && w'.size == w.size
               && w'.started == w.started && w'.outcomes == w.outcomes + [true]
               && (forall f :: f in w'.frames <==> (f in w.frames || f == pc.frame) && f > pc.frame - c.historyLimit)
  {
    var w' := ReturnMove(c, s, pc, k, i).track.value.work;
    assert w'.frames == Prune(k.work.frames + {pc.frame}, pc.frame, c.historyLimit);
    hide Trailing;
  }

  /** No mask below the coasting budget keeps the session listed and free, with one more frame coasted. */
  lemma CoastAnswers(c: Config, s: State, r: Request, i: Input, id: Id, h: Handle, frame: nat)
    requires c.historyLimit > 0 && Inv(c, s) && Listed(s.tables, id, h)
    requires Position(s, r) == UpdCalling(h, frame) && i.outcome == NoMask
    requires h in s.tracks && s.tracks[h].work.coast < c.maxCoast
    ensures var s' := Step(c, s, r, Advance(i));
            && Position(s', r) == Gone && h !in s'.locks && Listed(s'.tables, id, h) && h in s'.tracks
            && var w, w' := s.tracks[h].work, s'.tracks[h].work;
               && w'.lastSeq == frame == w.lastSeq + 1 && w'.coast == w.coast + 1 && w'.lastAccess == i.now
               && w'.size == w.size && w'.started == w.started && w'.outcomes == w.outcomes + [false]
               && w'.frames == w.frames + {frame}
  {
    hide Step, Histories, TableOk, Reservations, Capacity, Commitments, References, Locking;
    InsideCall(c, s, r, h, frame);
    CallReturns(c, s, r, i, h, frame);
    CallKeepsListing(c, s, r, i, id, h, frame);
    hide Counted;
  }

  /** The request has `n` steps to take until it has called `backend.reset` on `h`. */
  ghost predicate Due(s: State, r: Request, h: Handle, n: nat)
  {
    var pc := Position(s, r);
    || ResetSeen(s, h)
    || (n == 1 && pc.ResetPending? && pc.h == h)
    || (n == 2 && (pc == UpdDrop(h) || (pc.UpdChecked? && pc.h == h && h in s.tracks && s.tracks[h].closed)))
  }

  /** A refused update, an expired access and an expiring scan are so many steps from the reset. */
  lemma DueAfter(c: Config, s: State, r: Request, e: Event, h: Handle)
    requires References(s) && TableOk(s)
    ensures Condemns(c, s, r, e, h) ==> Due(Step(c, s, r, e), r, h, 2)
    ensures TimesOut(c, s, r, e, h) && Listed(s.tables, s.tracks[h].id, h) ==>
              Due(Step(c, s, r, e), r, h, if s.pcs[r].ScanHeld? then 1 else 2)
  {
    if Condemns(c, s, r, e, h) { DropIff(c, s, r, e, r, h); }
    if TimesOut(c, s, r, e, h) && Listed(s.tables, s.tracks[h].id, h) { ListedIsOpen(s, s.tracks[h].id, h); }
    hide References, TableOk, Pop, Prune, Lists, Publish, Condemns;
  }

  lemma OwnStepIsDue(c: Config, s: State, r: Request, i: Input, h: Handle, n: nat)
    requires References(s) && Due(s, r, h, n) && !ResetSeen(s, h)
    ensures n > 0 && Due(Step(c, s, r, Advance(i)), r, h, n - 1)
  {
    assert Refers(s.tracks, r, s.pcs[r]);
    hide References, Pop, Prune, Lists, Publish;
  }

  lemma OtherStepIsDue(c: Config, s: State, q: Request, e: Event, r: Request, h: Handle, n: nat)
    requires References(s) && Locking(s) && Due(s, r, h, n) && !ResetSeen(s, h) && (q != r || !e.Advance?)
    requires Held(Position(s, r)) == Some(h)
    ensures Due(Step(c, s, q, e), r, h, n)
  {
    StepReferences(c, s, q, e);
    OthersSpare(c, s, q, e, r, h);
    hide References, Locking, Step;
  }

  /** In every schedule a request that is due to reset a state has reset it once it has taken that many steps; a failing
      init holds no lock, the others do. */
  lemma {:induction false} ResetFollows(c: Config, s: State, acts: seq<Act>, r: Request, h: Handle, n: nat)
    requires c.historyLimit > 0 && Inv(c, s) && Due(s, r, h, n) && Held(Position(s, r)) == Some(h)
    ensures Own(acts, r) >= n ==> ResetSeen(Run(c, s, acts), h)
    ensures Own(acts, r) < n ==> Due(Run(c, s, acts), r, h, n - Own(acts, r))
    ensures ResetSeen(Run(c, s, acts), h) || Held(Position(Run(c, s, acts), r)) == Some(h)
    decreases |acts|
  {
    hide Run, Step, References, Locking, TableOk, Histories, Reservations, Capacity, Commitments, Due, Held, ResetSeen;
    if acts == [] {
      RunNone(c, s);
      DueNow(s, r, h, n);
    } else {
      var front, a := acts[..|acts| - 1], acts[|acts| - 1];
      assert acts == front + [a];
      ResetFollows(c, s, front, r, h, n);
      RunInv(c, s, front);
      RunThen(c, s, front, a);
      var p := Run(c, s, front);
      if ResetSeen(p, h) {
        StepAfterReset(c, p, a.r, a.e, h);
        DueIfSeen(Run(c, s, acts), r, h);
      } else if a.r == r && a.e.Advance? {
        OwnStepIsDue(c, p, r, a.e.input, h, n - Own(front, r));
        HeldUntilReset(c, p, r, a.e.input, h, n - Own(front, r));
        DueNow(Run(c, s, acts), r, h, n - Own(acts, r));
      } else {
        OtherStepIsDue(c, p, a.r, a.e, r, h, n - Own(front, r));
        HeldStays(c, p, a.r, a.e, r, h);
      }
    }
  }

  lemma DueNow(s: State, r: Request, h: Handle, n: nat)
    requires Due(s, r, h, n)
    ensures n == 0 ==> ResetSeen(s, h)
  {}

  lemma DueIfSeen(s: State, r: Request, h: Handle)
    requires ResetSeen(s, h)
    ensures forall n :: Due(s, r, h, n)
  {}

  lemma HeldUntilReset(c: Config, s: State, r: Request, i: Input, h: Handle, n: nat)
    requires References(s) && Due(s, r, h, n) && !ResetSeen(s, h) && Held(Position(s, r)) == Some(h)
    ensures var s' := Step(c, s, r, Advance(i)); ResetSeen(s', h) || Held(Position(s', r)) == Some(h)
  {
    assert Refers(s.tracks, r, s.pcs[r]);
    hide References, Pop, Prune, Lists, Publish;
  }

  lemma HeldStays(c: Config, s: State, q: Request, e: Event, r: Request, h: Handle)
    requires References(s) && Locking(s) && Held(Position(s, r)) == Some(h) && (q != r || !e.Advance?)
    ensures Position(Step(c, s, q, e), r) == Position(s, r)
  {
    OthersSpare(c, s, q, e, r, h);
    hide References, Locking, Step;
  }

  // ----- how requests begin

  /** An update of a listed id waits for that session, and gets its lock exactly if it is free. */
  lemma UpdateBegins(c: Config, s: State, r: Request, id: Id, frame: nat, size: Size)
    requires References(s) && r !in s.pcs
    ensures var s' := Step(c, s, r, BeginUpdate(id, frame, size));
            && s' == s.(pcs := s'.pcs)
            && Position(s', r) == if id in s.tables.sessions then UpdWait(s.tables.sessions[id], frame, size) else Gone
  {
    hide References, Lists, Discard;
  }

  lemma UpdateLocksIff(c: Config, s: State, r: Request, i: Input, h: Handle, frame: nat, size: Size)
    requires References(s) && Position(s, r) == UpdWait(h, frame, size)
    ensures var s' := Step(c, s, r, Advance(i));
            && s'.tables == s.tables && s'.tracks == s.tracks
            && (h in s.locks ==> s' == s)
            && (h !in s.locks ==> Position(s', r) == UpdLocked(h, frame, size) && s'.locks == s.locks[h := r])
  {
    assert Refers(s.tracks, r, s.pcs[r]);
    hide References, Pop, Prune, Lists, Publish;
    assert s.pcs[r := s.pcs[r]] == s.pcs;
  }

  /** An init is let in exactly if its id is neither listed nor reserved and there is room. */
  lemma AdmittedIff(c: Config, s: State, r: Request, i: Input, id: Id)
    requires References(s) && Position(s, r) == Scan([], Reserve(id))
    ensures var t, s' := s.tables, Step(c, s, r, Advance(i));
            var free := id !in t.sessions && id !in t.reserved && |t.sessions| + |t.reserved| < c.maxSessions;
            && Position(s', r) == (if free then InitRunning(id) else Gone) && s'.tracks == s.tracks
            && s'.tables == (if free then t.(reserved := t.reserved[id := r]) else t)
  {
    hide References, Pop, Prune, Lists, Publish;
  }

  /** An init that ends well publishes an open session at frame 0, and gives up its reservation with it. */
  lemma PublishedTrack(c: Config, s: State, r: Request, i: Input, id: Id)
    requires References(s) && Position(s, r) == InitRunning(id)
    requires i.outcome == Masked(true) && i.created !in s.tracks
    ensures var s' := Step(c, s, r, Advance(i)); var h := i.created;
            && Listed(s'.tables, id, h) && id !in s'.tables.reserved && h in s'.tracks
            && var k := s'.tracks[h];
               && k.id == id && !k.closed && !k.wasReset
               && k.work.lastSeq == 0 && k.work.coast == 0 && k.work.lastAccess == i.now && k.work.size == i.size
               && k.work.started == [] && k.work.outcomes == [] && k.work.frames == {0}
  {
    DiscardKeys(s.tables, r, id);
    hide References, Pop, Prune, Lists, Discard;
  }

  /** The schedule of one update with nothing in between: the request begins, takes the lock, checks, calls the backend
      and returns. */
  function OneUpdate(r: Request, id: Id, frame: nat, size: Size, go: Input, late: Input): seq<Act>
  {
    [Act(r, BeginUpdate(id, frame, size))] + Alone(r, go, 4) + [Act(r, Advance(late))]
  }

  /** With its lock free, a listed session answers the next frame of the right size that comes in time: the request
      ends, and the frame reached the backend and is the last one seen. */
  lemma NextFrameIsAnswered(c: Config, s: State, r: Request, id: Id, h: Handle, w: Work, go: Input, late: Input)
    requires c.historyLimit > 0 && Inv(c, s) && r !in s.pcs && Listed(s.tables, id, h) && h !in s.locks
    requires h in s.tracks && s.tracks[h].work == w && w.lastSeq + 1 < c.maxFrames
    requires go.now - w.lastAccess <= c.timeout && late.outcome == Masked(true)
    ensures var s' := Run(c, s, OneUpdate(r, id, w.lastSeq + 1, w.size, go, late));
            && Listed(s'.tables, id, h) && h !in s'.locks && Position(s', r) == Gone
            && h in s'.tracks && s'.tracks[h].work.lastSeq == w.lastSeq + 1
            && s'.tracks[h].work.started == w.started + [w.lastSeq + 1]
            && s'.tracks[h].work.lastAccess == late.now && s'.tracks[h].work.coast == 0
  {
    hide Step, Run, References, Locking, TableOk, Histories, Reservations, Capacity, Commitments;
    var frame := w.lastSeq + 1;
    var begin := Act(r, BeginUpdate(id, frame, w.size));
    RunNone(c, s);
    RunThen(c, s, [], begin);
    assert [] + [begin] == [begin];
    var waiting := Run(c, s, [begin]);
    StepInv(c, s, r, begin.e);
    UpdateBegins(c, s, r, id, frame, w.size);
    WaitingIsServed(c, waiting, r, id, h, w, go);
    var calling := Run(c, waiting, Alone(r, go, 4));
    MaskAnswers(c, calling, r, late, id, h, frame);
    RunJoined(c, s, [begin], Alone(r, go, 4));
    RunThen(c, s, [begin] + Alone(r, go, 4), Act(r, Advance(late)));
  }

  lemma WaitingIsServed(c: Config, s: State, r: Request, id: Id, h: Handle, w: Work, go: Input)
    requires c.historyLimit > 0 && Inv(c, s) && Listed(s.tables, id, h) && h !in s.locks
    requires h in s.tracks && s.tracks[h].work == w && w.lastSeq + 1 < c.maxFrames
    requires Position(s, r) == UpdWait(h, w.lastSeq + 1, w.size) && go.now - w.lastAccess <= c.timeout
    ensures var s' := Run(c, s, Alone(r, go, 4));
            Inv(c, s') && Listed(s'.tables, id, h) && Serving(s', r, h, w.lastSeq + 1, w, 3)
  {
    hide Step, Run, References, Locking, TableOk, Histories, Reservations, Capacity, Commitments;
    var frame := w.lastSeq + 1;
    UpdateLocksIff(c, s, r, go, h, frame, w.size);
    StepInv(c, s, r, Advance(go));
    RunFour(c, s, r, go);
    var locked := Run(c, s, Alone(r, go, 1));
    assert Serving(locked, r, h, frame, w, 0);
    hide Serving, Inv;
    var checked := ServesOnce(c, locked, r, go, id, h, frame, w, 0);
    var active := ServesOnce(c, checked, r, go, id, h, frame, w, 1);
    var calling := ServesOnce(c, active, r, go, id, h, frame, w, 2);
  }

  lemma ServesOnce(c: Config, s: State, r: Request, i: Input, id: Id, h: Handle, frame: nat, w: Work, n: nat)
    returns (t: State)
    requires c.historyLimit > 0 && Inv(c, s) && Listed(s.tables, id, h) && Serving(s, r, h, frame, w, n) && n < 3
    requires frame == w.lastSeq + 1 && frame < c.maxFrames && i.now - w.lastAccess <= c.timeout
    ensures t == Step(c, s, r, Advance(i)) && Inv(c, t)
    ensures Listed(t.tables, id, h) && Serving(t, r, h, frame, w, n + 1)
  {
    hide Step, References, Locking, TableOk, Histories, Reservations, Capacity, Commitments, Displaces;
    t := Step(c, s, r, Advance(i));
    StepInv(c, s, r, Advance(i));
    assert !Displaces(s, r, Advance(i), id) by { ServingDisplacesNot(s, r, i, id, h, frame, w, n); }
    ServedOneMore(c, s, Act(r, Advance(i)), r, id, h, frame, w, n);
  }

  lemma ServingDisplacesNot(s: State, r: Request, i: Input, id: Id, h: Handle, frame: nat, w: Work, n: nat)
    requires Serving(s, r, h, frame, w, n)
    ensures !Displaces(s, r, Advance(i), id)
  {}

  /** `n` steps of one request, on one input. */
  function Alone(r: Request, i: Input, n: nat): seq<Act> { seq(n, _ => Act(r, Advance(i))) }

  lemma RunAlone(c: Config, s: State, r: Request, i: Input, n: nat)
    requires References(s) && n > 0
    ensures References(Run(c, s, Alone(r, i, n - 1)))
    ensures Run(c, s, Alone(r, i, n)) == Step(c, Run(c, s, Alone(r, i, n - 1)), r, Advance(i))
    ensures Alone(r, i, 0) == []
  {
    hide Run, Step, References;
    RunThen(c, s, Alone(r, i, n - 1), Act(r, Advance(i)));
    assert Alone(r, i, n) == Alone(r, i, n - 1) + [Act(r, Advance(i))];
  }

  /** Four steps of a request, one by one. */
  lemma RunFour(c: Config, p: State, r: Request, i: Input)
    requires References(p)
    ensures Run(c, p, Alone(r, i, 1)) == Step(c, p, r, Advance(i))
    ensures var a := Run(c, p, Alone(r, i, 1)); Run(c, p, Alone(r, i, 2)) == Step(c, a, r, Advance(i))
    ensures var b := Run(c, p, Alone(r, i, 2)); Run(c, p, Alone(r, i, 3)) == Step(c, b, r, Advance(i))
    ensures var d := Run(c, p, Alone(r, i, 3)); Run(c, p, Alone(r, i, 4)) == Step(c, d, r, Advance(i))
  {
    hide Run, Step, References;
    RunNone(c, p);
    RunAlone(c, p, r, i, 1);
    RunAlone(c, p, r, i, 2);
    RunAlone(c, p, r, i, 3);
    RunAlone(c, p, r, i, 4);
  }

  lemma {:induction false} RunJoined(c: Config, s: State, a: seq<Act>, b: seq<Act>)
    requires References(s)
    ensures References(Run(c, s, a)) && Run(c, s, a + b) == Run(c, Run(c, s, a), b)
    decreases |b|
  {
    hide Step, References, Run;
    if b == [] {
      RunNone(c, Run(c, s, a));
      assert a + b == a;
    } else {
      var front, last := b[..|b| - 1], b[|b| - 1];
      assert b == front + [last] && a + b == a + front + [last];
      RunJoined(c, s, a, front);
      RunThen(c, s, a + front, last);
      RunThen(c, Run(c, s, a), front, last);
    }
  }
}
