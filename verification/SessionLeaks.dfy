/** Inference states that nothing refers to any more: `backend.reset` is never called on them. */
module SessionLeaks {
  import opened Options
  import opened SessionProtocol
  import opened SessionInvariants
  import opened SessionRuns
  import opened SessionCapacity

  /** The request holds a reference to the session object. */
  predicate Mentions(pc: Pc, h: Handle) { (HasHandle(pc) && pc.h == h) || h in Rest(pc) }

  ghost predicate InTable(t: Tables, h: Handle) { exists id :: Listed(t, id, h) }

  /** Neither the table nor a request refers to the session object. */
  ghost predicate Forgotten(s: State, h: Handle)
  {
    h in s.tracks && !InTable(s.tables, h) && forall q :: q in s.pcs ==> !Mentions(s.pcs[q], h)
  }

  /** A difference that brings no reference to `h` back. */
  ghost predicate Leaves(d: Delta, h: Handle)
  {
    !Mentions(d.pc, h) && !InTable(d.tables, h) && (d.track.Some? ==> d.h != h)
  }

  lemma ApplyLeaves(s: State, r: Request, d: Delta, h: Handle)
    requires Forgotten(s, h) && Leaves(d, h)
    ensures Forgotten(Apply(s, r, d), h) && Apply(s, r, d).tracks[h] == s.tracks[h]
  {
    hide Mentions, InTable;
  }

  lemma FewerListed(t: Tables, t': Tables, h: Handle)
    requires !InTable(t, h) && forall id :: id in t'.sessions ==> id in t.sessions && t'.sessions[id] == t.sessions[id]
    ensures !InTable(t', h)
  {
    forall id ensures !Listed(t', id, h) { assert !Listed(t, id, h); }
  }

  lemma PopListsFewer(t: Tables, id: Id, g: Handle, h: Handle)
    requires !InTable(t, h)
    ensures !InTable(Pop(t, id, g), h)
  {
    FewerListed(t, Pop(t, id, g), h);
  }

  lemma DiscardListsFewer(t: Tables, r: Request, id: Id, h: Handle)
    requires !InTable(t, h)
    ensures !InTable(Discard(t, r, id), h) && !InTable(Settle(t, r, id), h)
  {
    FewerListed(t, Discard(t, r, id), h);
    FewerListed(t, Settle(t, r, id), h);
  }

  lemma PublishListsAnother(t: Tables, r: Request, id: Id, g: Handle, h: Handle)
    requires !InTable(t, h) && g != h
    ensures !InTable(Publish(t, r, id, g), h)
  {
    forall i ensures !Listed(Publish(t, r, id, g), i, h) { assert !Listed(t, i, h); }
  }

  lemma TrackMoveLeaves(c: Config, s: State, pc: Pc, k: Track, i: Input, h: Handle)
    requires HasHandle(pc) && !Mentions(pc, h) && !InTable(s.tables, h)
    ensures Leaves(TrackMove(c, s, pc, k, i), h)
  {
    hide InTable, Prune, Pop;
    PopListsFewer(s.tables, k.id, pc.h, h);
  }

  lemma ScanMoveLeaves(c: Config, s: State, r: Request, pc: Pc, h: Handle)
    requires pc.Scan? && !Mentions(pc, h) && !InTable(s.tables, h)
    ensures Leaves(ScanMove(c, s, r, pc), h)
  {
    FewerListed(s.tables, ScanMove(c, s, r, pc).tables, h);
    hide InTable;
  }

  lemma InitMoveLeaves(s: State, r: Request, pc: Pc, i: Input, h: Handle)
    requires pc.InitRunning? && h in s.tracks && !InTable(s.tables, h)
    ensures Leaves(InitMove(s, r, pc, i), h)
  {
    hide InTable, Publish;
    if i.created != h { PublishListsAnother(s.tables, r, pc.id, i.created, h); }
  }

  lemma MoveLeaves(c: Config, s: State, r: Request, pc: Pc, i: Input, h: Handle)
    requires !pc.Gone? && (HasHandle(pc) ==> pc.h in s.tracks)
    requires h in s.tracks && !Mentions(pc, h) && !InTable(s.tables, h)
    ensures Leaves(Move(c, s, r, pc, i), h)
  {
    hide InTable, TrackMove, ScanMove, InitMove, Settle;
    if HasHandle(pc) {
      TrackMoveLeaves(c, s, pc, s.tracks[pc.h], i, h);
    } else if pc.Scan? {
      ScanMoveLeaves(c, s, r, pc, h);
    } else if pc.InitRunning? {
      InitMoveLeaves(s, r, pc, i, h);
    } else if pc.InitFinally? {
      DiscardListsFewer(s.tables, r, pc.id, h);
    }
  }

  lemma OrderIsOfTable(t: Tables, order: seq<Handle>, h: Handle)
    requires Lists(t, order) && !InTable(t, h)
    ensures h !in order
  {
    if h in order {
      assert h in (set g | g in order);
      assert h in t.sessions.Values;
      var id :| id in t.sessions && t.sessions[id] == h;
      assert Listed(t, id, h);
    }
  }

  lemma BeginLeaves(s: State, r: Request, e: Event, h: Handle)
    requires References(s) && !e.Advance? && !e.BeginClose? && !InTable(s.tables, h)
    ensures Leaves(Begin(s, r, e), h)
  {
    hide Discard, Lists, InTable;
    match e
    case BeginHealth(order) => if Lists(s.tables, order) { OrderIsOfTable(s.tables, order, h); }
    case BeginInit(id, order) => if Lists(s.tables, order) { OrderIsOfTable(s.tables, order, h); }
    case BeginUpdate(id, frame, size) => NotAt(s.tables, id, h);
    case BeginReset(id) =>
      NotAt(s.tables, id, h);
      DiscardListsFewer(s.tables, r, id, h);
      FewerListed(s.tables, Discard(s.tables, r, id).(sessions := s.tables.sessions - {id}), h);
  }

  lemma NotAt(t: Tables, id: Id, h: Handle)
    requires !InTable(t, h)
    ensures id in t.sessions ==> t.sessions[id] != h
  {
    assert !Listed(t, id, h);
  }

  lemma CloseLeaves(s: State, r: Request, order: seq<Handle>, h: Handle)
    requires Forgotten(s, h) && Lists(s.tables, order)
    ensures Forgotten(CloseAll(s, r, order), h) && CloseAll(s, r, order).tracks[h] == s.tracks[h]
  {
    OrderIsOfTable(s.tables, order, h);
    var s' := CloseAll(s, r, order);
    forall id ensures !Listed(s'.tables, id, h) {}
  }

  lemma StepLeaves(c: Config, s: State, r: Request, e: Event, h: Handle)
    requires References(s) && Forgotten(s, h)
    ensures Forgotten(Step(c, s, r, e), h) && Step(c, s, r, e).tracks[h] == s.tracks[h]
  {
    hide Move, Begin, CloseAll, Lists, Apply, InTable, Mentions;
    if e.Advance? {
      if r in s.pcs {
        MoveLeaves(c, s, r, s.pcs[r], e.input, h);
        ApplyLeaves(s, r, Move(c, s, r, s.pcs[r], e.input), h);
      }
    } else if r !in s.pcs {
      if !e.BeginClose? {
        BeginLeaves(s, r, e, h);
        ApplyLeaves(s, r, Begin(s, r, e), h);
      } else if Lists(s.tables, e.order) {
        CloseLeaves(s, r, e.order, h);
      }
    }
  }

  /** A state nothing refers to stays as it is in every continuation: it is never updated, closed or reset. */
  lemma {:induction false} ForgottenForEver(c: Config, s: State, more: seq<Act>, h: Handle)
    requires References(s) && Forgotten(s, h)
    ensures h in Run(c, s, more).tracks && Run(c, s, more).tracks[h] == s.tracks[h]
    decreases |more|
  {
    hide Step, References, Forgotten;
    ForgottenIsThere(s, h);
    if more != [] {
      StepReferences(c, s, more[0].r, more[0].e);
      StepLeaves(c, s, more[0].r, more[0].e, h);
      ForgottenForEver(c, Step(c, s, more[0].r, more[0].e), more[1..], h);
    }
  }

  lemma ForgottenIsThere(s: State, h: Handle)
    requires Forgotten(s, h)
    ensures h in s.tracks
  {}

  /** A reset of a listed session, with nothing else in flight. */
  lemma ResetsListed(c: Config, s: State, h: Handle, id: Id) returns (more: seq<Act>)
    requires References(s) && Locking(s) && s.pcs == map[] && Listed(s.tables, id, h)
    ensures ResetSeen(Run(c, s, more), h)
  {
    var r: Request := 0;
    more := [Act(r, BeginReset(id)), Act(r, GO), Act(r, GO)];
    NothingLocked(s, h);
    var a := ResetBegun(c, s, r, h, id);
    var b := ResetLocked(c, a, r, h);
    var d := ResetCalled(c, b, r, h);
    hide Step, References, ResetSeen;
    RunThree(c, s, more[0], more[1], more[2]);
  }

  lemma NothingLocked(s: State, h: Handle)
    requires Locking(s) && s.pcs == map[]
    ensures h !in s.locks
  {}

  lemma ResetBegun(c: Config, s: State, r: Request, h: Handle, id: Id) returns (a: State)
    requires References(s) && r !in s.pcs && Listed(s.tables, id, h) && h !in s.locks
    ensures a == Step(c, s, r, BeginReset(id)) && References(a)
    ensures Position(a, r) == Batch([h]) && h in a.tracks && h !in a.locks
  {
    StepReferences(c, s, r, BeginReset(id));
    a := Step(c, s, r, BeginReset(id));
    hide References, Discard;
  }

  lemma ResetLocked(c: Config, a: State, r: Request, h: Handle) returns (b: State)
    requires References(a) && Position(a, r) == Batch([h]) && h in a.tracks && h !in a.locks
    ensures b == Step(c, a, r, GO) && References(b) && Position(b, r) == ResetPending(h, NextOf([])) && h in b.tracks
  {
    StepReferences(c, a, r, GO);
    b := Step(c, a, r, GO);
    hide References;
    assert [h][1..] == [];
  }

  lemma ResetCalled(c: Config, b: State, r: Request, h: Handle) returns (d: State)
    requires References(b) && Position(b, r) == ResetPending(h, NextOf([])) && h in b.tracks
    ensures d == Step(c, b, r, GO) && ResetSeen(d, h)
  {
    d := Step(c, b, r, GO);
    hide References, Prune, Pop;
  }

  lemma RunThree(c: Config, s: State, x: Act, y: Act, z: Act)
    requires References(s)
    ensures var a := Run(c, s, [x]); var b := Run(c, s, [x, y]);
            && a == Step(c, s, x.r, x.e) && b == Step(c, a, y.r, y.e)
            && Run(c, s, [x, y, z]) == Step(c, b, z.r, z.e)
  {
    hide Step, References;
    RunThen(c, s, [], x);
    RunThen(c, s, [x], y);
    RunThen(c, s, [x, y], z);
    assert [] + [x] == [x] && [x] + [y] == [x, y] && [x, y] + [z] == [x, y, z];
    assert Run(c, s, []) == s;
  }

  /** With no request in flight, some continuation has an inference state reset if and only if it was reset before or
      is listed; one that is neither was overwritten in the table and stays as it is for ever. */
  lemma QuiescentLeakIff(c: Config, acts: seq<Act>, h: Handle)
    requires c.historyLimit > 0
    requires Reached(c, acts).pcs == map[] && h in Reached(c, acts).tracks
    ensures var s := Reached(c, acts);
            References(s) &&
            ((exists more :: ResetSeen(Run(c, s, more), h)) <==>
             ResetSeen(s, h) || Listed(s.tables, s.tracks[h].id, h))
    ensures var s := Reached(c, acts);
            References(s) && (!ResetSeen(s, h) && !Listed(s.tables, s.tracks[h].id, h) ==>
              h in s.tables.replaced && forall more :: Left(Run(c, s, more), h, s.tracks[h]))
  {
    ReachedInv(c, acts);
    QuiescentStates(c, acts, h);
    var s := Reached(c, acts);
    hide Reached, Histories, TableOk, Reservations, Capacity, Commitments;
    if ResetSeen(s, h) {
      assert ResetSeen(Run(c, s, []), h);
    } else if Listed(s.tables, s.tracks[h].id, h) {
      var more := ResetsListed(c, s, h, s.tracks[h].id);
    } else {
      QuiescentForgotten(s, h);
      hide References, Locking, Run, Forgotten;
      forall more ensures Left(Run(c, s, more), h, s.tracks[h]) && !ResetSeen(Run(c, s, more), h) {
        ForgottenForEver(c, s, more, h);
      }
    }
  }

  /** The session object is as it was. */
  predicate Left(s: State, h: Handle, k: Track) { h in s.tracks && s.tracks[h] == k }

  lemma QuiescentForgotten(s: State, h: Handle)
    requires References(s) && s.pcs == map[] && h in s.tracks && !Listed(s.tables, s.tracks[h].id, h)
    ensures Forgotten(s, h)
  {
    forall id ensures !Listed(s.tables, id, h) {}
  }

  // ----- a schedule that overwrites a state

  /** Two inits of one name: a reset discards the first reservation while the first init runs, so the second one is
      let in; both publish, and the second overwrites the first. */
  function Overlap(tables: Tables, tracks: map<Handle, Track>, first: Pc, second: Pc): State
  {
    State(tables, tracks, map[], Only(0, first) + Only(2, second))
  }

  function Only(r: Request, pc: Pc): map<Request, Pc> { if pc.Gone? then map[] else map[r := pc] }

  lemma InitsOverlap(c: Config, id: Id)
    requires c.maxSessions >= 1
    ensures Reachable(c, Overlap(Tables(map[], map[id := 2], 1, {0}, {}), map[], InitRunning(id), InitRunning(id)))
  {
    hide Step, References, Reachable;
    InitialIsReachable(c);
    var a := InitStarts(c, INITIAL, 0, id);
    ReachStep(c, a, 1, BeginReset(id));
    LoseStep(c, a, 1, 0, id);
    var b := Step(c, a, 1, BeginReset(id));
    ReachStep(c, b, 1, GO);
    EmptyBatchEnds(c, b, 1);
    var d := Step(c, b, 1, GO);
    var e := InitStarts(c, d, 2, id);
    assert e.pcs == Only(0, InitRunning(id)) + Only(2, InitRunning(id));
    assert e.tables.reserved == map[id := 2] && e.tables.orphans == {0};
  }

  lemma InitialIsReachable(c: Config)
    ensures Reachable(c, INITIAL)
  {
    InitialInv(c);
    assert Reached(c, []) == INITIAL;
  }

  lemma InitStarts(c: Config, s: State, r: Request, id: Id) returns (t: State)
    requires Reachable(c, s) && s.tables.sessions == map[] && s.tables.reserved == map[] && r !in s.pcs
    requires c.maxSessions >= 1
    ensures Reachable(c, t)
    ensures t == s.(tables := s.tables.(reserved := map[id := r]), pcs := s.pcs[r := InitRunning(id)])
  {
    hide Step, References, Reachable;
    ReachStep(c, s, r, BeginInit(id, []));
    ScanStep(c, s, r, id);
    var a := Step(c, s, r, BeginInit(id, []));
    ReachStep(c, a, r, GO);
    ReserveStep(c, a, r, id);
    t := Step(c, a, r, GO);
    assert a.pcs[r := InitRunning(id)] == s.pcs[r := InitRunning(id)];
  }

  lemma EmptyBatchEnds(c: Config, s: State, r: Request)
    requires References(s) && r in s.pcs && s.pcs[r] == Batch([])
    ensures Step(c, s, r, GO) == s.(pcs := s.pcs - {r})
  {
    hide References;
  }

  lemma BothPublish(c: Config, id: Id) returns (tracks: map<Handle, Track>)
    requires c.maxSessions >= 1
    ensures tracks.Keys == {0, 1} && !tracks[0].wasReset
    ensures Reachable(c, Overlap(Tables(map[id := 1], map[], 2, {}, {0}), tracks, Gone, Gone))
  {
    hide Step, References, Reachable;
    InitsOverlap(c, id);
    var a := Overlap(Tables(map[], map[id := 2], 1, {0}, {}), map[], InitRunning(id), InitRunning(id));
    var one := NewTrack(0, id, 0.0, (640, 480), true);
    var two := NewTrack(2, id, 0.0, (640, 480), true);
    ReachStep(c, a, 0, Tracked(0));
    FirstPublishes(c, a, id, one);
    var b := Step(c, a, 0, Tracked(0));
    ReachStep(c, b, 2, Tracked(1));
    SecondPublishes(c, b, id, one, two);
    var d := Step(c, b, 2, Tracked(1));
    ReachStep(c, d, 0, GO);
    SettledEnds(c, d, 0, id);
    var e := Step(c, d, 0, GO);
    ReachStep(c, e, 2, GO);
    SettledEnds(c, e, 2, id);
    tracks := map[0 := one, 1 := two];
    assert Step(c, e, 2, GO).pcs == map[];
  }

  lemma FirstPublishes(c: Config, a: State, id: Id, one: Track)
    requires a == Overlap(Tables(map[], map[id := 2], 1, {0}, {}), map[], InitRunning(id), InitRunning(id))
    requires References(a) && one == NewTrack(0, id, 0.0, (640, 480), true)
    ensures Step(c, a, 0, Tracked(0)) ==
            Overlap(Tables(map[id := 0], map[], 2, {2}, {}), map[0 := one], InitFinally(id, true), InitRunning(id))
  {
    hide References;
    var s := Step(c, a, 0, Tracked(0));
    assert s.tables.orphans == {2};
    assert s.pcs == Only(0, InitFinally(id, true)) + Only(2, InitRunning(id));
  }

  lemma SecondPublishes(c: Config, b: State, id: Id, one: Track, two: Track)
    requires b == Overlap(Tables(map[id := 0], map[], 2, {2}, {}), map[0 := one], InitFinally(id, true),
                          InitRunning(id))
    requires References(b) && two == NewTrack(2, id, 0.0, (640, 480), true)
    ensures Step(c, b, 2, Tracked(1)) ==
            Overlap(Tables(map[id := 1], map[], 2, {}, {0}), map[0 := one, 1 := two], InitFinally(id, true),
                    InitFinally(id, true))
  {
    hide References;
    var s := Step(c, b, 2, Tracked(1));
    assert s.tables.orphans == {} && s.tables.replaced == {0} && s.tables.sessions == map[id := 1];
    assert s.pcs == Only(0, InitFinally(id, true)) + Only(2, InitFinally(id, true));
  }

  lemma SettledEnds(c: Config, s: State, r: Request, id: Id)
    requires References(s) && r in s.pcs && s.pcs[r] == InitFinally(id, true)
    requires id !in s.tables.reserved && s.tables.orphans == {}
    ensures Step(c, s, r, GO) == s.(pcs := s.pcs - {r})
  {
    hide References;
    assert s.tables.orphans - {r} == {};
  }

  /** It happens: for every configuration some schedule ends with nothing in flight and one state that was overwritten
      while open, which no continuation ever resets. */
  lemma OverwrittenStateLeaks(c: Config)
    requires c.historyLimit > 0 && c.maxSessions >= 1
    ensures exists acts, h :: Leaked(c, acts, h)
  {
    var tracks := BothPublish(c, "a");
    var s := Overlap(Tables(map["a" := 1], map[], 2, {}, {0}), tracks, Gone, Gone);
    var acts :| Reached(c, acts) == s;
    hide Reached;
    QuiescentLeakIff(c, acts, 0);
    assert Leaked(c, acts, 0);
  }

  /** Nothing is in flight, and no continuation resets the open state `h`. */
  ghost predicate Leaked(c: Config, acts: seq<Act>, h: Handle)
  {
    var s := Reached(c, acts);
    && References(s) && s.pcs == map[] && h in s.tracks && !s.tracks[h].wasReset
    && forall more :: !ResetSeen(Run(c, s, more), h)
  }
}
