/** What one idle-expiry scan leaves in the table. */
module SessionSweep {
  import opened Options
  import opened SessionProtocol
  import opened SessionInvariants
  import opened SessionRuns
  import opened SessionCapacity
  import opened SessionProgress

  /** A scan at `now` leaves the session alone: another request is at work on it, or it was accessed in time. */
  predicate Kept(c: Config, s: State, h: Handle, now: real)
  {
    h in s.locks || (h in s.tracks && now - s.tracks[h].work.lastAccess <= c.timeout)
  }

  /** The scan of `r` has come from `s` to `p`, with `rest` to go. */
  ghost predicate Swept(c: Config, s: State, p: State, r: Request, rest: seq<Handle>, goal: Goal, now: real)
  {
    && Position(p, r) == Scan(rest, goal) && p.locks == s.locks
    && (forall id, h :: Listed(p.tables, id, h) <==> Listed(s.tables, id, h) && (h in rest || Kept(c, s, h, now)))
    && (forall h :: h in s.tracks ==> h in p.tracks && (h in rest || Kept(c, s, h, now) ==> p.tracks[h] == s.tracks[h]))
    && (forall id, h :: Listed(s.tables, id, h) ==> h in rest || Kept(c, s, h, now) || ResetSeen(p, h))
    && p.tables.reserved == s.tables.reserved
    && (forall q :: q != r ==> Position(p, q) == Position(s, q))
  }

  lemma SkipsLocked(c: Config, p: State, r: Request, h: Handle, rest: seq<Handle>, goal: Goal, i: Input)
    requires References(p) && Position(p, r) == Scan([h] + rest, goal) && h in p.locks
    ensures Step(c, p, r, Advance(i)) == p.(pcs := p.pcs[r := Scan(rest, goal)])
  {
    hide References, Pop, Prune, Publish, Lists;
    assert ([h] + rest)[1..] == rest;
  }

  lemma TakesFree(c: Config, p: State, r: Request, h: Handle, rest: seq<Handle>, goal: Goal, i: Input)
    requires References(p) && Position(p, r) == Scan([h] + rest, goal) && h !in p.locks
    ensures Step(c, p, r, Advance(i)) ==
            p.(locks := p.locks[h := r], pcs := p.pcs[r := ScanHeld(h, rest, goal)])
  {
    hide References, Pop, Prune, Publish, Lists;
    assert ([h] + rest)[1..] == rest;
  }

  lemma LeavesRecent(c: Config, p: State, r: Request, h: Handle, rest: seq<Handle>, goal: Goal, i: Input)
    requires References(p) && Position(p, r) == ScanHeld(h, rest, goal) && h in p.tracks
    requires i.now - p.tracks[h].work.lastAccess <= c.timeout
    ensures Step(c, p, r, Advance(i)) == p.(locks := p.locks - {h}, pcs := p.pcs[r := Scan(rest, goal)])
  {
    hide References, Prune, Publish, Lists;
  }

  lemma TakesOutIdle(c: Config, p: State, r: Request, h: Handle, rest: seq<Handle>, goal: Goal, i: Input, id: Id)
    requires References(p) && TableOk(p) && Position(p, r) == ScanHeld(h, rest, goal) && Listed(p.tables, id, h)
    requires h in p.tracks && i.now - p.tracks[h].work.lastAccess > c.timeout
    ensures Step(c, p, r, Advance(i)) ==
            p.(tables := p.tables.(sessions := p.tables.sessions - {id}),
               tracks := p.tracks[h := p.tracks[h].(closed := true)],
               pcs := p.pcs[r := ResetPending(h, Rescan(rest, goal))])
  {
    ListedIsOpen(p, id, h);
    hide References, TableOk, Prune, Publish, Lists;
  }

  lemma CallsReset(c: Config, p: State, r: Request, h: Handle, next: Then, i: Input)
    requires References(p) && Position(p, r) == ResetPending(h, next) && h in p.tracks
    ensures var k := p.tracks[h];
            Step(c, p, r, Advance(i)) ==
            p.(tracks := p.tracks[h := k.(wasReset := true, work := k.work.(frames := {}))],
               pcs := p.pcs[r := ResetRunning(h, next)])
  {
    hide References, Prune, Publish, Lists, Pop;
  }

  lemma ScansOn(c: Config, p: State, r: Request, h: Handle, rest: seq<Handle>, goal: Goal, i: Input)
    requires References(p) && Position(p, r) == ResetRunning(h, Rescan(rest, goal))
    ensures Step(c, p, r, Advance(i)) == p.(locks := p.locks - {h}, pcs := p.pcs[r := Scan(rest, goal)])
  {
    assert Refers(p.tracks, r, p.pcs[r]);
    hide References, Prune, Publish, Lists, Pop;
  }

  /** The state once the scan is past the session `h` of `id`. */
  function Past(c: Config, p: State, r: Request, h: Handle, rest: seq<Handle>, goal: Goal, id: Id, now: real): State
    requires h in p.tracks
  {
    var on := p.(pcs := p.pcs[r := Scan(rest, goal)]);
    if Kept(c, p, h, now) then on else TakenOut(on, h, id)
  }

  function TakenOut(p: State, h: Handle, id: Id): State
    requires h in p.tracks
  {
    var k := p.tracks[h];
    p.(tables := p.tables.(sessions := p.tables.sessions - {id}),
       tracks := p.tracks[h := k.(closed := true, wasReset := true, work := k.work.(frames := {}))])
  }

  /** One session of the scan: skipped, left alone, or taken out and reset. */
  lemma SweepsOne(c: Config, p: State, r: Request, h: Handle, rest: seq<Handle>, goal: Goal, i: Input, id: Id)
    returns (n: nat)
    requires c.historyLimit > 0 && Inv(c, p) && Position(p, r) == Scan([h] + rest, goal) && Listed(p.tables, id, h)
    ensures h in p.tracks && Run(c, p, Alone(r, i, n)) == Past(c, p, r, h, rest, goal, id, i.now)
  {
    ListedIsOpen(p, id, h);
    hide Run, Step, References, TableOk, Locking, Histories, Reservations, Capacity, Commitments, TakenOut;
    RunFour(c, p, r, i);
    if h in p.locks {
      SkipsLocked(c, p, r, h, rest, goal, i);
      n := 1;
    } else {
      var a, b, d := SweepsFree(c, p, r, h, rest, goal, i, id);
      n := if Kept(c, p, h, i.now) then 2 else 4;
    }
  }

  lemma SweepsFree(c: Config, p: State, r: Request, h: Handle, rest: seq<Handle>, goal: Goal, i: Input, id: Id)
    returns (a: State, b: State, d: State)
    requires c.historyLimit > 0 && Inv(c, p) && Position(p, r) == Scan([h] + rest, goal) && Listed(p.tables, id, h)
    requires h in p.tracks && h !in p.locks
    ensures a == Step(c, p, r, Advance(i)) && References(a)
    ensures b == Step(c, a, r, Advance(i)) && References(b)
    ensures d == Step(c, b, r, Advance(i)) && References(d)
    ensures (if Kept(c, p, h, i.now) then b else Step(c, d, r, Advance(i)))
            == Past(c, p, r, h, rest, goal, id, i.now)
  {
    hide Step, References, TableOk, Locking, Histories, Reservations, Capacity, Commitments;
    TakesFree(c, p, r, h, rest, goal, i);
    StepInv(c, p, r, Advance(i));
    a := Step(c, p, r, Advance(i));
    StepInv(c, a, r, Advance(i));
    b := Step(c, a, r, Advance(i));
    StepReferences(c, b, r, Advance(i));
    d := Step(c, b, r, Advance(i));
    assert p.locks[h := r] - {h} == p.locks;
    assert a.pcs[r := Scan(rest, goal)] == p.pcs[r := Scan(rest, goal)];
    if Kept(c, p, h, i.now) {
      LeavesRecent(c, a, r, h, rest, goal, i);
    } else {
      ResetsIdle(c, a, r, h, rest, goal, i, id);
    }
  }

  lemma ResetsIdle(c: Config, p: State, r: Request, h: Handle, rest: seq<Handle>, goal: Goal, i: Input, id: Id)
    requires c.historyLimit > 0 && Inv(c, p) && Position(p, r) == ScanHeld(h, rest, goal) && Listed(p.tables, id, h)
    requires h in p.tracks && i.now - p.tracks[h].work.lastAccess > c.timeout
    ensures var out := Step(c, p, r, Advance(i));
            References(out) && References(Step(c, out, r, Advance(i)))
            && Step(c, Step(c, out, r, Advance(i)), r, Advance(i)) ==
               TakenOut(p.(locks := p.locks - {h}, pcs := p.pcs[r := Scan(rest, goal)]), h, id)
  {
    hide Step, References, TableOk, Locking, Histories, Reservations, Capacity, Commitments;
    TakesOutIdle(c, p, r, h, rest, goal, i, id);
    var out := Step(c, p, r, Advance(i));
    StepInv(c, p, r, Advance(i));
    CallsReset(c, out, r, h, Rescan(rest, goal), i);
    var called := Step(c, out, r, Advance(i));
    StepInv(c, out, r, Advance(i));
    ScansOn(c, called, r, h, rest, goal, i);
  }

  lemma SweptOneMore(c: Config, s: State, p: State, p': State, r: Request, h: Handle, rest: seq<Handle>, goal: Goal,
                     now: real, id: Id)
    requires TableOk(s) && References(s) && Swept(c, s, p, r, [h] + rest, goal, now) && h !in rest
    requires Listed(s.tables, id, h) && h in p.tracks && Kept(c, p, h, now) == Kept(c, s, h, now)
    requires p' == Past(c, p, r, h, rest, goal, id, now)
    ensures Swept(c, s, p', r, rest, goal, now)
  {
    hide TableOk, References;
    forall j, g | Listed(s.tables, j, g) ensures g == h ==> j == id { NamedOnce(s, id, j, g); }
    forall g ensures g in [h] + rest <==> g == h || g in rest {}
    if Kept(c, s, h, now) {
      hide TakenOut, Listed, ResetSeen;
      assert p' == p.(pcs := p.pcs[r := Scan(rest, goal)]);
    } else {
      SweptWithout(c, s, p, p', r, h, rest, goal, now, id);
    }
  }

  lemma SweptWithout(c: Config, s: State, p: State, p': State, r: Request, h: Handle, rest: seq<Handle>, goal: Goal,
                     now: real, id: Id)
    requires Swept(c, s, p, r, [h] + rest, goal, now) && h !in rest && h in p.tracks && !Kept(c, s, h, now)
    requires Listed(s.tables, id, h) && forall j :: Listed(s.tables, j, h) ==> j == id
    requires p' == TakenOut(p.(pcs := p.pcs[r := Scan(rest, goal)]), h, id)
    ensures Swept(c, s, p', r, rest, goal, now)
  {
    hide Kept;
    forall g ensures g in [h] + rest <==> g == h || g in rest {}
    forall j, g ensures Listed(p'.tables, j, g) <==> Listed(p.tables, j, g) && j != id {}
    forall j, g ensures Listed(p'.tables, j, g) <==> Listed(s.tables, j, g) && (g in rest || Kept(c, s, g, now)) {
      assert Listed(p.tables, j, g) <==> Listed(s.tables, j, g) && (g in [h] + rest || Kept(c, s, g, now));
    }
    forall j, g | Listed(s.tables, j, g) ensures g in rest || Kept(c, s, g, now) || ResetSeen(p', g) {
      assert g in [h] + rest || Kept(c, s, g, now) || ResetSeen(p, g);
    }
  }

  lemma NamedOnce(s: State, id: Id, j: Id, h: Handle)
    requires References(s) && TableOk(s)
    ensures Listed(s.tables, id, h) && Listed(s.tables, j, h) ==> id == j
  {
    if Listed(s.tables, id, h) && Listed(s.tables, j, h) {
      ListedIsOpen(s, id, h);
      ListedIsOpen(s, j, h);
    }
  }

  lemma {:induction false} SweepsRest(c: Config, s: State, p: State, r: Request, rest: seq<Handle>, goal: Goal,
                                      i: Input)
    returns (n: nat)
    requires c.historyLimit > 0 && Inv(c, s) && Inv(c, p) && Swept(c, s, p, r, rest, goal, i.now)
    requires forall a, b :: 0 <= a < b < |rest| ==> rest[a] != rest[b]
    requires forall h :: h in rest ==> h in s.tables.sessions.Values
    ensures Swept(c, s, Run(c, p, Alone(r, i, n)), r, [], goal, i.now)
    decreases |rest|
  {
    hide Run, Step, References, TableOk, Locking, Histories, Reservations, Capacity, Commitments, Swept, Kept, Past;
    if rest == [] {
      n := 0;
      RunNone(c, p);
      assert Alone(r, i, 0) == [];
    } else {
      var h, tail := rest[0], rest[1..];
      assert rest == [h] + tail && h !in tail;
      var id := NameOf(s.tables, rest, h);
      SweptNext(c, s, p, r, h, tail, goal, i.now, id);
      var m := SweepsOne(c, p, r, h, tail, goal, i, id);
      var p' := Run(c, p, Alone(r, i, m));
      RunInv(c, p, Alone(r, i, m));
      SweptOneMore(c, s, p, p', r, h, tail, goal, i.now, id);
      var k := SweepsRest(c, s, p', r, tail, goal, i);
      n := m + k;
      RunJoined(c, p, Alone(r, i, m), Alone(r, i, k));
      assert Alone(r, i, m) + Alone(r, i, k) == Alone(r, i, n);
    }
  }

  lemma NameOf(t: Tables, rest: seq<Handle>, h: Handle) returns (id: Id)
    requires h in rest && forall g :: g in rest ==> g in t.sessions.Values
    ensures Listed(t, id, h)
  {
    id :| id in t.sessions && t.sessions[id] == h;
  }

  lemma SweptNext(c: Config, s: State, p: State, r: Request, h: Handle, tail: seq<Handle>, goal: Goal, now: real,
                  id: Id)
    requires References(s) && TableOk(s) && Swept(c, s, p, r, [h] + tail, goal, now) && Listed(s.tables, id, h)
    ensures Position(p, r) == Scan([h] + tail, goal)
    ensures Listed(p.tables, id, h) && h in s.tracks && h in p.tracks && p.tracks[h] == s.tracks[h]
    ensures Kept(c, p, h, now) == Kept(c, s, h, now)
  {
    ListedIsOpen(s, id, h);
    hide References, TableOk;
    assert h in [h] + tail;
  }

  /** A scan that runs through at time `now` takes exactly the sessions out of the table that nobody holds and that
      were last accessed more than the timeout ago, has their states reset, and changes nothing of the others. */
  lemma ScanIsExact(c: Config, s: State, r: Request, order: seq<Handle>, i: Input) returns (n: nat)
    requires c.historyLimit > 0 && Inv(c, s) && r !in s.pcs && Lists(s.tables, order)
    ensures var s' := Run(c, s, [Act(r, BeginHealth(order))] + Alone(r, i, n));
            && (forall id, h :: Listed(s'.tables, id, h) <==> Listed(s.tables, id, h) && Kept(c, s, h, i.now))
            && (forall id, h :: Listed(s.tables, id, h) ==>
                  h in s.tracks && h in s'.tracks
                  && if Kept(c, s, h, i.now) then s'.tracks[h] == s.tracks[h] else s'.tracks[h].wasReset)
            && Position(s', r) == Scan([], Health) && s'.locks == s.locks
  {
    hide Run, Step, References, TableOk, Locking, Histories, Reservations, Capacity, Commitments;
    var begin := Act(r, BeginHealth(order));
    RunNone(c, s);
    RunThen(c, s, [], begin);
    assert [] + [begin] == [begin];
    var p := Run(c, s, [begin]);
    StepInv(c, s, r, begin.e);
    ScanBegins(c, s, r, order, i.now);
    n := SweepsRest(c, s, p, r, order, Health, i);
    RunJoined(c, s, [begin], Alone(r, i, n));
    forall id, h | Listed(s.tables, id, h) ensures h in s.tracks { ListedIsOpen(s, id, h); }
  }

  lemma ScanBegins(c: Config, s: State, r: Request, order: seq<Handle>, now: real)
    requires References(s) && TableOk(s) && r !in s.pcs && Lists(s.tables, order)
    ensures Swept(c, s, Step(c, s, r, BeginHealth(order)), r, order, Health, now)
    ensures forall h :: h in order ==> h in s.tables.sessions.Values
  {
    var p := Step(c, s, r, BeginHealth(order));
    assert p == s.(pcs := s.pcs[r := Scan(order, Health)]);
    forall id, h | Listed(s.tables, id, h) ensures h in order { ListedInOrder(s.tables, order, id, h); }
    forall h | h in order ensures h in s.tables.sessions.Values { assert h in (set g | g in order); }
    hide Lists, References, TableOk, Step;
  }
}
