/** The capacity account is attained: every number of lost reservations admits as many sessions too many. */
module SessionCapacity {
  import opened Options
  import opened SessionProtocol
  import opened SessionInvariants
  import opened SessionRuns

  lemma {:induction false} RunThen(c: Config, s: State, acts: seq<Act>, a: Act)
    requires References(s)
    ensures Run(c, s, acts + [a]) == Step(c, Run(c, s, acts), a.r, a.e)
    decreases |acts|
  {
    hide Step, References;
    if acts == [] {
      StepReferences(c, s, a.r, a.e);
      assert acts + [a] == [a] && [a][1..] == [];
    } else {
      StepReferences(c, s, acts[0].r, acts[0].e);
      RunThen(c, Step(c, s, acts[0].r, acts[0].e), acts[1..], a);
      assert (acts + [a])[0] == acts[0] && (acts + [a])[1..] == acts[1..] + [a];
    }
  }

  lemma InitialReferences(c: Config)
    ensures References(INITIAL)
  {
    InitialInv(c);
  }

  ghost predicate Reachable(c: Config, s: State) { exists acts :: Reached(c, acts) == s }

  lemma ReachStep(c: Config, s: State, r: Request, e: Event)
    requires Reachable(c, s)
    ensures References(s) && Reachable(c, Step(c, s, r, e))
  {
    hide Step, References, Inv;
    InitialReferences(c);
    var acts :| Reached(c, acts) == s;
    RunThen(c, INITIAL, acts, Act(r, e));
    assert Reached(c, acts + [Act(r, e)]) == Step(c, s, r, e);
  }

  // ----- the schedule: names, requests and handles of the inits

  /** The id of init number `i`. */
  function Name(i: nat): Id { seq(i, _ => 'a') }

  lemma NamesDiffer(i: nat, j: nat)
    ensures Name(i) == Name(j) <==> i == j
  {
    assert |Name(i)| == i && |Name(j)| == j;
  }

  function Init(i: nat): Request { 2 * i }

  function Reset(i: nat): Request { 2 * i + 1 }

  const GO: Event := Advance(Input(0.0, NoMask, 0, (640, 480)))

  function Tracked(h: Handle): Event { Advance(Input(0.0, Masked(true), h, (640, 480))) }

  /** `i` inits are under way, of which the first `k` have lost their reservation. */
  ghost predicate Waiting(s: State, i: nat, k: nat)
  {
    && s.tables.sessions == map[] && s.tracks == map[] && s.tables.lost == Lost(i, k)
    && s.tables.reserved.Keys == Reserved(i, k)
    && OwnNames(s)
    && InFlight(s, 0, i)
  }

  function Lost(i: nat, k: nat): nat { if i < k then i else k }

  ghost function Reserved(i: nat, k: nat): set<Id> { set j: nat | k <= j < i :: Name(j) }

  /** Whatever is reserved is reserved by the init of that name. */
  ghost predicate OwnNames(s: State)
  {
    forall j: nat :: Name(j) in s.tables.reserved ==> s.tables.reserved[Name(j)] == Init(j)
  }

  /** Of the first `i` inits, those from `p` on are running and the others have published; the rest are resets. */
  ghost predicate InFlight(s: State, p: nat, i: nat)
  {
    && (forall j: nat :: p <= j < i ==> Position(s, Init(j)) == InitRunning(Name(j)))
    && (forall j: nat :: j < p ==> Position(s, Init(j)) == InitFinally(Name(j), true))
    && (forall r :: r in s.pcs && r % 2 == 1 ==> s.pcs[r].Batch?)
    && (forall j: nat :: i <= j ==> Init(j) !in s.pcs && Reset(j) !in s.pcs)
  }

  lemma {:induction false} ReservedSize(i: nat, k: nat)
    ensures |Reserved(i, k)| == if i <= k then 0 else i - k
    decreases i
  {
    if i > k {
      var n := i - 1;
      ReservedSize(n, k);
      forall j: nat | k <= j < n ensures Name(j) != Name(n) { NamesDiffer(j, n); }
      assert Reserved(i, k) == Reserved(n, k) + {Name(n)};
      assert Name(n) !in Reserved(n, k);
    } else {
      assert Reserved(i, k) == {};
    }
  }

  // ----- one init, with or without the reset that orphans it

  lemma ScanStep(c: Config, s: State, r: Request, id: Id)
    requires References(s) && s.tables.sessions == map[] && r !in s.pcs
    ensures Step(c, s, r, BeginInit(id, [])) == s.(pcs := s.pcs[r := Scan([], Reserve(id))])
  {
    assert Lists(s.tables, []) by { assert (set h | h in []) == s.tables.sessions.Values; }
    hide Lists;
  }

  lemma ReserveStep(c: Config, s: State, r: Request, id: Id)
    requires References(s) && s.tables.sessions == map[] && id !in s.tables.reserved
    requires |s.tables.reserved| < c.maxSessions && r in s.pcs && s.pcs[r] == Scan([], Reserve(id))
    ensures Step(c, s, r, GO) ==
            s.(tables := s.tables.(reserved := s.tables.reserved[id := r]), pcs := s.pcs[r := InitRunning(id)])
  {}

  lemma LoseStep(c: Config, s: State, q: Request, r: Request, id: Id)
    requires References(s) && s.tables.sessions == map[] && q !in s.pcs && q != r
    requires id in s.tables.reserved && s.tables.reserved[id] == r
    ensures Step(c, s, q, BeginReset(id)) ==
            s.(tables := s.tables.(reserved := s.tables.reserved - {id}, lost := s.tables.lost + 1,
                                   orphans := s.tables.orphans + {r}),
               pcs := s.pcs[q := Batch([])])
  {}

  lemma PublishStep(c: Config, s: State, r: Request, id: Id, h: Handle)
    requires References(s) && r in s.pcs && s.pcs[r] == InitRunning(id) && id !in s.tables.sessions && h !in s.tracks
    requires id in s.tables.reserved ==> s.tables.reserved[id] == r
    ensures var s' := Step(c, s, r, Tracked(h));
            && s'.tables.sessions == s.tables.sessions[id := h] && s'.tables.lost == s.tables.lost
            && s'.tables.reserved == s.tables.reserved - {id}
            && s'.pcs == s.pcs[r := InitFinally(id, true)] && s'.tracks.Keys == s.tracks.Keys + {h}
  {}

  /** One more init reserves. */
  lemma BeginOne(c: Config, s: State, i: nat, k: nat) returns (t: State)
    requires Reachable(c, s) && Waiting(s, i, k) && |Reserved(i, k)| < c.maxSessions
    ensures Reachable(c, t) && References(t)
    ensures t.tables == s.tables.(reserved := s.tables.reserved[Name(i) := Init(i)])
    ensures t.tracks == s.tracks && t.pcs == s.pcs[Init(i) := InitRunning(Name(i))]
  {
    hide Step, References, Reachable;
    var r, id := Init(i), Name(i);
    forall j: nat | k <= j < i ensures Name(j) != id { NamesDiffer(j, i); }
    assert id !in Reserved(i, k);
    ReachStep(c, s, r, BeginInit(id, []));
    ScanStep(c, s, r, id);
    var a := Step(c, s, r, BeginInit(id, []));
    ReachStep(c, a, r, GO);
    ReserveStep(c, a, r, id);
    t := Step(c, a, r, GO);
    ReachStep(c, t, r, GO);
    assert a.pcs[r := InitRunning(id)] == s.pcs[r := InitRunning(id)];
  }

  lemma BegunWaiting(s: State, t: State, i: nat, k: nat)
    requires Waiting(s, i, k) && k <= i
    requires t.tables == s.tables.(reserved := s.tables.reserved[Name(i) := Init(i)])
    requires t.tracks == s.tracks && t.pcs == s.pcs[Init(i) := InitRunning(Name(i))]
    ensures Waiting(t, i + 1, k)
  {
    hide InFlight, Position;
    BegunInFlight(s, t, i);
    assert Reserved(i + 1, k) == Reserved(i, k) + {Name(i)};
    forall j: nat | Name(j) in t.tables.reserved ensures t.tables.reserved[Name(j)] == Init(j) { NamesDiffer(i, j); }
  }

  lemma BegunInFlight(s: State, t: State, i: nat)
    requires InFlight(s, 0, i) && t.pcs == s.pcs[Init(i) := InitRunning(Name(i))]
    ensures InFlight(t, 0, i + 1)
  {
    hide Name;
  }

  lemma OrphanedWaiting(s: State, t: State, u: State, i: nat, k: nat)
    requires Waiting(s, i, k) && i < k
    requires t.tables == s.tables.(reserved := s.tables.reserved[Name(i) := Init(i)])
    requires t.tracks == s.tracks && t.pcs == s.pcs[Init(i) := InitRunning(Name(i))]
    requires u.tables.sessions == t.tables.sessions && u.tables.lost == t.tables.lost + 1
    requires u.tables.reserved == t.tables.reserved - {Name(i)} && u.tracks == t.tracks
    requires u.pcs == t.pcs[Reset(i) := Batch([])]
    ensures Waiting(u, i + 1, k)
  {
    hide InFlight, Position;
    BegunInFlight(s, t, i);
    ResetInFlight(t, u, i);
    assert Reserved(i, k) == {} && Reserved(i + 1, k) == {};
    assert u.tables.reserved.Keys == {};
  }

  lemma ResetInFlight(t: State, u: State, i: nat)
    requires InFlight(t, 0, i + 1) && u.pcs == t.pcs[Reset(i) := Batch([])]
    ensures InFlight(u, 0, i + 1)
  {
    hide Name;
  }

  /** Any number of inits under way, the first `k` orphaned. */
  lemma {:induction false} WaitingIsReachable(c: Config, i: nat, k: nat) returns (s: State)
    requires c.maxSessions >= 1 && i <= k + c.maxSessions
    ensures Reachable(c, s) && Waiting(s, i, k)
    decreases i
  {
    if i == 0 {
      s := INITIAL;
      InitialInv(c);
      assert Reached(c, []) == INITIAL;
      assert Reserved(0, k) == {};
    } else {
      hide Reachable, Waiting, Step;
      var n := i - 1;
      var before := WaitingIsReachable(c, n, k);
      ReservedSize(n, k);
      var t := BeginOne(c, before, n, k);
      if k <= n {
        s := t;
        BegunWaiting(before, t, n, k);
      } else {
        FreeReset(before, n, k);
        ReachStep(c, t, Reset(n), BeginReset(Name(n)));
        LoseStep(c, t, Reset(n), Init(n), Name(n));
        s := Step(c, t, Reset(n), BeginReset(Name(n)));
        OrphanedWaiting(before, t, s, n, k);
      }
    }
  }

  lemma FreeReset(s: State, i: nat, k: nat)
    requires Waiting(s, i, k)
    ensures Reset(i) !in s.pcs && Reset(i) != Init(i) && s.tables.sessions == map[]
  {}

  // ----- publish all

  ghost predicate Publishing(s: State, p: nat, i: nat, k: nat)
  {
    && s.tables.lost == k && OwnNames(s) && InFlight(s, p, i)
    && s.tables.sessions.Keys == Reserved(p, 0) && (forall h :: h in s.tracks ==> h < p)
  }

  lemma PublishOne(c: Config, s: State, p: nat, i: nat, k: nat) returns (t: State)
    requires Reachable(c, s) && Publishing(s, p, i, k) && p < i
    ensures Reachable(c, t) && Publishing(t, p + 1, i, k)
  {
    hide Step, References, Reachable;
    var r, id := Init(p), Name(p);
    forall j: nat | 0 <= j < p ensures Name(j) != id { NamesDiffer(j, p); }
    assert id !in Reserved(p, 0);
    assert Position(s, r) == InitRunning(id);
    ReachStep(c, s, r, Tracked(p));
    PublishStep(c, s, r, id, p);
    t := Step(c, s, r, Tracked(p));
    assert Reserved(p + 1, 0) == Reserved(p, 0) + {id};
    PublishedInFlight(s, t, p, i);
    PublishedNames(s, t, p);
  }

  lemma PublishedInFlight(s: State, t: State, p: nat, i: nat)
    requires InFlight(s, p, i) && p < i && t.pcs == s.pcs[Init(p) := InitFinally(Name(p), true)]
    ensures InFlight(t, p + 1, i)
  {
    hide Name;
  }

  lemma PublishedNames(s: State, t: State, p: nat)
    requires OwnNames(s) && t.tables.reserved == s.tables.reserved - {Name(p)}
    ensures OwnNames(t)
  {}

  lemma {:induction false} PublishingIsReachable(c: Config, p: nat, i: nat, k: nat) returns (s: State)
    requires c.maxSessions >= 1 && i == k + c.maxSessions && p <= i
    ensures Reachable(c, s) && Publishing(s, p, i, k)
    decreases p
  {
    hide Reachable;
    if p == 0 {
      s := WaitingIsReachable(c, i, k);
      assert Reserved(0, 0) == {} && s.tables.sessions.Keys == {};
    } else {
      hide Publishing;
      var before := PublishingIsReachable(c, p - 1, i, k);
      s := PublishOne(c, before, p - 1, i, k);
    }
  }

  lemma NothingPending(s: State, i: nat, k: nat)
    requires Publishing(s, i, i, k) && Reservations(s)
    ensures s.tables.orphans == {} && s.tables.reserved == map[]
  {
    forall r: Request ensures PendingId(Position(s, r)).None? {
      if r % 2 == 0 { assert r == Init(r / 2); }
    }
    forall id ensures id !in s.tables.reserved {}
  }

  /** For every configuration and every `k`, some schedule loses `k` reservations, leaves no init without one and
      publishes `k` sessions more than the configured maximum: the account of `CapacityBound` is attained. */
  lemma CapacityIsAttained(c: Config, k: nat)
    requires c.historyLimit > 0 && c.maxSessions >= 1
    ensures exists acts ::
              var t := Reached(c, acts).tables;
              t.lost == k && t.orphans == {} && t.reserved == map[] && |t.sessions| == c.maxSessions + k
  {
    var i := k + c.maxSessions;
    var s := PublishingIsReachable(c, i, i, k);
    ReservedSize(i, 0);
    var acts :| Reached(c, acts) == s;
    ReachedInv(c, acts);
    hide Reached, Step, Publishing;
    NothingPending(s, i, k);
    PublishedSize(s, i, k);
    assert Reached(c, acts).tables.lost == k;
  }

  lemma PublishedSize(s: State, i: nat, k: nat)
    requires Publishing(s, i, i, k)
    ensures |s.tables.sessions| == |Reserved(i, 0)| && s.tables.lost == k
  {
    assert |s.tables.sessions| == |s.tables.sessions.Keys|;
  }
}
