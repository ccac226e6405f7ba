/** The tracking service's session protocol as a transition system.

    Every region the service runs under a lock is one atomic step of one request; the start and the
    end of each backend call are separate steps, so that other requests can run in between.  What the
    environment chooses (clock readings, backend outcomes, image sizes) comes with the step.
 */
module SessionProtocol {
  import opened Options

  type Id = string
  type Request = nat
  type Size = (nat, nat)
  /** Identity of one `TrackingSession` object and of the inference state it owns. */
  type Handle = nat

  datatype Config = Config(maxSessions: nat, maxFrames: nat, maxCoast: nat, timeout: real, historyLimit: nat)

  /** The fields of a session guarded by its own lock.  `started` and `outcomes` record the calls of
      `backend.update` on the inference state; `frames` is its retained per-frame history. */
  datatype Work = Work(lastSeq: nat, coast: nat, lastAccess: real, size: Size,
                       started: seq<nat>, outcomes: seq<bool>, frames: set<int>)

  /** One session object; `wasReset` records that `backend.reset` was called on its state. */
  datatype Track = Track(id: Id, published: bool, owner: Request, closed: bool, wasReset: bool, work: Work)

  /** What a request does once an idle-expiry scan is over. */
  datatype Goal = Health | Reserve(id: Id)

  /** What a request does once a call of `backend.reset` is over. */
  datatype Then = Finish | NextOf(rest: seq<Handle>) | Rescan(rest: seq<Handle>, goal: Goal) | FailInit(id: Id)

  datatype Pc =
    | Gone
    | Scan(rest: seq<Handle>, goal: Goal)
    | ScanHeld(h: Handle, rest: seq<Handle>, goal: Goal)
    | InitRunning(id: Id)
    | InitFinally(id: Id, published: bool)
    | UpdWait(h: Handle, frame: nat, size: Size)
    | UpdLocked(h: Handle, frame: nat, size: Size)
    | UpdChecked(h: Handle, frame: nat, size: Size)
    | UpdActive(h: Handle, frame: nat, size: Size)
    | UpdCalling(h: Handle, frame: nat)
    | UpdDrop(h: Handle)
    | Batch(rest: seq<Handle>)
    | ResetPending(h: Handle, next: Then)
    | ResetRunning(h: Handle, next: Then)

  /** What the global lock guards.  `reserved` maps each reserved id to the request that reserved it;
      the service keeps only the keys, and none of `lost`, `orphans` and `replaced`. */
  datatype Tables = Tables(sessions: map<Id, Handle>, reserved: map<Id, Request>,
                           lost: nat, orphans: set<Request>, replaced: set<Handle>)

  datatype State = State(tables: Tables, tracks: map<Handle, Track>, locks: map<Handle, Request>,
                         pcs: map<Request, Pc>)

  const INITIAL: State := State(Tables(map[], map[], 0, {}, {}), map[], map[], map[])

  /** `Masked(ok)`: the model returned a mask, and the response checks accept it iff `ok`. */
  datatype Outcome = Masked(ok: bool) | NoMask | Fault

  datatype Input = Input(now: real, outcome: Outcome, created: Handle, size: Size)

  datatype Event =
    | BeginHealth(order: seq<Handle>)
    | BeginInit(id: Id, order: seq<Handle>)
    | BeginUpdate(id: Id, frame: nat, size: Size)
    | BeginReset(id: Id)
    | BeginClose(order: seq<Handle>)
    | Advance(input: Input)

  // ----- one step, as the difference it makes

  datatype Hold = Keep | Take | Release

  /** The request moves to `pc`, takes or releases the lock of `h`, replaces the track of `h`, and
      leaves `tables`. */
  datatype Delta = Delta(pc: Pc, hold: Hold, h: Handle, track: Option<Track>, tables: Tables)

  function Position(s: State, r: Request): Pc { if r in s.pcs then s.pcs[r] else Gone }

  function Apply(s: State, r: Request, d: Delta): State
  {
    State(d.tables,
          if d.track.Some? then s.tracks[d.h := d.track.value] else s.tracks,
          match d.hold case Keep => s.locks case Take => s.locks[d.h := r] case Release => s.locks - {d.h},
          if d.pc.Gone? then s.pcs - {r} else s.pcs[r := d.pc])
  }

  function Stay(s: State, pc: Pc): Delta { Delta(pc, Keep, HandleOf(pc), None, s.tables) }

  function HandleOf(pc: Pc): Handle { if HasHandle(pc) then pc.h else 0 }

  predicate HasHandle(pc: Pc)
  {
    !pc.Gone? && !pc.Scan? && !pc.InitRunning? && !pc.InitFinally? && !pc.Batch?
  }

  predicate Listed(t: Tables, id: Id, h: Handle) { id in t.sessions && t.sessions[id] == h }

  /** Take `h` out of the table if it is there. */
  function Pop(t: Tables, id: Id, h: Handle): Tables
  {
    if Listed(t, id, h) then t.(sessions := t.sessions - {id}) else t
  }

  /** `self._reserved.discard(id)` by request `r`; another request's reservation counts as lost. */
  function Discard(t: Tables, r: Request, id: Id): Tables
  {
    if id !in t.reserved then t
    else if t.reserved[id] == r then t.(reserved := t.reserved - {id})
    else t.(reserved := t.reserved - {id}, lost := t.lost + 1, orphans := t.orphans + {t.reserved[id]})
  }

  function Publish(t: Tables, r: Request, id: Id, h: Handle): Tables
  {
    var d := Discard(t, r, id);
    d.(sessions := d.sessions[id := h], orphans := d.orphans - {r},
       replaced := if id in d.sessions then d.replaced + {d.sessions[id]} else d.replaced)
  }

  function Settle(t: Tables, r: Request, id: Id): Tables
  {
    var d := Discard(t, r, id);
    d.(orphans := d.orphans - {r})
  }

  function Prune(frames: set<int>, frame: int, limit: int): set<int>
  {
    var cutoff := frame - limit + 1;
    if cutoff <= 0 then frames else set f | f in frames && f >= cutoff
  }

  function NewTrack(r: Request, id: Id, now: real, size: Size, published: bool): Track
  {
    Track(id, published, r, !published, false, Work(0, 0, now, size, [], [], {0}))
  }

  /** `order` lists the sessions of the table, each once. */
  predicate Lists(t: Tables, order: seq<Handle>)
  {
    (set h | h in order) == t.sessions.Values && forall i, j :: 0 <= i < j < |order| ==> order[i] != order[j]
  }

  function ScanMove(c: Config, s: State, r: Request, pc: Pc): Delta
    requires pc.Scan?
  {
    var t := s.tables;
    if pc.rest != [] then
      if pc.rest[0] in s.locks then Delta(Scan(pc.rest[1..], pc.goal), Keep, 0, None, t)
      else Delta(ScanHeld(pc.rest[0], pc.rest[1..], pc.goal), Take, pc.rest[0], None, t)
    else match pc.goal
      case Health => Delta(Gone, Keep, 0, None, t)
      case Reserve(id) =>
        if id in t.sessions || id in t.reserved || |t.sessions| + |t.reserved| >= c.maxSessions
        then Delta(Gone, Keep, 0, None, t)
        else Delta(InitRunning(id), Keep, 0, None, t.(reserved := t.reserved[id := r]))
  }

  function InitMove(s: State, r: Request, pc: Pc, i: Input): Delta
    requires pc.InitRunning?
  {
    var h := i.created;
    if !i.outcome.Masked? then Delta(InitFinally(pc.id, false), Keep, 0, None, s.tables)
    else if h in s.tracks then Stay(s, pc)
    else if i.outcome.ok then
      Delta(InitFinally(pc.id, true), Keep, h, Some(NewTrack(r, pc.id, i.now, i.size, true)),
            Publish(s.tables, r, pc.id, h))
    else
      Delta(ResetPending(h, FailInit(pc.id)), Keep, h, Some(NewTrack(r, pc.id, i.now, i.size, false)), s.tables)
  }

  function ReturnMove(c: Config, s: State, pc: Pc, k: Track, i: Input): Delta
    requires pc.UpdCalling?
  {
    var h, w, frame := pc.h, k.work, pc.frame;
    match i.outcome
    case Masked(ok) =>
      var w' := Work(frame, 0, i.now, w.size, w.started, w.outcomes + [true],
                     Prune(w.frames + {frame}, frame, c.historyLimit));
      if ok then Delta(Gone, Release, h, Some(k.(work := w')), s.tables)
      else Delta(UpdDrop(h), Keep, h, Some(k.(work := w')), s.tables)
    case NoMask =>
      var w' := w.(outcomes := w.outcomes + [false], frames := w.frames + {frame});
      if w.coast < c.maxCoast
      then Delta(Gone, Release, h,
                 Some(k.(work := w'.(coast := w.coast + 1, lastSeq := frame, lastAccess := i.now))), s.tables)
      else Delta(UpdDrop(h), Keep, h, Some(k.(work := w')), s.tables)
    case Fault => Delta(UpdDrop(h), Keep, h, Some(k.(work := w.(frames := w.frames + {frame}))), s.tables)
  }

  function AfterReset(s: State, h: Handle, next: Then): Delta
  {
    match next
    case Finish => Delta(Gone, Release, h, None, s.tables)
    case NextOf(rest) => Delta(Batch(rest), Release, h, None, s.tables)
    case Rescan(rest, goal) => Delta(Scan(rest, goal), Release, h, None, s.tables)
    case FailInit(id) => Delta(InitFinally(id, false), Keep, h, None, s.tables)
  }

  /** Steps of a request on a session object it refers to; `k` is that object. */
  function TrackMove(c: Config, s: State, pc: Pc, k: Track, i: Input): Delta
    requires HasHandle(pc)
  {
    var t, h, w := s.tables, pc.h, k.work;
    var closing := Some(k.(closed := true));
    match pc
    case ScanHeld(_, rest, goal) =>
      if !Listed(t, k.id, h) || k.closed || i.now - w.lastAccess <= c.timeout
      then Delta(Scan(rest, goal), Release, h, None, t)
      else Delta(ResetPending(h, Rescan(rest, goal)), Keep, h, closing, Pop(t, k.id, h))
    case UpdWait(_, frame, size) =>
      if h in s.locks then Stay(s, pc) else Delta(UpdLocked(h, frame, size), Take, h, None, t)
    case UpdLocked(_, frame, size) =>
      if !Listed(t, k.id, h) || k.closed then Delta(Gone, Release, h, None, t)
      else if i.now - w.lastAccess > c.timeout
      then Delta(UpdChecked(h, frame, size), Keep, h, closing, Pop(t, k.id, h))
      else Delta(UpdChecked(h, frame, size), Keep, h, None, t)
    case UpdChecked(_, frame, size) =>
      Delta(if k.closed then ResetPending(h, Finish) else UpdActive(h, frame, size), Keep, h, None, t)
    case UpdActive(_, frame, size) =>
      if frame != w.lastSeq + 1 || frame >= c.maxFrames || size != w.size then Delta(UpdDrop(h), Keep, h, None, t)
      else Delta(UpdCalling(h, frame), Keep, h, Some(k.(work := w.(started := w.started + [frame]))), t)
    case UpdCalling(_, _) => ReturnMove(c, s, pc, k, i)
    case UpdDrop(_) => Delta(ResetPending(h, Finish), Keep, h, closing, Pop(t, k.id, h))
    case ResetPending(_, next) =>
      Delta(ResetRunning(h, next), Keep, h, Some(k.(wasReset := true, work := w.(frames := {}))), t)
    case ResetRunning(_, next) => AfterReset(s, h, next)
  }

  function Move(c: Config, s: State, r: Request, pc: Pc, i: Input): Delta
    requires !pc.Gone? && (HasHandle(pc) ==> pc.h in s.tracks)
  {
    if HasHandle(pc) then TrackMove(c, s, pc, s.tracks[pc.h], i)
    else match pc
      case Scan(_, _) => ScanMove(c, s, r, pc)
      case InitRunning(_) => InitMove(s, r, pc, i)
      case InitFinally(id, _) => Delta(Gone, Keep, 0, None, Settle(s.tables, r, id))
      case Batch(rest) =>
        if rest == [] then Delta(Gone, Keep, 0, None, s.tables)
        else if rest[0] in s.locks then Stay(s, pc)
        else Delta(ResetPending(rest[0], NextOf(rest[1..])), Take, rest[0], None, s.tables)
  }

  /** A new request; `BeginClose` has a step of its own, since it closes every listed session. */
  function Begin(s: State, r: Request, e: Event): Delta
    requires !e.Advance? && !e.BeginClose?
    requires forall id :: id in s.tables.sessions ==> s.tables.sessions[id] in s.tracks
  {
    var t := s.tables;
    match e
    case BeginHealth(order) => if Lists(t, order) then Delta(Scan(order, Health), Keep, 0, None, t) else Stay(s, Gone)
    case BeginInit(id, order) =>
      if Lists(t, order) then Delta(Scan(order, Reserve(id)), Keep, 0, None, t) else Stay(s, Gone)
    case BeginUpdate(id, frame, size) =>
      if id in t.sessions then Delta(UpdWait(t.sessions[id], frame, size), Keep, t.sessions[id], None, t)
      else Stay(s, Gone)
    case BeginReset(id) =>
      var d := Discard(t, r, id);
      if id in t.sessions
      then var h := t.sessions[id];
           Delta(Batch([h]), Keep, h, Some(s.tracks[h].(closed := true)), d.(sessions := t.sessions - {id}))
      else Delta(Batch([]), Keep, 0, None, d)
  }

  function CloseAll(s: State, r: Request, order: seq<Handle>): State
  {
    var t := s.tables;
    State(Tables(map[], map[], t.lost + |t.reserved|, t.orphans + t.reserved.Values, t.replaced),
          map h | h in s.tracks :: if h in order then s.tracks[h].(closed := true) else s.tracks[h],
          s.locks, s.pcs[r := Batch(order)])
  }

  // ----- what a request refers to

  function Rest(pc: Pc): seq<Handle>
  {
    match pc
    case Scan(rest, _) => rest
    case ScanHeld(_, rest, _) => rest
    case Batch(rest) => rest
    case ResetPending(_, next) => ThenRest(next)
    case ResetRunning(_, next) => ThenRest(next)
    case _ => []
  }

  function ThenRest(next: Then): seq<Handle>
  {
    match next
    case NextOf(rest) => rest
    case Rescan(rest, _) => rest
    case _ => []
  }

  predicate FailsInit(pc: Pc) { (pc.ResetPending? || pc.ResetRunning?) && pc.next.FailInit? }

  /** The rest was taken out of the table to be reset. */
  predicate Evicts(pc: Pc) { pc.Batch? || ((pc.ResetPending? || pc.ResetRunning?) && pc.next.NextOf?) }

  ghost predicate Shared(tracks: map<Handle, Track>, hs: seq<Handle>, evicted: bool)
  {
    forall h :: h in hs ==> h in tracks && tracks[h].published && (evicted ==> tracks[h].closed)
  }

  /** A request refers to published sessions, or to one of its own that was never published. */
  ghost predicate Refers(tracks: map<Handle, Track>, r: Request, pc: Pc)
  {
    && Shared(tracks, Rest(pc), Evicts(pc))
    && (HasHandle(pc) ==> pc.h in tracks && Visible(tracks[pc.h], r, FailsInit(pc)))
  }

  predicate Visible(k: Track, r: Request, own: bool)
  {
    if own then !k.published && k.owner == r && k.closed else k.published
  }

  ghost predicate References(s: State)
  {
    && (forall id :: id in s.tables.sessions ==> SessionIn(s.tracks, s.tables.sessions[id], id))
    && (forall r :: r in s.pcs ==> !s.pcs[r].Gone? && Refers(s.tracks, r, s.pcs[r]))
  }

  ghost predicate SessionIn(tracks: map<Handle, Track>, h: Handle, id: Id)
  {
    h in tracks && tracks[h].published && tracks[h].id == id
  }

  function Step(c: Config, s: State, r: Request, e: Event): State
    requires References(s)
  {
    if e.Advance? then if r in s.pcs then Apply(s, r, Move(c, s, r, s.pcs[r], e.input)) else s
    else if r in s.pcs then s
    else if e.BeginClose? then if Lists(s.tables, e.order) then CloseAll(s, r, e.order) else s
    else Apply(s, r, Begin(s, r, e))
  }

  // ----- pruning one per-frame dictionary

  /** Pop every key below the cutoff; `order` is the key order of the dictionary. */
  method PruneIndexed<V>(mapping: map<int, V>, order: seq<int>, frame: int, limit: int) returns (kept: map<int, V>)
    requires forall k :: k in mapping <==> k in order
    ensures kept.Keys == Prune(mapping.Keys, frame, limit)
    ensures forall k :: k in kept ==> kept[k] == mapping[k]
  {
    kept := mapping;
    var cutoff := frame - limit + 1;
    if cutoff <= 0 { return; }
    for i := 0 to |order|
      invariant forall k :: k in kept <==> k in mapping && (k >= cutoff || k !in order[..i])
      invariant forall k :: k in kept ==> kept[k] == mapping[k]
    {
      if order[i] < cutoff { kept := kept - {order[i]}; }
      assert order[..i + 1] == order[..i] + [order[i]];
    }
    assert order[..|order|] == order;
    forall k ensures k in kept.Keys <==> k in Prune(mapping.Keys, frame, limit) {}
  }
}
