/** The base-lock protocol: the owner's state machine on the PC, the leased latch on the NUC, and the
    link between them.

    Clock readings and what the link does to one command are parameters.  The heartbeat thread itself
    is not modelled: a heartbeat is one call that may come at any time. */
module BaseLock {
  import opened Options

  const COMMAND_SCHEMA: string := "z_manip.go2w_base_lock_command.v1"

  // ----- values

  datatype OwnerState = Unlocked | LockRequested | Locked | UnlockRequested

  datatype Command = Command(lock: bool, source: string, seqNo: nat, lease: real)

  /** What a command looks like to the latch: any JSON value. */
  datatype Document = NotADict | Dict(schema: string, lock: Option<bool>, source: Option<string>, seqNo: Option<int>,
                                      lease: Option<real>)

  function BuildCommand(c: Command): Document
  {
    Dict(COMMAND_SCHEMA, Some(c.lock), Some(c.source), Some(c.seqNo), Some(c.lease))
  }

  datatype Owner = Owner(state: OwnerState, source: Option<string>, since: Option<real>, seqNo: nat, refused: bool,
                         delivered: bool)

  datatype Latch = Latch(locked: bool, source: Option<string>, since: Option<real>, deadline: Option<real>,
                         seqNo: Option<int>, lease: real, defaultLease: real, expiries: nat)

  datatype LatchEvent = LockedEvent | RenewedEvent | UnlockedEvent | IgnoredEvent

  const FRESH_OWNER: Owner := Owner(Unlocked, None, None, 0, false, false)

  function FreshLatch(lease: real): Latch { Latch(false, None, None, None, None, lease, lease, 0) }

  predicate Engaged(state: OwnerState) { state == LockRequested || state == Locked }

  // ----- the latch

  predicate WellFormed(d: Document) { d.Dict? && d.schema == COMMAND_SCHEMA && d.lock.Some? }

  predicate IsLock(d: Document) { WellFormed(d) && d.lock.value }

  predicate IsUnlock(d: Document) { WellFormed(d) && !d.lock.value }

  function LeaseOf(d: Document, default: real): real
    requires d.Dict?
  {
    if d.lease.Some? && d.lease.value > 0.0 then d.lease.value else default
  }

  function Released(l: Latch): Latch
  {
    l.(locked := false, source := None, since := None, deadline := None, lease := l.defaultLease)
  }

  function Received(l: Latch, d: Document, now: real): (Latch, LatchEvent)
  {
    if IsLock(d) then
      var lease := LeaseOf(d, l.defaultLease);
      var renewed := l.(lease := lease, deadline := Some(now + lease),
                        seqNo := if d.seqNo.Some? then d.seqNo else l.seqNo);
      if l.locked then (renewed, RenewedEvent)
      else (renewed.(locked := true, source := d.source, since := Some(now)), LockedEvent)
    else if IsUnlock(d) && l.locked then (Released(l), UnlockedEvent)
    else (l, IgnoredEvent)
  }

  function Polled(l: Latch, now: real): (Latch, bool)
  {
    if l.locked && l.deadline.Some? && now > l.deadline.value
    then (Released(l).(expiries := l.expiries + 1), true)
    else (l, false)
  }

  class BaseLockLatch {
    var locked: bool
    var source: Option<string>
    var since: Option<real>
    var deadline: Option<real>
    var seqNo: Option<int>
    var lease: real
    const defaultLease: real
    var expiries: nat

    constructor (lease: real)
      ensures Value() == FreshLatch(lease)
    {
      locked, source, since, deadline, seqNo := false, None, None, None, None;
      this.lease, defaultLease, expiries := lease, lease, 0;
    }

    function Value(): Latch
      reads this
    {
      Latch(locked, source, since, deadline, seqNo, lease, defaultLease, expiries)
    }

    method Apply(command: Document, now: real) returns (event: LatchEvent)
      modifies this
      ensures (Value(), event) == Received(old(Value()), command, now)
    {
      if command.NotADict? || command.schema != COMMAND_SCHEMA || command.lock.None? {
        return IgnoredEvent;
      }
      var leaseValue := LeaseOf(command, defaultLease);
      if command.lock.value {
        var already := locked;
        lease := leaseValue;
        deadline := Some(now + leaseValue);
        if command.seqNo.Some? { seqNo := command.seqNo; }
        if !already {
          locked := true;
          source := command.source;
          since := Some(now);
          return LockedEvent;
        }
        return RenewedEvent;
      }
      if !locked {
        return IgnoredEvent;
      }
      Release();
      return UnlockedEvent;
    }

    method Poll(now: real) returns (expired: bool)
      modifies this
      ensures (Value(), expired) == Polled(old(Value()), now)
    {
      if locked && deadline.Some? && now > deadline.value {
        expiries := expiries + 1;
        Release();
        return true;
      }
      return false;
    }

    method Release()
      modifies this
      ensures Value() == Released(old(Value()))
    {
      locked, source, since, deadline, lease := false, None, None, None, defaultLease;
    }
  }

  // ----- the link and the owner

  /** What becomes of one command: lost; applied, but no state read back; applied and acknowledged. */
  datatype Fate = Lost | Unread(delivered: bool) | Acked

  datatype Ack = Ack(delivered: bool, locked: Option<bool>)

  datatype Joint = Joint(owner: Owner, latch: Latch, sent: seq<Command>)

  function Arrived(l: Latch, c: Command, fate: Fate, now: real): Latch
  {
    if fate.Lost? then l else Received(l, BuildCommand(c), now).0
  }

  function AckOf(l: Latch, fate: Fate): Ack
  {
    match fate
    case Lost => Ack(false, None)
    case Unread(delivered) => Ack(delivered, None)
    case Acked => Ack(true, Some(l.locked))
  }

  function Confirmed(o: Owner, ack: Ack): Owner
  {
    if !ack.delivered || ack.locked.None? then o
    else if ack.locked.value then if Engaged(o.state) then o.(state := Locked) else o
    else if o.state == UnlockRequested then o.(state := Unlocked, source := None, since := None) else o
  }

  /** Emit one command in the owner's name and take in the acknowledgement. */
  function Emitted(j: Joint, o: Owner, c: Command, fate: Fate, now: real, note: bool): Joint
  {
    var latch := Arrived(j.latch, c, fate, now);
    var ack := AckOf(latch, fate);
    Joint(Confirmed(if note then o.(delivered := ack.delivered) else o, ack), latch, j.sent + [c])
  }

  function LockAsked(j: Joint, source: string, stopped: bool, lease: real, now: real, fate: Fate): Joint
  {
    if !stopped then j.(owner := j.owner.(refused := true))
    else
      var o := j.owner.(refused := false);
      if Engaged(o.state) then j.(owner := o)
      else
        var o' := o.(seqNo := o.seqNo + 1, state := LockRequested, source := Some(source), since := Some(now));
        Emitted(j, o', Command(true, source, o'.seqNo, lease), fate, now, true)
  }

  function UnlockAsked(j: Joint, source: string, lease: real, now: real, fate: Fate): Joint
  {
    if !Engaged(j.owner.state) then j
    else
      var o := j.owner.(seqNo := j.owner.seqNo + 1, state := UnlockRequested);
      Emitted(j, o, Command(false, source, o.seqNo, lease), fate, now, true)
  }

  function Beat(j: Joint, lease: real, now: real, fate: Fate): Joint
  {
    var o := j.owner;
    var source := if o.source.Some? && o.source.value != "" then o.source.value else "heartbeat";
    if Engaged(o.state) then Emitted(j, o, Command(true, source, o.seqNo, lease), fate, now, true)
    else if o.state == UnlockRequested then Emitted(j, o, Command(false, source, o.seqNo, lease), fate, now, false)
    else j
  }

  /** Reconcile with a status of the latch read out of band; `None` when none could be read. */
  function Observed(o: Owner, status: Option<bool>): Owner
  {
    if status == Some(true) && o.state == LockRequested then o.(state := Locked)
    else if status == Some(false) && o.state == UnlockRequested then
      o.(state := Unlocked, source := None, since := None)
    else o
  }

  /** The transport the controller is given: a link to one latch. */
  class Link {
    const latch: BaseLockLatch
    var sent: seq<Command>

    constructor (latch: BaseLockLatch)
      ensures this.latch == latch && sent == []
    {
      this.latch := latch;
      sent := [];
    }

    method Emit(c: Command, fate: Fate, now: real) returns (ack: Ack)
      modifies this, latch
      ensures sent == old(sent) + [c]
      ensures latch.Value() == Arrived(old(latch.Value()), c, fate, now)
      ensures ack == AckOf(latch.Value(), fate)
    {
      sent := sent + [c];
      if !fate.Lost? {
        var event := latch.Apply(BuildCommand(c), now);
      }
      ack := AckOf(latch.Value(), fate);
    }
  }

  class BaseLockController {
    const link: Link
    const lease: real
    var state: OwnerState
    var source: Option<string>
    var since: Option<real>
    var seqNo: nat
    var refused: bool
    var delivered: bool

    constructor (link: Link, lease: real)
      ensures this.link == link && this.lease == lease && Owned() == FRESH_OWNER
    {
      this.link, this.lease := link, lease;
      state, source, since, seqNo, refused, delivered := Unlocked, None, None, 0, false, false;
    }

    function Owned(): Owner
      reads this
    {
      Owner(state, source, since, seqNo, refused, delivered)
    }

    function Value(): Joint
      reads this, link, link.latch
    {
      Joint(Owned(), link.latch.Value(), link.sent)
    }

    method RequestLock(source: string, baseStopped: bool, now: real, fate: Fate) returns (result: OwnerState)
      modifies this, link, link.latch
      ensures Value() == LockAsked(old(Value()), source, baseStopped, lease, now, fate)
      ensures result == state
    {
      if !baseStopped {
        refused := true;
        return state;
      }
      refused := false;
      if Engaged(state) {
        return state;
      }
      seqNo := seqNo + 1;
      state := LockRequested;
      this.source := Some(source);
      since := Some(now);
      var ack := link.Emit(Command(true, source, seqNo, lease), fate, now);
      delivered := ack.delivered;
      if ack.delivered && ack.locked == Some(true) {
        state := Locked;
      }
      return state;
    }

    method RequestUnlock(source: string, now: real, fate: Fate) returns (result: OwnerState)
      modifies this, link, link.latch
      ensures Value() == UnlockAsked(old(Value()), source, lease, now, fate)
      ensures result == state
    {
      if !Engaged(state) {
        return state;
      }
      seqNo := seqNo + 1;
      state := UnlockRequested;
      var ack := link.Emit(Command(false, source, seqNo, lease), fate, now);
      delivered := ack.delivered;
      if ack.delivered && ack.locked == Some(false) {
        FinishUnlock();
      }
      return state;
    }

    method ObserveStatus(status: Option<bool>) returns (result: OwnerState)
      modifies this
      ensures Owned() == Observed(old(Owned()), status)
      ensures result == state
    {
      if status == Some(true) && state == LockRequested {
        state := Locked;
      } else if status == Some(false) && state == UnlockRequested {
        FinishUnlock();
      }
      return state;
    }

    method Heartbeat(now: real, fate: Fate) returns (result: OwnerState)
      modifies this, link, link.latch
      ensures Value() == Beat(old(Value()), lease, now, fate)
      ensures result == state
      ensures Engaged(old(state)) && !fate.Lost? && lease > 0.0 ==>
                link.latch.locked && link.latch.deadline == Some(now + lease)
      ensures old(state) == UnlockRequested && fate.Acked? ==> state == Unlocked && !link.latch.locked
    {
      var name := if source.Some? && source.value != "" then source.value else "heartbeat";
      if Engaged(state) {
        var ack := link.Emit(Command(true, name, seqNo, lease), fate, now);
        delivered := ack.delivered;
        if ack.delivered && ack.locked == Some(true) {
          state := Locked;
        }
      } else if state == UnlockRequested {
        var ack := link.Emit(Command(false, name, seqNo, lease), fate, now);
        if ack.delivered && ack.locked == Some(false) {
          FinishUnlock();
        }
      }
      return state;
    }

    method FinishUnlock()
      modifies this
      ensures Owned() == old(Owned()).(state := Unlocked, source := None, since := None)
    {
      state, source, since := Unlocked, None, None;
    }
  }

  // ----- joint runs over the synchronous link

  datatype Move =
    | AskLock(source: string, stopped: bool, now: real, fate: Fate)
    | AskUnlock(source: string, now: real, fate: Fate)
    | DoBeat(now: real, fate: Fate)
    | ReadStatus
    | DoPoll(now: real)

  function Moved(j: Joint, lease: real, m: Move): Joint
  {
    match m
    case AskLock(source, stopped, now, fate) => LockAsked(j, source, stopped, lease, now, fate)
    case AskUnlock(source, now, fate) => UnlockAsked(j, source, lease, now, fate)
    case DoBeat(now, fate) => Beat(j, lease, now, fate)
    case ReadStatus => j.(owner := Observed(j.owner, Some(j.latch.locked)))
    case DoPoll(now) => j.(latch := Polled(j.latch, now).0)
  }

  function Played(lease: real, moves: seq<Move>): Joint
  {
    if moves == [] then Joint(FRESH_OWNER, FreshLatch(lease), [])
    else Moved(Played(lease, moves[..|moves| - 1]), lease, moves[|moves| - 1])
  }

  predicate Odd(n: nat) { n % 2 == 1 }

  /** A locked owner over an unlocked latch. */
  predicate Stranded(j: Joint) { j.owner.state == Locked && !j.latch.locked }

  /** A run as an observer sees it who also notes whether the owner is stranded by the watchdog. */
  datatype Watch = Watch(joint: Joint, lapsed: bool)

  /** A stranding is a lapse if it began with an expiry under an owner that held the lock.  One that began otherwise is
      none, however often the lease has run out before. */
  function Next(w: Watch, j: Joint): Watch
  {
    Watch(j, Stranded(j) && w.joint.owner.state == Locked &&
             if w.joint.latch.locked then j.latch.expiries > w.joint.latch.expiries else w.lapsed)
  }

  ghost predicate Agreed(w: Watch)
  {
    var j := w.joint;
    && (j.owner.state == Unlocked ==> !j.latch.locked)
    && (Odd(j.owner.seqNo) <==> Engaged(j.owner.state))
    && (forall i :: 0 <= i < |j.sent| ==> j.sent[i].lock == Odd(j.sent[i].seqNo))
    && (Stranded(j) ==> w.lapsed)
    && (j.latch.locked ==> j.latch.deadline.Some?)
  }

  /** Emitting a command: what the owner does with it, and what the latch does. */
  lemma EmitAgrees(w: Watch, o: Owner, c: Command, fate: Fate, now: real, note: bool)
    requires Agreed(w) && c.lock == Odd(c.seqNo) && c.seqNo == o.seqNo
    requires (Odd(o.seqNo) <==> Engaged(o.state)) && o.state != Unlocked
    requires o.state == Locked ==> w.joint.owner.state == Locked
    ensures Agreed(Next(w, Emitted(w.joint, o, c, fate, now, note)))
  {
    hide Odd;
  }

  lemma MoveAgrees(w: Watch, lease: real, m: Move)
    requires Agreed(w)
    ensures Agreed(Next(w, Moved(w.joint, lease, m)))
  {
    hide Emitted;
    var o := w.joint.owner;
    match m
    case AskLock(source, stopped, now, fate) =>
      if stopped && !Engaged(o.state) {
        var o' := o.(refused := false, seqNo := o.seqNo + 1, state := LockRequested, source := Some(source),
                     since := Some(now));
        EmitAgrees(w, o', Command(true, source, o'.seqNo, lease), fate, now, true);
      }
    case AskUnlock(source, now, fate) =>
      if Engaged(o.state) {
        var o' := o.(seqNo := o.seqNo + 1, state := UnlockRequested);
        EmitAgrees(w, o', Command(false, source, o'.seqNo, lease), fate, now, true);
      }
    case DoBeat(now, fate) =>
      if o.state != Unlocked {
        var source := if o.source.Some? && o.source.value != "" then o.source.value else "heartbeat";
        EmitAgrees(w, o, Command(Engaged(o.state), source, o.seqNo, lease), fate, now, Engaged(o.state));
      }
    case ReadStatus =>
    case DoPoll(now) =>
  }

  /** The same but for the note of the last refusal. */
  predicate SameButRefusal(j: Joint, k: Joint)
  {
    j.latch == k.latch && j.sent == k.sent && j.owner == k.owner.(refused := j.owner.refused)
  }

  /** The moves other than lock requests made while the base moves. */
  function WithoutRefused(moves: seq<Move>): seq<Move>
  {
    if moves == [] then []
    else
      var m := moves[|moves| - 1];
      WithoutRefused(moves[..|moves| - 1]) + if m.AskLock? && !m.stopped then [] else [m]
  }

  lemma MovedAlike(j: Joint, k: Joint, lease: real, m: Move)
    requires SameButRefusal(j, k)
    ensures SameButRefusal(Moved(j, lease, m), Moved(k, lease, m))
    ensures m.AskLock? && !m.stopped ==> SameButRefusal(Moved(j, lease, m), k)
  {
    hide Emitted, Polled;
    forall o: Owner, p: Owner, c: Command, fate: Fate, now: real, note: bool | o == p.(refused := o.refused)
      ensures SameButRefusal(Emitted(j, o, c, fate, now, note), Emitted(k, p, c, fate, now, note))
    {
      EmittedAlike(j, k, o, p, c, fate, now, note);
    }
  }

  lemma EmittedAlike(j: Joint, k: Joint, o: Owner, p: Owner, c: Command, fate: Fate, now: real, note: bool)
    requires SameButRefusal(j, k) && o == p.(refused := o.refused)
    ensures SameButRefusal(Emitted(j, o, c, fate, now, note), Emitted(k, p, c, fate, now, note))
  {
    hide Arrived;
  }

  /** Requests made while the base moves leave no trace in any run: striking them all out gives the same latch,
      the same owner and the same commands sent, whatever else happens and however often they are repeated. */
  lemma {:induction false} MovingBaseSendsNothing(lease: real, moves: seq<Move>)
    ensures SameButRefusal(Played(lease, moves), Played(lease, WithoutRefused(moves)))
  {
    if moves != [] {
      var n := |moves| - 1;
      var before, m := moves[..n], moves[n];
      MovingBaseSendsNothing(lease, before);
      MovedAlike(Played(lease, before), Played(lease, WithoutRefused(before)), lease, m);
      var kept := WithoutRefused(before) + [m];
      assert kept[..|kept| - 1] == WithoutRefused(before);
      assert WithoutRefused(before) + [] == WithoutRefused(before);
    }
  }

  /** Remark: repeating a request sends nothing, whatever became of the first. */
  lemma RequestsAreIdempotent(j: Joint, source: string, again: string, stopped: bool, lease: real, now: real,
                              later: real, fate: Fate, fate': Fate)
    ensures var l := LockAsked(j, source, true, lease, now, fate);
            LockAsked(l, again, stopped, lease, later, fate').sent == l.sent
    ensures var u := UnlockAsked(j, source, lease, now, fate);
            UnlockAsked(u, again, lease, later, fate') == u
  {}

  // ----- statuses that may be out of date, commands that come late or twice

  /** The two ways in which a status misleads: it confirms an unlock over a locked latch, or a lock over an unlocked
      one. */
  predicate Misleads(j: Joint, status: Option<bool>)
  {
    || (status == Some(false) && j.owner.state == UnlockRequested && j.latch.locked)
    || (status == Some(true) && j.owner.state == LockRequested && !j.latch.locked)
  }

  /** A status of any age keeps the agreement exactly unless it misleads. */
  lemma StatusAgreesIff(w: Watch, status: Option<bool>)
    requires Agreed(w)
    ensures Agreed(Next(w, w.joint.(owner := Observed(w.joint.owner, status)))) <==> !Misleads(w.joint, status)
  {}

  /** Taking in an acknowledgement does to the owner what reading its status does: one that reports an older state of
      the latch is an unread acknowledgement and then a late status. */
  lemma AckIsStatus(o: Owner, status: Option<bool>)
    ensures Confirmed(o, Ack(true, status)) == Observed(o, status)
    ensures Confirmed(o, Ack(false, status)) == o
  {}

  /** The two ways in which a command the link delivers late, or again, does harm: it locks under an owner that is
      done, or unlocks under one that holds the lock. */
  predicate Undoes(j: Joint, d: Document)
  {
    || (IsLock(d) && j.owner.state == Unlocked)
    || (IsUnlock(d) && j.owner.state == Locked && j.latch.locked)
  }

  /** A command of any age keeps the agreement exactly unless it undoes the last one. */
  lemma LateCommandAgreesIff(w: Watch, d: Document, now: real)
    requires Agreed(w)
    ensures Agreed(Next(w, w.joint.(latch := Received(w.joint.latch, d, now).0))) <==> !Undoes(w.joint, d)
  {
    hide WellFormed, LeaseOf;
    assert !(IsLock(d) && IsUnlock(d));
  }

  /** A move, a status of any age and content, or a command of any age and content. */
  datatype Reading = Fresh(move: Move) | Late(status: Option<bool>) | Stray(doc: Document, now: real)

  predicate Harms(j: Joint, r: Reading)
  {
    (r.Late? && Misleads(j, r.status)) || (r.Stray? && Undoes(j, r.doc))
  }

  function TakenIn(j: Joint, lease: real, r: Reading): Joint
  {
    match r
    case Fresh(move) => Moved(j, lease, move)
    case Late(status) => j.(owner := Observed(j.owner, status))
    case Stray(doc, now) => j.(latch := Received(j.latch, doc, now).0)
  }

  /** Runs in which out-of-date statuses are read and stray commands arrive as well. */
  function Watched(lease: real, readings: seq<Reading>): Watch
  {
    if readings == [] then Watch(Played(lease, []), false)
    else
      var w := Watched(lease, readings[..|readings| - 1]);
      Next(w, TakenIn(w.joint, lease, readings[|readings| - 1]))
  }

  /** No late status misleads when it is read, and no stray command undoes the last one when it arrives. */
  ghost predicate NeverHarmed(lease: real, readings: seq<Reading>)
  {
    forall k :: 0 <= k < |readings| ==> !Harms(Watched(lease, readings[..k]).joint, readings[k])
  }

  ghost predicate AlwaysAgreed(lease: real, readings: seq<Reading>)
  {
    forall k :: 0 <= k <= |readings| ==> Agreed(Watched(lease, readings[..k]))
  }

  /** The agreement holds all along a run with late statuses and stray commands exactly when none does harm. */
  lemma {:induction false} LateRunAgreesIff(lease: real, readings: seq<Reading>)
    ensures NeverHarmed(lease, readings) <==> AlwaysAgreed(lease, readings)
  {
    if readings != [] {
      var n := |readings| - 1;
      LateRunAgreesIff(lease, readings[..n]);
      LateStep(lease, readings, n);
      HarmStep(lease, readings, n);
      AgreedStep(lease, readings, n);
      hide *;
      assert AlwaysAgreed(lease, readings[..n]) ==> Agreed(Watched(lease, readings[..n])) by
          { AgreedNow(lease, readings[..n]); }
    }
  }

  lemma AgreedNow(lease: real, readings: seq<Reading>)
    ensures AlwaysAgreed(lease, readings) ==> Agreed(Watched(lease, readings))
  {
    hide Agreed, Watched;
    assert readings[..|readings|] == readings;
  }

  lemma HarmStep(lease: real, readings: seq<Reading>, n: nat)
    requires |readings| == n + 1
    ensures NeverHarmed(lease, readings) <==>
            NeverHarmed(lease, readings[..n]) && !Harms(Watched(lease, readings[..n]).joint, readings[n])
  {
    hide Harms, Watched;
    var before := readings[..n];
    assert forall k :: 0 <= k < n ==> before[..k] == readings[..k];
    assert forall k :: 0 <= k < n ==> before[k] == readings[k];
  }

  lemma AgreedStep(lease: real, readings: seq<Reading>, n: nat)
    requires |readings| == n + 1
    ensures AlwaysAgreed(lease, readings) <==>
            AlwaysAgreed(lease, readings[..n]) && Agreed(Watched(lease, readings))
  {
    hide Agreed, Watched;
    var before := readings[..n];
    assert forall k :: 0 <= k <= n ==> before[..k] == readings[..k];
    assert readings[..n + 1] == readings;
  }

  lemma LateStep(lease: real, readings: seq<Reading>, n: nat)
    requires |readings| == n + 1
    ensures Agreed(Watched(lease, readings[..n])) ==>
              (Agreed(Watched(lease, readings)) <==> !Harms(Watched(lease, readings[..n]).joint, readings[n]))
  {
    hide Agreed, Misleads, Undoes, Moved, Observed, Received, Next;
    var w := Watched(lease, readings[..n]);
    assert Watched(lease, readings) == Next(w, TakenIn(w.joint, lease, readings[n]));
    hide Watched;
    if Agreed(w) {
      match readings[n]
      case Fresh(move) => MoveAgrees(w, lease, move);
      case Late(status) => StatusAgreesIff(w, status);
      case Stray(doc, now) => LateCommandAgreesIff(w, doc, now);
    }
  }

  /** A run in which only moves happen. */
  function Freshly(moves: seq<Move>): seq<Reading> { seq(|moves|, i requires 0 <= i < |moves| => Fresh(moves[i])) }

  /** In every joint run over the synchronous link: an unlocked owner means an unlocked base, the sequence number is odd
      exactly while the owner is engaged, every command sent says lock exactly when its number is odd, and a locked
      owner over an unlocked base is a lapse. */
  lemma RunAgrees(lease: real, moves: seq<Move>)
    ensures Agreed(Watched(lease, Freshly(moves))) && Watched(lease, Freshly(moves)).joint == Played(lease, moves)
  {
    var readings := Freshly(moves);
    assert NeverHarmed(lease, readings) by { hide Watched; }
    LateRunAgreesIff(lease, readings);
    AgreedNow(lease, readings);
    FreshRun(lease, moves);
    hide *;
  }

  lemma {:induction false} FreshRun(lease: real, moves: seq<Move>)
    ensures Watched(lease, Freshly(moves)).joint == Played(lease, moves)
  {
    if moves != [] {
      var n := |moves| - 1;
      FreshRun(lease, moves[..n]);
      assert Freshly(moves)[..n] == Freshly(moves[..n]);
      hide Moved;
    }
  }

  // ----- what a lapse is

  /** Reading `i` is a poll past the deadline of a latch whose owner holds the lock. */
  ghost predicate ExpiresAt(lease: real, readings: seq<Reading>, i: nat)
  {
    && i < |readings| && readings[i].Fresh? && readings[i].move.DoPoll?
    && var j := Watched(lease, readings[..i]).joint;
       j.owner.state == Locked && Polled(j.latch, readings[i].move.now).1
  }

  /** Since reading `i`, that poll, the owner has been stranded all along. */
  ghost predicate StrandedSince(lease: real, readings: seq<Reading>, i: nat)
  {
    ExpiresAt(lease, readings, i)
    && forall k :: i < k <= |readings| ==> Stranded(Watched(lease, readings[..k]).joint)
  }

  /** In every run, with late statuses and stray commands or without, the owner is in a lapse exactly if a poll past
      the deadline released the latch under it and nothing has locked the latch since. */
  lemma {:induction false} LapsedIffExpired(lease: real, readings: seq<Reading>)
    ensures Watched(lease, readings).lapsed <==> exists i: nat :: StrandedSince(lease, readings, i)
  {
    if readings != [] {
      var n := |readings| - 1;
      var before := readings[..n];
      LapsedIffExpired(lease, before);
      LapseStep(lease, readings, n);
      hide *;
      if Watched(lease, readings).lapsed {
        if ExpiresAt(lease, readings, n) {
          StrandedStep(lease, readings, n, n);
        } else {
          var i: nat :| StrandedSince(lease, before, i);
          StrandedNow(lease, before, i);
          StrandedStep(lease, readings, n, i);
        }
      }
      if i: nat :| StrandedSince(lease, readings, i) {
        StrandedStep(lease, readings, n, i);
        if i != n { StrandedNow(lease, before, i); }
      }
    }
  }

  /** A lapse begins with an expiry or goes on from before. */
  lemma LapseStep(lease: real, readings: seq<Reading>, n: nat)
    requires |readings| == n + 1
    ensures Watched(lease, readings).lapsed <==>
            && Stranded(Watched(lease, readings).joint)
            && (ExpiresAt(lease, readings, n) ||
                (Stranded(Watched(lease, readings[..n]).joint) && Watched(lease, readings[..n]).lapsed))
  {
    var w := Watched(lease, readings[..n]);
    assert Watched(lease, readings) == Next(w, TakenIn(w.joint, lease, readings[n]));
    hide Watched, TakenIn, Polled;
    ExpiriesGrow(w.joint, lease, readings[n]);
  }

  /** Only a poll past the deadline of a locked latch counts an expiry. */
  lemma ExpiriesGrow(j: Joint, lease: real, r: Reading)
    ensures TakenIn(j, lease, r).latch.expiries > j.latch.expiries <==>
            r.Fresh? && r.move.DoPoll? && Polled(j.latch, r.move.now).1
    ensures r.Fresh? && r.move.DoPoll? && Polled(j.latch, r.move.now).1 ==> j.latch.locked
  {
    hide Confirmed;
  }

  lemma StrandedStep(lease: real, readings: seq<Reading>, n: nat, i: nat)
    requires |readings| == n + 1
    ensures StrandedSince(lease, readings, i) <==>
            && Stranded(Watched(lease, readings).joint)
            && if i == n then ExpiresAt(lease, readings, n) else StrandedSince(lease, readings[..n], i)
  {
    hide Watched, Stranded;
    var before := readings[..n];
    assert readings[..n + 1] == readings;
    assert forall k :: 0 <= k <= n ==> before[..k] == readings[..k];
    assert forall k :: 0 <= k < n ==> before[k] == readings[k];
  }

  lemma StrandedNow(lease: real, readings: seq<Reading>, i: nat)
    requires StrandedSince(lease, readings, i)
    ensures i < |readings| && Stranded(Watched(lease, readings).joint)
  {
    hide Watched, Stranded;
    assert readings[..|readings|] == readings;
  }

  /** So in every joint run over the synchronous link, a locked owner stands over an unlocked base only since a poll
      past the deadline released it under that very owner. */
  lemma StrandedOnlyByExpiry(lease: real, moves: seq<Move>)
    requires Stranded(Played(lease, moves))
    ensures exists i: nat :: StrandedSince(lease, Freshly(moves), i)
  {
    RunAgrees(lease, moves);
    LapsedIffExpired(lease, Freshly(moves));
    hide Watched, Played, StrandedSince;
  }

  // ----- instances

  /** Both ways happen to a status: an unlocked one from before the lock ends an unlock early, and a locked one from an
      earlier cycle confirms a lock whose command was lost. */
  lemma StaleStatusBreaksAgreement(source: string, lease: real, now: real)
    ensures var j := LockAsked(Played(lease, []), source, true, lease, now, Acked);
            var k := UnlockAsked(j, source, lease, now, Lost);
            Observed(k.owner, Some(false)).state == Unlocked && k.latch.locked
    ensures var j := LockAsked(Played(lease, []), source, true, lease, now, Acked);
            var k := UnlockAsked(j, source, lease, now, Acked);
            var l := LockAsked(k, source, true, lease, now, Lost);
            Observed(l.owner, Some(true)).state == Locked && !l.latch.locked && l.latch.expiries == 0
  {
    assert Played(lease, []) == Joint(FRESH_OWNER, FreshLatch(lease), []);
  }

  /** An expiry in an earlier cycle excuses nothing: a lease runs out, the unlock is acknowledged, the next lock request
      is lost, and a stale locked status leaves the owner locked over a latch that was never locked in this cycle. */
  lemma EarlierExpiryExcusesNothing(source: string, lease: real, late: real)
    requires late > lease
    ensures var run := [Fresh(AskLock(source, true, 0.0, Acked)), Fresh(DoPoll(late)),
                        Fresh(AskUnlock(source, late, Acked)), Fresh(AskLock(source, true, late, Lost))];
            var w := Watched(lease, run);
            && w.joint.owner.state == LockRequested && !w.joint.latch.locked && w.joint.latch.expiries == 1
            && Harms(w.joint, Late(Some(true))) && !AlwaysAgreed(lease, run + [Late(Some(true))])
  {
    var a, b, c, d := Fresh(AskLock(source, true, 0.0, Acked)), Fresh(DoPoll(late)),
                      Fresh(AskUnlock(source, late, Acked)), Fresh(AskLock(source, true, late, Lost));
    ThreeReadings(lease, a, b, c);
    var run, more := [a, b, c, d], [a, b, c, d, Late(Some(true))];
    assert run[..3] == [a, b, c] && more[..4] == run && run + [more[4]] == more;
    assert Watched(lease, [a, b, c]).joint.owner.state == Unlocked;
    LateRunAgreesIff(lease, more);
  }

  lemma ThreeReadings(lease: real, a: Reading, b: Reading, c: Reading)
    ensures Watched(lease, [a, b, c]) ==
            var w0 := Watch(Played(lease, []), false);
            var w1 := Next(w0, TakenIn(w0.joint, lease, a));
            var w2 := Next(w1, TakenIn(w1.joint, lease, b));
            Next(w2, TakenIn(w2.joint, lease, c))
  {
    hide Next, TakenIn, Played;
    assert [a, b, c][..2] == [a, b] && [a, b][..1] == [a] && [a][..0] == [];
    assert Watched(lease, []) == Watch(Played(lease, []), false);
    assert Watched(lease, [a]) == Next(Watched(lease, []), TakenIn(Watched(lease, []).joint, lease, a));
  }

  // ----- the latch alone, under any traffic

  /** What reaches the latch: commands in any order, any number of times, and its own polls. */
  datatype Input = Receive(doc: Document, now: real) | Tick(now: real)

  function Fed(lease: real, log: seq<Input>): Latch
  {
    if log == [] then FreshLatch(lease)
    else
      var l, e := Fed(lease, log[..|log| - 1]), log[|log| - 1];
      match e
      case Receive(doc, now) => Received(l, doc, now).0
      case Tick(now) => Polled(l, now).0
  }

  predicate LockInput(e: Input) { e.Receive? && IsLock(e.doc) }

  predicate UnlockInput(e: Input) { e.Receive? && IsUnlock(e.doc) }

  /** The moment the lease of lock input `e` runs out. */
  function Expiry(e: Input, lease: real): real
    requires LockInput(e)
  {
    e.now + LeaseOf(e.doc, lease)
  }

  /** `j` is the last lock of the log, and no unlock came after it. */
  ghost predicate LastLock(log: seq<Input>, j: nat)
  {
    && j < |log| && LockInput(log[j])
    && forall k :: j < k < |log| ==> !LockInput(log[k]) && !UnlockInput(log[k])
  }

  /** `j` is such a lock and no poll after it came past its lease: the reference for "locked". */
  ghost predicate Alive(log: seq<Input>, lease: real, j: nat)
  {
    LastLock(log, j) && forall k :: j < k < |log| && log[k].Tick? ==> log[k].now <= Expiry(log[j], lease)
  }

  /** The latch is locked exactly when some lock of the log is alive, until that lock's expiry. */
  ghost predicate Tracks(lease: real, log: seq<Input>, l: Latch)
  {
    && l.defaultLease == lease
    && (l.locked <==> exists j: nat :: Alive(log, lease, j))
    && (forall j: nat :: Alive(log, lease, j) ==> l.deadline == Some(Expiry(log[j], lease)))
    && (l.locked ==> l.deadline.Some?)
  }

  /** Under any traffic the latch is locked exactly when some lock is still alive, until that lock's expiry. */
  lemma {:induction false} LatchTracksLastLock(lease: real, log: seq<Input>)
    ensures Tracks(lease, log, Fed(lease, log))
  {
    if log != [] {
      var n := |log| - 1;
      LatchTracksLastLock(lease, log[..n]);
      FedStep(lease, log, n);
      hide *;
      TrackStep(lease, log, n, Fed(lease, log[..n]), Fed(lease, log));
    }
  }

  lemma TrackStep(lease: real, log: seq<Input>, n: nat, l: Latch, l': Latch)
    requires |log| == n + 1 && Tracks(lease, log[..n], l)
    requires l' == match log[n]
                   case Receive(doc, now) => Received(l, doc, now).0
                   case Tick(now) => Polled(l, now).0
    ensures Tracks(lease, log, l')
  {
    hide Alive, WellFormed, LeaseOf;
    var before, e := log[..n], log[n];
    forall j: nat
      ensures Alive(log, lease, j) <==> StillAlive(before, lease, e, j)
      ensures j < n ==> before[j] == log[j]
    {
      AliveStep(lease, log, n, j);
    }
    if LockInput(e) {
      assert Alive(log, lease, n);
    } else if l.locked {
      var j: nat :| Alive(before, lease, j);
      AliveIsInside(before, lease, j);
      assert Alive(log, lease, j) <==> StillAlive(before, lease, e, j);
    }
    forall j: nat | Alive(log, lease, j)
      ensures j < |log| && LockInput(log[j]) && l'.locked && l'.deadline == Some(Expiry(log[j], lease))
    {
      AliveIsInside(log, lease, j);
      if j < n { assert Alive(before, lease, j); }
    }
  }

  lemma AliveIsInside(log: seq<Input>, lease: real, j: nat)
    requires Alive(log, lease, j)
    ensures j < |log| && LockInput(log[j])
  {}

  /** How one more input decides which lock is alive. */
  ghost predicate StillAlive(before: seq<Input>, lease: real, e: Input, j: nat)
  {
    if LockInput(e) then j == |before|
    else Alive(before, lease, j) && !UnlockInput(e) && (e.Tick? ==> e.now <= Expiry(before[j], lease))
  }

  lemma AliveStep(lease: real, log: seq<Input>, n: nat, j: nat)
    requires |log| == n + 1
    ensures Alive(log, lease, j) <==> StillAlive(log[..n], lease, log[n], j)
  {
    var before := log[..n];
    if Alive(log, lease, j) && j < n {
      assert !LockInput(log[n]) && !UnlockInput(log[n]);
      forall k | j < k < n ensures !LockInput(before[k]) && !UnlockInput(before[k]) { assert log[k] == before[k]; }
      forall k | j < k < n && before[k].Tick?
          ensures before[k].now <= Expiry(log[j], lease) { assert log[k] == before[k]; }
    }
    if StillAlive(before, lease, log[n], j) {
      assert forall k :: 0 <= k < n ==> log[k] == before[k];
    }
  }

  /** After a poll, a locked latch has had a lock applied whose lease reaches to the poll. */
  lemma LockedAfterPollIsLeased(lease: real, log: seq<Input>)
    requires log != [] && log[|log| - 1].Tick? && Fed(lease, log).locked
    ensures exists j: nat :: LastLock(log, j) && log[|log| - 1].now <= Expiry(log[j], lease)
  {
    LatchTracksLastLock(lease, log);
    var j: nat :| Alive(log, lease, j);
    assert LastLock(log, j);
  }

  /** Poll `k` comes past the lease of a lock still in force. */
  ghost predicate Overdue(log: seq<Input>, lease: real, k: nat)
  {
    k < |log| && log[k].Tick? && exists j: nat :: Alive(log[..k], lease, j) && log[k].now > Expiry(log[..k][j], lease)
  }

  ghost function OverduePolls(log: seq<Input>, lease: real): set<nat>
  {
    set k: nat | k < |log| && Overdue(log, lease, k)
  }

  /** The watchdog counter counts exactly the overdue polls. */
  lemma {:induction false} ExpiriesAreOverduePolls(lease: real, log: seq<Input>)
    ensures Fed(lease, log).expiries == |OverduePolls(log, lease)|
  {
    if log != [] {
      var n := |log| - 1;
      ExpiriesAreOverduePolls(lease, log[..n]);
      ExpiriesStep(lease, log, n);
      OverdueStep(lease, log, n);
    }
  }

  lemma ExpiriesStep(lease: real, log: seq<Input>, n: nat)
    requires |log| == n + 1
    ensures Fed(lease, log).expiries == Fed(lease, log[..n]).expiries + if Overdue(log, lease, n) then 1 else 0
  {
    var before := log[..n];
    LatchTracksLastLock(lease, before);
    var l := Fed(lease, before);
    hide Fed, Alive;
    if l.locked {
      var j: nat :| Alive(before, lease, j);
      assert Overdue(log, lease, n) <==> log[n].Tick? && log[n].now > l.deadline.value;
    }
    FedStep(lease, log, n);
  }

  lemma FedStep(lease: real, log: seq<Input>, n: nat)
    requires |log| == n + 1
    ensures Fed(lease, log) == match log[n]
                               case Receive(doc, now) => Received(Fed(lease, log[..n]), doc, now).0
                               case Tick(now) => Polled(Fed(lease, log[..n]), now).0
  {}

  lemma OverdueStep(lease: real, log: seq<Input>, n: nat)
    requires |log| == n + 1
    ensures |OverduePolls(log, lease)| == |OverduePolls(log[..n], lease)| + if Overdue(log, lease, n) then 1 else 0
  {
    var before := log[..n];
    forall k: nat | k < n ensures Overdue(log, lease, k) <==> Overdue(before, lease, k) {
      assert log[..k] == before[..k] && log[k] == before[k];
    }
    hide Overdue;
    assert OverduePolls(log, lease) == OverduePolls(before, lease) + if Overdue(log, lease, n) then {n} else {};
  }

  /** A command that locks or unlocks. */
  predicate Decides(e: Input) { LockInput(e) || UnlockInput(e) }

  /** `i` is a lock, and `j` is the first lock or unlock after it. */
  ghost predicate Followed(log: seq<Input>, i: nat, j: nat)
  {
    i < j < |log| && LockInput(log[i]) && Decides(log[j]) && forall k :: i < k < j ==> !Decides(log[k])
  }

  ghost predicate Monotone(log: seq<Input>)
  {
    forall i, j :: 0 <= i < j < |log| ==> log[i].now <= log[j].now
  }

  /** The first lock or unlock after each lock comes within its lease; after a lock that nothing follows, the
      polls do. */
  ghost predicate Renewed(log: seq<Input>, lease: real)
  {
    && (forall i: nat, j: nat :: Followed(log, i, j) ==> log[j].now <= Expiry(log[i], lease))
    && (forall i: nat, k: nat :: LastLock(log, i) && i < k < |log| && log[k].Tick? ==>
          log[k].now <= Expiry(log[i], lease))
  }

  /** With a monotone clock, a lease renewed or released in time never runs out, however long the latch is polled
      after a release and however late the next lock comes. */
  lemma RenewedLeaseNeverExpires(lease: real, log: seq<Input>)
    requires Monotone(log) && Renewed(log, lease)
    ensures Fed(lease, log).expiries == 0
  {
    ExpiriesAreOverduePolls(lease, log);
    if OverduePolls(log, lease) != {} {
      var k :| k in OverduePolls(log, lease);
      hide Fed, OverduePolls, Alive, Expiry, Monotone, Renewed;
      var j: nat :| Alive(log[..k], lease, j) && log[k].now > Expiry(log[..k][j], lease);
      WithinLease(lease, log, j, k);
    }
  }

  lemma WithinLease(lease: real, log: seq<Input>, j: nat, k: nat)
    requires Monotone(log) && Renewed(log, lease)
    requires k < |log| && log[k].Tick? && Alive(log[..k], lease, j)
    ensures log[k].now <= Expiry(log[..k][j], lease)
  {
    hide LockInput, UnlockInput, LeaseOf, Decides;
    LockBefore(lease, log, j, k);
    assert log[..k][j] == log[j];
    hide Alive;
    NextDecision(log, j, k);
    if LastLock(log, j) {
      hide Monotone;
    } else {
      var m: nat :| k <= m && Followed(log, j, m);
      assert log[k].now <= log[m].now;
    }
  }

  lemma LockBefore(lease: real, log: seq<Input>, j: nat, k: nat)
    requires k <= |log| && Alive(log[..k], lease, j)
    ensures j < k && LockInput(log[j]) && forall i :: j < i < k ==> !Decides(log[i])
  {
    forall i | j < i < k ensures !Decides(log[i]) { assert log[i] == log[..k][i]; }
  }

  /** From position `k` on either some lock or unlock follows `j` directly, or `j` stays the last. */
  lemma {:induction false} NextDecision(log: seq<Input>, j: nat, k: nat)
    requires j < k <= |log| && LockInput(log[j]) && forall i :: j < i < k ==> !Decides(log[i])
    ensures LastLock(log, j) || exists m: nat :: k <= m && Followed(log, j, m)
    decreases |log| - k
  {
    if k < |log| {
      if Decides(log[k]) { assert Followed(log, j, k); }
      else { NextDecision(log, j, k + 1); }
    } else {
      assert forall i :: j < i < |log| ==> !Decides(log[i]);
    }
  }

  /** A lease released half way and polled long after: the hypotheses cover it. */
  lemma ReleasedLeaseIsRenewed(lease: real, lock: Document, unlock: Document, late: real)
    requires lease > 0.0 && IsLock(lock) && lock.lease.None? && IsUnlock(unlock) && late > lease
    ensures var log := [Receive(lock, 0.0), Receive(unlock, lease / 2.0), Tick(late)];
            Monotone(log) && Renewed(log, lease)
  {
    var log := [Receive(lock, 0.0), Receive(unlock, lease / 2.0), Tick(late)];
    assert LockInput(log[0]) && Decides(log[1]);
    forall i: nat, j: nat | Followed(log, i, j) ensures log[j].now <= Expiry(log[i], lease) {
      if j == 2 { assert false; }
    }
    assert !LastLock(log, 0) by { assert UnlockInput(log[1]); }
  }

  /** The latch does not compare sequence numbers: a lock delivered again after its unlock locks the base
      again, so the joint agreement needs commands to arrive in order. */
  lemma DelayedDuplicateRelocks(lease: real, c: Command, now: real)
    requires c.lock
    ensures var d, u := BuildCommand(c), BuildCommand(c.(lock := false, seqNo := c.seqNo + 1));
            !Fed(lease, [Receive(d, now), Receive(u, now)]).locked
            && Fed(lease, [Receive(d, now), Receive(u, now), Receive(d, now)]).locked
  {
    var d, u := Receive(BuildCommand(c), now), Receive(BuildCommand(c.(lock := false, seqNo := c.seqNo + 1)), now);
    assert [d, u, d][..2] == [d, u] && [d, u][..1] == [d] && [d][..0] == [];
  }
}
