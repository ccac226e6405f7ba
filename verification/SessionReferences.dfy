/** The reference files of the read-only session service: which perception is selected, which plan is good.

    Every write of a reference and every record of an attempt is atomic; an action is a sequence of such
    writes, and a crash may cut it between any two.  All actions but the selection of a perception hold the
    service's lock, so at most one of them is under way; a selection may fall between any two of its writes. */
module SessionReferences {
  import opened Options

  type Id = string

  datatype Ref = PerceptionLatest | PerceptionGood | PerceptionSelected | PlanningLatest | PlanningGood

  datatype Attempt = PerceptionAttempt(ok: bool) | PlanningAttempt(ok: bool, source: Option<Id>)

  /** What is on disk. */
  datatype Store = Store(refs: map<Ref, Id>, attempts: map<Id, Attempt>)

  datatype Write = Record(id: Id, attempt: Attempt) | Set(ref: Ref, id: Id) | Drop(ref: Ref)

  function Written(s: Store, w: Write): Store
  {
    match w
    case Record(id, attempt) => s.(attempts := s.attempts[id := attempt])
    case Set(ref, id) => s.(refs := s.refs[ref := id])
    case Drop(ref) => s.(refs := s.refs - {ref})
  }

  function WrittenAll(s: Store, ws: seq<Write>): Store
    decreases |ws|
  {
    if ws == [] then s else WrittenAll(Written(s, ws[0]), ws[1..])
  }

  lemma {:induction false} WrittenThen(s: Store, a: seq<Write>, b: seq<Write>)
    ensures WrittenAll(s, a + b) == WrittenAll(WrittenAll(s, a), b)
    decreases |a|
  {
    if a == [] {
      assert a + b == b;
    } else {
      assert (a + b)[0] == a[0] && (a + b)[1..] == a[1..] + b;
      WrittenThen(Written(s, a[0]), a[1..], b);
    }
  }

  lemma WrittenOne(s: Store, a: seq<Write>, w: Write)
    ensures WrittenAll(s, a + [w]) == Written(WrittenAll(s, a), w)
  {
    WrittenThen(s, a, [w]);
  }

  /** An action under way, with what it found out before its first write. */
  datatype Op = PerceptionOp(id: Id, ok: bool) | PlanningOp(id: Id, ok: bool, source: Option<Id>) | ClearOp

  function Writes(op: Op): seq<Write>
  {
    match op
    case PerceptionOp(id, ok) =>
      [Record(id, PerceptionAttempt(ok)), Set(PerceptionLatest, id)]
      + (if ok then [Drop(PlanningLatest), Drop(PlanningGood), Set(PerceptionGood, id), Set(PerceptionSelected, id)]
         else [])
    case PlanningOp(id, ok, source) =>
      [Record(id, PlanningAttempt(ok, source)), Set(PlanningLatest, id)] + if ok then [Set(PlanningGood, id)] else []
    case ClearOp =>
      [Drop(PerceptionSelected), Drop(PerceptionLatest), Drop(PerceptionGood), Drop(PlanningLatest), Drop(PlanningGood)]
  }

  /** What an action that runs through leaves.  Clearing leaves no reference at all; a good perception leaves the three
      that name it and no plan, a failed one only names itself the latest; planning names its plan the latest and, if
      good, the good one, and leaves the other references. */
  ghost predicate Leaves(s: Store, op: Op, t: Store)
  {
    match op
    case ClearOp => t.refs == map[] && t.attempts == s.attempts
    case PerceptionOp(id, ok) =>
      && t.attempts == s.attempts[id := PerceptionAttempt(ok)]
      && t.refs == (if ok then map[PerceptionLatest := id, PerceptionGood := id, PerceptionSelected := id]
                    else s.refs[PerceptionLatest := id])
    case PlanningOp(id, ok, source) =>
      && t.attempts == s.attempts[id := PlanningAttempt(ok, source)]
      && t.refs == (if ok then s.refs[PlanningLatest := id][PlanningGood := id] else s.refs[PlanningLatest := id])
  }

  lemma ActionLeaves(s: Store, op: Op)
    ensures Leaves(s, op, WrittenAll(s, Writes(op)))
  {
    match op
    case ClearOp => ClearLeaves(s);
    case PerceptionOp(id, ok) => PerceptionLeaves(s, id, ok);
    case PlanningOp(id, ok, source) => PlanningLeaves(s, id, ok, source);
  }

  lemma NamesAll(ref: Ref)
    ensures ref in [PerceptionSelected, PerceptionLatest, PerceptionGood] || ref in [PlanningLatest, PlanningGood]
  {
    match ref
    case PerceptionLatest => assert ref == [PerceptionSelected, PerceptionLatest, PerceptionGood][1];
    case PerceptionGood => assert ref == [PerceptionSelected, PerceptionLatest, PerceptionGood][2];
    case PerceptionSelected => assert ref == [PerceptionSelected, PerceptionLatest, PerceptionGood][0];
    case PlanningLatest => assert ref == [PlanningLatest, PlanningGood][0];
    case PlanningGood => assert ref == [PlanningLatest, PlanningGood][1];
  }

  lemma ClearLeaves(s: Store)
    ensures Leaves(s, ClearOp, WrittenAll(s, Writes(ClearOp)))
  {
    var ws := Writes(ClearOp);
    Unroll3(s, ws);
    Unroll2(Written(Written(Written(s, ws[0]), ws[1]), ws[2]), ws[3..]);
    var t := WrittenAll(s, ws);
    hide WrittenAll;
    assert ws[3..][2..] == [];
    forall ref ensures ref !in t.refs { NamesAll(ref); }
  }

  lemma PerceptionLeaves(s: Store, id: Id, ok: bool)
    ensures Leaves(s, PerceptionOp(id, ok), WrittenAll(s, Writes(PerceptionOp(id, ok))))
  {
    var ws := Writes(PerceptionOp(id, ok));
    if ok {
      Unroll6(s, ws);
      RefsOfGood(s.refs, id);
      hide WrittenAll;
    } else {
      Unroll2(s, ws);
      assert ws[2..] == [];
    }
  }

  lemma RefsOfGood(refs: map<Ref, Id>, id: Id)
    ensures (refs[PerceptionLatest := id] - {PlanningLatest} - {PlanningGood})[PerceptionGood := id]
                [PerceptionSelected := id]
            == map[PerceptionLatest := id, PerceptionGood := id, PerceptionSelected := id]
  {
    var t := (refs[PerceptionLatest := id] - {PlanningLatest} - {PlanningGood})[PerceptionGood := id]
               [PerceptionSelected := id];
    forall ref | ref in t ensures ref in {PerceptionLatest, PerceptionGood, PerceptionSelected} { NamesAll(ref); }
    assert t.Keys == {PerceptionLatest, PerceptionGood, PerceptionSelected};
  }

  lemma PlanningLeaves(s: Store, id: Id, ok: bool, source: Option<Id>)
    ensures Leaves(s, PlanningOp(id, ok, source), WrittenAll(s, Writes(PlanningOp(id, ok, source))))
  {
    var ws := Writes(PlanningOp(id, ok, source));
    Unroll2(s, ws);
    if ok {
      WrittenOne(s, ws[..2], ws[2]);
      assert ws == ws[..2] + [ws[2]];
      Unroll2(s, ws[..2]);
      assert ws[..2][2..] == [];
    } else {
      assert ws[2..] == [];
    }
  }

  lemma Unroll2(s: Store, ws: seq<Write>)
    requires |ws| >= 2
    ensures WrittenAll(s, ws) == WrittenAll(Written(Written(s, ws[0]), ws[1]), ws[2..])
  {
    hide Written;
    assert ws[1..][1..] == ws[2..];
  }

  lemma Unroll6(s: Store, ws: seq<Write>)
    requires |ws| == 6
    ensures WrittenAll(s, ws)
            == Written(Written(Written(Written(Written(Written(s, ws[0]), ws[1]), ws[2]), ws[3]), ws[4]), ws[5])
  {
    hide Written;
    var a, b := Written(s, ws[0]), Written(Written(s, ws[0]), ws[1]);
    var c := Written(b, ws[2]);
    Unroll3(s, ws);
    Unroll3(c, ws[3..]);
    assert ws[3..][3..] == [];
  }

  lemma Unroll3(s: Store, ws: seq<Write>)
    requires |ws| >= 3
    ensures WrittenAll(s, ws) == WrittenAll(Written(Written(Written(s, ws[0]), ws[1]), ws[2]), ws[3..])
  {
    hide Written;
    var a, b := Written(s, ws[0]), Written(Written(s, ws[0]), ws[1]);
    assert WrittenAll(s, ws) == WrittenAll(a, ws[1..]);
    assert ws[1..][1..] == ws[2..] && WrittenAll(a, ws[1..]) == WrittenAll(b, ws[2..]);
    assert ws[2..][1..] == ws[3..];
  }

  predicate PerceptionSucceeded(s: Store, id: Id) { id in s.attempts && s.attempts[id] == PerceptionAttempt(true) }

  function Selected(s: Store): Option<Id>
  {
    if PerceptionSelected in s.refs then Some(s.refs[PerceptionSelected]) else None
  }

  /** A planning action as it stands before its writes: it succeeds only from a selected, successful and
      unchanged perception. */
  function PlanningFor(s: Store, id: Id, backendOk: bool, intact: bool): Op
  {
    var source := Selected(s);
    PlanningOp(id, backendOk && intact && source.Some? && PerceptionSucceeded(s, source.value), source)
  }

  // ----- the service as a class

  class ReadOnlySessionService {
    var refs: map<Ref, Id>
    var attempts: map<Id, Attempt>

    constructor ()
      ensures Value() == Store(map[], map[])
    {
      refs, attempts := map[], map[];
    }

    function Value(): Store
      reads this
    {
      Store(refs, attempts)
    }

    method SetReference(ref: Ref, id: Id)
      modifies this
      ensures Value() == Written(old(Value()), Set(ref, id))
    {
      refs := refs[ref := id];
    }

    method RemoveReferences(names: seq<Ref>) returns (removed: seq<Ref>)
      modifies this
      ensures Value() == WrittenAll(old(Value()), Drops(names))
      ensures removed == PresentAt(old(refs.Keys), names)
    {
      removed := [];
      assert names[0..] == names;
      for i := 0 to |names|
        invariant attempts == old(attempts)
        invariant WrittenAll(Value(), Drops(names[i..])) == WrittenAll(old(Value()), Drops(names))
        invariant removed + PresentAt(refs.Keys, names[i..]) == PresentAt(old(refs.Keys), names)
      {
        assert names[i..][1..] == names[i + 1..];
        var name := names[i];
        if name in refs {
          refs := refs - {name};
          removed := removed + [name];
        } else {
          assert refs - {name} == refs;
        }
      }
      assert removed + [] == removed;
    }

    method RunPerception(id: Id, ok: bool) returns (attempt: Attempt)
      modifies this
      ensures Value() == WrittenAll(old(Value()), Writes(PerceptionOp(id, ok))) && attempt == PerceptionAttempt(ok)
      ensures attempts == old(attempts)[id := attempt]
      ensures ok ==> refs == map[PerceptionLatest := id, PerceptionGood := id, PerceptionSelected := id]
      ensures !ok ==> refs == old(refs)[PerceptionLatest := id]
    {
      ActionLeaves(Value(), PerceptionOp(id, ok));
      attempt := PerceptionAttempt(ok);
      ghost var start, first := Value(), [Record(id, attempt)];
      attempts := attempts[id := attempt];
      WrittenOne(start, [], first[0]);
      SetReference(PerceptionLatest, id);
      WrittenOne(start, first, Set(PerceptionLatest, id));
      if ok {
        ghost var drops := Drops([PlanningLatest, PlanningGood]);
        ghost var second := first + [Set(PerceptionLatest, id)];
        var removed := RemoveReferences([PlanningLatest, PlanningGood]);
        WrittenThen(start, second, drops);
        SetReference(PerceptionGood, id);
        WrittenOne(start, second + drops, Set(PerceptionGood, id));
        SetReference(PerceptionSelected, id);
        WrittenOne(start, second + drops + [Set(PerceptionGood, id)], Set(PerceptionSelected, id));
        assert Writes(PerceptionOp(id, ok))
            == second + drops + [Set(PerceptionGood, id)] + [Set(PerceptionSelected, id)];
      } else {
        assert Writes(PerceptionOp(id, ok)) == first + [Set(PerceptionLatest, id)];
      }
    }

    method ClearCurrentContext() returns (cleared: seq<Ref>)
      modifies this
      ensures Value() == WrittenAll(old(Value()), Writes(ClearOp))
      ensures cleared == PresentAt(old(refs.Keys), [PerceptionSelected, PerceptionLatest, PerceptionGood])
                         + PresentAt(old(refs.Keys), [PlanningLatest, PlanningGood])
      ensures refs == map[] && attempts == old(attempts)
      ensures forall ref :: ref in cleared <==> ref in old(refs)
      ensures EachOnce(cleared)
    {
      hide EachOnce, PresentAt;
      var one, two := [PerceptionSelected, PerceptionLatest, PerceptionGood], [PlanningLatest, PlanningGood];
      cleared := RemoveReferences(one);
      DroppedKeys(old(Value()), one);
      assert refs.Keys == old(refs.Keys) - set n | n in one;
      PresentApart(refs.Keys, old(refs.Keys));
      var more := RemoveReferences(two);
      cleared := cleared + more;
      WrittenThen(old(Value()), Drops(one), Drops(two));
      assert Writes(ClearOp) == Drops(one) + Drops(two);
      ActionLeaves(old(Value()), ClearOp);
      ClearedAre(old(refs.Keys), one, two);
    }

    method RunPlanning(id: Id, backendOk: bool, intact: bool) returns (attempt: Attempt)
      modifies this
      ensures var op := PlanningFor(old(Value()), id, backendOk, intact);
              Value() == WrittenAll(old(Value()), Writes(op)) && attempt == PlanningAttempt(op.ok, op.source)
      ensures attempt.PlanningAttempt? && attempts == old(attempts)[id := attempt]
      ensures attempt.ok <==>
              && backendOk && intact && PerceptionSelected in old(refs)
              && old(refs)[PerceptionSelected] in old(attempts)
              && old(attempts)[old(refs)[PerceptionSelected]] == PerceptionAttempt(true)
      ensures attempt.ok ==> attempt.source == Some(old(refs)[PerceptionSelected])
      ensures refs == if attempt.ok then old(refs)[PlanningLatest := id][PlanningGood := id]
                      else old(refs)[PlanningLatest := id]
    {
      ActionLeaves(Value(), PlanningFor(Value(), id, backendOk, intact));
      var source := Selected(Value());
      var ok := false;
      if source.Some? && PerceptionSucceeded(Value(), source.value) && intact {
        ok := backendOk;
      }
      attempt := PlanningAttempt(ok, source);
      ghost var start, first := Value(), [Record(id, attempt)];
      attempts := attempts[id := attempt];
      WrittenOne(start, [], first[0]);
      SetReference(PlanningLatest, id);
      WrittenOne(start, first, Set(PlanningLatest, id));
      if ok {
        SetReference(PlanningGood, id);
        WrittenOne(start, first + [Set(PlanningLatest, id)], Set(PlanningGood, id));
        assert Writes(PlanningOp(id, ok, source)) == first + [Set(PlanningLatest, id)] + [Set(PlanningGood, id)];
      } else {
        assert Writes(PlanningOp(id, ok, source)) == first + [Set(PlanningLatest, id)];
      }
    }

    /** Refused for anything but a successful and unchanged perception. */
    method SelectPerception(id: Id, intact: bool) returns (taken: bool)
      modifies this
      ensures taken == (PerceptionSucceeded(old(Value()), id) && intact)
      ensures Value() == if taken then Written(old(Value()), Set(PerceptionSelected, id)) else old(Value())
    {
      taken := PerceptionSucceeded(Value(), id) && intact;
      if taken {
        SetReference(PerceptionSelected, id);
      }
    }
  }

  function Drops(names: seq<Ref>): seq<Write>
  {
    if names == [] then [] else [Drop(names[0])] + Drops(names[1..])
  }

  /** The names removed, in order: each is removed once. */
  function PresentAt(keys: set<Ref>, names: seq<Ref>): seq<Ref>
  {
    if names == [] then []
    else (if names[0] in keys then [names[0]] else []) + PresentAt(keys - {names[0]}, names[1..])
  }

  ghost predicate EachOnce(names: seq<Ref>) { forall a, b :: 0 <= a < b < |names| ==> names[a] != names[b] }

  /** The names removed are those that were there, each listed once. */
  lemma {:induction false} PresentAre(keys: set<Ref>, names: seq<Ref>)
    ensures forall ref :: ref in PresentAt(keys, names) <==> ref in keys && ref in names
    ensures EachOnce(PresentAt(keys, names))
    decreases |names|
  {
    if names != [] {
      var first, rest := names[0], names[1..];
      PresentAre(keys - {first}, rest);
      var tail := PresentAt(keys - {first}, rest);
      assert names == [first] + rest;
      forall ref ensures ref in PresentAt(keys, names) <==> ref in keys && ref in names {
        assert ref in tail <==> ref in keys - {first} && ref in rest;
        assert ref in [first] + tail <==> ref == first || ref in tail;
      }
      assert first !in tail;
    }
  }

  lemma ClearedAre(keys: set<Ref>, one: seq<Ref>, two: seq<Ref>)
    requires one == [PerceptionSelected, PerceptionLatest, PerceptionGood] && two == [PlanningLatest, PlanningGood]
    ensures forall ref :: ref in PresentAt(keys, one) + PresentAt(keys, two) <==> ref in keys
    ensures EachOnce(PresentAt(keys, one) + PresentAt(keys, two))
  {
    hide PresentAt;
    PresentAre(keys, one);
    PresentAre(keys, two);
    forall ref: Ref ensures ref in one || ref in two { NamesAll(ref); }
    var a, b := PresentAt(keys, one), PresentAt(keys, two);
    assert forall i :: 0 <= i < |a| ==> a[i] in one;
    assert forall i :: 0 <= i < |b| ==> b[i] in two;
    assert forall ref :: ref in one ==> ref !in two;
  }

  lemma {:induction false} DroppedKeys(s: Store, names: seq<Ref>)
    ensures WrittenAll(s, Drops(names)).refs.Keys == s.refs.Keys - set n | n in names
    decreases |names|
  {
    if names != [] {
      DroppedKeys(Written(s, Drop(names[0])), names[1..]);
      assert (set n | n in names) == {names[0]} + set n | n in names[1..];
      assert Drops(names)[1..] == Drops(names[1..]);
    }
  }

  lemma PresentApart(keys: set<Ref>, more: set<Ref>)
    requires PlanningLatest in keys <==> PlanningLatest in more
    requires PlanningGood in keys <==> PlanningGood in more
    ensures PresentAt(keys, [PlanningLatest, PlanningGood]) == PresentAt(more, [PlanningLatest, PlanningGood])
  {
    var one: seq<Ref> := [PlanningGood];
    assert [PlanningLatest, PlanningGood][1..] == one && one[1..] == [];
    assert PresentAt(keys - {PlanningLatest}, one) == PresentAt(more - {PlanningLatest}, one);
  }

  // ----- runs

  /** The store and the action under way: the next write is number `done`. */
  datatype Service = Service(store: Store, op: Option<Op>, done: nat)

  datatype Step =
    | BeginPerception(id: Id, ok: bool)
    | BeginPlanning(id: Id, backendOk: bool, intact: bool)
    | BeginClear
    | DoWrite
    | Crash
    | Select(id: Id)

  predicate Enabled(s: Service, step: Step)
  {
    match step
    case BeginPerception(id, _) => s.op.None? && id !in s.store.attempts
    case BeginPlanning(id, _, _) => s.op.None? && id !in s.store.attempts
    case BeginClear => s.op.None?
    case DoWrite => s.op.Some? && s.done < |Writes(s.op.value)|
    case Crash => true
    case Select(id) => PerceptionSucceeded(s.store, id)
  }

  function Wrote(s: Service): Service
    requires Enabled(s, DoWrite)
  {
    var ws := Writes(s.op.value);
    var store := Written(s.store, ws[s.done]);
    if s.done + 1 == |ws| then Service(store, None, 0) else Service(store, s.op, s.done + 1)
  }

  function Next(s: Service, step: Step): Service
    requires Enabled(s, step)
  {
    match step
    case BeginPerception(id, ok) => s.(op := Some(PerceptionOp(id, ok)), done := 0)
    case BeginPlanning(id, backendOk, intact) => s.(op := Some(PlanningFor(s.store, id, backendOk, intact)), done := 0)
    case BeginClear => s.(op := Some(ClearOp), done := 0)
    case DoWrite => Wrote(s)
    case Crash => s.(op := None, done := 0)
    case Select(id) => s.(store := Written(s.store, Set(PerceptionSelected, id)))
  }

  /** The good plan, if any, and the perception it was made from. */
  predicate PlannedFrom(s: Store, plan: Id, source: Id)
  {
    plan in s.attempts && s.attempts[plan] == PlanningAttempt(true, Some(source)) && PerceptionSucceeded(s, source)
  }

  /** A good plan was made from the selected perception, unless none is selected; the references name succeeded
      attempts. */
  ghost predicate Good(s: Store)
  {
    && (PlanningGood in s.refs ==> exists source :: PlannedFrom(s, s.refs[PlanningGood], source))
    && (PlanningGood in s.refs && PerceptionSelected in s.refs ==>
          PlannedFrom(s, s.refs[PlanningGood], s.refs[PerceptionSelected]))
    && (PerceptionSelected in s.refs ==> PerceptionSucceeded(s, s.refs[PerceptionSelected]))
    && (PerceptionGood in s.refs ==> PerceptionSucceeded(s, s.refs[PerceptionGood]))
  }

  /** What the action under way relies on. */
  ghost predicate Inv(s: Service)
  {
    && Good(s.store)
    && (s.op.None? ==> s.done == 0)
    && (s.op.Some? ==> s.done < |Writes(s.op.value)|)
    && match s.op
       case None => true
       case Some(PerceptionOp(id, ok)) =>
         && (if s.done == 0 then id !in s.store.attempts
             else id in s.store.attempts && s.store.attempts[id] == PerceptionAttempt(ok))
         && (s.done >= 4 ==> PlanningGood !in s.store.refs)
       case Some(PlanningOp(id, ok, source)) =>
         && (if s.done == 0 then id !in s.store.attempts
             else id in s.store.attempts && s.store.attempts[id] == PlanningAttempt(ok, source))
         && (ok ==> source.Some? && PerceptionSucceeded(s.store, source.value)
                    && (PerceptionSelected in s.store.refs ==> s.store.refs[PerceptionSelected] == source.value))
       case Some(ClearOp) => true
  }

  /** What a caller of the selection could look at: neither the good plan nor one about to be published was made
      from another perception. */
  predicate Compatible(s: Service, id: Id)
  {
    && (PlanningGood in s.store.refs ==> PlannedFrom(s.store, s.store.refs[PlanningGood], id))
    && (s.op.Some? && s.op.value.PlanningOp? && s.op.value.ok ==> s.op.value.source == Some(id))
  }

  lemma RecordKeeps(s: Store, id: Id, attempt: Attempt)
    requires Good(s) && id !in s.attempts
    ensures Good(Written(s, Record(id, attempt)))
  {
    var t := Written(s, Record(id, attempt));
    if PlanningGood in s.refs {
      var source :| PlannedFrom(s, s.refs[PlanningGood], source);
      assert PlannedFrom(t, t.refs[PlanningGood], source);
    }
  }

  lemma DropKeeps(s: Store, ref: Ref)
    requires Good(s)
    ensures Good(Written(s, Drop(ref)))
  {
    var t := Written(s, Drop(ref));
    if PlanningGood in t.refs {
      var source :| PlannedFrom(s, s.refs[PlanningGood], source);
      assert PlannedFrom(t, t.refs[PlanningGood], source);
    }
  }

  lemma SetKeeps(s: Store, ref: Ref, id: Id)
    requires Good(s)
    requires ref == PlanningGood ==> exists source :: PlannedFrom(s, id, source)
                                                      && (PerceptionSelected in s.refs ==>
                                                          s.refs[PerceptionSelected] == source)
    requires ref == PerceptionSelected ==> PerceptionSucceeded(s, id)
                                           && (PlanningGood in s.refs ==> PlannedFrom(s, s.refs[PlanningGood], id))
    requires ref == PerceptionGood ==> PerceptionSucceeded(s, id)
    ensures Good(Written(s, Set(ref, id)))
  {
    var t := Written(s, Set(ref, id));
    assert forall plan, source :: PlannedFrom(s, plan, source) ==> PlannedFrom(t, plan, source);
  }

  lemma WriteKeeps(s: Service)
    requires Inv(s) && Enabled(s, DoWrite)
    ensures Inv(Wrote(s))
  {
    var op := s.op.value;
    match op
    case PerceptionOp(id, ok) =>
      if s.done == 0 { RecordKeeps(s.store, id, PerceptionAttempt(ok)); }
      else if s.done == 2 { DropKeeps(s.store, PlanningLatest); }
      else if s.done == 3 { DropKeeps(s.store, PlanningGood); }
      else { SetKeeps(s.store, Writes(op)[s.done].ref, id); }
    case PlanningOp(id, ok, source) =>
      if s.done == 0 { RecordKeeps(s.store, id, PlanningAttempt(ok, source)); }
      else {
        if ok { assert PlannedFrom(s.store, id, source.value); }
        SetKeeps(s.store, Writes(op)[s.done].ref, id);
      }
    case ClearOp => DropKeeps(s.store, Writes(op)[s.done].ref);
  }

  lemma NextKeeps(s: Service, step: Step)
    requires Inv(s) && Enabled(s, step) && (step.Select? ==> Compatible(s, step.id))
    ensures Inv(Next(s, step))
  {
    match step
    case DoWrite => WriteKeeps(s);
    case Select(id) => SetKeeps(s.store, PerceptionSelected, id);
    case _ =>
  }

  /** The steps can be taken one after the other, and every selection is compatible when made. */
  predicate CanRun(s: Service, steps: seq<Step>)
    decreases |steps|
  {
    steps == []
    || (Enabled(s, steps[0]) && (steps[0].Select? ==> Compatible(s, steps[0].id))
        && CanRun(Next(s, steps[0]), steps[1..]))
  }

  function Run(s: Service, steps: seq<Step>): Service
    requires CanRun(s, steps)
    decreases |steps|
  {
    if steps == [] then s else Run(Next(s, steps[0]), steps[1..])
  }

  const EMPTY: Service := Service(Store(map[], map[]), None, 0)

  lemma {:induction false} RunKeeps(s: Service, steps: seq<Step>)
    requires Inv(s) && CanRun(s, steps)
    ensures Inv(Run(s, steps))
    decreases |steps|
  {
    if steps != [] {
      NextKeeps(s, steps[0]);
      RunKeeps(Next(s, steps[0]), steps[1..]);
    }
  }

  /** At every point of every run from an empty store, and so after a crash between any two writes: a good plan on
      disk was made from the perception that is selected, if one is; and the references name succeeded attempts.
      A run without selections is among them. */
  lemma PlansMatchSelections(steps: seq<Step>)
    requires CanRun(EMPTY, steps)
    ensures Good(Run(EMPTY, steps).store)
  {
    RunKeeps(EMPTY, steps);
  }

  // ----- exactly which selections are harmless

  /** The service after `k` more writes of the action under way. */
  function After(s: Service, k: nat): Service
    requires s.op.None? ==> k == 0
    requires s.op.Some? ==> s.done + k <= |Writes(s.op.value)|
    decreases k
  {
    if k == 0 || s.done == |Writes(s.op.value)| then s else After(Wrote(s), k - 1)
  }

  function Left(s: Service): int { if s.op.None? then 0 else |Writes(s.op.value)| - s.done }

  /** Whatever is left of the action under way, every cut leaves a good store. */
  ghost predicate EveryCutGood(s: Service)
    requires Left(s) >= 0
  {
    forall k :: 0 <= k <= Left(s) ==> Good(After(s, k).store)
  }

  lemma {:induction false} AfterGood(s: Service, k: nat)
    requires Inv(s) && k <= Left(s)
    ensures Good(After(s, k).store)
    decreases k
  {
    if k > 0 {
      WriteKeeps(s);
      AfterGood(Wrote(s), k - 1);
    }
  }

  function Chosen(s: Service, id: Id): Service { s.(store := Written(s.store, Set(PerceptionSelected, id))) }

  /** A selection leaves every cut good exactly when it is compatible. */
  lemma SelectionIsSafeIffCompatible(s: Service, id: Id)
    requires Inv(s) && PerceptionSucceeded(s.store, id)
    ensures EveryCutGood(Chosen(s, id)) <==> Compatible(s, id)
  {
    var t := Chosen(s, id);
    if Compatible(s, id) {
      NextKeeps(s, Select(id));
      forall k | 0 <= k <= Left(t) ensures Good(After(t, k).store) { AfterGood(t, k); }
    } else if PlanningGood in s.store.refs && !PlannedFrom(s.store, s.store.refs[PlanningGood], id) {
      assert !Good(After(t, 0).store);
    } else {
      PublishedPlan(t);
      assert !Good(After(t, Left(t)).store);
    }
  }

  /** A planning action that succeeds leaves its plan behind, and does not touch the selection. */
  lemma PublishedPlan(t: Service)
    requires t.op.Some? && t.op.value.PlanningOp? && t.op.value.ok && t.done < 3
    requires t.done > 0 ==> t.op.value.id in t.store.attempts
                            && t.store.attempts[t.op.value.id] == PlanningAttempt(true, t.op.value.source)
    ensures var u, id := After(t, Left(t)).store, t.op.value.id;
            && PlanningGood in u.refs && u.refs[PlanningGood] == id
            && id in u.attempts && u.attempts[id] == PlanningAttempt(true, t.op.value.source)
            && Selected(u) == Selected(t.store)
    decreases 3 - t.done
  {
    var w := Wrote(t);
    assert After(t, Left(t)) == After(w, Left(t) - 1);
    if t.done < 2 { PublishedPlan(w); }
  }

  // ----- selections that are not harmless do occur

  lemma {:induction false} RunThen(s: Service, steps: seq<Step>, step: Step)
    requires CanRun(s, steps) && Enabled(Run(s, steps), step)
    requires step.Select? ==> Compatible(Run(s, steps), step.id)
    ensures CanRun(s, steps + [step]) && Run(s, steps + [step]) == Next(Run(s, steps), step)
    decreases |steps|
  {
    if steps == [] {
      assert steps + [step] == [step] && [step][1..] == [];
    } else {
      RunThen(Next(s, steps[0]), steps[1..], step);
      assert (steps + [step])[0] == steps[0] && (steps + [step])[1..] == steps[1..] + [step];
    }
  }

  /** Some run from an empty store leads here, with every selection on the way compatible. */
  ghost predicate Reachable(s: Service)
  {
    exists steps :: CanRun(EMPTY, steps) && Run(EMPTY, steps) == s
  }

  lemma ReachNext(s: Service, step: Step)
    requires Reachable(s) && Enabled(s, step) && (step.Select? ==> Compatible(s, step.id))
    ensures Reachable(Next(s, step))
  {
    hide Enabled, Compatible, Next;
    var steps :| CanRun(EMPTY, steps) && Run(EMPTY, steps) == s;
    RunThen(EMPTY, steps, step);
  }

  /** An action under way can be run to its end. */
  lemma {:induction false} Completes(s: Service, op: Op, done: nat)
    requires Reachable(s) && s.op == Some(op) && s.done == done < |Writes(op)|
    ensures Reachable(Service(WrittenAll(s.store, Writes(op)[done..]), None, 0))
    decreases |Writes(op)| - done
  {
    hide Reachable;
    ReachNext(s, DoWrite);
    var t, ws := Wrote(s), Writes(op)[done..];
    assert ws[0] == Writes(op)[done] && ws[1..] == Writes(op)[done + 1..];
    if done + 1 < |Writes(op)| {
      Completes(t, op, done + 1);
    } else {
      assert WrittenAll(t.store, []) == t.store;
    }
  }

  lemma BeginCompletes(s: Service, step: Step, op: Op)
    requires Reachable(s) && Enabled(s, step) && Next(s, step) == Service(s.store, Some(op), 0)
    requires step.BeginPerception? || step.BeginPlanning?
    ensures Reachable(Service(WrittenAll(s.store, Writes(op)), None, 0))
  {
    ReachNext(s, step);
    hide Reachable;
    assert Writes(op)[0..] == Writes(op);
    Completes(Next(s, step), op, 0);
  }

  /** The store after two perceptions, the later one selected. */
  function TwoPerceptions(a: Id, b: Id): Store
  {
    Store(map[PerceptionLatest := b, PerceptionGood := b, PerceptionSelected := b],
          map[a := PerceptionAttempt(true), b := PerceptionAttempt(true)])
  }

  lemma TwoPerceptionsReachable(a: Id, b: Id)
    requires a != b
    ensures Reachable(Service(TwoPerceptions(a, b), None, 0))
  {
    assert CanRun(EMPTY, []) && Run(EMPTY, []) == EMPTY;
    hide Reachable, WrittenAll;
    ActionLeaves(EMPTY.store, PerceptionOp(a, true));
    BeginCompletes(EMPTY, BeginPerception(a, true), PerceptionOp(a, true));
    var one := Service(WrittenAll(EMPTY.store, Writes(PerceptionOp(a, true))), None, 0);
    ActionLeaves(one.store, PerceptionOp(b, true));
    BeginCompletes(one, BeginPerception(b, true), PerceptionOp(b, true));
    assert WrittenAll(one.store, Writes(PerceptionOp(b, true))) == TwoPerceptions(a, b);
  }

  /** Selecting the older of two perceptions after a plan was made from the newer leaves that plan good; selecting
      it while the plan is being made has the plan published as good for the wrong perception. */
  lemma SelectionCanMismatch(a: Id, b: Id, plan: Id)
    requires a != b && a != plan && b != plan
    ensures exists s :: Reachable(s) && s.op.None? && Enabled(s, Select(a)) && !Good(Next(s, Select(a)).store)
    ensures exists s :: Reachable(s) && s.op.Some? && Enabled(s, Select(a)) && Good(Next(s, Select(a)).store)
                        && Left(Next(s, Select(a))) >= 0 && !EveryCutGood(Next(s, Select(a)))
  {
    TwoPerceptionsReachable(a, b);
    var s, op := Service(TwoPerceptions(a, b), None, 0), PlanningOp(plan, true, Some(b));
    var begin := BeginPlanning(plan, true, true);
    ReachNext(s, begin);
    BeginCompletes(s, begin, op);
    hide Reachable;
    var t := Service(WrittenAll(s.store, Writes(op)), None, 0);
    ActionLeaves(s.store, op);
    assert !PlannedFrom(Next(t, Select(a)).store, plan, a);
    var u := Next(s, begin);
    assert Inv(u);
    SelectionIsSafeIffCompatible(u, a);
    assert Next(u, Select(a)) == Chosen(u, a);
  }
}
