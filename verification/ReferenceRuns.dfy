/** What whole actions leave in runs of the read-only session service, with selections falling between their writes. */
module ReferenceRuns {
  import opened Options
  import opened SessionReferences

  /** The steps can be taken one after the other; selections need not be compatible. */
  predicate Lawful(s: Service, steps: seq<Step>)
    decreases |steps|, 0
  {
    steps == [] || (Lawful(s, steps[..|steps| - 1]) && Enabled(Came(s, steps[..|steps| - 1]), steps[|steps| - 1]))
  }

  function Came(s: Service, steps: seq<Step>): Service
    requires Lawful(s, steps)
    decreases |steps|, 1
  {
    if steps == [] then s else Next(Came(s, steps[..|steps| - 1]), steps[|steps| - 1])
  }

  lemma {:induction false} LawfulCut(s: Service, steps: seq<Step>, n: nat)
    requires Lawful(s, steps) && n <= |steps|
    ensures Lawful(s, steps[..n])
    ensures n < |steps| ==>
              Enabled(Came(s, steps[..n]), steps[n]) && Lawful(s, steps[..n + 1])
              && Came(s, steps[..n + 1]) == Next(Came(s, steps[..n]), steps[n])
    decreases |steps|
  {
    hide Enabled, Next;
    if n == |steps| {
      assert steps[..n] == steps;
    } else if n + 1 == |steps| {
      assert steps[..n + 1] == steps;
    } else {
      var front := steps[..|steps| - 1];
      assert front[..n] == steps[..n] && front[..n + 1] == steps[..n + 1];
      LawfulCut(s, front, n);
    }
  }

  // ----- one action with selections in between

  /** Writes of the action under way and selections, in any order. */
  predicate OnlyWrites(steps: seq<Step>) { forall k :: 0 <= k < |steps| ==> steps[k].DoWrite? || steps[k].Select? }

  predicate NoSelection(steps: seq<Step>) { forall k :: 0 <= k < |steps| ==> !steps[k].Select? }

  predicate SameRef(a: Store, b: Store, ref: Ref)
  {
    if ref in a.refs then ref in b.refs && a.refs[ref] == b.refs[ref] else ref !in b.refs
  }

  /** The same but perhaps for which perception is selected. */
  ghost predicate SameButSelection(a: Store, b: Store)
  {
    a.attempts == b.attempts && forall ref :: ref != PerceptionSelected ==> SameRef(a, b, ref)
  }

  lemma WrittenAlike(a: Store, b: Store, w: Write)
    requires SameButSelection(a, b)
    ensures SameButSelection(Written(a, w), Written(b, w))
  {
    var c, d := Written(a, w), Written(b, w);
    forall ref | ref != PerceptionSelected ensures SameRef(c, d, ref) { assert SameRef(a, b, ref); }
  }

  lemma SelectedAlike(a: Store, b: Store, id: Id)
    requires SameButSelection(a, b)
    ensures SameButSelection(Written(a, Set(PerceptionSelected, id)), b)
  {
    var c := Written(a, Set(PerceptionSelected, id));
    forall ref | ref != PerceptionSelected ensures SameRef(c, b, ref) { assert SameRef(a, b, ref); }
  }

  /** The action has come to write `n`. */
  ghost predicate At(s: Service, op: Op, before: Store, n: nat, quiet: bool)
  {
    && n <= |Writes(op)|
    && (if n == |Writes(op)| then s.op.None? else s.op == Some(op) && s.done == n)
    && SameButSelection(s.store, WrittenAll(before, Writes(op)[..n]))
    && (quiet ==> s.store == WrittenAll(before, Writes(op)[..n]))
  }

  lemma AtStart(s: Service, op: Op)
    requires s.op == Some(op) && s.done == 0
    ensures At(s, op, s.store, 0, true)
  {
    assert Writes(op)[..0] == [] && |Writes(op)| > 0;
  }

  lemma AtNext(s: Service, op: Op, before: Store, n: nat, quiet: bool, step: Step) returns (m: nat)
    requires At(s, op, before, n, quiet) && Enabled(s, step) && (step.DoWrite? || step.Select?)
    ensures At(Next(s, step), op, before, m, quiet && !step.Select?)
  {
    hide Written, SameButSelection, WrittenAll, Writes;
    if step.DoWrite? {
      m := n + 1;
      var ws := Writes(op);
      assert ws[..n + 1] == ws[..n] + [ws[n]];
      WrittenOne(before, ws[..n], ws[n]);
      WrittenAlike(s.store, WrittenAll(before, ws[..n]), ws[n]);
    } else {
      m := n;
      SelectedAlike(s.store, WrittenAll(before, Writes(op)[..n]), step.id);
    }
  }

  lemma {:induction false} ActionAt(s: Service, op: Op, steps: seq<Step>) returns (n: nat)
    requires s.op == Some(op) && s.done == 0 && Lawful(s, steps) && OnlyWrites(steps)
    ensures At(Came(s, steps), op, s.store, n, NoSelection(steps))
  {
    hide At, Enabled, Next;
    if steps == [] {
      n := 0;
      AtStart(s, op);
    } else {
      var front, last := steps[..|steps| - 1], steps[|steps| - 1];
      n := ActionAt(s, op, front);
      n := AtNext(Came(s, front), op, s.store, n, NoSelection(front), last);
      assert NoSelection(steps) <==> NoSelection(front) && !last.Select?;
    }
  }

  /** An action that runs through leaves what it should, whatever selections come in between: they decide nothing but
      which perception is selected. */
  lemma CompletedActionLeaves(s: Service, op: Op, steps: seq<Step>) returns (t: Store)
    requires s.op == Some(op) && s.done == 0 && Lawful(s, steps) && OnlyWrites(steps) && Came(s, steps).op.None?
    ensures Leaves(s.store, op, t) && SameButSelection(Came(s, steps).store, t)
    ensures NoSelection(steps) ==> Came(s, steps).store == t
  {
    hide Writes, WrittenAll, SameButSelection;
    var n := ActionAt(s, op, steps);
    t := WrittenAll(s.store, Writes(op));
    ActionLeaves(s.store, op);
    assert Writes(op)[..|Writes(op)|] == Writes(op);
  }

  // ----- a plan that is gone stays gone

  /** The step begins a planning that succeeds: so does the backend, and the selected perception succeeded and is
      intact. */
  predicate PlansWell(s: Service, step: Step)
  {
    && step.BeginPlanning? && step.backendOk && step.intact && PerceptionSelected in s.store.refs
    && var source := s.store.refs[PerceptionSelected];
       source in s.store.attempts && s.store.attempts[source] == PerceptionAttempt(true)
  }

  /** No good plan is on disk, and none is being published. */
  predicate Planless(s: Service)
  {
    && PlanningGood !in s.store.refs
    && (s.op.Some? ==> s.done <= |Writes(s.op.value)| && !(s.op.value.PlanningOp? && s.op.value.ok))
  }

  lemma PlanlessNext(s: Service, step: Step)
    requires Planless(s) && Enabled(s, step) && !PlansWell(s, step)
    ensures Planless(Next(s, step))
  {}

  /** Without a good plan, and without one in the making, none is on disk at any cut of a run in which no planning
      succeeds. */
  lemma {:induction false} NoPlanUntilPlanned(s: Service, steps: seq<Step>, n: nat)
    requires Planless(s) && Lawful(s, steps) && n <= |steps|
    requires forall k :: 0 <= k < |steps| && Lawful(s, steps[..k]) ==> !PlansWell(Came(s, steps[..k]), steps[k])
    ensures Lawful(s, steps[..n]) && Planless(Came(s, steps[..n]))
  {
    hide Planless, Enabled, Next, PlansWell;
    LawfulCut(s, steps, n);
    if n == 0 {
      assert steps[..0] == [];
    } else {
      NoPlanUntilPlanned(s, steps, n - 1);
      LawfulCut(s, steps, n - 1);
      PlanlessNext(Came(s, steps[..n - 1]), steps[n - 1]);
    }
  }

  /** From a completed clear, or a perception that succeeded, until the next planning that succeeds, no good plan is on
      disk at any cut, whatever is selected meanwhile. */
  lemma ClearedPlanStaysGone(s: Service, op: Op, steps: seq<Step>, more: seq<Step>, n: nat)
    requires s.op == Some(op) && s.done == 0 && (op.ClearOp? || (op.PerceptionOp? && op.ok))
    requires Lawful(s, steps) && OnlyWrites(steps) && Came(s, steps).op.None?
    requires Lawful(Came(s, steps), more) && n <= |more|
    requires forall k :: 0 <= k < |more| && Lawful(Came(s, steps), more[..k]) ==>
               !PlansWell(Came(Came(s, steps), more[..k]), more[k])
    ensures Lawful(Came(s, steps), more[..n]) && PlanningGood !in Came(Came(s, steps), more[..n]).store.refs
  {
    hide Lawful, Came, Enabled, Next, PlansWell, Writes;
    var t := CompletedActionLeaves(s, op, steps);
    assert SameRef(Came(s, steps).store, t, PlanningGood);
    NoPlanUntilPlanned(Came(s, steps), more, n);
  }
}
