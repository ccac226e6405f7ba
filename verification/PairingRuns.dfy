/** Which pairs the two nodes publish and hand on, for streams with any stamps in any order. */
module PairingRuns {
  import opened Options
  import opened StampPairing

  // ----- the throttle

  /** The moment of the last publish; the node starts as if it had published at 0. */
  function LastAt<M>(published: seq<Frameset<M>>): real
  {
    if published == [] then 0.0 else published[|published| - 1].at
  }

  /** The throttle's buffers are those of the join, and its clock is that of the last publish. */
  lemma {:induction false} ThrottleKeeps<M>(interval: real, log: seq<Arrival<M>>)
    ensures var t := ThrottleRun(interval, log);
            t.buffers == After(THROTTLE_BUFFER, log) && t.lastPub == LastAt(t.published)
  {
    hide Joined;
    if log != [] { ThrottleKeeps(interval, log[..|log| - 1]); }
  }

  /** The `k`-th arrival adds a frameset exactly if it completes a pair at least an interval after the last publish: the
      pair's stamp and halves, at that moment.  Nothing else is ever published, and nothing is taken back. */
  lemma PublishedIff<M>(interval: real, log: seq<Arrival<M>>, k: nat)
    requires k < |log|
    ensures var before := ThrottleRun(interval, log[..k]).published;
            var after := ThrottleRun(interval, log[..k + 1]).published;
            var o := OutcomeAt(THROTTLE_BUFFER, log, k);
            after == if o.Matched? && log[k].now - LastAt(before) >= interval
                     then before + [Frameset(log[k].stamp, o.one, o.two, log[k].now)] else before
  {
    hide Joined;
    ThrottleKeeps(interval, log[..k]);
    assert log[..k + 1][..k] == log[..k];
  }

  /** So two partners that come within the buffer's bound are published together as soon as the later one comes, if the
      last publish is an interval ago. */
  lemma PairIsPublished<M>(interval: real, log: seq<Arrival<M>>, i: nat, j: nat)
    requires Increasing(log) && i < j < |log| && log[i].first != log[j].first && log[i].stamp == log[j].stamp
    requires FollowedBy(log, i, j) < 30
    requires log[j].now - LastAt(ThrottleRun(interval, log[..j]).published) >= interval
    ensures var one, two := if log[i].first then log[i].msg else log[j].msg,
                            if log[i].first then log[j].msg else log[i].msg;
            ThrottleRun(interval, log[..j + 1]).published
            == ThrottleRun(interval, log[..j]).published + [Frameset(log[j].stamp, one, two, log[j].now)]
  {
    hide OutcomeAt, ThrottleRun, FollowedBy;
    PartnersMeet(THROTTLE_BUFFER, log, i, j);
    PublishedIff(interval, log, j);
  }

  // ----- the relay

  predicate MatchesAt<M>(outcome: Outcome<M>) { outcome.Matched? }

  /** Arrival `k` completed the last pair. */
  ghost predicate LastMatch<M>(log: seq<Arrival<M>>, k: nat)
  {
    && k < |log| && MatchesAt(OutcomeAt(RELAY_BUFFER, log, k))
    && forall m :: k < m < |log| ==> !MatchesAt(OutcomeAt(RELAY_BUFFER, log, m))
  }

  /** The worker has not emptied the slot since arrival `k`. */
  predicate Untaken(takes: seq<bool>, k: nat) { forall m :: k <= m < |takes| ==> !takes[m] }

  /** The slot holds exactly the last pair, until the worker takes it. */
  ghost predicate HoldsLast<M>(log: seq<Arrival<M>>, takes: seq<bool>, latest: Option<Outcome<M>>)
    requires |log| == |takes|
  {
    && (latest.Some? ==> exists k: nat :: LastMatch(log, k))
    && forall k: nat :: LastMatch(log, k) ==>
         latest == if Untaken(takes, k) then Some(OutcomeAt(RELAY_BUFFER, log, k)) else None
  }

  lemma {:induction false} RelayBuffers<M>(log: seq<Arrival<M>>, takes: seq<bool>)
    requires |log| == |takes|
    ensures RelayRun(log, takes).0.buffers == After(RELAY_BUFFER, log)
  {
    hide Joined;
    if log != [] { RelayBuffers(log[..|log| - 1], takes[..|takes| - 1]); }
  }

  lemma OutcomeBefore<M>(log: seq<Arrival<M>>, n: nat, k: nat)
    requires k < n <= |log|
    ensures OutcomeAt(RELAY_BUFFER, log[..n], k) == OutcomeAt(RELAY_BUFFER, log, k)
  {
    hide Joined, After;
    assert log[..n][..k] == log[..k] && log[..n][k] == log[k];
  }

  /** How one more arrival decides which match is the last. */
  lemma LastMatchStep<M>(log: seq<Arrival<M>>, n: nat, k: nat)
    requires |log| == n + 1
    ensures LastMatch(log, k) <==>
            if MatchesAt(OutcomeAt(RELAY_BUFFER, log, n)) then k == n else LastMatch(log[..n], k)
  {
    hide OutcomeAt, MatchesAt;
    forall m: nat | m < n ensures OutcomeAt(RELAY_BUFFER, log[..n], m) == OutcomeAt(RELAY_BUFFER, log, m) {
      OutcomeBefore(log, n, m);
    }
  }

  lemma UntakenStep(takes: seq<bool>, n: nat, k: nat)
    requires |takes| == n + 1 && k <= n
    ensures Untaken(takes, k) <==> !takes[n] && (k < n ==> Untaken(takes[..n], k))
  {
    assert forall m :: 0 <= m < n ==> takes[..n][m] == takes[m];
  }

  /** The relay's slot and its worker after one more arrival. */
  lemma RelayNext<M>(log: seq<Arrival<M>>, takes: seq<bool>, n: nat)
    requires |log| == |takes| == n + 1
    ensures var (r, taken), (r', taken') := RelayRun(log[..n], takes[..n]), RelayRun(log, takes);
            var o := OutcomeAt(RELAY_BUFFER, log, n);
            var slot := if o.Matched? then Some(o) else r.latest;
            && r'.received == r.received + (if o.Matched? then 1 else 0)
            && (if takes[n] && slot.Some? && slot.value.Matched?
                then r'.latest.None? && taken' == taken + [slot.value.stamp]
                else r'.latest == slot && taken' == taken)
  {
    hide Joined;
    RelayBuffers(log[..n], takes[..n]);
  }

  /** Whatever the stamps: the slot always holds the last pair completed, unless the worker has taken it. */
  lemma {:induction false} SlotHoldsLast<M>(log: seq<Arrival<M>>, takes: seq<bool>)
    requires |log| == |takes|
    ensures var r := RelayRun(log, takes).0;
            HoldsLast(log, takes, r.latest) && (r.latest.Some? ==> r.latest.value.Matched?)
  {
    hide RelayRun, OutcomeAt, LastMatch, Untaken;
    if log == [] {
      EmptySlot(log, takes);
    } else {
      var n := |log| - 1;
      SlotHoldsLast(log[..n], takes[..n]);
      RelayNext(log, takes, n);
      HoldsNext(log, takes, n, RelayRun(log[..n], takes[..n]).0.latest, RelayRun(log, takes).0.latest);
    }
  }

  lemma EmptySlot<M>(log: seq<Arrival<M>>, takes: seq<bool>)
    requires |log| == |takes| == 0
    ensures HoldsLast(log, takes, RelayRun(log, takes).0.latest) && RelayRun(log, takes).0.latest.None?
  {}

  lemma HoldsNext<M>(log: seq<Arrival<M>>, takes: seq<bool>, n: nat, was: Option<Outcome<M>>,
                     latest: Option<Outcome<M>>)
    requires |log| == |takes| == n + 1 && HoldsLast(log[..n], takes[..n], was)
    requires var o := OutcomeAt(RELAY_BUFFER, log, n); var slot := if o.Matched? then Some(o) else was;
             latest == if takes[n] then None else slot
    ensures HoldsLast(log, takes, latest)
  {
    hide OutcomeAt, LastMatch, Untaken;
    forall k: nat
      ensures LastMatch(log, k) <==>
              if MatchesAt(OutcomeAt(RELAY_BUFFER, log, n)) then k == n else LastMatch(log[..n], k)
      ensures k <= n ==> (Untaken(takes, k) <==> !takes[n] && (k < n ==> Untaken(takes[..n], k)))
      ensures k < n ==> OutcomeAt(RELAY_BUFFER, log[..n], k) == OutcomeAt(RELAY_BUFFER, log, k)
      ensures LastMatch(log[..n], k) ==> k < n
    {
      LastMatchStep(log, n, k);
      if k <= n { UntakenStep(takes, n, k); }
      if k < n { OutcomeBefore(log, n, k); }
      if LastMatch(log[..n], k) { LastIsInside(log[..n], k); }
    }
    if latest.Some? {
      if MatchesAt(OutcomeAt(RELAY_BUFFER, log, n)) {
        assert LastMatch(log, n);
      } else {
        var k: nat :| LastMatch(log[..n], k);
        assert LastMatch(log, k);
      }
    }
  }

  lemma LastIsInside<M>(log: seq<Arrival<M>>, k: nat)
    requires LastMatch(log, k)
    ensures k < |log|
  {}

  ghost function Matches<M>(log: seq<Arrival<M>>): set<nat>
  {
    set k: nat | k < |log| && OutcomeAt(RELAY_BUFFER, log, k).Matched?
  }

  /** The relay counts exactly the pairs completed. */
  lemma {:induction false} ReceivedAreMatches<M>(log: seq<Arrival<M>>, takes: seq<bool>)
    requires |log| == |takes|
    ensures RelayRun(log, takes).0.received == |Matches(log)|
  {
    hide OutcomeAt, Matches, RelayRun;
    if log == [] {
      NoMatches(log, takes);
    } else {
      var n := |log| - 1;
      ReceivedAreMatches(log[..n], takes[..n]);
      RelayNext(log, takes, n);
      MatchesStep(log, n);
    }
  }

  lemma NoMatches<M>(log: seq<Arrival<M>>, takes: seq<bool>)
    requires |log| == |takes| == 0
    ensures RelayRun(log, takes).0.received == |Matches(log)|
  {}

  lemma MatchesStep<M>(log: seq<Arrival<M>>, n: nat)
    requires |log| == n + 1
    ensures |Matches(log)| == |Matches(log[..n])| + if OutcomeAt(RELAY_BUFFER, log, n).Matched? then 1 else 0
  {
    hide OutcomeAt;
    forall k: nat | k < n ensures OutcomeAt(RELAY_BUFFER, log[..n], k) == OutcomeAt(RELAY_BUFFER, log, k) {
      OutcomeBefore(log, n, k);
    }
    assert Matches(log) == Matches(log[..n]) + if OutcomeAt(RELAY_BUFFER, log, n).Matched? then {n} else {};
  }

  /** The worker that empties the slot after arrival `k` takes the last pair completed, unless it has it already; and
      otherwise takes nothing. */
  lemma WorkerTakesLast<M>(log: seq<Arrival<M>>, takes: seq<bool>, n: nat)
    requires |log| == |takes| == n + 1
    ensures var taken, taken' := RelayRun(log[..n], takes[..n]).1, RelayRun(log, takes).1;
            && (!takes[n] ==> taken' == taken)
            && (takes[n] && (forall k: nat :: !LastMatch(log, k)) ==> taken' == taken)
            && (forall k: nat :: takes[n] && LastMatch(log, k) ==>
                  taken' == if k == n || Untaken(takes[..n], k)
                            then taken + [OutcomeAt(RELAY_BUFFER, log, k).stamp] else taken)
  {
    hide RelayRun, OutcomeAt, LastMatch, Untaken;
    SlotHoldsLast(log[..n], takes[..n]);
    RelayNext(log, takes, n);
    var o, was := OutcomeAt(RELAY_BUFFER, log, n), RelayRun(log[..n], takes[..n]).0.latest;
    forall k: nat
      ensures LastMatch(log, k) <==>
              if MatchesAt(OutcomeAt(RELAY_BUFFER, log, n)) then k == n else LastMatch(log[..n], k)
      ensures k < n ==> OutcomeAt(RELAY_BUFFER, log[..n], k) == OutcomeAt(RELAY_BUFFER, log, k)
      ensures LastMatch(log[..n], k) ==> k < n
    {
      LastMatchStep(log, n, k);
      if k < n { OutcomeBefore(log, n, k); }
      if LastMatch(log[..n], k) { LastIsInside(log[..n], k); }
    }
    if was.Some? && !o.Matched? {
      var k: nat :| LastMatch(log[..n], k);
      assert LastMatch(log, k);
    }
  }

  /** Two partners that come within the relay's bound are in the slot as soon as the later one has come. */
  lemma PairReachesSlot<M>(log: seq<Arrival<M>>, takes: seq<bool>, i: nat, j: nat)
    requires Increasing(log) && i < j < |log| && log[i].first != log[j].first && log[i].stamp == log[j].stamp
    requires FollowedBy(log, i, j) < 60 && |takes| == |log| && !takes[j]
    ensures RelayRun(log[..j + 1], takes[..j + 1]).0.latest
            == Some(if log[i].first then Matched(log[j].stamp, log[i].msg, log[j].msg)
                    else Matched(log[j].stamp, log[j].msg, log[i].msg))
  {
    hide OutcomeAt, RelayRun, FollowedBy;
    PartnersMeet(RELAY_BUFFER, log, i, j);
    var upTo := log[..j + 1];
    OutcomeBefore(log, j + 1, j);
    RelayNext(upTo, takes[..j + 1], j);
  }

  /** Every arrival's bytes are counted, whether or not it completes a pair. */
  lemma BytesAreCounted<M>(r: Relay<M>, first: bool, stamp: int, msg: M, size: nat)
    ensures Relayed(r, first, stamp, msg, size).0.bytesIn - r.bytesIn == size
  {
    hide Joined;
  }
}
