/** Sorting by a key, for the medians of the depth filter and of the servo's target filter. */
module Sorting {

  function Insert<T>(key: T -> real, x: T, s: seq<T>): seq<T>
  {
    if s == [] || key(x) <= key(s[0]) then [x] + s else [s[0]] + Insert(key, x, s[1..])
  }

  function Sort<T>(key: T -> real, s: seq<T>): seq<T>
  {
    if s == [] then [] else Insert(key, s[0], Sort(key, s[1..]))
  }

  ghost predicate Ordered<T>(key: T -> real, s: seq<T>) { forall a, b :: 0 <= a < b < |s| ==> key(s[a]) <= key(s[b]) }

  /** Sorting keeps the entries and puts them in order. */
  lemma {:induction false} SortKeeps<T>(key: T -> real, s: seq<T>)
    ensures |Sort(key, s)| == |s| && multiset(Sort(key, s)) == multiset(s) && Ordered(key, Sort(key, s))
  {
    if s != [] {
      SortKeeps(key, s[1..]);
      InsertKeeps(key, s[0], Sort(key, s[1..]));
      assert s == [s[0]] + s[1..];
    }
  }

  lemma {:induction false} InsertKeeps<T>(key: T -> real, x: T, s: seq<T>)
    requires Ordered(key, s)
    ensures var r := Insert(key, x, s);
            |r| == |s| + 1 && multiset(r) == multiset(s) + multiset{x} && (r[0] == x || (s != [] && r[0] == s[0]))
            && Ordered(key, r)
  {
    if s != [] && key(x) > key(s[0]) {
      InsertKeeps(key, x, s[1..]);
      assert s == [s[0]] + s[1..];
      var t := Insert(key, x, s[1..]);
      assert key(s[0]) <= key(t[0]);
      Prepend(key, s[0], t);
    } else if s != [] {
      Prepend(key, x, s);
    }
  }

  lemma Prepend<T>(key: T -> real, x: T, s: seq<T>)
    requires s != [] && Ordered(key, s) && key(x) <= key(s[0])
    ensures Ordered(key, [x] + s)
  {
    var r := [x] + s;
    forall a, b | 0 <= a < b < |r| ensures key(r[a]) <= key(r[b]) {
      assert key(s[0]) <= key(s[b - 1]);
      if a > 0 { assert key(s[a - 1]) <= key(s[b - 1]); }
    }
  }

  /** Every entry of the sorted sequence stands somewhere in the original. */
  lemma SortedEntry<T>(key: T -> real, s: seq<T>, k: nat) returns (t: nat)
    requires k < |s|
    ensures t < |s| && |Sort(key, s)| == |s| && Sort(key, s)[k] == s[t]
  {
    SortKeeps(key, s);
    hide Sort;
    var m := Sort(key, s)[k];
    assert m in multiset(Sort(key, s));
    assert m in s;
    t :| t < |s| && s[t] == m;
  }

  // ----- ranks

  function Tally<T>(holds: T -> bool, s: seq<T>): nat
  {
    if s == [] then 0 else Tally(holds, s[1..]) + if holds(s[0]) then 1 else 0
  }

  /** The number of entries whose key lies below `v`. */
  function Below<T>(key: T -> real, s: seq<T>, v: real): nat { Tally(x => key(x) < v, s) }

  /** The number of entries whose key lies above `v`. */
  function Above<T>(key: T -> real, s: seq<T>, v: real): nat { Tally(x => key(x) > v, s) }

  lemma {:induction false} InsertTally<T>(key: T -> real, holds: T -> bool, x: T, s: seq<T>)
    ensures Tally(holds, Insert(key, x, s)) == Tally(holds, s) + if holds(x) then 1 else 0
  {
    if s == [] || key(x) <= key(s[0]) {
      assert ([x] + s)[1..] == s;
    } else {
      InsertTally(key, holds, x, s[1..]);
      assert ([s[0]] + Insert(key, x, s[1..]))[1..] == Insert(key, x, s[1..]);
    }
  }

  lemma {:induction false} SortTally<T>(key: T -> real, holds: T -> bool, s: seq<T>)
    ensures Tally(holds, Sort(key, s)) == Tally(holds, s)
  {
    if s != [] {
      SortTally(key, holds, s[1..]);
      InsertTally(key, holds, s[0], Sort(key, s[1..]));
    }
  }

  lemma {:induction false} TallyJoined<T>(holds: T -> bool, a: seq<T>, b: seq<T>)
    ensures Tally(holds, a + b) == Tally(holds, a) + Tally(holds, b)
  {
    if a == [] {
      assert a + b == b;
    } else {
      TallyJoined(holds, a[1..], b);
      assert (a + b)[1..] == a[1..] + b;
    }
  }

  lemma {:induction false} TallyAtMost<T>(holds: T -> bool, s: seq<T>)
    ensures Tally(holds, s) <= |s|
    ensures (forall k :: 0 <= k < |s| ==> !holds(s[k])) ==> Tally(holds, s) == 0
  {
    if s != [] {
      TallyAtMost(holds, s[1..]);
      assert forall k :: 0 <= k < |s[1..]| ==> s[1..][k] == s[k + 1];
    }
  }

  /** What holds of nothing from position `k` on holds at most `k` times, and of nothing before it the rest. */
  lemma TallySplit<T>(holds: T -> bool, s: seq<T>, k: nat)
    requires k <= |s|
    ensures (forall m :: k <= m < |s| ==> !holds(s[m])) ==> Tally(holds, s) <= k
    ensures (forall m :: 0 <= m < k ==> !holds(s[m])) ==> Tally(holds, s) <= |s| - k
  {
    assert s == s[..k] + s[k..];
    TallyJoined(holds, s[..k], s[k..]);
    TallyAtMost(holds, s[..k]);
    TallyAtMost(holds, s[k..]);
  }

  /** At most `k` entries lie below a value that is not above entry `k` in order, and at most all but `k` lie above one
      that is not below entry `k - 1`. */
  lemma SortedRank<T>(key: T -> real, s: seq<T>, k: nat, v: real)
    requires k <= |s| && |Sort(key, s)| == |s|
    ensures k < |s| && v <= key(Sort(key, s)[k]) ==> Below(key, s, v) <= k
    ensures k > 0 && v >= key(Sort(key, s)[k - 1]) ==> Above(key, s, v) <= |s| - k
  {
    SortKeeps(key, s);
    SortTally(key, x => key(x) < v, s);
    SortTally(key, x => key(x) > v, s);
    var t := Sort(key, s);
    hide Sort;
    TallySplit(x => key(x) < v, t, k);
    TallySplit(x => key(x) > v, t, k);
    if k < |s| && v <= key(t[k]) {
      forall m | k <= m < |t| ensures !(key(t[m]) < v) { assert key(t[k]) <= key(t[m]); }
    }
    if k > 0 && v >= key(t[k - 1]) {
      forall m | 0 <= m < k ensures !(key(t[m]) > v) { assert key(t[m]) <= key(t[k - 1]); }
    }
  }

  /** The places of the entries of which something holds. */
  lemma {:induction false} TallyPlaces<T>(holds: T -> bool, s: seq<T>)
    ensures |set t: nat | t < |s| && holds(s[t])| == Tally(holds, s)
  {
    var places := set t: nat | t < |s| && holds(s[t]);
    if s == [] {
      assert places == {};
    } else {
      var n := |s| - 1;
      var front := s[..n];
      TallyPlaces(holds, front);
      assert s == front + [s[n]];
      TallyJoined(holds, front, [s[n]]);
      assert Tally(holds, [s[n]]) == if holds(s[n]) then 1 else 0;
      assert places == (set t: nat | t < |front| && holds(front[t])) + if holds(s[n]) then {n} else {};
    }
  }

  lemma RankPlaces<T>(key: T -> real, s: seq<T>, v: real) returns (low: set<nat>, high: set<nat>)
    ensures forall t: nat :: t in low <==> t < |s| && key(s[t]) < v
    ensures forall t: nat :: t in high <==> t < |s| && key(s[t]) > v
    ensures |low| == Below(key, s, v) && |high| == Above(key, s, v)
  {
    TallyPlaces(x => key(x) < v, s);
    TallyPlaces(x => key(x) > v, s);
    low := set t: nat | t < |s| && (x => key(x) < v)(s[t]);
    high := set t: nat | t < |s| && (x => key(x) > v)(s[t]);
  }
}
