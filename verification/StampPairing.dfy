/** Pairing two image streams by exact stamp, through one bounded buffer a stream.

    Two nodes do this: the pair throttle, which caps the rate of the pairs it publishes, and the depth relay,
    which keeps the latest pair only.  Both evict the oldest stamps of a buffer that grows past its bound. */
module StampPairing {
  import opened Options

  const THROTTLE_BUFFER: nat := 30
  const RELAY_BUFFER: nat := 60

  // ----- one arrival

  datatype Buffers<M> = Buffers(one: map<int, M>, two: map<int, M>)

  /** `Missed` is the error of taking a stamp out of a buffer that no longer holds it. */
  datatype Outcome<M> = Waiting | Missed | Matched(stamp: int, one: M, two: M)

  function Mine<M>(b: Buffers<M>, first: bool): map<int, M> { if first then b.one else b.two }

  function With<M>(b: Buffers<M>, first: bool, store: map<int, M>): Buffers<M>
  {
    if first then b.(one := store) else b.(two := store)
  }

  lemma {:induction false} LeastExists(keys: set<int>)
    ensures keys == {} || exists m :: m in keys && forall k :: k in keys ==> m <= k
    decreases |keys|
  {
    Inhabited(keys);
    if keys != {} {
      var x :| x in keys;
      var rest := keys - {x};
      assert keys == rest + {x};
      LeastExists(rest);
      if rest == {} {
        LeastOf(keys, x);
      } else {
        var m :| m in rest && forall k :: k in rest ==> m <= k;
        LeastOf(keys, if m <= x then m else x);
      }
    }
  }

  lemma Inhabited(keys: set<int>)
    ensures keys == {} || exists x :: x in keys
  {
    if forall x :: x !in keys { assert keys == {}; }
  }

  lemma LeastOf(keys: set<int>, m: int)
    requires m in keys && forall k :: k in keys ==> m <= k
    ensures exists m :: m in keys && forall k :: k in keys ==> m <= k
  {}

  ghost function Least(keys: set<int>): (m: int)
    requires keys != {}
    ensures m in keys && forall k :: k in keys ==> m <= k
  {
    LeastExists(keys);
    var m :| m in keys && forall k :: k in keys ==> m <= k;
    m
  }

  /** The oldest stamps evicted until `n` entries are left. */
  ghost function Trimmed<M>(store: map<int, M>, n: nat): map<int, M>
    decreases |store|
  {
    if |store| <= n then store
    else
      assert |store - {Least(store.Keys)}| == |store| - 1 by { Shrinks(store, Least(store.Keys)); }
      Trimmed(store - {Least(store.Keys)}, n)
  }

  lemma Shrinks<M>(store: map<int, M>, k: int)
    requires k in store
    ensures |store - {k}| == |store| - 1
  {
    assert (store - {k}).Keys == store.Keys - {k};
  }

  ghost function Joined<M>(b: Buffers<M>, n: nat, first: bool, stamp: int, msg: M): (Buffers<M>, Outcome<M>)
  {
    var store := Trimmed(Mine(b, first)[stamp := msg], n);
    var c := With(b, first, store);
    if stamp !in Mine(b, !first) then (c, Waiting)
    else if stamp in store then
      (Buffers(c.one - {stamp}, c.two - {stamp}), Matched(stamp, c.one[stamp], c.two[stamp]))
    else (c.(one := c.one - {stamp}), Missed)
  }

  // ----- the throttle

  datatype Frameset<M> = Frameset(stamp: int, one: M, two: M, at: real)

  datatype Throttle<M> = Throttle(buffers: Buffers<M>, lastPub: real, published: seq<Frameset<M>>)

  ghost function Throttled<M>(t: Throttle<M>, interval: real, first: bool, stamp: int, msg: M, now: real)
    : (Throttle<M>, Outcome<M>)
  {
    var (b, outcome) := Joined(t.buffers, THROTTLE_BUFFER, first, stamp, msg);
    if !outcome.Matched? || now - t.lastPub < interval then (t.(buffers := b), outcome)
    else (Throttle(b, now, t.published + [Frameset(stamp, outcome.one, outcome.two, now)]), outcome)
  }

  class IrPairThrottle<M> {
    var b1: map<int, M>
    var b2: map<int, M>
    var lastPub: real
    var published: seq<Frameset<M>>
    const interval: real

    constructor (rate: real)
      ensures Value() == Throttle(Buffers(map[], map[]), 0.0, [])
      ensures interval == if rate > 0.0 then 1.0 / rate else 0.0
    {
      b1, b2, lastPub, published := map[], map[], 0.0, [];
      interval := if rate > 0.0 then 1.0 / rate else 0.0;
    }

    function Value(): Throttle<M>
      reads this
    {
      Throttle(Buffers(b1, b2), lastPub, published)
    }

    method Callback(first: bool, stamp: int, msg: M, now: real) returns (outcome: Outcome<M>)
      modifies this
      ensures (Value(), outcome) == Throttled(old(Value()), interval, first, stamp, msg, now)
    {
      hide Trimmed;
      var store := if first then b1 else b2;
      store := store[stamp := msg];
      store := EvictOldest(store, THROTTLE_BUFFER);
      if first { b1 := store; } else { b2 := store; }
      var other := if first then b2 else b1;
      if stamp !in other {
        return Waiting;
      }
      if stamp !in b1 {
        assert b1 - {stamp} == b1;
        return Missed;
      }
      var m1 := b1[stamp];
      b1 := b1 - {stamp};
      if stamp !in b2 {
        return Missed;
      }
      var m2 := b2[stamp];
      b2 := b2 - {stamp};
      outcome := Matched(stamp, m1, m2);
      if now - lastPub < interval {
        return;
      }
      lastPub := now;
      published := published + [Frameset(stamp, m1, m2, now)];
    }
  }

  method EvictOldest<M>(s: map<int, M>, n: nat) returns (store: map<int, M>)
    ensures store == Trimmed(s, n)
  {
    store := s;
    while |store| > n
      invariant Trimmed(store, n) == Trimmed(s, n)
      decreases |store|
    {
      LeastExists(store.Keys);
      var m :| m in store && forall k :: k in store ==> m <= k;
      assert m == Least(store.Keys);
      Shrinks(store, m);
      store := store - {m};
    }
  }

  // ----- the relay

  datatype Relay<M> = Relay(buffers: Buffers<M>, received: nat, bytesIn: nat, latest: Option<Outcome<M>>)

  ghost function Relayed<M>(r: Relay<M>, first: bool, stamp: int, msg: M, size: nat): (Relay<M>, Outcome<M>)
  {
    var (b, outcome) := Joined(r.buffers, RELAY_BUFFER, first, stamp, msg);
    if outcome.Matched? then (Relay(b, r.received + 1, r.bytesIn + size, Some(outcome)), outcome)
    else (r.(buffers := b, bytesIn := r.bytesIn + size), outcome)
  }

  class FfsDepthRelay<M> {
    var ir1: map<int, M>
    var ir2: map<int, M>
    var received: nat
    var bytesIn: nat
    var latest: Option<Outcome<M>>

    constructor ()
      ensures Value() == Relay(Buffers(map[], map[]), 0, 0, None)
    {
      ir1, ir2, received, bytesIn, latest := map[], map[], 0, 0, None;
    }

    function Value(): Relay<M>
      reads this
    {
      Relay(Buffers(ir1, ir2), received, bytesIn, latest)
    }

    method Callback(first: bool, stamp: int, msg: M, size: nat) returns (outcome: Outcome<M>)
      modifies this
      ensures (Value(), outcome) == Relayed(old(Value()), first, stamp, msg, size)
    {
      hide Trimmed;
      bytesIn := bytesIn + size;
      var store := if first then ir1 else ir2;
      store := store[stamp := msg];
      store := EvictOldest(store, RELAY_BUFFER);
      if first { ir1 := store; } else { ir2 := store; }
      var other := if first then ir2 else ir1;
      if stamp !in other {
        return Waiting;
      }
      if stamp !in ir1 {
        assert ir1 - {stamp} == ir1;
        return Missed;
      }
      var a := ir1[stamp];
      ir1 := ir1 - {stamp};
      if stamp !in ir2 {
        return Missed;
      }
      var b := ir2[stamp];
      ir2 := ir2 - {stamp};
      received := received + 1;
      outcome := Matched(stamp, a, b);
      latest := Some(outcome);
    }
  }

  // ----- when a pop misses, whatever the stamps

  lemma TrimOne<M>(store: map<int, M>, n: nat)
    requires |store| == n + 1
    ensures Trimmed(store, n) == store - {Least(store.Keys)}
  {
    Shrinks(store, Least(store.Keys));
  }

  /** With buffers within their bound, the pop misses exactly when the stamp waits in the other buffer while its
      own buffer is full of newer stamps only. */
  lemma PopMissesIff<M>(b: Buffers<M>, n: nat, first: bool, stamp: int, msg: M)
    requires |Mine(b, first)| <= n
    ensures Joined(b, n, first, stamp, msg).1.Missed? <==>
            && stamp in Mine(b, !first)
            && |Mine(b, first)| == n
            && forall k :: k in Mine(b, first) ==> stamp < k
  {
    var mine := Mine(b, first);
    var store := mine[stamp := msg];
    assert store.Keys == mine.Keys + {stamp};
    if stamp !in mine {
      assert |store| == |mine| + 1;
      if |mine| == n { TrimOne(store, n); }
    } else {
      assert store.Keys == mine.Keys;
      assert |store| == |mine|;
    }
  }

  // ----- two increasing streams in any interleaving

  datatype Arrival<M> = Arrival(first: bool, stamp: int, msg: M, now: real)

  ghost predicate Increasing<M>(log: seq<Arrival<M>>)
  {
    forall i, j :: 0 <= i < j < |log| && log[i].first == log[j].first ==> log[i].stamp < log[j].stamp
  }

  ghost function After<M>(n: nat, log: seq<Arrival<M>>): Buffers<M>
  {
    if log == [] then Buffers(map[], map[])
    else
      var e := log[|log| - 1];
      Joined(After(n, log[..|log| - 1]), n, e.first, e.stamp, e.msg).0
  }

  /** What the `k`-th arrival led to. */
  ghost function OutcomeAt<M>(n: nat, log: seq<Arrival<M>>, k: nat): Outcome<M>
    requires k < |log|
  {
    Joined(After(n, log[..k]), n, log[k].first, log[k].stamp, log[k].msg).1
  }

  /** `msg` arrived on that stream with that stamp. */
  ghost predicate Came<M>(log: seq<Arrival<M>>, first: bool, stamp: int, msg: M)
  {
    exists i :: 0 <= i < |log| && log[i].first == first && log[i].stamp == stamp && log[i].msg == msg
  }

  ghost predicate Sound<M>(n: nat, log: seq<Arrival<M>>, b: Buffers<M>)
  {
    && |b.one| <= n && |b.two| <= n && b.one.Keys !! b.two.Keys
    && (forall k :: k in b.one ==> Came(log, true, k, b.one[k]))
    && (forall k :: k in b.two ==> Came(log, false, k, b.two[k]))
  }

  lemma CameNow<M>(log: seq<Arrival<M>>, e: Arrival<M>)
    ensures Came(log + [e], e.first, e.stamp, e.msg)
  {
    assert (log + [e])[|log|] == e;
  }

  lemma CameLater<M>(log: seq<Arrival<M>>, e: Arrival<M>, first: bool, stamp: int, msg: M)
    requires Came(log, first, stamp, msg)
    ensures Came(log + [e], first, stamp, msg)
  {
    var i :| 0 <= i < |log| && log[i].first == first && log[i].stamp == stamp && log[i].msg == msg;
    assert (log + [e])[i] == log[i];
  }

  lemma CameBefore<M>(log: seq<Arrival<M>>, e: Arrival<M>, stamp: int, msg: M)
    requires Increasing(log + [e]) && Came(log, e.first, stamp, msg)
    ensures stamp < e.stamp
  {
    var i :| 0 <= i < |log| && log[i].first == e.first && log[i].stamp == stamp && log[i].msg == msg;
    assert (log + [e])[i] == log[i] && (log + [e])[|log|] == e;
  }

  /** Trimming a full buffer that has just taken a newer stamp keeps that stamp. */
  lemma TrimKeepsNewest<M>(store: map<int, M>, n: nat, stamp: int, msg: M)
    requires n >= 1 && |store| <= n && forall k :: k in store ==> k < stamp
    ensures KeepsNewest(store, n, stamp, msg)
  {
    var grown := store[stamp := msg];
    assert grown.Keys == store.Keys + {stamp} && |grown| == |store| + 1;
    if |store| == n {
      TrimOne(grown, n);
      Shrinks(grown, Least(grown.Keys));
      assert exists k :: k in store by { assert |store.Keys| != 0; }
    }
  }

  /** One arrival: nothing is missed, and a match joins two messages of the arrival's stamp. */
  lemma JoinSound<M>(n: nat, log: seq<Arrival<M>>, b: Buffers<M>, e: Arrival<M>)
    requires n >= 1 && Sound(n, log, b) && Increasing(log + [e])
    ensures var (c, outcome) := Joined(b, n, e.first, e.stamp, e.msg);
            && Sound(n, log + [e], c) && !outcome.Missed?
            && (outcome.Matched? <==> e.stamp in Mine(b, !e.first))
            && (outcome.Matched? ==> outcome.stamp == e.stamp && Came(log + [e], true, e.stamp, outcome.one)
                                     && Came(log + [e], false, e.stamp, outcome.two))
  {
    hide Joined, KeepsNewest, Came;
    var mine := Mine(b, e.first);
    forall k | k in mine ensures k < e.stamp { CameBefore(log, e, k, mine[k]); }
    TrimKeepsNewest(mine, n, e.stamp, e.msg);
    JoinKeys(b, n, e.first, e.stamp, e.msg);
    JoinEntries(b, n, e.first, e.stamp, e.msg);
    CameNow(log, e);
    forall k | k in b.one ensures Came(log + [e], true, k, b.one[k]) { CameLater(log, e, true, k, b.one[k]); }
    forall k | k in b.two ensures Came(log + [e], false, k, b.two[k]) { CameLater(log, e, false, k, b.two[k]); }
  }

  /** The buffer of the arrival keeps its newest stamp. */
  ghost predicate KeepsNewest<M>(store: map<int, M>, n: nat, stamp: int, msg: M)
  {
    var t := Trimmed(store[stamp := msg], n);
    |t| <= n && stamp in t && t[stamp] == msg && forall k :: k in t && k != stamp ==> k in store && t[k] == store[k]
  }

  /** Sizes and keys after one arrival. */
  lemma JoinKeys<M>(b: Buffers<M>, n: nat, first: bool, stamp: int, msg: M)
    requires KeepsNewest(Mine(b, first), n, stamp, msg)
    requires |b.one| <= n && |b.two| <= n && b.one.Keys !! b.two.Keys
    ensures var c := Joined(b, n, first, stamp, msg).0; |c.one| <= n && |c.two| <= n && c.one.Keys !! c.two.Keys
  {
    hide Trimmed;
    var d := With(b, first, Trimmed(Mine(b, first)[stamp := msg], n));
    assert forall k :: k in d.one && k in d.two ==> k == stamp;
    if stamp in Mine(b, !first) {
      Shrinks(d.one, stamp);
      Shrinks(d.two, stamp);
    }
  }

  /** Where the entries of the buffers, and the halves of a match, come from. */
  lemma JoinEntries<M>(b: Buffers<M>, n: nat, first: bool, stamp: int, msg: M)
    requires KeepsNewest(Mine(b, first), n, stamp, msg)
    ensures var (c, outcome) := Joined(b, n, first, stamp, msg);
            && (forall k :: k in c.one ==>
                  (k in b.one && c.one[k] == b.one[k]) || (first && k == stamp && c.one[k] == msg))
            && (forall k :: k in c.two ==>
                  (k in b.two && c.two[k] == b.two[k]) || (!first && k == stamp && c.two[k] == msg))
            && !outcome.Missed? && (outcome.Matched? <==> stamp in Mine(b, !first))
            && (outcome.Matched? ==>
                  outcome == if first then Matched(stamp, msg, b.two[stamp]) else Matched(stamp, b.one[stamp], msg))
  {
    hide Trimmed;
  }

  /** In every interleaving of two increasing streams the buffers stay disjoint and within their bound, and
      hold messages that came. */
  lemma {:induction false} BuffersSound<M>(n: nat, log: seq<Arrival<M>>)
    requires n >= 1 && Increasing(log)
    ensures Sound(n, log, After(n, log))
  {
    if log != [] {
      var k := |log| - 1;
      assert log[..k] + [log[k]] == log;
      BuffersSound(n, log[..k]);
      JoinSound(n, log[..k], After(n, log[..k]), log[k]);
    }
  }

  /** No pop misses its key; both halves of a match came with the stamp of the arrival that completed it. */
  lemma NoPopMisses<M>(n: nat, log: seq<Arrival<M>>, k: nat)
    requires n >= 1 && Increasing(log) && k < |log|
    ensures var o := OutcomeAt(n, log, k);
            && !o.Missed?
            && (o.Matched? ==> o.stamp == log[k].stamp && Came(log[..k + 1], true, o.stamp, o.one)
                               && Came(log[..k + 1], false, o.stamp, o.two))
  {
    var before := log[..k];
    assert before + [log[k]] == log[..k + 1];
    assert Increasing(before) && Increasing(log[..k + 1]);
    BuffersSound(n, before);
    JoinSound(n, before, After(n, before), log[k]);
  }

  /** Stamps matched later are greater. */
  lemma MatchesIncrease<M>(n: nat, log: seq<Arrival<M>>, i: nat, j: nat)
    requires n >= 1 && Increasing(log) && i < j < |log|
    requires OutcomeAt(n, log, i).Matched? && OutcomeAt(n, log, j).Matched?
    ensures OutcomeAt(n, log, i).stamp < OutcomeAt(n, log, j).stamp
  {
    NoPopMisses(n, log, i);
    NoPopMisses(n, log, j);
    var o := OutcomeAt(n, log, i);
    hide OutcomeAt;
    var msg := if log[j].first then o.one else o.two;
    assert Came(log[..i + 1], log[j].first, o.stamp, msg);
    var k :| 0 <= k < i + 1 && log[..i + 1][k].first == log[j].first && log[..i + 1][k].stamp == o.stamp
             && log[..i + 1][k].msg == msg;
    assert log[k] == log[..i + 1][k];
  }

  // ----- partners that come in time meet

  /** How many messages came on the stream of arrival `i` after it and before position `k`. */
  function FollowedBy<M>(log: seq<Arrival<M>>, i: nat, k: nat): nat
    requires i < |log| && k <= |log|
  {
    if k <= i + 1 then 0 else FollowedBy(log, i, k - 1) + if log[k - 1].first == log[i].first then 1 else 0
  }

  ghost function NewerKeys<M>(store: map<int, M>, stamp: int): set<int> { set q | q in store.Keys && q > stamp }

  /** A stamp with fewer than `n` newer ones in its buffer survives the eviction for one more. */
  lemma TrimSpares<M>(store: map<int, M>, n: nat, stamp: int, msg: M, s: int)
    requires |store| <= n && s in store && (forall k :: k in store ==> k < stamp) && |NewerKeys(store, s)| + 1 < n
    ensures var t := Trimmed(store[stamp := msg], n);
            s in t && |NewerKeys(t, s)| <= |NewerKeys(store, s)| + 1
  {
    var grown := store[stamp := msg];
    assert grown.Keys == store.Keys + {stamp} && |grown| == |store| + 1;
    assert NewerKeys(grown, s) == NewerKeys(store, s) + {stamp};
    if |store| == n {
      TrimOne(grown, n);
      var least := Least(grown.Keys);
      if least == s { OldestCount(grown, s); }
      var t := grown - {least};
      Fewer(NewerKeys(t, s), NewerKeys(grown, s));
    }
  }

  lemma OldestCount<M>(store: map<int, M>, s: int)
    requires s in store && forall k :: k in store ==> s <= k
    ensures |store| == |NewerKeys(store, s)| + 1
  {
    assert store.Keys == NewerKeys(store, s) + {s};
  }

  lemma Fewer(a: set<int>, b: set<int>)
    requires a <= b
    ensures |a| <= |b|
  {
    var rest := b - a;
    assert b == a + rest;
  }

  /** What one arrival does to a stamp waiting in a buffer: its own stream adds one newer stamp at most, the
      other stream none. */
  lemma WaitStep<M>(b: Buffers<M>, n: nat, e: Arrival<M>, first: bool, s: int)
    requires s in Mine(b, first) && e.stamp != s && |Mine(b, first)| <= n
    requires e.first == first ==> |NewerKeys(Mine(b, first), s)| + 1 < n && forall k :: k in Mine(b, first) ==>
        k < e.stamp
    ensures var mine := Mine(Joined(b, n, e.first, e.stamp, e.msg).0, first);
            s in mine
            && |NewerKeys(mine, s)| <= |NewerKeys(Mine(b, first), s)| + if e.first == first then 1 else 0
  {
    var mine, mine' := Mine(b, first), Mine(Joined(b, n, e.first, e.stamp, e.msg).0, first);
    if e.first == first {
      TrimSpares(mine, n, e.stamp, e.msg, s);
      Fewer(NewerKeys(mine', s), NewerKeys(Trimmed(mine[e.stamp := e.msg], n), s));
    } else {
      Fewer(NewerKeys(mine', s), NewerKeys(mine, s));
    }
  }

  /** A message whose partner has not come, with fewer than `n` messages after it on its stream, still waits. */
  lemma {:induction false} StillWaits<M>(n: nat, log: seq<Arrival<M>>, i: nat, j: nat, k: nat)
    requires n >= 1 && Increasing(log) && i < k <= j < |log|
    requires log[i].first != log[j].first && log[i].stamp == log[j].stamp && FollowedBy(log, i, j) < n
    ensures var mine := Mine(After(n, log[..k]), log[i].first);
            log[i].stamp in mine && |NewerKeys(mine, log[i].stamp)| <= FollowedBy(log, i, k)
    decreases k
  {
    if k == i + 1 {
      FirstWait(n, log, i, j);
    } else {
      StillWaits(n, log, i, j, k - 1);
      Follows(log, i, k, j);
      hide *;
      NextWait(n, log, i, j, k);
    }
  }

  lemma NextWait<M>(n: nat, log: seq<Arrival<M>>, i: nat, j: nat, k: nat)
    requires n >= 1 && Increasing(log) && i + 1 < k <= j < |log|
    requires log[i].first != log[j].first && log[i].stamp == log[j].stamp && FollowedBy(log, i, k) < n
    requires var mine := Mine(After(n, log[..k - 1]), log[i].first);
             log[i].stamp in mine && |NewerKeys(mine, log[i].stamp)| <= FollowedBy(log, i, k - 1)
    ensures var mine := Mine(After(n, log[..k]), log[i].first);
            log[i].stamp in mine && |NewerKeys(mine, log[i].stamp)| <= FollowedBy(log, i, k)
  {
    hide Joined, Came, NewerKeys, Mine;
    var e, before := log[k - 1], log[..k - 1];
    var b := After(n, before);
    assert log[..k][..k - 1] == before && log[..k][k - 1] == e && before + [e] == log[..k];
    assert e.stamp != log[i].stamp;
    assert Increasing(before) && Increasing(before + [e]);
    BuffersSound(n, before);
    WaitingKeys(n, before, e, log[i].first);
    WaitStep(b, n, e, log[i].first, log[i].stamp);
  }

  lemma WaitingKeys<M>(n: nat, before: seq<Arrival<M>>, e: Arrival<M>, first: bool)
    requires Sound(n, before, After(n, before)) && Increasing(before + [e])
    ensures var mine := Mine(After(n, before), first);
            |mine| <= n && (e.first == first ==> forall q :: q in mine ==> q < e.stamp)
  {
    hide After, Came;
    var mine := Mine(After(n, before), first);
    forall q | e.first == first && q in mine ensures q < e.stamp { CameBefore(before, e, q, mine[q]); }
  }

  lemma {:induction false} Follows<M>(log: seq<Arrival<M>>, i: nat, k: nat, j: nat)
    requires i < k <= j < |log|
    ensures FollowedBy(log, i, k) <= FollowedBy(log, i, j)
    decreases j - k
  {
    if k < j { Follows(log, i, k, j - 1); }
  }

  /** The arrival that comes first finds nothing and is stored. */
  lemma FirstWait<M>(n: nat, log: seq<Arrival<M>>, i: nat, j: nat)
    requires n >= 1 && Increasing(log) && i < j < |log|
    requires log[i].first != log[j].first && log[i].stamp == log[j].stamp
    ensures var mine := Mine(After(n, log[..i + 1]), log[i].first);
            log[i].stamp in mine && |NewerKeys(mine, log[i].stamp)| == 0
  {
    var before, e := log[..i], log[i];
    var b := After(n, before);
    assert log[..i + 1][..i] == before && log[..i + 1][i] == e && before + [e] == log[..i + 1];
    assert Increasing(before) && Increasing(before + [e]);
    BuffersSound(n, before);
    var mine := Mine(b, e.first);
    forall q | q in mine ensures q < e.stamp { CameBefore(before, e, q, mine[q]); }
    TrimKeepsNewest(mine, n, e.stamp, e.msg);
    var other := Mine(b, !e.first);
    if e.stamp in other { LaterPartner(log, i, j, other[e.stamp]); }
    assert NewerKeys(Trimmed(mine[e.stamp := e.msg], n), e.stamp) == {};
  }

  /** The partner comes at `j` and nowhere before. */
  lemma LaterPartner<M>(log: seq<Arrival<M>>, i: nat, j: nat, msg: M)
    requires Increasing(log) && i < j < |log| && log[i].stamp == log[j].stamp
    ensures !Came(log[..i], log[j].first, log[j].stamp, msg)
  {
    forall k | 0 <= k < i && log[..i][k].first == log[j].first ensures log[..i][k].stamp != log[j].stamp {
      assert log[..i][k] == log[k];
    }
  }

  /** Two messages of one stamp are joined whenever fewer than `n` messages come between them on the stream of
      the earlier: exactly those two. */
  lemma PartnersMeet<M>(n: nat, log: seq<Arrival<M>>, i: nat, j: nat)
    requires n >= 1 && Increasing(log) && i < j < |log|
    requires log[i].first != log[j].first && log[i].stamp == log[j].stamp && FollowedBy(log, i, j) < n
    ensures OutcomeAt(n, log, j) == if log[i].first then Matched(log[j].stamp, log[i].msg, log[j].msg)
                                    else Matched(log[j].stamp, log[j].msg, log[i].msg)
  {
    StillWaits(n, log, i, j, j);
    var before, e := log[..j], log[j];
    var b := After(n, before);
    assert before + [e] == log[..j + 1];
    assert Increasing(before) && Increasing(before + [e]);
    BuffersSound(n, before);
    var mine, theirs := Mine(b, e.first), Mine(b, !e.first);
    forall q | q in mine ensures q < e.stamp { CameBefore(before, e, q, mine[q]); }
    TrimKeepsNewest(mine, n, e.stamp, e.msg);
    JoinEntries(b, n, e.first, e.stamp, e.msg);
    OnlyOne(log, i, j, theirs[e.stamp]);
  }

  lemma OnlyOne<M>(log: seq<Arrival<M>>, i: nat, j: nat, msg: M)
    requires Increasing(log) && i < j <= |log| && Came(log[..j], log[i].first, log[i].stamp, msg)
    ensures msg == log[i].msg
  {
    var k :| 0 <= k < j && log[..j][k].first == log[i].first && log[..j][k].stamp == log[i].stamp
        && log[..j][k].msg == msg;
    assert log[..j][k] == log[k];
  }

  // ----- what the throttle publishes

  ghost function ThrottleRun<M>(interval: real, log: seq<Arrival<M>>): Throttle<M>
  {
    if log == [] then Throttle(Buffers(map[], map[]), 0.0, [])
    else
      var e := log[|log| - 1];
      Throttled(ThrottleRun(interval, log[..|log| - 1]), interval, e.first, e.stamp, e.msg, e.now).0
  }

  /** Both halves came with the frameset's stamp, stamps increase, and publishes keep the interval. */
  ghost predicate Spaced<M>(interval: real, log: seq<Arrival<M>>, t: Throttle<M>)
  {
    && (forall p :: 0 <= p < |t.published| ==>
          Came(log, true, t.published[p].stamp, t.published[p].one)
              && Came(log, false, t.published[p].stamp, t.published[p].two))
    && (forall p, q :: 0 <= p < q < |t.published| ==> t.published[p].stamp < t.published[q].stamp)
    && (forall p :: 0 < p < |t.published| ==> Gap(t.published, p) >= interval)
    && (t.published != [] ==> t.lastPub == t.published[|t.published| - 1].at)
  }

  ghost function Gap<M>(published: seq<Frameset<M>>, p: nat): real
    requires 0 < p < |published|
  {
    published[p].at - published[p - 1].at
  }

  lemma PublishStep<M>(interval: real, log: seq<Arrival<M>>, t: Throttle<M>, e: Arrival<M>)
    requires Sound(THROTTLE_BUFFER, log, t.buffers) && Increasing(log + [e]) && Spaced(interval, log, t)
    ensures var t' := Throttled(t, interval, e.first, e.stamp, e.msg, e.now).0;
            t'.buffers == Joined(t.buffers, THROTTLE_BUFFER, e.first, e.stamp, e.msg).0
                && Spaced(interval, log + [e], t')
  {
    hide Joined, Came, Sound;
    JoinSound(THROTTLE_BUFFER, log, t.buffers, e);
    var (t', outcome) := Throttled(t, interval, e.first, e.stamp, e.msg, e.now);
    forall p | 0 <= p < |t.published|
      ensures t.published[p].stamp < e.stamp
              && Came(log + [e], true, t.published[p].stamp, t.published[p].one)
              && Came(log + [e], false, t.published[p].stamp, t.published[p].two)
    {
      var f := t.published[p];
      CameBefore(log, e, f.stamp, if e.first then f.one else f.two);
      CameLater(log, e, true, f.stamp, f.one);
      CameLater(log, e, false, f.stamp, f.two);
    }
    GapsKept(interval, t, t', e.now);
  }

  lemma GapsKept<M>(interval: real, t: Throttle<M>, t': Throttle<M>, now: real)
    requires forall p :: 0 < p < |t.published| ==> Gap(t.published, p) >= interval
    requires t.published != [] ==> t.lastPub == t.published[|t.published| - 1].at
    requires t'.published == t.published
             || (|t'.published| == |t.published| + 1 && t'.published[..|t.published|] == t.published
                 && t'.published[|t.published|].at == now && now - t.lastPub >= interval)
    ensures forall p :: 0 < p < |t'.published| ==> Gap(t'.published, p) >= interval
  {
    forall p | 0 < p < |t'.published| ensures Gap(t'.published, p) >= interval {
      if p < |t.published| {
        assert Gap(t.published, p) >= interval;
        assert t'.published[..|t.published|] == t.published;
        assert t'.published[p] == t.published[p] && t'.published[p - 1] == t.published[p - 1];
      } else {
        assert t'.published[..|t.published|][p - 1] == t.published[p - 1];
      }
    }
  }

  /** In every interleaving of two increasing streams, published stamps strictly increase, both halves of each
      came with its stamp, and publishes are at least one interval apart. */
  lemma {:induction false} PublishesAreSpaced<M>(interval: real, log: seq<Arrival<M>>)
    requires Increasing(log)
    ensures var t := ThrottleRun(interval, log);
            t.buffers == After(THROTTLE_BUFFER, log) && Spaced(interval, log, t)
  {
    if log != [] {
      var k := |log| - 1;
      var before := log[..k];
      assert before + [log[k]] == log;
      PublishesAreSpaced(interval, before);
      BuffersSound(THROTTLE_BUFFER, before);
      PublishStep(interval, before, ThrottleRun(interval, before), log[k]);
    }
  }

  // ----- what the relay hands on

  /** The relay after the arrivals, with the stamps its worker took; `takes[k]` says whether the worker empties
      the slot after arrival `k`. */
  ghost function RelayRun<M>(log: seq<Arrival<M>>, takes: seq<bool>): (Relay<M>, seq<int>)
    requires |log| == |takes|
  {
    if log == [] then (Relay(Buffers(map[], map[]), 0, 0, None), [])
    else
      var k := |log| - 1;
      var (r, taken) := RelayRun(log[..k], takes[..k]);
      Emptied(Relayed(r, log[k].first, log[k].stamp, log[k].msg, 0).0, taken, takes[k])
  }

  ghost function Emptied<M>(r: Relay<M>, taken: seq<int>, take: bool): (Relay<M>, seq<int>)
  {
    if take && r.latest.Some? && r.latest.value.Matched? then (r.(latest := None), taken + [r.latest.value.stamp])
    else (r, taken)
  }

  /** A stamp that came on both streams. */
  ghost predicate BothCame<M>(log: seq<Arrival<M>>, stamp: int)
  {
    (exists i :: 0 <= i < |log| && Came(log, true, stamp, log[i].msg))
        && (exists i :: 0 <= i < |log| && Came(log, false, stamp, log[i].msg))
  }

  ghost predicate Handed<M>(log: seq<Arrival<M>>, r: Relay<M>, taken: seq<int>)
  {
    && (forall p, q :: 0 <= p < q < |taken| ==> taken[p] < taken[q])
    && (forall p :: 0 <= p < |taken| ==> BothCame(log, taken[p]))
    && (r.latest.Some? ==> r.latest.value.Matched? && BothCame(log, r.latest.value.stamp))
    && (forall p :: 0 <= p < |taken| && r.latest.Some? ==> taken[p] < r.latest.value.stamp)
  }

  lemma BothStep<M>(log: seq<Arrival<M>>, e: Arrival<M>, stamp: int)
    requires Increasing(log + [e]) && BothCame(log, stamp)
    ensures stamp < e.stamp && BothCame(log + [e], stamp)
  {
    hide Came;
    var i :| 0 <= i < |log| && Came(log, true, stamp, log[i].msg);
    var j :| 0 <= j < |log| && Came(log, false, stamp, log[j].msg);
    CameBefore(log, e, stamp, if e.first then log[i].msg else log[j].msg);
    CameLater(log, e, true, stamp, log[i].msg);
    CameLater(log, e, false, stamp, log[j].msg);
    assert (log + [e])[i] == log[i] && (log + [e])[j] == log[j];
  }

  lemma RelayStep<M>(log: seq<Arrival<M>>, r: Relay<M>, taken: seq<int>, e: Arrival<M>)
    requires Sound(RELAY_BUFFER, log, r.buffers) && Increasing(log + [e]) && Handed(log, r, taken)
    ensures var r' := Relayed(r, e.first, e.stamp, e.msg, 0).0;
            Handed(log + [e], r', taken) && r'.buffers == Joined(r.buffers, RELAY_BUFFER, e.first, e.stamp, e.msg).0
  {
    hide Joined, Came, Sound, BothCame;
    JoinSound(RELAY_BUFFER, log, r.buffers, e);
    forall p | 0 <= p < |taken|
        ensures taken[p] < e.stamp && BothCame(log + [e], taken[p]) { BothStep(log, e, taken[p]); }
    if r.latest.Some? { BothStep(log, e, r.latest.value.stamp); }
    var (r', outcome) := Relayed(r, e.first, e.stamp, e.msg, 0);
    if outcome.Matched? { BothNow(log + [e], outcome); }
  }

  lemma BothNow<M>(log: seq<Arrival<M>>, outcome: Outcome<M>)
    requires outcome.Matched? && Came(log, true, outcome.stamp, outcome.one)
        && Came(log, false, outcome.stamp, outcome.two)
    ensures BothCame(log, outcome.stamp)
  {}

  lemma EmptiedHands<M>(log: seq<Arrival<M>>, r: Relay<M>, taken: seq<int>, take: bool)
    requires Handed(log, r, taken)
    ensures var (r', taken') := Emptied(r, taken, take); Handed(log, r', taken') && r'.buffers == r.buffers
  {
    hide BothCame;
  }

  /** Whenever the worker empties the slot, what it takes are matched stamps in strictly increasing order. */
  lemma {:induction false} RelayHandsOnInOrder<M>(log: seq<Arrival<M>>, takes: seq<bool>)
    requires |log| == |takes| && Increasing(log)
    ensures var (r, taken) := RelayRun(log, takes); r.buffers == After(RELAY_BUFFER, log) && Handed(log, r, taken)
  {
    if log != [] {
      hide Handed, Emptied, Relayed, Joined, Sound;
      var k := |log| - 1;
      var before, e := log[..k], log[k];
      assert before + [e] == log;
      RelayHandsOnInOrder(before, takes[..k]);
      BuffersSound(RELAY_BUFFER, before);
      var (r, taken) := RelayRun(before, takes[..k]);
      RelayStep(before, r, taken, e);
      EmptiedHands(log, Relayed(r, e.first, e.stamp, e.msg, 0).0, taken, takes[k]);
    } else {
      assert Handed<M>([], Relay(Buffers(map[], map[]), 0, 0, None), []);
    }
  }
}
