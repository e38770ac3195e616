/**
 * The RxJS operators that the scroll observer composes, modelled over a
 * finite, timestamped history of deliveries.
 *
 * A stream is a function of the deliveries it has received so far: `Op(h)` is
 * everything the operator has emitted after the deliveries `h`, defined as
 * `Op(Init(h))` plus whatever the last delivery adds. That is the operator's
 * own state machine, and it makes every stream online: what a prefix of the
 * history produced is never revised by later deliveries.
 *
 * Timers are implicit: a timer armed at `t` for `d` ms fires at `t + d`, and a
 * timer due at the same instant as a delivery fires before it.
 */
module Rx {

  datatype Option<T> = None | Some(value: T)

  /** One delivery of a position stream: when it arrived (ms) and the offset read then (px). */
  datatype Sample = Sample(time: int, offset: int)

  function Last<T>(s: seq<T>): T
    requires |s| > 0
  {
    s[|s| - 1]
  }

  function Init<T>(s: seq<T>): seq<T>
    requires |s| > 0
  {
    s[..|s| - 1]
  }

  // ---------------------------------------------------------------------------
  // distinctUntilChanged
  // ---------------------------------------------------------------------------

  /**
   * `distinctUntilChanged(same)`: the first delivery passes; a later one passes
   * unless `same(lastPassed, it)`.
   */
  function DistinctUntilChangedBy<T>(s: seq<T>, same: (T, T) -> bool): (r: seq<T>)
    ensures |r| <= |s|
    ensures |s| > 0 ==> |r| > 0 && r[0] == s[0]
    ensures forall x :: x in r ==> x in s
    decreases |s|
  {
    if |s| == 0 then []
    else
      var prior := DistinctUntilChangedBy(Init(s), same);
      if |prior| > 0 && same(Last(prior), Last(s)) then prior else prior + [Last(s)]
  }

  function Equal<T(==)>(a: T, b: T): bool
  {
    a == b
  }

  /** `distinctUntilChanged()`, comparing with `===`. */
  function DistinctUntilChanged<T(==)>(s: seq<T>): (r: seq<T>)
    ensures |r| <= |s|
    ensures |s| > 0 ==> |r| > 0 && r[0] == s[0]
    ensures forall x :: x in r ==> x in s
  {
    DistinctUntilChangedBy(s, Equal)
  }

  /** No value occurs twice in a row. */
  predicate NoRepeats<T(==)>(s: seq<T>)
  {
    forall k :: 0 < k < |s| ==> s[k - 1] != s[k]
  }

  /** `distinctUntilChanged()` never emits the same value twice in a row. */
  lemma {:induction false} DistinctHasNoRepeats<T>(s: seq<T>)
    ensures NoRepeats(DistinctUntilChanged(s))
    decreases |s|
  {
    if |s| > 0 {
      DistinctHasNoRepeats(Init(s));
    }
  }

  /** The last value emitted is the last value delivered: the stream always ends on the current value. */
  lemma DistinctKeepsLast<T>(s: seq<T>)
    requires |s| > 0
    ensures Last(DistinctUntilChanged(s)) == Last(s)
  {
  }

  /** A delivery history without repetitions passes through untouched. */
  lemma {:induction false} DistinctOfRepeatFree<T>(s: seq<T>)
    requires NoRepeats(s)
    ensures DistinctUntilChanged(s) == s
    decreases |s|
  {
    if |s| > 0 {
      assert NoRepeats(Init(s));
      DistinctOfRepeatFree(Init(s));
      if |s| > 1 {
        assert Last(Init(s)) == s[|s| - 2];
      }
      assert Init(s) + [Last(s)] == s;
    }
  }

  /** Applying `distinctUntilChanged()` twice is the same as applying it once. */
  lemma DistinctIdempotent<T>(s: seq<T>)
    ensures DistinctUntilChanged(DistinctUntilChanged(s)) == DistinctUntilChanged(s)
  {
    DistinctHasNoRepeats(s);
    DistinctOfRepeatFree(DistinctUntilChanged(s));
  }

  /**
   * Whether a delivery is emitted depends only on the input: it is emitted
   * exactly when it is the first one or differs from the delivery just
   * before it.
   */
  lemma DistinctStep<T>(s: seq<T>)
    requires |s| > 0
    ensures DistinctUntilChanged(s) == DistinctUntilChanged(Init(s)) + if |s| == 1 || s[|s| - 2] != Last(s) then [Last(s)] else []
  {
    if |s| >= 2 {
      DistinctKeepsLast(Init(s));
      assert Last(Init(s)) == s[|s| - 2];
    }
  }

  // ---------------------------------------------------------------------------
  // pairwise
  // ---------------------------------------------------------------------------

  /** `pairwise()`: from the second delivery on, each delivery emits (previous, current). */
  function Pairwise<T>(s: seq<T>): (r: seq<(T, T)>)
    ensures |r| == if |s| < 2 then 0 else |s| - 1
    ensures forall k :: 0 <= k < |r| ==> r[k] == (s[k], s[k + 1])
    decreases |s|
  {
    if |s| < 2 then [] else Pairwise(Init(s)) + [(s[|s| - 2], Last(s))]
  }

  // ---------------------------------------------------------------------------
  // throttleTime (leading edge, trailing deliveries dropped)
  // ---------------------------------------------------------------------------

  /**
   * Whether a leading-edge throttle of `d` ms that has emitted `emitted` so far
   * lets a delivery at `now` through: the first delivery always, a later one
   * once `d` ms have passed since the last one it let through. A non-positive
   * `d` stands for the unthrottled stream, which lets everything through.
   */
  predicate Opens(d: int, emitted: seq<Sample>, now: int)
  {
    d <= 0 || |emitted| == 0 || now - Last(emitted).time >= d
  }

  /**
   * The position stream throttled by `d` ms: what `throttleTime(d)` emits
   * after the deliveries `h`. Every emission is a delivery, and the first
   * delivery is always emitted.
   */
  function Throttle(h: seq<Sample>, d: int): (r: seq<Sample>)
    ensures |r| <= |h|
    ensures |h| > 0 ==> |r| > 0 && r[0] == h[0]
    ensures forall x :: x in r ==> x in h
    decreases |h|
  {
    if |h| == 0 then []
    else
      var prior := Throttle(Init(h), d);
      if Opens(d, prior, Last(h).time) then prior + [Last(h)] else prior
  }

  /** Two consecutive emissions are at least `d` ms apart. */
  predicate SpacedBy(r: seq<Sample>, d: int)
  {
    forall k :: 0 < k < |r| ==> r[k].time - r[k - 1].time >= d
  }

  /** A throttle of `d > 0` never emits two values less than `d` ms apart. */
  lemma {:induction false} ThrottleSpacing(h: seq<Sample>, d: int)
    requires d > 0
    ensures SpacedBy(Throttle(h, d), d)
    decreases |h|
  {
    if |h| > 0 {
      ThrottleSpacing(Init(h), d);
    }
  }

  /** With a non-positive duration every delivery passes: `throttleBy(0)` is the base stream. */
  lemma {:induction false} ThrottleNonPositive(h: seq<Sample>, d: int)
    requires d <= 0
    ensures Throttle(h, d) == h
    decreases |h|
  {
    if |h| > 0 {
      ThrottleNonPositive(Init(h), d);
      assert Init(h) + [Last(h)] == h;
    }
  }

  /** Deliveries already `d` ms apart pass a throttle of `d` untouched. */
  lemma {:induction false} ThrottleOfSpaced(h: seq<Sample>, d: int)
    requires SpacedBy(h, d)
    ensures Throttle(h, d) == h
    decreases |h|
  {
    if |h| > 0 {
      assert SpacedBy(Init(h), d);
      ThrottleOfSpaced(Init(h), d);
      assert Init(h) + [Last(h)] == h;
    }
  }

  /** Throttling an already throttled stream by the same duration changes nothing. */
  lemma ThrottleIdempotent(h: seq<Sample>, d: int)
    ensures Throttle(Throttle(h, d), d) == Throttle(h, d)
  {
    if d > 0 {
      ThrottleSpacing(h, d);
      ThrottleOfSpaced(Throttle(h, d), d);
    } else {
      ThrottleNonPositive(Throttle(h, d), d);
    }
  }

  /** Emissions of a prefix of the history are a prefix of the emissions: nothing is revised. */
  lemma {:induction false} ThrottleOnline(h: seq<Sample>, n: nat, d: int)
    requires n <= |h|
    ensures Throttle(h[..n], d) <= Throttle(h, d)
    decreases |h|
  {
    if n < |h| {
      assert h[..n] == Init(h)[..n];
      ThrottleOnline(Init(h), n, d);
    } else {
      assert h[..n] == h;
    }
  }

  // ---------------------------------------------------------------------------
  // One throttle window at a time
  // ---------------------------------------------------------------------------

  /**
   * After an emission of delivery `m`, every delivery less than `d` ms later
   * is dropped (not queued): the emissions stay as they were.
   */
  lemma {:induction false} ThrottleWindowDrops(h: seq<Sample>, d: int, m: nat, n: nat)
    requires d > 0 && m < n <= |h|
    requires Last(Throttle(h[..m + 1], d)) == h[m]
    requires forall i :: m < i < n ==> h[i].time - h[m].time < d
    ensures Throttle(h[..n], d) == Throttle(h[..m + 1], d)
    decreases n
  {
    if n > m + 1 {
      ThrottleWindowDrops(h, d, m, n - 1);
      assert h[..n][..n - 1] == h[..n - 1];
    }
  }

  /**
   * After an emission of delivery `m`, the first delivery at least `d` ms
   * later is emitted, and nothing between them is.
   */
  lemma ThrottleWindowReopens(h: seq<Sample>, d: int, m: nat, n: nat)
    requires d > 0 && m < n < |h|
    requires Last(Throttle(h[..m + 1], d)) == h[m]
    requires forall i :: m < i < n ==> h[i].time - h[m].time < d
    requires h[n].time - h[m].time >= d
    ensures Throttle(h[..n + 1], d) == Throttle(h[..m + 1], d) + [h[n]]
  {
    ThrottleWindowDrops(h, d, m, n);
    assert h[..n + 1][..n] == h[..n];
  }

  // ---------------------------------------------------------------------------
  // debounceTime (trailing)
  // ---------------------------------------------------------------------------

  /** How long a timer armed for `d` ms waits: never less than zero. */
  function Wait(d: int): nat
  {
    if d < 0 then 0 else d
  }

  /** Whether the debounce timer armed by `prev` fires before `next` arrives. */
  predicate Quiet(prev: Sample, next: Sample, d: int)
  {
    next.time - prev.time >= Wait(d)
  }

  /** What `debounceTime(d)` emits for a delivery it settles on: its offset, `d` ms later. */
  function Settle(x: Sample, d: int): Sample
  {
    Sample(x.time + Wait(d), x.offset)
  }

  /** What `debounceTime(d)` has emitted while the deliveries `h` arrived. */
  function DebounceFired(h: seq<Sample>, d: int): (r: seq<Sample>)
    ensures |h| > 0 ==> |r| < |h|
    decreases |h|
  {
    if |h| < 2 then []
    else
      var prior := DebounceFired(Init(h), d);
      if Quiet(h[|h| - 2], Last(h), d) then prior + [Settle(h[|h| - 2], d)] else prior
  }

  /**
   * Everything `debounceTime(d)` emits for the deliveries `h` when they are
   * followed by silence: the pending last delivery settles too, so the last
   * emission always carries the last offset.
   */
  function Debounce(h: seq<Sample>, d: int): (r: seq<Sample>)
    ensures |r| <= |h|
    ensures |h| > 0 ==> |r| > 0 && Last(r) == Settle(Last(h), d)
  {
    if |h| == 0 then [] else DebounceFired(h, d) + [Settle(Last(h), d)]
  }

  /** Delivery `i` is followed by `d` ms of quiet (the last one is followed by silence). */
  predicate Settles(h: seq<Sample>, d: int, i: int)
    requires 0 <= i < |h|
  {
    i == |h| - 1 || Quiet(h[i], h[i + 1], d)
  }

  lemma {:induction false} DebounceFiredExact(h: seq<Sample>, d: int)
    ensures forall i :: 0 <= i < |h| - 1 && Quiet(h[i], h[i + 1], d) ==> Settle(h[i], d) in DebounceFired(h, d)
    ensures forall x :: x in DebounceFired(h, d) ==>
      exists i :: 0 <= i < |h| - 1 && Quiet(h[i], h[i + 1], d) && x == Settle(h[i], d)
    decreases |h|
  {
    if |h| >= 2 {
      var p := Init(h);
      DebounceFiredExact(p, d);
      forall i | 0 <= i < |h| - 1 && Quiet(h[i], h[i + 1], d)
        ensures Settle(h[i], d) in DebounceFired(h, d)
      {
        if i < |h| - 2 {
          assert p[i] == h[i] && p[i + 1] == h[i + 1];
        }
      }
      forall x | x in DebounceFired(h, d)
        ensures exists i :: 0 <= i < |h| - 1 && Quiet(h[i], h[i + 1], d) && x == Settle(h[i], d)
      {
        if x in DebounceFired(p, d) {
          var i :| 0 <= i < |p| - 1 && Quiet(p[i], p[i + 1], d) && x == Settle(p[i], d);
          assert h[i] == p[i] && h[i + 1] == p[i + 1];
        } else {
          assert x == Settle(h[|h| - 2], d);
        }
      }
    }
  }

  /** Every delivery followed by a full wait (or by silence) is emitted by `debounceTime(d)`. */
  lemma DebounceEmitsSettled(h: seq<Sample>, d: int)
    ensures forall i :: 0 <= i < |h| && Settles(h, d, i) ==> Settle(h[i], d) in Debounce(h, d)
  {
    if |h| > 0 {
      var r := Debounce(h, d);
      assert r == DebounceFired(h, d) + [Settle(Last(h), d)];
      forall i | 0 <= i < |h| && Settles(h, d, i)
        ensures Settle(h[i], d) in r
      {
        if i < |h| - 1 {
          DebounceFiredExact(h, d);
          assert Settle(h[i], d) in DebounceFired(h, d);
        }
      }
    }
  }

  /** Everything `debounceTime(d)` emits is a delivery followed by a full wait (or by silence). */
  lemma DebounceEmitsOnlySettled(h: seq<Sample>, d: int)
    ensures forall x :: x in Debounce(h, d) ==> exists i :: 0 <= i < |h| && Settles(h, d, i) && x == Settle(h[i], d)
  {
    if |h| > 0 {
      var r := Debounce(h, d);
      assert r == DebounceFired(h, d) + [Settle(Last(h), d)];
      forall x | x in r
        ensures exists i :: 0 <= i < |h| && Settles(h, d, i) && x == Settle(h[i], d)
      {
        if x in DebounceFired(h, d) {
          DebounceFiredExact(h, d);
          var i :| 0 <= i < |h| - 1 && Quiet(h[i], h[i + 1], d) && x == Settle(h[i], d);
          assert Settles(h, d, i);
        } else {
          assert x == Settle(h[|h| - 1], d);
          assert Settles(h, d, |h| - 1);
        }
      }
    }
  }

  /**
   * `debounceTime(d)` emits delivery `i` (`d` ms later) exactly when no other
   * delivery arrives within `d` ms after it.
   */
  lemma DebounceExact(h: seq<Sample>, d: int)
    ensures forall i :: 0 <= i < |h| && Settles(h, d, i) ==> Settle(h[i], d) in Debounce(h, d)
    ensures forall x :: x in Debounce(h, d) ==> exists i :: 0 <= i < |h| && Settles(h, d, i) && x == Settle(h[i], d)
  {
    DebounceEmitsSettled(h, d);
    DebounceEmitsOnlySettled(h, d);
  }

  /** Deliveries that never leave `d` ms of quiet between them. */
  predicate Burst(h: seq<Sample>, d: int)
  {
    forall k :: 0 < k < |h| ==> !Quiet(h[k - 1], h[k], d)
  }

  lemma {:induction false} BurstFiresNothing(h: seq<Sample>, d: int)
    requires Burst(h, d)
    ensures DebounceFired(h, d) == []
    decreases |h|
  {
    if |h| >= 2 {
      assert Burst(Init(h), d);
      BurstFiresNothing(Init(h), d);
    }
  }

  /** A burst followed by silence settles exactly once, on the burst's last offset. */
  lemma DebounceBurst(h: seq<Sample>, d: int)
    requires |h| > 0 && Burst(h, d)
    ensures Debounce(h, d) == [Settle(Last(h), d)]
  {
    BurstFiresNothing(h, d);
  }
}
