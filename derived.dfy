/**
 * The streams a scroll observer derives from its base stream, each a function
 * of the base deliveries `h` (and of `d`, the observer's throttle time):
 * phase, remaining distance, settle (`scrollEnd`), movement start
 * (`scrollStart`), direction change and the two direction-gated streams.
 */
module Derived {
  import opened Rx
  import opened Surface

  datatype ScrollDirection = UP | DOWN

  datatype ScrollPhase = START | MID | END

  // ---------------------------------------------------------------------------
  // Phase
  // ---------------------------------------------------------------------------

  /**
   * The phase of an offset: `START` at offset 0, tested first; otherwise `END`
   * once the offset reaches scrollable height minus target height; `MID` in
   * between.
   */
  function PhaseOf(offset: int, e: Extents): (p: ScrollPhase)
    ensures p == START <==> offset == 0
    ensures p == END <==> offset != 0 && offset >= e.scrollableHeight - e.targetHeight
    ensures p == MID <==> offset != 0 && offset < e.scrollableHeight - e.targetHeight
  {
    if offset == 0 then START
    else if offset >= e.scrollableHeight - e.targetHeight then END
    else MID
  }

  function Rank(p: ScrollPhase): int
  {
    match p
    case START => 0
    case MID => 1
    case END => 2
  }

  /** Scrolling further never moves the phase backwards. */
  lemma PhaseMonotone(a: int, b: int, e: Extents)
    requires 0 <= a <= b
    ensures Rank(PhaseOf(a, e)) <= Rank(PhaseOf(b, e))
  {
  }

  /** The phase of each base delivery, read against the extents at its delivery. */
  function Phases(h: seq<Sample>, extents: int -> Extents): (r: seq<ScrollPhase>)
    ensures |r| == |h|
    ensures forall i :: 0 <= i < |h| ==> r[i] == PhaseOf(h[i].offset, extents(h[i].time))
    decreases |h|
  {
    if |h| == 0 then [] else Phases(Init(h), extents) + [PhaseOf(Last(h).offset, extents(Last(h).time))]
  }

  /**
   * `scrollPhase`: the phase of every unthrottled base delivery, emitted only
   * on change. It never repeats a phase, is silent only before the first
   * delivery, starts with the phase of the first delivery, always ends on the
   * phase of the latest one, and emits only phases that some delivery had.
   */
  function PhaseChanges(h: seq<Sample>, extents: int -> Extents): (r: seq<ScrollPhase>)
    ensures NoRepeats(r)
    ensures |r| == 0 <==> |h| == 0
    ensures |h| > 0 ==> r[0] == PhaseOf(h[0].offset, extents(h[0].time))
    ensures |h| > 0 ==> Last(r) == PhaseOf(Last(h).offset, extents(Last(h).time))
    ensures forall p :: p in r ==> exists i :: 0 <= i < |h| && p == PhaseOf(h[i].offset, extents(h[i].time))
  {
    var ps := Phases(h, extents);
    DistinctHasNoRepeats(ps);
    if |h| > 0 then
      DistinctKeepsLast(ps);
      DistinctUntilChanged(ps)
    else
      DistinctUntilChanged(ps)
  }

  // ---------------------------------------------------------------------------
  // Remaining
  // ---------------------------------------------------------------------------

  /**
   * Distance left to scroll: scrollable height minus offset minus target
   * height. It is not clamped: it is zero exactly at the end and negative
   * exactly past it.
   */
  function RemainingOf(offset: int, e: Extents): (r: int)
    ensures r == 0 <==> offset == e.scrollableHeight - e.targetHeight
    ensures r < 0 <==> offset > e.scrollableHeight - e.targetHeight
  {
    e.scrollableHeight - offset - e.targetHeight
  }

  /** `remaining`: one value per unthrottled base delivery, in order. */
  function Remaining(h: seq<Sample>, extents: int -> Extents): (r: seq<int>)
    ensures |r| == |h|
    ensures forall i :: 0 <= i < |h| ==> r[i] == RemainingOf(h[i].offset, extents(h[i].time))
    decreases |h|
  {
    if |h| == 0 then [] else Remaining(Init(h), extents) + [RemainingOf(Last(h).offset, extents(Last(h).time))]
  }

  /** Away from offset 0, the phase is `END` exactly when nothing (or less than nothing) remains. */
  lemma RemainingAgreesWithPhase(offset: int, e: Extents)
    requires offset != 0
    ensures PhaseOf(offset, e) == END <==> RemainingOf(offset, e) <= 0
    ensures PhaseOf(offset, e) == MID <==> RemainingOf(offset, e) > 0
  {
  }

  // ---------------------------------------------------------------------------
  // scrollStart: merge(base, scrollEnd -> false), distinctUntilChanged, filter
  // ---------------------------------------------------------------------------

  /** An item of the merge in `scrollStart`: a base delivery, or the `false` an emission of `scrollEnd` is mapped to. */
  datatype Signal = Moving(sample: Sample) | Settled

  /**
   * The first delivery that the debounce inside `scrollStart`'s merge
   * receives. The merge subscribes to the base before it subscribes to
   * `scrollEnd`, and the shared base emits its subscription delivery at once
   * and replays nothing, so that debounce never receives delivery 0.
   */
  const EndSeesFrom: nat := 1

  /**
   * Whether a `false` arrives between the last two deliveries of `h`: the
   * debounce, receiving deliveries from index `first` on, received the
   * second-to-last one and its quiet window ended before the last one.
   */
  predicate SettleBeforeLast(h: seq<Sample>, d: int, first: nat)
  {
    |h| >= 2 && |h| - 2 >= first && Quiet(h[|h| - 2], Last(h), d)
  }

  /**
   * The merge of the base with `scrollEnd` mapped to `false`, while the
   * deliveries `h` arrive, when the debounce receives deliveries from index
   * `first` on: a settle fires just before the delivery that comes after its
   * quiet window.
   */
  function Merged(h: seq<Sample>, d: int, first: nat): (r: seq<Signal>)
    ensures |h| > 0 ==> |r| > 0 && r[0] == Moving(h[0]) && Last(r) == Moving(Last(h))
    decreases |h|
  {
    if |h| == 0 then []
    else
      var settle := if SettleBeforeLast(h, d, first) then [Settled] else [];
      Merged(Init(h), d, first) + settle + [Moving(Last(h))]
  }

  /** `filter(val => val !== false)`: the positions of a merged stream. */
  function Moves(s: seq<Signal>): seq<Sample>
    decreases |s|
  {
    if |s| == 0 then []
    else Moves(Init(s)) + (if Last(s).Moving? then [Last(s).sample] else [])
  }

  lemma MovesAppend(s: seq<Signal>, t: seq<Signal>)
    ensures Moves(s + t) == Moves(s) + Moves(t)
    decreases |t|
  {
    if |t| > 0 {
      assert Init(s + t) == s + Init(t);
      MovesAppend(s, Init(t));
    } else {
      assert s + t == s;
    }
  }

  /** The deliveries a debounce receiving from index `first` on has received. */
  function From(h: seq<Sample>, first: nat): seq<Sample>
  {
    if first <= |h| then h[first..] else []
  }

  /** The debounce gains a settle from the latest delivery exactly when a `false` arrives before it. */
  lemma FromStep(h: seq<Sample>, d: int, first: nat)
    requires |h| > 0
    ensures |DebounceFired(From(h, first), d)| == |DebounceFired(From(Init(h), first), d)| + if SettleBeforeLast(h, d, first) then 1 else 0
  {
    if first < |h| {
      var t := h[first..];
      assert Init(t) == From(Init(h), first);
      if |t| >= 2 {
        assert t[|t| - 2] == h[|h| - 2] && Last(t) == Last(h);
      }
    } else {
      assert From(h, first) == [] && From(Init(h), first) == [];
    }
  }

  /**
   * The merge holds every base delivery, in order, and exactly as many
   * settles as a debounce that receives the deliveries from index `first` on
   * fires while they arrive.
   */
  lemma {:induction false} MergedInterleaves(h: seq<Sample>, d: int, first: nat)
    ensures Moves(Merged(h, d, first)) == h
    ensures |Merged(h, d, first)| == |h| + |DebounceFired(From(h, first), d)|
    decreases |h|
  {
    if |h| > 0 {
      MergedInterleaves(Init(h), d, first);
      var settle := if SettleBeforeLast(h, d, first) then [Settled] else [];
      assert Merged(h, d, first) == Merged(Init(h), d, first) + (settle + [Moving(Last(h))]);
      MovesAppend(Merged(Init(h), d, first), settle + [Moving(Last(h))]);
      MovesAppend(settle, [Moving(Last(h))]);
      assert Moves([Moving(Last(h))]) == [Last(h)];
      assert Moves(settle) == [] by {
        if settle != [] {
          assert Moves(settle) == Moves([]);
        }
      }
      assert Init(h) + [Last(h)] == h;
      FromStep(h, d, first);
    }
  }

  /** The comparator of `scrollStart`'s `distinctUntilChanged`: two positions count as equal, a `false` never does. */
  function BothMoving(x: Signal, y: Signal): bool
  {
    x.Moving? && y.Moving?
  }

  /** What survives `scrollStart`'s `distinctUntilChanged`, before the filter. */
  function Transitions(h: seq<Sample>, d: int, first: nat): seq<Signal>
  {
    DistinctUntilChangedBy(Merged(h, d, first), BothMoving)
  }

  /**
   * Delivery `i` is a start: the first delivery, or a delivery coming a full
   * wait after the one before it, provided the debounce received that one.
   */
  predicate StartsAt(h: seq<Sample>, d: int, first: nat, i: int)
    requires 0 <= i < |h|
  {
    i == 0 || (i - 1 >= first && Quiet(h[i - 1], h[i], d))
  }

  /**
   * The deliveries that are starts, in order: the first delivery always is
   * one, and a start is always one of the deliveries.
   */
  function Starts(h: seq<Sample>, d: int, first: nat): (r: seq<Sample>)
    ensures |r| <= |h|
    ensures |h| > 0 ==> |r| > 0 && r[0] == h[0]
    ensures forall x :: x in r ==> x in h
    decreases |h|
  {
    if |h| == 0 then [] else Starts(Init(h), d, first) + (if StartsAt(h, d, first, |h| - 1) then [Last(h)] else [])
  }

  /** One more item: the comparator drops it iff it matches the last item kept. */
  lemma DistinctByAppend<T>(s: seq<T>, x: T, same: (T, T) -> bool)
    ensures var prior := DistinctUntilChangedBy(s, same);
      DistinctUntilChangedBy(s + [x], same) ==
        if |prior| > 0 && same(Last(prior), x) then prior else prior + [x]
  {
    assert Init(s + [x]) == s;
  }

  /**
   * The positions surviving the merge's `distinctUntilChanged` are exactly
   * the starts; after every delivery the last surviving item is a position.
   */
  lemma {:induction false} TransitionsExact(h: seq<Sample>, d: int, first: nat)
    ensures Moves(Transitions(h, d, first)) == Starts(h, d, first)
    ensures |h| > 0 ==> |Transitions(h, d, first)| > 0 && Last(Transitions(h, d, first)).Moving?
    decreases |h|
  {
    if |h| > 0 {
      var x := Moving(Last(h));
      if |h| == 1 {
        assert Merged(h, d, first) == [x];
        assert Transitions(h, d, first) == [x];
        assert Moves([x]) == [Last(h)];
      } else {
        TransitionsExact(Init(h), d, first);
        var m := Merged(Init(h), d, first);
        var k := Transitions(Init(h), d, first);
        assert Init(h)[|h| - 2] == h[|h| - 2];
        if SettleBeforeLast(h, d, first) {
          assert Merged(h, d, first) == (m + [Settled]) + [x];
          DistinctByAppend(m, Settled, BothMoving);
          DistinctByAppend(m + [Settled], x, BothMoving);
          assert Transitions(h, d, first) == k + [Settled] + [x];
          assert Init(k + [Settled] + [x]) == k + [Settled];
          assert Init(k + [Settled]) == k;
          assert Moves(k + [Settled]) == Moves(k);
          assert Moves(k + [Settled] + [x]) == Moves(k) + [Last(h)];
          assert StartsAt(h, d, first, |h| - 1);
        } else {
          assert Merged(h, d, first) == m + [x];
          DistinctByAppend(m, x, BothMoving);
          assert Transitions(h, d, first) == k;
          assert !StartsAt(h, d, first, |h| - 1);
        }
      }
    }
  }

  /**
   * `scrollStart`: the subscription delivery, and every later delivery that
   * comes a full wait after the one before it, except the first real scroll:
   * the debounce never received the subscription delivery, so no `false`
   * separates it from the delivery after it.
   */
  function ScrollStart(h: seq<Sample>, d: int): (r: seq<Sample>)
    ensures r == Starts(h, d, EndSeesFrom)
  {
    TransitionsExact(h, d, EndSeesFrom);
    Moves(Transitions(h, d, EndSeesFrom))
  }

  /**
   * `scrollStart` as its documentation describes it, with a debounce that
   * also receives the subscription delivery: every delivery that comes a full
   * wait after the one before it is a start.
   */
  function ScrollStartIntended(h: seq<Sample>, d: int): (r: seq<Sample>)
    ensures r == Starts(h, d, 0)
  {
    TransitionsExact(h, d, 0);
    Moves(Transitions(h, d, 0))
  }

  /**
   * After a quiet subscription, the first real scroll is a start for the
   * intended stream but not for the stream as written.
   */
  lemma FirstScrollAfterQuietIsMissed(h: seq<Sample>, d: int)
    requires |h| >= 2 && Quiet(h[0], h[1], d)
    ensures ScrollStart(h[..2], d) == [h[0]]
    ensures ScrollStartIntended(h[..2], d) == [h[0], h[1]]
  {
    var p := h[..2];
    assert Init(p) == [h[0]] && Last(p) == h[1];
    assert Init([h[0]]) == [];
    assert Starts([h[0]], d, EndSeesFrom) == [h[0]];
    assert Starts([h[0]], d, 0) == [h[0]];
    assert !StartsAt(p, d, EndSeesFrom, 1);
    assert StartsAt(p, d, 0, 1);
    assert Starts(p, d, EndSeesFrom) == [h[0]];
    assert Starts(p, d, 0) == [h[0], h[1]];
  }

  /** Positions at the even places, settles at the odd ones. */
  ghost predicate Alternates(t: seq<Signal>)
  {
    forall j :: 0 <= j < |t| ==> (t[j].Moving? <==> j % 2 == 0)
  }

  /** A settle and then a position extend an alternation that ends on a position. */
  lemma AlternatesExtend(k: seq<Signal>, x: Signal)
    requires Alternates(k) && |k| % 2 == 1 && x.Moving?
    ensures Alternates(k + [Settled] + [x]) && |k + [Settled] + [x]| % 2 == 1
  {
    var t := k + [Settled] + [x];
    forall j | 0 <= j < |t|
      ensures t[j].Moving? <==> j % 2 == 0
    {
      if j < |k| {
        assert t[j] == k[j];
      }
    }
  }

  /**
   * Starts and settles alternate, beginning with a start: what survives
   * `scrollStart`'s `distinctUntilChanged` is position, settle, position, ...,
   * position, and the settle that follows once the deliveries stop continues
   * the pattern. So between two settles there is exactly one start.
   */
  lemma {:induction false} StartsAndSettlesAlternate(h: seq<Sample>, d: int, first: nat)
    ensures Alternates(Transitions(h, d, first))
    ensures |h| > 0 ==> |Transitions(h, d, first)| % 2 == 1
    decreases |h|
  {
    if |h| > 0 {
      var x := Moving(Last(h));
      if |h| == 1 {
        assert Merged(h, d, first) == [x];
        assert Transitions(h, d, first) == [x];
      } else {
        StartsAndSettlesAlternate(Init(h), d, first);
        var m := Merged(Init(h), d, first);
        var k := Transitions(Init(h), d, first);
        if SettleBeforeLast(h, d, first) {
          assert Merged(h, d, first) == (m + [Settled]) + [x];
          DistinctByAppend(m, Settled, BothMoving);
          DistinctByAppend(m + [Settled], x, BothMoving);
          assert Transitions(h, d, first) == k + [Settled] + [x];
          AlternatesExtend(k, x);
        } else {
          assert Merged(h, d, first) == m + [x];
          DistinctByAppend(m, x, BothMoving);
          assert Transitions(h, d, first) == k;
        }
      }
    }
  }

  // ---------------------------------------------------------------------------
  // Direction change
  // ---------------------------------------------------------------------------

  /** `DOWN` exactly when the offset grew; an unchanged offset counts as `UP`. */
  function DirectionOf(prev: int, next: int): (dir: ScrollDirection)
    ensures dir == DOWN <==> prev < next
    ensures dir == UP <==> next <= prev
  {
    if prev < next then DOWN else UP
  }

  /** `pairwise()` then `map`: the direction of each consecutive pair. */
  function PairDirections(s: seq<Sample>): (r: seq<ScrollDirection>)
    ensures |r| == if |s| < 2 then 0 else |s| - 1
    ensures forall k :: 0 <= k < |r| ==> r[k] == DirectionOf(s[k].offset, s[k + 1].offset)
  {
    var pairs := Pairwise(s);
    seq(|pairs|, k requires 0 <= k < |pairs| => DirectionOf(pairs[k].0.offset, pairs[k].1.offset))
  }

  /**
   * `scrollDirectionChange`, given what `scroll` delivered. Nothing is emitted
   * before the second delivery; from then on the first event is the direction
   * of the first pair, the stream never repeats a direction, and it always
   * ends on the direction of the latest pair.
   */
  function DirectionChanges(s: seq<Sample>): (r: seq<ScrollDirection>)
    ensures |s| < 2 <==> r == []
    ensures NoRepeats(r)
    ensures |s| >= 2 ==> r[0] == DirectionOf(s[0].offset, s[1].offset)
    ensures |s| >= 2 ==> Last(r) == DirectionOf(s[|s| - 2].offset, Last(s).offset)
  {
    var p := PairDirections(s);
    DistinctHasNoRepeats(p);
    if |s| >= 2 then
      DistinctKeepsLast(p);
      DistinctUntilChanged(p)
    else
      DistinctUntilChanged(p)
  }

  /**
   * One more delivery of `scroll` emits the direction of the newest pair
   * exactly when it differs from the last direction emitted (or none was),
   * and otherwise emits nothing.
   */
  lemma DirectionChangesAppend(s: seq<Sample>, x: Sample)
    ensures |s| == 0 ==> DirectionChanges(s + [x]) == []
    ensures |s| > 0 ==>
      var c := DirectionChanges(s);
      var dir := DirectionOf(Last(s).offset, x.offset);
      && (DirectionChanges(s + [x]) == c + [dir] <==> |c| == 0 || Last(c) != dir)
      && (DirectionChanges(s + [x]) != c + [dir] ==> DirectionChanges(s + [x]) == c)
  {
    if |s| > 0 {
      var p := PairDirections(s);
      var q := PairDirections(s + [x]);
      assert q == p + [DirectionOf(Last(s).offset, x.offset)];
      assert Init(q) == p;
      DistinctStep(q);
      if |p| > 0 {
        DistinctKeepsLast(p);
      }
    }
  }

  // ---------------------------------------------------------------------------
  // scrollingDown / scrollingUp: switchMap on the direction stream
  // ---------------------------------------------------------------------------

  /** The direction last announced by `scrollDirectionChange` after the base deliveries `h`. */
  function CurrentDirection(h: seq<Sample>, d: int): Option<ScrollDirection>
  {
    var c := DirectionChanges(Throttle(h, d));
    if |c| == 0 then None else Some(Last(c))
  }

  /** The direction event, if any, that the latest base delivery triggers. */
  function SwitchAt(h: seq<Sample>, d: int): Option<ScrollDirection>
    requires |h| > 0
  {
    if |DirectionChanges(Throttle(h, d))| > |DirectionChanges(Throttle(Init(h), d))| then CurrentDirection(h, d) else None
  }

  /**
   * The inner subscription of `switchMap`: none (`empty()`), or a subscription
   * to `scroll` that receives the base deliveries from index `since` on. A
   * new one is made during the delivery that announced the direction, so it
   * does not receive that delivery; an old one is dropped before the delivery
   * that announces the other direction reaches it.
   */
  datatype Inner = Unsubscribed | Subscribed(since: nat)

  /**
   * The inner subscription after the base deliveries `h`. It was made by an
   * earlier delivery announcing `want`, and receives only what came after
   * that delivery.
   */
  function InnerAfter(h: seq<Sample>, d: int, want: ScrollDirection): (inner: Inner)
    ensures inner.Subscribed? ==> 0 < inner.since <= |h| && SwitchAt(h[..inner.since], d) == Some(want)
    decreases |h|
  {
    if |h| == 0 then Unsubscribed
    else
      match SwitchAt(h, d)
      case Some(dir) =>
        if dir == want then
          assert h[..|h|] == h;
          Subscribed(|h|)
        else
          Unsubscribed
      case None =>
        var prior := InnerAfter(Init(h), d, want);
        if prior.Subscribed? then
          assert Init(h)[..prior.since] == h[..prior.since];
          prior
        else
          Unsubscribed
  }

  /**
   * Whether the latest base delivery comes out of the gated stream for
   * `want`: only while `want` is the current direction, announced by an
   * earlier delivery.
   */
  predicate Forwards(h: seq<Sample>, d: int, want: ScrollDirection)
    requires |h| > 0
    ensures Forwards(h, d, want) ==> CurrentDirection(Init(h), d) == Some(want)
    ensures Forwards(h, d, want) ==> CurrentDirection(h, d) == Some(want)
  {
    InnerFollowsDirection(Init(h), d, want);
    CurrentDirectionStep(h, d);
    && SwitchAt(h, d).None?
    && InnerAfter(Init(h), d, want).Subscribed?
    && Opens(d, Throttle(Init(h)[InnerAfter(Init(h), d, want).since..], d), Last(h).time)
  }

  /** `scrollingDown` (`want == DOWN`) or `scrollingUp` (`want == UP`) after the base deliveries `h`. */
  function Scrolling(h: seq<Sample>, d: int, want: ScrollDirection): (r: seq<Sample>)
    ensures |r| <= |h|
    ensures forall x :: x in r ==> x in h
    decreases |h|
  {
    if |h| == 0 then [] else Scrolling(Init(h), d, want) + (if Forwards(h, d, want) then [Last(h)] else [])
  }

  /** A delivery that triggers no direction event leaves the current direction as it was. */
  lemma CurrentDirectionStep(h: seq<Sample>, d: int)
    requires |h| > 0
    ensures SwitchAt(h, d).None? ==> CurrentDirection(h, d) == CurrentDirection(Init(h), d)
    ensures SwitchAt(h, d).Some? ==> CurrentDirection(h, d) == SwitchAt(h, d)
    ensures CurrentDirection(Init(h), d).Some? ==> CurrentDirection(h, d).Some?
  {
    var s := Throttle(Init(h), d);
    if Throttle(h, d) != s {
      assert Throttle(h, d) == s + [Last(h)];
      DirectionChangesAppend(s, Last(h));
    }
  }

  /** An inner subscription exists exactly while the current direction is the one it was made for. */
  lemma {:induction false} InnerFollowsDirection(h: seq<Sample>, d: int, want: ScrollDirection)
    ensures InnerAfter(h, d, want).Subscribed? <==> CurrentDirection(h, d) == Some(want)
    decreases |h|
  {
    if |h| > 0 {
      InnerFollowsDirection(Init(h), d, want);
      CurrentDirectionStep(h, d);
    }
  }

  /** `scrollingDown` and `scrollingUp` never forward the same delivery. */
  lemma ScrollingExclusive(h: seq<Sample>, d: int)
    requires |h| > 0
    ensures !(Forwards(h, d, DOWN) && Forwards(h, d, UP))
  {
  }

  /** Before the first direction event, neither gated stream has emitted anything. */
  lemma {:induction false} ScrollingSilentBeforeDirection(h: seq<Sample>, d: int, want: ScrollDirection)
    requires CurrentDirection(h, d).None?
    ensures Scrolling(h, d, want) == []
    decreases |h|
  {
    if |h| > 0 {
      CurrentDirectionStep(h, d);
      ScrollingSilentBeforeDirection(Init(h), d, want);
    }
  }

  /**
   * A switch to `want` subscribes afresh to `scroll`: the delivery announcing
   * it is not forwarded, and the next one is, unless it switches again.
   */
  lemma ScrollingResubscribes(h: seq<Sample>, d: int, want: ScrollDirection)
    requires |h| >= 2 && SwitchAt(Init(h), d) == Some(want)
    ensures !Forwards(Init(h), d, want)
    ensures SwitchAt(h, d).None? ==> Forwards(h, d, want)
  {
    assert InnerAfter(Init(h), d, want) == Subscribed(|h| - 1);
  }
}
