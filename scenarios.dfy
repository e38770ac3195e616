/**
 * Concrete traces worked through the model: the throttle counts of the
 * observer's tests, the phase sweep, a direction sequence with a repeated
 * offset, negative remaining distance, gating and start/end on short traces.
 */
module Scenarios {
  import opened Rx
  import opened Surface
  import opened Derived
  import opened Observer

  /** The page as it stands `t` ms into a steady scroll of one pixel per millisecond that began at 10 ms. */
  function SteadyScroll(t: int): View
  {
    View(Page(t - 10, t - 10, 500, 5000), Box(0, 50, 5000))
  }

  /** One delivery every 10 ms from 10 ms to 500 ms, the offset growing by 10 px each time. */
  function Sweep(): seq<Sample>
  {
    seq(50, k => Sample(10 + 10 * k, 10 * k))
  }

  /**
   * The sweep is what a document observer's base delivers when it subscribes
   * at 10 ms, while the page stands at offset 0, and a scroll event arrives
   * every 10 ms up to 500 ms.
   */
  lemma SweepIsBase(browser: string)
    ensures ScrollBase(SelectOffsetReader(Document, browser), 10, seq(49, k => 20 + 10 * k), SteadyScroll) == Sweep()
  {
    var h := ScrollBase(SelectOffsetReader(Document, browser), 10, seq(49, k => 20 + 10 * k), SteadyScroll);
    assert |h| == |Sweep()|;
    forall k | 0 <= k < |h|
      ensures h[k] == Sweep()[k]
    {
      if k > 0 {
        assert seq(49, j => 20 + 10 * j)[k - 1] == 10 + 10 * k;
      }
    }
  }

  /** With the default throttle time of 90 ms, the sweep lets 6 positions through. */
  lemma SweepThrottledBy90()
    ensures |Throttle(Sweep(), DefaultThrottleTime)| == 6
  {
    var h := Sweep();
    assert h[..1] == [h[0]];
    ThrottleWindowReopens(h, 90, 0, 9);
    ThrottleWindowReopens(h, 90, 9, 18);
    ThrottleWindowReopens(h, 90, 18, 27);
    ThrottleWindowReopens(h, 90, 27, 36);
    ThrottleWindowReopens(h, 90, 36, 45);
    ThrottleWindowDrops(h, 90, 45, 50);
    assert h[..50] == h;
  }

  /** With a throttle time of 100 ms, the sweep lets 5 positions through. */
  lemma SweepThrottledBy100()
    ensures |Throttle(Sweep(), 100)| == 5
  {
    var h := Sweep();
    assert h[..1] == [h[0]];
    ThrottleWindowReopens(h, 100, 0, 10);
    ThrottleWindowReopens(h, 100, 10, 20);
    ThrottleWindowReopens(h, 100, 20, 30);
    ThrottleWindowReopens(h, 100, 30, 40);
    ThrottleWindowDrops(h, 100, 40, 50);
    assert h[..50] == h;
  }

  /** With a throttle time of 200 ms, the sweep lets 3 positions through. */
  lemma SweepThrottledBy200()
    ensures |Throttle(Sweep(), 200)| == 3
  {
    var h := Sweep();
    assert h[..1] == [h[0]];
    ThrottleWindowReopens(h, 200, 0, 20);
    ThrottleWindowReopens(h, 200, 20, 40);
    ThrottleWindowDrops(h, 200, 40, 50);
    assert h[..50] == h;
  }

  /**
   * `throttleBy(0)` passes every base delivery: one more than the native
   * scroll events, the extra one being the delivery on subscription.
   */
  lemma UnthrottledCountsEveryEvent(reader: OffsetReader, subscribedAt: int, events: seq<int>, view: int -> View)
    ensures |Throttle(ScrollBase(reader, subscribedAt, events, view), 0)| == |events| + 1
  {
    ThrottleNonPositive(ScrollBase(reader, subscribedAt, events, view), 0);
  }

  /** Offsets 0, 100, 500, 600 against a 500 px box over 1000 px of content go START, MID, END. */
  lemma PhaseSweep()
    ensures PhaseChanges([Sample(0, 0), Sample(1, 100), Sample(2, 500), Sample(3, 600)], t => Extents(500, 1000)) == [START, MID, END]
  {
  }

  /** Scrolled past the end, the remaining distance is negative. */
  lemma RemainingPastTheEnd()
    ensures Remaining([Sample(0, 300), Sample(1, 600)], t => Extents(500, 1000)) == [200, -100]
  {
  }

  /** Offsets 0, 10, 10, 5: down, then up already at the repeated 10, and nothing more. */
  lemma RepeatedOffsetCountsAsUp()
    ensures DirectionChanges([Sample(0, 0), Sample(1, 10), Sample(2, 10)]) == [DOWN, UP]
    ensures DirectionChanges([Sample(0, 0), Sample(1, 10), Sample(2, 10), Sample(3, 5)]) == [DOWN, UP]
  {
  }

  /** Unthrottled offsets 0, 10, 20, 15, 5, one per millisecond. */
  function Zigzag(): seq<Sample>
  {
    [Sample(0, 0), Sample(1, 10), Sample(2, 20), Sample(3, 15), Sample(4, 5)]
  }

  /** On the zigzag, the second delivery announces DOWN and the fourth UP; the others announce nothing. */
  lemma ZigzagSwitches()
    ensures SwitchAt(Zigzag()[..1], 0) == None
    ensures SwitchAt(Zigzag()[..2], 0) == Some(DOWN)
    ensures SwitchAt(Zigzag()[..3], 0) == None
    ensures SwitchAt(Zigzag()[..4], 0) == Some(UP)
    ensures SwitchAt(Zigzag(), 0) == None
  {
    var h := Zigzag();
    ThrottleNonPositive(h[..0], 0);
    ThrottleNonPositive(h[..1], 0);
    ThrottleNonPositive(h[..2], 0);
    ThrottleNonPositive(h[..3], 0);
    ThrottleNonPositive(h[..4], 0);
    ThrottleNonPositive(h, 0);
    assert DirectionChanges(h[..1]) == [];
    assert DirectionChanges(h[..2]) == [DOWN];
    assert DirectionChanges(h[..3]) == [DOWN];
    assert DirectionChanges(h[..4]) == [DOWN, UP];
    assert DirectionChanges(h) == [DOWN, UP];
    assert Init(h[..1]) == h[..0];
    assert Init(h[..2]) == h[..1];
    assert Init(h[..3]) == h[..2];
    assert Init(h[..4]) == h[..3];
    assert Init(h) == h[..4];
  }

  /** `scrollingDown` forwards only 20: the new inner stream does not see the switching delivery 10, and 15 switches it off. */
  lemma ZigzagScrollingDown()
    ensures Scrolling(Zigzag(), 0, DOWN) == [Sample(2, 20)]
  {
    var h := Zigzag();
    ZigzagSwitches();
    assert Init(h[..2]) == h[..1];
    assert Init(h[..3]) == h[..2];
    assert Init(h[..4]) == h[..3];
    assert Init(h) == h[..4];
  }

  /** `scrollingUp` forwards only 5, the delivery after the one that announced UP. */
  lemma ZigzagScrollingUp()
    ensures Scrolling(Zigzag(), 0, UP) == [Sample(4, 5)]
  {
    var h := Zigzag();
    ZigzagSwitches();
    assert Init(h[..2]) == h[..1];
    assert Init(h[..3]) == h[..2];
    assert Init(h[..4]) == h[..3];
    assert Init(h) == h[..4];
  }

  /** Two bursts 180 ms apart with a 90 ms settle time: two starts, and two ends 90 ms after each burst. */
  lemma TwoBursts()
    ensures ScrollStart([Sample(0, 0), Sample(10, 5), Sample(20, 9), Sample(200, 30), Sample(210, 40)], 90) == [Sample(0, 0), Sample(200, 30)]
    ensures Debounce([Sample(0, 0), Sample(10, 5), Sample(20, 9), Sample(200, 30), Sample(210, 40)], 90) == [Sample(110, 9), Sample(300, 40)]
  {
    var h := [Sample(0, 0), Sample(10, 5), Sample(20, 9), Sample(200, 30), Sample(210, 40)];
    assert Init(h[..2]) == h[..1];
    assert Init(h[..3]) == h[..2];
    assert Init(h[..4]) == h[..3];
    assert Init(h) == h[..4];
    assert Starts(h[..1], 90, EndSeesFrom) == [h[0]];
    assert !StartsAt(h[..2], 90, EndSeesFrom, 1);
    assert Starts(h[..2], 90, EndSeesFrom) == [h[0]];
    assert !StartsAt(h[..3], 90, EndSeesFrom, 2);
    assert Starts(h[..3], 90, EndSeesFrom) == [h[0]];
    assert StartsAt(h[..4], 90, EndSeesFrom, 3);
    assert Starts(h[..4], 90, EndSeesFrom) == [h[0], h[3]];
    assert !StartsAt(h, 90, EndSeesFrom, 4);
  }

  /**
   * A quiet subscription at 0 ms followed by one scroll at 200 ms: `scrollStart`
   * reports only the subscription delivery, not the scroll, where a debounce
   * that also received the subscription delivery would report both.
   */
  lemma QuietThenScroll()
    ensures ScrollStart([Sample(0, 0), Sample(200, 30)], 90) == [Sample(0, 0)]
    ensures ScrollStartIntended([Sample(0, 0), Sample(200, 30)], 90) == [Sample(0, 0), Sample(200, 30)]
  {
    var h := [Sample(0, 0), Sample(200, 30)];
    FirstScrollAfterQuietIsMissed(h, 90);
    assert h[..2] == h;
  }
}
