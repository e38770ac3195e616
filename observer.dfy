/**
 * The scroll observer of one target: its base stream, the cache of throttled
 * position streams keyed by duration, and the streams it derives.
 */
module Observer {
  import opened Rx
  import opened Surface
  import opened Derived

  /** The throttle time an observer gets when none is given. */
  const DefaultThrottleTime := 90

  /**
   * The base stream `_scrollBase` for one subscription: one delivery when it
   * subscribes (`startWith`) and one per native scroll event, each carrying
   * the offset read at the moment of delivery.
   */
  function ScrollBase(reader: OffsetReader, subscribedAt: int, events: seq<int>, view: int -> View): (h: seq<Sample>)
    ensures |h| == |events| + 1
    ensures h[0] == Sample(subscribedAt, ReadOffset(reader, view(subscribedAt)))
    ensures forall k :: 0 <= k < |events| ==> h[k + 1] == Sample(events[k], ReadOffset(reader, view(events[k])))
    decreases |events|
  {
    if |events| == 0 then [Sample(subscribedAt, ReadOffset(reader, view(subscribedAt)))]
    else ScrollBase(reader, subscribedAt, Init(events), view) + [Sample(Last(events), ReadOffset(reader, view(Last(events))))]
  }

  /** What a position stream handle is built from. */
  datatype Pipeline = Base | ThrottledBy(duration: int)

  /** A position stream handle (an `Observable<number>`); its identity is what the cache preserves. */
  class PositionStream {
    const pipeline: Pipeline

    constructor (pipeline: Pipeline)
      ensures this.pipeline == pipeline
    {
      this.pipeline := pipeline;
    }

    /** What a subscriber of this stream receives, given what the base delivers. */
    function Deliveries(base: seq<Sample>): seq<Sample>
    {
      match pipeline
      case Base => base
      case ThrottledBy(d) => Throttle(base, d)
    }
  }

  /** What each public stream of an observer emits, given the base deliveries. */
  datatype Emissions = Emissions(
    scroll: seq<Sample>,
    scrollEnd: seq<Sample>,
    scrollStart: seq<Sample>,
    scrollDirectionChange: seq<ScrollDirection>,
    scrollingDown: seq<Sample>,
    scrollingUp: seq<Sample>,
    scrollPhase: seq<ScrollPhase>,
    remaining: seq<int>)

  class ScrollObserver {
    const target: Target
    /** The browser's name, as the platform reports it. */
    const browser: string
    const throttleTime: int
    /** `scrollPositionGetter`, fixed at construction from the target and the browser. */
    const offsetReader: OffsetReader := SelectOffsetReader(target, browser)
    /** `_scrollBase`. */
    const scrollBase: PositionStream
    /** `_buffer`: the throttled streams handed out so far, by duration. */
    var buffer: map<int, PositionStream>

    ghost predicate Valid()
      reads this
    {
      && scrollBase.pipeline == Base
      && forall time :: time in buffer ==> time > 0 && buffer[time].pipeline == ThrottledBy(time)
    }

    /**
     * Fixes the offset reader and builds the streams. Building
     * `scrollDirectionChange` reads `scroll`, so a positive throttle time
     * already has its cache entry when construction ends.
     */
    constructor (target: Target, browser: string, throttleTime: int := DefaultThrottleTime)
      ensures Valid()
      ensures this.target == target && this.browser == browser && this.throttleTime == throttleTime
      ensures buffer.Keys == if throttleTime > 0 then {throttleTime} else {}
    {
      this.target := target;
      this.browser := browser;
      this.throttleTime := throttleTime;
      scrollBase := new PositionStream(Base);
      buffer := map[];
      new;
      var scroll := Scroll();
    }

    /**
     * `throttleBy(time)`: the base itself for a non-positive time; otherwise
     * the cached stream for `time`, made and stored only on the first request.
     */
    method ThrottleBy(time: int) returns (s: PositionStream)
      requires Valid()
      modifies this`buffer
      ensures Valid()
      ensures time <= 0 ==> s == scrollBase && buffer == old(buffer)
      ensures time > 0 && time in old(buffer) ==> s == old(buffer)[time] && buffer == old(buffer)
      ensures time > 0 && time !in old(buffer) ==> fresh(s) && buffer == old(buffer)[time := s]
      ensures forall base :: s.Deliveries(base) == Throttle(base, time)
    {
      if time <= 0 {
        forall base: seq<Sample>
          ensures scrollBase.Deliveries(base) == Throttle(base, time)
        {
          ThrottleNonPositive(base, time);
        }
        return scrollBase;
      }
      if time !in buffer {
        var stream := new PositionStream(ThrottledBy(time));
        buffer := buffer[time := stream];
      }
      s := buffer[time];
    }

    /** `scroll`: `throttleBy(throttleTime)`. */
    method Scroll() returns (s: PositionStream)
      requires Valid()
      modifies this`buffer
      ensures Valid()
      ensures throttleTime <= 0 ==> s == scrollBase && buffer == old(buffer)
      ensures throttleTime > 0 && throttleTime in old(buffer) ==> s == old(buffer)[throttleTime] && buffer == old(buffer)
      ensures throttleTime > 0 && throttleTime !in old(buffer) ==> fresh(s) && buffer == old(buffer)[throttleTime := s]
      ensures forall base :: s.Deliveries(base) == Throttle(base, throttleTime)
    {
      s := ThrottleBy(throttleTime);
    }

    /**
     * `scrollPosition`: an element's `scrollTop`; for the document,
     * `window.scrollY` on Microsoft Edge and Safari and
     * `documentElement.scrollTop` on every other browser.
     */
    function ScrollPosition(v: View): (offset: int)
      ensures target.Element? ==> offset == v.element.scrollTop
      ensures target.Document? && (browser == "Microsoft Edge" || browser == "Safari") ==> offset == v.page.scrollY
      ensures target.Document? && browser != "Microsoft Edge" && browser != "Safari" ==> offset == v.page.documentElementScrollTop
    {
      ReadOffset(offsetReader, v)
    }

    /** The heights this observer reads at each instant. */
    function ExtentsAt(view: int -> View): int -> Extents
    {
      t => ExtentsOf(target, view(t))
    }

    /**
     * What the public streams emit when the base subscribes at `subscribedAt`
     * and native scroll events arrive at the instants `events`, with the page
     * and element as `view` shows them at each instant: `scroll` is throttled
     * by `throttleTime`, `scrollStart` opens with the position read on
     * subscription, direction and phase never repeat, there is one
     * `remaining` value per delivery, and `scrollEnd` and `scrollPhase`
     * settle on what is read at the latest instant.
     */
    function Streams(subscribedAt: int, events: seq<int>, view: int -> View): (e: Emissions)
      ensures throttleTime > 0 ==> SpacedBy(e.scroll, throttleTime)
      ensures |e.scrollStart| > 0 && e.scrollStart[0] == Sample(subscribedAt, ScrollPosition(view(subscribedAt)))
      ensures NoRepeats(e.scrollDirectionChange) && NoRepeats(e.scrollPhase)
      ensures |e.remaining| == |events| + 1
      ensures var t := LatestInstant(subscribedAt, events);
        && |e.scrollEnd| > 0 && Last(e.scrollEnd).offset == ScrollPosition(view(t))
        && |e.scrollPhase| > 0 && Last(e.scrollPhase) == PhaseOf(ScrollPosition(view(t)), ExtentsOf(target, view(t)))
    {
      var h := ScrollBase(offsetReader, subscribedAt, events, view);
      var extents := ExtentsAt(view);
      var scroll := Throttle(h, throttleTime);
      var e := Emissions(
        scroll,
        Debounce(h, throttleTime),
        ScrollStart(h, throttleTime),
        DirectionChanges(scroll),
        Scrolling(h, throttleTime, DOWN),
        Scrolling(h, throttleTime, UP),
        PhaseChanges(h, extents),
        Remaining(h, extents));
      if throttleTime > 0 then ThrottleSpacing(h, throttleTime); e else e
    }
  }

  /** The instant of the latest base delivery: the last scroll event, or the subscription when there was none. */
  function LatestInstant(subscribedAt: int, events: seq<int>): int
  {
    if |events| == 0 then subscribedAt else Last(events)
  }

  /** Asking twice for the same duration hands out the identical stream object. */
  method ThrottleByIsCached(o: ScrollObserver, time: int) returns (first: PositionStream, second: PositionStream)
    requires o.Valid()
    modifies o
    ensures o.Valid() && first == second
  {
    first := o.ThrottleBy(time);
    second := o.ThrottleBy(time);
  }
}
