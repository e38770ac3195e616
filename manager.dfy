/**
 * The scroll manager: one observer per target, made on first request with the
 * manager's throttle time and handed out unchanged afterwards.
 */
module Manager {
  import opened Rx
  import opened Surface
  import opened Observer

  /** The throttle time a new observer ends up with: the manager's own, or the observer's default when the manager has none. */
  function EffectiveThrottleTime(observerThrottleTime: Option<int>): (t: int)
    ensures observerThrottleTime.Some? ==> t == observerThrottleTime.value
    ensures observerThrottleTime.None? ==> t == 90
  {
    match observerThrottleTime
    case Some(time) => time
    case None => DefaultThrottleTime
  }

  class ScrollManager {
    /** The throttle time given to the constructor, if any; nothing assigns it afterwards. */
    const observerThrottleTime: Option<int>
    /** The browser's name, as the platform reports it. */
    const browser: string
    /** `_buffer`: the observer made for each target so far. */
    var observers: map<Target, ScrollObserver>

    /**
     * Each stored observer watches its own key, with this manager's throttle
     * time and browser, and is itself in a consistent state.
     */
    ghost predicate Valid()
      reads this, observers.Values
    {
      forall t :: t in observers ==>
        && observers[t].target == t
        && observers[t].throttleTime == EffectiveThrottleTime(observerThrottleTime)
        && observers[t].browser == browser
        && observers[t].Valid()
    }

    constructor (browser: string, observerThrottleTime: Option<int> := None)
      ensures Valid()
      ensures this.browser == browser && this.observerThrottleTime == observerThrottleTime
      ensures observers == map[]
    {
      this.browser := browser;
      this.observerThrottleTime := observerThrottleTime;
      observers := map[];
    }

    /**
     * `observe(target)`: the stored observer of `target`, or a new one, stored
     * under `target`, when there is none yet.
     */
    method Observe(target: Target) returns (o: ScrollObserver)
      requires Valid()
      modifies this`observers
      ensures Valid()
      ensures target in old(observers) ==> o == old(observers)[target] && observers == old(observers)
      ensures target !in old(observers) ==> fresh(o) && observers == old(observers)[target := o]
      ensures target !in old(observers) ==> o.buffer.Keys == if o.throttleTime > 0 then {o.throttleTime} else {}
      ensures o.Valid()
      ensures o.target == target && o.throttleTime == EffectiveThrottleTime(observerThrottleTime)
      ensures o.browser == browser && o.offsetReader == SelectOffsetReader(target, browser)
    {
      if target !in observers {
        var created: ScrollObserver;
        match observerThrottleTime {
          case Some(time) =>
            created := new ScrollObserver(target, browser, time);
          case None =>
            created := new ScrollObserver(target, browser);
        }
        observers := observers[target := created];
      }
      o := observers[target];
    }

    /** `root`: the observer of the document. */
    method Root() returns (o: ScrollObserver)
      requires Valid()
      modifies this`observers
      ensures Valid()
      ensures Document in old(observers) ==> o == old(observers)[Document] && observers == old(observers)
      ensures Document !in old(observers) ==> fresh(o) && observers == old(observers)[Document := o]
      ensures o.Valid()
      ensures o.target == Document && o.throttleTime == EffectiveThrottleTime(observerThrottleTime)
      ensures o.browser == browser && o.offsetReader == SelectOffsetReader(Document, browser)
    {
      o := Observe(Document);
    }
  }

  /** Observing a target twice yields the identical observer, and the table gains exactly that one entry. */
  method ObserveTwice(m: ScrollManager, target: Target) returns (first: ScrollObserver, second: ScrollObserver)
    requires m.Valid()
    modifies m
    ensures m.Valid() && first == second
    ensures m.observers == old(m.observers)[target := first]
  {
    first := m.Observe(target);
    second := m.Observe(target);
  }

  /**
   * `observe(target).scroll`: works for a new and for an already stored
   * observer alike, and hands out the stream that throttles by the
   * manager's throttle time.
   */
  method ObserveThenScroll(m: ScrollManager, target: Target) returns (o: ScrollObserver, s: PositionStream)
    requires m.Valid()
    modifies m, m.observers.Values
    ensures m.Valid() && target in m.observers && o == m.observers[target]
    ensures forall base :: s.Deliveries(base) == Throttle(base, EffectiveThrottleTime(m.observerThrottleTime))
  {
    o := m.Observe(target);
    s := o.Scroll();
  }

  /** Reading `root` twice yields the identical observer, the one `observe(document)` returns. */
  method RootTwice(m: ScrollManager) returns (first: ScrollObserver, second: ScrollObserver, document: ScrollObserver)
    requires m.Valid()
    modifies m
    ensures first == second && second == document
    ensures document.target == Document
  {
    first := m.Root();
    second := m.Root();
    document := m.Observe(Document);
  }

  /** Observers of different targets are different objects. */
  lemma DistinctTargetsDistinctObservers(m: ScrollManager, t: Target, u: Target)
    requires m.Valid() && t in m.observers && u in m.observers && t != u
    ensures m.observers[t] != m.observers[u]
  {
  }
}
