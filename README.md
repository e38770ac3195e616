# scroll-manager in Dafny

A model of the scroll observer and scroll manager of `@thalesrc/scroll-manager`.

A `ScrollObserver` watches one scroll target, which is the document or one element. It reads the target's scroll offset with a reader chosen once, at construction: `scrollTop` for an element; `window.scrollY` for the document on Microsoft Edge and Safari; `documentElement.scrollTop` for the document everywhere else.

From one shared base stream it derives these streams:
- `scroll`: positions throttled on the leading edge. `throttleBy(time)` hands out one cached stream per positive duration, and the base itself for a non-positive duration.
- `scrollEnd`: a trailing debounce.
- `scrollStart`: the position on subscription, then the first position after each settle that the debounce inside it saw.
- `scrollDirectionChange`: the direction between consecutive throttled positions, without repeats.
- `scrollingDown` and `scrollingUp`: the throttled positions, gated by the latest direction through a `switchMap`.
- `scrollPhase`: START, MID or END, without repeats.
- `remaining`: the content left below the visible box.

A `ScrollManager` keeps one observer per target. It creates each observer on first request, with the manager's throttle time, or with the observer default of 90 ms when the manager has none. `root` is the observer of the document.

Modules:
- `Rx` (rx.dfy): the stream operators the observer uses (`distinctUntilChanged`, `pairwise`, `throttleTime`, `debounceTime`) as functions of a finite history of base deliveries `seq<Sample>`. Each sample is a delivery time in ms and an offset in px. Each operator is defined delivery by delivery: what it has emitted after `h` is what it had emitted after `Init(h)`, plus what the last delivery adds. This is the operator's own state machine.
- `Surface` (surface.dfy): targets, the offset readers, and the height readers.
- `Derived` (derived.dfy): the observer's derived streams, with their characterisations.
- `Observer` (observer.dfy): the base trace, and the `ScrollObserver` class with its `_buffer` cache of throttled streams.
- `Manager` (manager.dfy): the `ScrollManager` class with its table of observers.
- `Scenarios` (scenarios.dfy): concrete traces. They include the throttle counts the observer's tests expect.

Timing conventions:
- A throttle or debounce window that ends at the same instant as a delivery closes before that delivery. So a throttle admits a position once at least `d` ms have passed since the last one it admitted. A debounce fires for a position when the next one comes at least `max(d, 0)` ms later.
- The history is followed by silence, so the last delivery always settles.

Direction on equal offsets: the code computes `prev < next ? DOWN : UP` (src/scroll-observer.ts:131), so two equal consecutive offsets count as UP. For offsets 0, 10, 10, 5, the UP event is therefore emitted at the repeated 10, not at 5. The model follows the code: see `Scenarios.RepeatedOffsetCountsAsUp`.

The throttle counts the tests expect (6, 5 and 3 for 90, 100 and 200 ms, in src/scroll-observer.spec.ts:80-82) depend on browser timing. The model reproduces them for one delivery every 10 ms from 10 ms to 500 ms (`Scenarios.Sweep`). Other equally plausible timings give other counts. For example, a first delivery at 0 ms followed by events from 20 ms gives 6 at 100 ms.

## Model

| member | source | states |
|---|---|---|
| Rx.DistinctUntilChangedBy | src/scroll-observer.ts:126 | never longer than its input; keeps the first item; emits only items of the input |
| Rx.DistinctUntilChanged | src/scroll-observer.ts:150 | never longer than its input; keeps the first item; emits only items of the input |
| Rx.DistinctHasNoRepeats | src/scroll-observer.ts:150 | `distinctUntilChanged` output never has two equal neighbours |
| Rx.DistinctKeepsLast | src/scroll-observer.ts:150 | the last output of `distinctUntilChanged` is the last input |
| Rx.DistinctOfRepeatFree | src/scroll-observer.ts:150 | on a repeat-free input, `distinctUntilChanged` changes nothing |
| Rx.DistinctIdempotent | src/scroll-observer.ts:150 | applying `distinctUntilChanged` twice is applying it once |
| Rx.DistinctStep | src/scroll-observer.ts:150 | input item i is emitted iff i is 0 or item i differs from input item i − 1, so the output is the input with every repeat of its predecessor removed |
| Rx.Pairwise | src/scroll-observer.ts:130 | nothing for fewer than two items; otherwise one pair per consecutive (previous, next) items |
| Rx.Throttle | src/scroll-observer.ts:208 | never emits more than it receives; always passes the first delivery; emits only deliveries it received |
| Rx.ThrottleSpacing | src/scroll-observer.ts:208 | for a positive duration, emitted positions are at least that far apart |
| Rx.ThrottleNonPositive | src/scroll-observer.ts:203-205 | with a non-positive duration every delivery passes, which is why `throttleBy` returns the base |
| Rx.ThrottleOfSpaced | src/scroll-observer.ts:208 | a history already spaced by the duration passes unchanged |
| Rx.ThrottleIdempotent | src/scroll-observer.ts:208 | throttling twice by the same duration is throttling once |
| Rx.ThrottleOnline | src/scroll-observer.ts:208 | what was emitted after a prefix of the deliveries is never withdrawn |
| Rx.ThrottleWindowDrops | src/scroll-observer.ts:208 | deliveries inside the window opened by an emission are all dropped |
| Rx.ThrottleWindowReopens | src/scroll-observer.ts:208 | the first delivery at or after the window's end is emitted |
| Rx.DebounceFired | src/scroll-observer.ts:123 | while deliveries arrive, fewer settles fire than deliveries |
| Rx.Debounce | src/scroll-observer.ts:123 | at most one emission per delivery; the last one carries the last delivery's offset, one wait after it |
| Rx.DebounceFiredExact | src/scroll-observer.ts:123 | a settle fires for a delivery iff the next delivery comes a full wait later |
| Rx.DebounceEmitsSettled | src/scroll-observer.ts:123 | every delivery followed by a full wait, or by silence, is emitted |
| Rx.DebounceEmitsOnlySettled | src/scroll-observer.ts:123 | every emission is a delivery followed by a full wait, or by silence |
| Rx.DebounceExact | src/scroll-observer.ts:123 | `scrollEnd` emits a delivery's position iff no further delivery arrives within the throttle time after it |
| Rx.BurstFiresNothing | src/scroll-observer.ts:123 | within a burst (each gap shorter than the wait) no settle fires |
| Rx.DebounceBurst | src/scroll-observer.ts:123 | a burst followed by silence yields exactly one end, carrying the burst's last offset |
| Surface.SelectOffsetReader | src/scroll-observer.ts:102-106 | element → `scrollTop`; document on "Microsoft Edge" or "Safari" → `window.scrollY`; any other document → `documentElement.scrollTop` (each iff) |
| Surface.ReadingsByTarget | src/scroll-observer.ts:159-182 | what `ReadOffset`, `TargetHeight` and `ScrollableHeight` read for each kind of target: for the document `innerHeight`, `body.clientHeight` and the browser's offset; for an element its `clientHeight`, `scrollHeight` and `scrollTop` |
| Surface.ReadsOnlyItsTarget | src/scroll-observer.ts:159-175 | an element observer's offset and heights depend only on its element, a document observer's only on the page |
| Derived.PhaseOf | src/scroll-observer.ts:141-148 | START iff the offset is 0 (START wins even when the content is not taller than the box); END iff non-zero and at least scrollable − target height; MID otherwise |
| Derived.PhaseMonotone | src/scroll-observer.ts:141-148 | scrolling further down never moves the phase back |
| Derived.Phases | src/scroll-observer.ts:140-149 | one phase per delivery, classified with the heights read at that delivery |
| Derived.PhaseChanges | src/scroll-observer.ts:140-150 | `scrollPhase` never repeats; is empty iff there are no deliveries; starts with the first delivery's phase, ends with the latest one's; emits only phases of some delivery |
| Derived.RemainingOf | src/scroll-observer.ts:153 | zero exactly at scrollable − target height, negative exactly past it |
| Derived.Remaining | src/scroll-observer.ts:152-153 | one value per delivery, exactly scrollable height − offset − target height, not clamped |
| Derived.RemainingAgreesWithPhase | src/scroll-observer.ts:145-153 | away from offset 0, END iff nothing remains, and MID iff something remains |
| Derived.Merged | src/scroll-observer.ts:125 | the merge starts with the first delivery and ends with the latest one |
| Derived.MovesAppend | src/scroll-observer.ts:127 | filtering out `false` distributes over concatenation |
| Derived.FromStep | src/scroll-observer.ts:123-125 | one more delivery adds one `scrollEnd` emission to the merge iff the debounce saw the delivery before it and a full wait passed, and none otherwise |
| Derived.MergedInterleaves | src/scroll-observer.ts:125-127 | the merge holds every delivery in order, plus exactly one `false` per emission of the debounce, which receives deliveries from a given index on |
| Derived.Starts | src/scroll-observer.ts:125-127 | the first delivery is always a start; never more starts than deliveries; every start is a delivery |
| Derived.TransitionsExact | src/scroll-observer.ts:125-127 | after the comparator and the filter, what remains is exactly the deliveries that are the first one or follow a full wait after a delivery the debounce saw; the collapsed merge always ends on a position |
| Derived.ScrollStart | src/scroll-observer.ts:119-127 | `scrollStart` as written: the debounce subscribes after the subscription delivery, so a start is the first delivery, or a delivery a full wait after the one before it when that one is not the subscription delivery |
| Derived.ScrollStartIntended | src/scroll-observer.ts:119-127 | a `scrollStart` whose debounce also saw the subscription delivery: the first delivery, or any delivery a full wait after the one before it |
| Derived.FirstScrollAfterQuietIsMissed | src/scroll-observer.ts:119-127 | after a quiet subscription, the first scroll is not a start as written, and is one as intended |
| Derived.AlternatesExtend | src/scroll-observer.ts:125-127 | a settle followed by a position keeps an alternation that ended on a position |
| Derived.StartsAndSettlesAlternate | src/scroll-observer.ts:125-127 | after collapsing, starts and settles alternate beginning with a start, so at most one start lies between two ends |
| Derived.DirectionOf | src/scroll-observer.ts:131 | DOWN iff the offset grew; UP iff it did not (equal offsets are UP) |
| Derived.PairDirections | src/scroll-observer.ts:129-131 | one direction per consecutive pair, in order |
| Derived.DirectionChanges | src/scroll-observer.ts:129-132 | nothing before the second throttled position; never repeats; starts with the first pair's direction; ends with the latest pair's |
| Derived.DirectionChangesAppend | src/scroll-observer.ts:129-132 | a new position emits its pair's direction iff none was emitted yet or it differs from the last one emitted; otherwise nothing is emitted |
| Derived.CurrentDirectionStep | src/scroll-observer.ts:129-132 | the announced direction changes only by a direction event; once there is one, there always is |
| Derived.InnerAfter | src/scroll-observer.ts:134-138 | an inner `scroll` subscription for a direction was made by an earlier delivery that announced that direction, and receives only what came after it |
| Derived.InnerFollowsDirection | src/scroll-observer.ts:134-138 | the inner `scroll` subscription for a direction exists iff that direction is the latest announced |
| Derived.Forwards | src/scroll-observer.ts:134-138 | a gated stream forwards a delivery only while its direction is the latest announced, before and after that delivery |
| Derived.Scrolling | src/scroll-observer.ts:134-138 | a gated stream never emits more than the base delivers, and emits only base deliveries |
| Derived.ScrollingExclusive | src/scroll-observer.ts:134-138 | `scrollingDown` and `scrollingUp` never both forward the same delivery |
| Derived.ScrollingSilentBeforeDirection | src/scroll-observer.ts:134-138 | neither gated stream emits anything before the first direction event |
| Derived.ScrollingResubscribes | src/scroll-observer.ts:134-138 | the delivery that announces a direction is not forwarded; the next one is, unless it switches again |
| Observer.ScrollBase | src/scroll-observer.ts:108-121 | one delivery on subscription plus one per native event, each carrying the offset read at that moment |
| Observer.PositionStream.constructor | src/scroll-observer.ts:208 | a stream handle records the pipeline it was built from |
| Observer.ScrollObserver.constructor | src/scroll-observer.ts:98-106 | keeps the target, browser and throttle time (90 by default); leaves exactly the `scroll` duration cached when it is positive (building `scrollDirectionChange` reads `scroll`, line 129) |
| Observer.ScrollObserver.ScrollPosition | src/scroll-observer.ts:180-182 | an element observer reads `scrollTop`; a document observer reads `window.scrollY` on Microsoft Edge and Safari and `documentElement.scrollTop` elsewhere |
| Observer.ScrollObserver.ThrottleBy | src/scroll-observer.ts:202-212 | ≤ 0: the base, cache unchanged; cached: the identical stream, cache unchanged; otherwise a new stream, added as the only new entry; in every case the stream delivers the base throttled by `time` |
| Observer.ScrollObserver.Scroll | src/scroll-observer.ts:191-193 | `throttleBy(throttleTime)`, with the same cache behaviour |
| Observer.ScrollObserver.Streams | src/scroll-observer.ts:119-153 | for the base of a subscription and a series of native events: `scroll` is spaced by the throttle time; `scrollStart` opens with the position read on subscription; direction and phase never repeat; one `remaining` per delivery; the last end carries, and the last phase classifies, the offset read at the latest instant |
| Observer.ThrottleByIsCached | src/scroll-observer.ts:207-211 | two requests for the same duration return the identical stream object |
| Manager.EffectiveThrottleTime | src/scroll-manager.ts:45 | the manager's throttle time when set, otherwise the observer default of 90 |
| Manager.ScrollManager.constructor | src/scroll-manager.ts:22-25 | starts with no observers and keeps the given throttle time |
| Manager.ScrollManager.Observe | src/scroll-manager.ts:43-48 | a stored observer is returned identically with the table unchanged; otherwise a new observer with the effective throttle time and this browser is added as the only new entry; either way the observer returned is consistent, so its `scroll` can be read |
| Manager.ScrollManager.Root | src/scroll-manager.ts:61-63 | `observe(document)` |
| Manager.ObserveThenScroll | src/scroll-manager.ts:43-48 | `observe(target).scroll` works for a new and a stored observer alike and throttles by the manager's throttle time |
| Manager.ObserveTwice | src/scroll-manager.ts:43-48 | observing a target twice yields the identical observer and adds at most that one entry |
| Manager.RootTwice | src/scroll-manager.ts:61-63 | repeated `root` reads, and `observe(document)`, yield the identical observer |
| Manager.DistinctTargetsDistinctObservers | src/scroll-manager.ts:43-48 | different targets never share an observer |
| Scenarios.SweepIsBase | src/scroll-observer.spec.ts:71-76 | a steady scroll of the document, subscribed at 10 ms with a native event every 10 ms, as the base delivers it |
| Scenarios.SweepThrottledBy90 | src/scroll-observer.spec.ts:80 | 6 positions pass the default 90 ms throttle |
| Scenarios.SweepThrottledBy100 | src/scroll-observer.spec.ts:81 | 5 positions pass a 100 ms throttle |
| Scenarios.SweepThrottledBy200 | src/scroll-observer.spec.ts:82 | 3 positions pass a 200 ms throttle |
| Scenarios.UnthrottledCountsEveryEvent | src/scroll-observer.spec.ts:115 | `throttleBy(0)` delivers one position more than there are native scroll events |
| Scenarios.PhaseSweep | src/scroll-observer.ts:140-150 | offsets 0, 100, 500, 600 with a 500 px box over 1000 px give START, MID, END |
| Scenarios.RemainingPastTheEnd | src/scroll-observer.ts:152-153 | past the end the remaining distance is negative |
| Scenarios.RepeatedOffsetCountsAsUp | src/scroll-observer.ts:131 | offsets 0, 10, 10 already give DOWN then UP |
| Scenarios.ZigzagSwitches | src/scroll-observer.ts:129-132 | which deliveries of a down-then-up trace announce a direction |
| Scenarios.ZigzagScrollingDown | src/scroll-observer.ts:134-135 | `scrollingDown` skips the announcing delivery and stops when UP is announced |
| Scenarios.ZigzagScrollingUp | src/scroll-observer.ts:137-138 | `scrollingUp` forwards only what follows the UP announcement |
| Scenarios.TwoBursts | src/scroll-observer.ts:123-127 | two bursts give two starts and two ends, each end one throttle time after its burst |
| Scenarios.QuietThenScroll | src/scroll-observer.ts:119-127 | a subscription at 0 ms and one scroll at 200 ms: `scrollStart` reports only the subscription position; the intended stream reports both |

## Left out

- Native event plumbing: adding and removing the `scroll` listener on `window` or on the element (src/scroll-observer.ts:108-118) is not modelled. The base is given by the times of the native events and the page state at each instant (`Observer.ScrollBase`).
- `share()` reference counting: listener release when the last subscriber leaves is not modelled.
- Late subscribers of the shared base: a subscriber that joins after the base is connected misses everything delivered before it, the subscription delivery included. Each public stream is described as the first subscriber of its observer's base. Two later subscriptions inside the pipelines are modelled: the `scrollEnd` branch of the merge in `scrollStart`, which joins after the merge's own base branch has received the subscription delivery, and the inner `scroll` subscription of `scrollingDown` and `scrollingUp`.
- Timers are not modelled as timers. Timing is integer milliseconds, with the ordering convention stated above. The history is followed by silence.
- Browser detection through the `platform` package is not modelled; the browser's name is an input.
- WeakMap reclamation in the manager is not modelled; the table is an ordinary map keyed by target identity.
- `scrollToElement` and `scrollTop` (src/scroll-manager.ts:80-95) are left out. They are window scrolling commands and a promise awaiting `scrollEnd`.
- The two-axis declarations under src/models are left out; they are not part of this model and carry no behaviour.
- Fractional pixel offsets and heights are not modelled; all offsets and heights are integers.
- Observer.ScrollObserver.constructor does not hold the stream objects as fields. What each public stream emits is given by `Observer.ScrollObserver.Streams` over the native events of one subscription.
- Surface.ReadOffset, Surface.TargetHeight and Surface.ScrollableHeight carry no contract of their own: each is a table lookup by kind of target, and what they read is stated by `Surface.ReadingsByTarget` and `Observer.ScrollObserver.ScrollPosition`.

## Findings

| source | as written | input that shows it | evidently intended | confidence | as-written member | corrected member |
|---|---|---|---|---|---|---|
| src/scroll-observer.ts:119-127 | `merge` subscribes to the shared base first; `startWith` delivers the subscription position synchronously to that branch alone, and the debounced branch subscribes afterwards, so its debounce never sees the subscription delivery and no `false` can separate it from the first real scroll | subscription at 0 ms at offset 0, one scroll event at 200 ms at offset 30, throttle time 90 ms: `scrollStart` emits only 0 | the scroll at 200 ms, a full throttle time after the last delivery, is reported as a start: 0, then 30 | medium, not executed | Derived.ScrollStart, Derived.FirstScrollAfterQuietIsMissed, Scenarios.QuietThenScroll | Derived.ScrollStartIntended |
