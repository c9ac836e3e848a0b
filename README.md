# SideSwipe carousel: a Dafny model of its state and geometry

`SideSwipe` (`src/carousel.js`) is a horizontally paging carousel component for
React Native. Most of the file is rendering glue around `FlatList`, `Animated`
and `PanResponder`. This project models the parts that have behaviour of their own:

- **Index/layout reconciliation** (`constructor`, `componentDidUpdate`). The
  component keeps `currentIndex` and `currentLayout` in its state. When the
  host passes an integer `index` that differs from the state, or a `layout`
  object that is not the stored one, it replaces both fields. It then queues
  one `setTimeout` callback that calls `scrollToIndex` on the list without
  animation. The callback keeps the `contentOffset` of its own update, but it
  reads `currentIndex` from the state only when it runs. Module `Reconcile`
  states this as functions on values. The event-loop queue is explicit there
  (`timers`), and running it records the calls (`scrolls`). Class
  `Carousel.SideSwipe` holds the same state as mutable fields, and its
  methods are specified by those functions.
- **Index detection** (`onViewableItemsChanged`). `onIndexChange` is called
  with the item's position only when exactly one item is viewable (module
  `Viewability`, and the `SideSwipe` method that logs the calls).
- **Item layout** (`getItemLayout`). Offsets are linear in the item's
  position (module `Geometry`). The lemmas compare them with items stacked
  one after another.
- **Scale breakpoints** (`transitionAnimation`). These are the three input
  breakpoints of each item's scale animation. The outputs 0.35 and 1 stay
  symbolic (`Shrunk`, `Full`) (module `Geometry`).
- **Default `shouldCapture`**. This is a pure predicate on the horizontal
  gesture delta (module `Gestures`).

JavaScript numbers for the `index` prop are modelled as `IndexProp`: `Absent`
(`undefined` or `null`), `Num(real)` for a finite number, or `NaN`.
`Number.isInteger` is `IsInteger`. The constructor computes `props.index || 0`,
so a fractional `index` passed at mount is stored unchanged; only
`componentDidUpdate` applies `Number.isInteger`. The `layout` prop is an opaque
identity (`LayoutRef`) compared with `==`, as `!==` compares objects.

The project has six modules, each in its own file: `Reconcile`
(`reconcile.dfy`), `Carousel` (`carousel.dfy`), `Viewability`
(`viewability.dfy`), `Geometry` (`geometry.dfy`), `Gestures`
(`gestures.dfy`) and `Wrappers` (`wrappers.dfy`, the `Option` type).

## Model

| member | source | states |
|---|---|---|
| Reconcile.Mount | src/carousel.js:51-56 | The initial state index is the `index` prop when it is a number and 0 otherwise. The layout is the `layout` prop. Nothing is queued or called, and the invariant holds. |
| Carousel.SideSwipe.constructor | src/carousel.js:48-61 | The fields are the mount state: the `index` prop, or 0 when it is falsy, and the layout. The logs are empty. The viewability threshold is 90% with `waitForInteraction` false. |
| Reconcile.IsInteger | src/carousel.js:67 | `Number.isInteger(index)`: it holds exactly when the prop is the number n for some integer n, so it is false for an absent prop, for `NaN` and for a fractional number. |
| Reconcile.Update | src/carousel.js:64-81 | `componentDidUpdate` on the values. Its contract states that the same props no longer trigger afterwards, that no `scrollToIndex` call is made synchronously, and that the queue grows by nothing or by one timer holding `contentOffset`. `UpdateOutcome` states both branches of the guard. |
| Reconcile.UpdateOutcome | src/carousel.js:64-81 | An update with an integer index that differs from the state, or with another layout object, stores both and queues exactly one timer that keeps `contentOffset`. An update with an absent, `NaN` or non-integer index changes nothing. So does one with the same index and the same layout. The queue grows by one exactly when the update triggers. |
| Carousel.SideSwipe.ComponentDidUpdate | src/carousel.js:64-81 | The new state is `Update` of the old one, so `UpdateOutcome` applies. The invariant is kept, and the `onIndexChange` log is unchanged. |
| Reconcile.UpdateIdempotent | src/carousel.js:67-69 | Applying the props of an update a second time is a no-op. |
| Reconcile.RepeatedPropsQueueOnce | src/carousel.js:67-79 | Applying the same props n ≥ 1 times gives the same result as applying them once. At most one scroll request is queued. |
| Reconcile.RunTimer | src/carousel.js:71-77 | One `setTimeout` callback runs (the call it makes is `TimerCall`). The state index and layout are unchanged. The oldest timer leaves the queue, and exactly one call is appended: the index held at run time, the timer's own `contentOffset`, and `animated: false`. With no timer pending, nothing changes. `TimersOneByOneIsFlush` relates it to `Flush`. |
| Reconcile.Flush | src/carousel.js:71-77 | All pending callbacks run with no state change between them. The queue becomes empty, and the state is unchanged. Each timer appends one call in queue order, with the current state index, its own `contentOffset` and `animated: false`; earlier calls are kept. |
| Reconcile.PendingCalls | src/carousel.js:71-77 | The pending timers make one call each, in queue order. Every call uses the state index at the moment it runs, its own captured `contentOffset` as `viewOffset`, and `animated: false`. |
| Carousel.SideSwipe.RunNextTimer | src/carousel.js:71-77 | It runs the oldest pending timer, reading `currentIndex` when it runs, and reports whether one existed. The invariant is kept. |
| Carousel.SideSwipe.Flush | src/carousel.js:71-77 | It runs every pending timer. The calls are those given by `PendingCalls` with the current state index. The queue becomes empty, and the invariant is kept. |
| Reconcile.TimersOneByOneIsFlush | src/carousel.js:71-77 | Running the pending timers one at a time makes the same calls as `Flush`. |
| Reconcile.FlushAfterRunTimer | src/carousel.js:71-77 | Running the oldest timer and then flushing makes the same calls as flushing. |
| Reconcile.LatestIndexWins | src/carousel.js:65-77 | Suppose two updates both trigger before the timers run. Then both calls scroll to the second update's index, and each uses its own update's `contentOffset`. The index held when the first call was queued is not used. |
| Reconcile.UpdateKeepsInv | src/carousel.js:67-69 | After an update, a pending timer still implies that an integer index is stored. |
| Reconcile.RunTimerKeepsInv | src/carousel.js:72-76 | A call made by a timer has an integer index and is not animated. |
| Reconcile.FlushKeepsInv | src/carousel.js:72-76 | Flushing records only non-animated calls with integer indexes. |
| Viewability.IndexChangeCalls | src/carousel.js:150-154 | One report causes at most one `onIndexChange` call. There is a call if and only if exactly one item is viewable, and it carries that item's position. |
| Carousel.SideSwipe.OnViewableItemsChanged | src/carousel.js:150-154 | The callback log grows by exactly the calls that `IndexChangeCalls` gives. The reconciliation state is unchanged. |
| Viewability.CallbackLogFromSingleReports | src/carousel.js:150-154 | Over a run of reports, there are no more calls than reports. Every call carries the position of the sole item of some report. Every report with a sole item produced a call with that position. |
| Viewability.NoSingleReportNoCallback | src/carousel.js:150-154 | If no report has exactly one item, `onIndexChange` is never called. |
| Geometry.GetItemLayout | src/carousel.js:183-187 | `getItemLayout`: offset `itemWidth * index + contentOffset`. Its contract states that the length is `itemWidth`, the index is the item's, and with a non-negative width no item at a non-negative position starts before the padding. `LayoutMatchesStacking` checks the offset against stacked items. |
| Geometry.LayoutMatchesStacking | src/carousel.js:183-187 | Item n's offset `itemWidth * n + contentOffset` equals the padding plus the lengths of the n items before it. Its length is `itemWidth`, and its index is n. |
| Geometry.ConsecutiveItemsAbut | src/carousel.js:183-187 | Consecutive offsets differ by exactly `itemWidth`, so each item starts where the previous one ends. |
| Geometry.ItemsDoNotOverlap | src/carousel.js:183-187 | With a positive width, an earlier item ends no later than a later item starts. |
| Geometry.ScaleInputRange | src/carousel.js:164-170 | There are three breakpoints, spaced `itemWidth` apart. They are strictly increasing when `itemWidth > 0`. |
| Geometry.ScaleCentreIsItemOffset | src/carousel.js:164-170 | The centre breakpoint is the item's layout offset minus `contentOffset`. |
| Geometry.NeighbourRangesInterlock | src/carousel.js:165-169 | Item i's right breakpoint is item i+1's centre, and item i's centre is item i+1's left breakpoint. |
| Geometry.BreakpointScale | src/carousel.js:164-171 | The scale output paired with the input breakpoint the scroll offset hits. It has a value exactly when the offset is one of the item's three breakpoints. With a positive width, it is full scale exactly at `index * itemWidth`. |
| Geometry.CentredItemIsFullNeighboursShrunk | src/carousel.js:164-171 | At scroll offset `k * itemWidth` (with `itemWidth > 0`), only item k is at full scale. Exactly items k-1 and k+1 are at the shrunk scale. All other items are away from their breakpoints. |
| Gestures.DefaultShouldCapture | src/carousel.js:41 | The default `shouldCapture` computes `dx * dx > 1`. Its contract states that this holds if and only if the horizontal delta is more than one unit in either direction. |
| Gestures.CaptureIsSymmetric | src/carousel.js:41 | The default `shouldCapture` gives the same answer for `dx` and `-dx`. |

## Left out

- Number representation: `itemWidth`, `contentOffset` and scroll offsets are JavaScript doubles in the source (the default `itemWidth` is the window width, which may be fractional) and `int` here, so floating-point rounding of `itemWidth * index + contentOffset` is not captured; the exact-arithmetic facts of `LayoutMatchesStacking`, `ConsecutiveItemsAbut` and `ItemsDoNotOverlap` hold for the integer model only. The gesture delta `dx` is a `real`, so `NaN` and infinite deltas are not modelled.
- Rendering: the JSX tree, styles, `Dimensions.get('window')` (the default `itemWidth`), and `initialScrollIndex`. These only configure the host list.
- `shouldCapture()` called with no argument when `scrollEnabled` is rendered (src/carousel.js:106). With the default predicate, destructuring `{ dx }` from `undefined` throws. Only the predicate as a function of `dx` is modelled.
- The values of the scale animation between and outside the breakpoints: `Animated` interpolation over floating point. React Native's default extrapolation is `extend`, so the scale is not clamped outside the input range; nothing is claimed there. `BreakpointScale` gives a value only at the three breakpoints, and only for integer scroll offsets. The `perspective: 800` entry of the transform is a constant and is not modelled.
- The `onScroll` native event binding, `scrollEventThrottle`, and `useNativeDriver`. These are animation plumbing.
- The real event loop and `setState` batching. `setState` commits at once, and its callback queues the timer. The timers run only when `RunNextTimer` or `Flush` is called.
- `getRef` and the `ref._component` unwrapping. The list is a log of `scrollToIndex` calls. A list ref that is not yet set is not modelled.
- Infinite `index` values. `Infinity || 0` would store `Infinity`, which is not an integer. `IndexProp` has only finite numbers, `NaN`, and absence.
- A `null` position in a viewability token. `ViewToken.index` is always an integer.
- The default `extractKey` key string, `shouldRelease`, `threshold`, `useVelocityForIndex`, `onEndReached`/`onEndReachedThreshold`, and `onGestureStart`/`onGestureRelease`. They are only forwarded or configured, and the component has no logic of its own for them.
