/**
 * The `SideSwipe` component's own state and the handlers that change it.
 *
 * The component state (`currentIndex`, `currentLayout`) is updated in place,
 * as `setState` does; the `setTimeout` callbacks it schedules wait in
 * `timers` until the event loop runs them (`RunNextTimer`, `Flush`); the
 * `scrollToIndex` calls they make on the list and the `onIndexChange` calls
 * are logged in `scrolls` and `indexChanges`. Every state change is specified
 * by the functions of module Reconcile, whose lemmas state what it promises.
 */
module Carousel {
  import opened Reconcile
  import opened Viewability

  class SideSwipe {
    var currentIndex: real
    var currentLayout: LayoutRef
    /** The `contentOffset` each pending `setTimeout` callback captured, oldest first. */
    var timers: seq<int>
    /** Every `scrollToIndex` call made on the list. */
    var scrolls: seq<ScrollCall>
    /** Every argument passed to `onIndexChange`. */
    var indexChanges: seq<int>
    /** The viewability configuration handed to the list. */
    const itemVisiblePercentThreshold: int
    const waitForInteraction: bool

    /** The reconciliation state, as a value. */
    function Snapshot(): Model
      reads this
    {
      Model(currentIndex, currentLayout, timers, scrolls)
    }

    predicate Valid()
      reads this
    {
      Inv(Snapshot())
    }

    constructor (props: Props)
      ensures Valid()
      ensures Snapshot() == Mount(props)
      ensures currentIndex == (if props.index.Num? then props.index.value else 0.0)
      ensures currentLayout == props.layout && timers == [] && scrolls == []
      ensures indexChanges == []
      ensures itemVisiblePercentThreshold == 90 && !waitForInteraction
    {
      currentIndex := if props.index.Num? && props.index.value != 0.0 then props.index.value else 0.0;
      currentLayout := props.layout;
      timers := [];
      scrolls := [];
      indexChanges := [];
      itemVisiblePercentThreshold := 90;
      waitForInteraction := false;
    }

    /**
     * `componentDidUpdate`: on an integer `index` that differs from the state,
     * or a different `layout` object, commit both, then schedule one
     * non-animated scroll for the next turn of the event loop.
     */
    method ComponentDidUpdate(props: Props)
      requires Valid()
      modifies this
      ensures Valid()
      ensures Snapshot() == Update(old(Snapshot()), props)
      ensures indexChanges == old(indexChanges)
    {
      if IsInteger(props.index) && (props.index.value != currentIndex || props.layout != currentLayout) {
        currentIndex, currentLayout := props.index.value, props.layout;
        timers := timers + [props.contentOffset];
      }
    }

    /** One turn of the event loop: the oldest pending timer, if any, scrolls the list. */
    method RunNextTimer() returns (ran: bool)
      requires Valid()
      modifies this
      ensures Valid()
      ensures ran <==> old(timers) != []
      ensures Snapshot() == RunTimer(old(Snapshot()))
      ensures indexChanges == old(indexChanges)
    {
      ran := timers != [];
      if ran {
        var viewOffset := timers[0];
        timers := timers[1..];
        scrolls := scrolls + [TimerCall(currentIndex, viewOffset)];
      }
    }

    /** Every pending timer runs, each reading the state index as it is now. */
    method Flush()
      requires Valid()
      modifies this
      ensures Valid()
      ensures Snapshot() == Reconcile.Flush(old(Snapshot()))
      ensures scrolls == old(scrolls) + PendingCalls(currentIndex, old(timers))
      ensures indexChanges == old(indexChanges)
    {
      FlushKeepsInv(Snapshot());
      scrolls := scrolls + PendingCalls(currentIndex, timers);
      timers := [];
    }

    /** `onViewableItemsChanged`: report a new index only when exactly one item is viewable. */
    method OnViewableItemsChanged(viewableItems: seq<ViewToken>)
      modifies this
      ensures indexChanges == old(indexChanges) + IndexChangeCalls(viewableItems)
      ensures Snapshot() == old(Snapshot())
    {
      if |viewableItems| == 1 {
        indexChanges := indexChanges + [viewableItems[0].index];
      }
    }
  }

  /**
   * A carousel mounted without an `index`, then given
   * `index = 3`: one re-render repeats the props, and the event loop then
   * runs once.
   */
  method IndexPropScenario()
  {
    var carousel := new SideSwipe(Props(Absent, Ref(1), 0));
    assert carousel.currentIndex == 0.0;
    carousel.ComponentDidUpdate(Props(Num(3.0), Ref(1), 0));
    carousel.ComponentDidUpdate(Props(Num(3.0), Ref(1), 0));
    carousel.Flush();
    assert carousel.scrolls == [ScrollCall(3.0, 0, false)];
    carousel.OnViewableItemsChanged([ViewToken(3)]);
    carousel.OnViewableItemsChanged([ViewToken(3), ViewToken(4)]);
    assert carousel.indexChanges == [3];
  }
}
