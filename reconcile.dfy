/**
 * Index/layout reconciliation, as values.
 *
 * The carousel keeps `currentIndex` and `currentLayout` in its state. After
 * every prop update it compares them with the `index` and `layout` props;
 * on a difference it replaces both and, once the state is committed, queues
 * a `setTimeout` callback that calls `scrollToIndex` on the list. The queue of
 * pending callbacks is explicit here (`timers`), and running it produces the
 * recorded `scrollToIndex` calls (`scrolls`). The callback closes over the
 * `contentOffset` prop of its update, but reads `currentIndex` from the state
 * only when it runs.
 */
module Reconcile {

  /**
   * The `index` prop as a JavaScript value: not supplied (`undefined` or
   * `null`), a finite number, or `NaN`.
   */
  datatype IndexProp = Absent | Num(value: real) | NaN

  /** The identity of the `layout` prop object; two props are the same object iff equal. */
  datatype LayoutRef = Undefined | Ref(id: nat)

  /** The props reconciliation reads. */
  datatype Props = Props(index: IndexProp, layout: LayoutRef, contentOffset: int)

  /** One `scrollToIndex` call made on the list. */
  datatype ScrollCall = ScrollCall(index: real, viewOffset: int, animated: bool)

  /**
   * The reconciliation state: the component state, the `contentOffset` each
   * pending timer callback captured (oldest first), and the calls made so far.
   */
  datatype Model = Model(currentIndex: real, currentLayout: LayoutRef, timers: seq<int>, scrolls: seq<ScrollCall>)

  /** `Number.isInteger` on a finite number. */
  predicate IsWhole(x: real)
  {
    x.Floor as real == x
  }

  /** An `index` prop holding the integer `n`. */
  function IntIndex(n: int): IndexProp
  {
    Num(n as real)
  }

  /** `Number.isInteger(index)`: true exactly for integer numbers, so false when absent or `NaN`. */
  predicate IsInteger(p: IndexProp)
    ensures IsInteger(p) <==> exists n: int :: p == IntIndex(n)
  {
    match p
    case Num(v) =>
      assert IsWhole(v) ==> p == IntIndex(v.Floor);
      IsWhole(v)
    case _ => false
  }

  /**
   * What the model keeps true: a queued timer exists only after an integer
   * index was stored, and every call made so far carried an integer index
   * and was not animated.
   */
  predicate Inv(m: Model)
  {
    (m.timers != [] ==> IsWhole(m.currentIndex)) &&
    forall k :: 0 <= k < |m.scrolls| ==> IsWhole(m.scrolls[k].index) && !m.scrolls[k].animated
  }

  /** Mounting: `props.index || 0` and the `layout` prop; nothing queued, nothing called. */
  function Mount(p: Props): (m: Model)
    ensures p.index.Num? ==> m.currentIndex == p.index.value
    ensures !p.index.Num? ==> m.currentIndex == 0.0
    ensures m.currentLayout == p.layout
    ensures m.timers == [] && m.scrolls == []
    ensures Inv(m)
  {
    var currentIndex := if p.index.Num? && p.index.value != 0.0 then p.index.value else 0.0;
    Model(currentIndex, p.layout, [], [])
  }

  /** Whether an update with props `p` changes the state. */
  predicate Triggers(m: Model, p: Props)
  {
    IsInteger(p.index) && (p.index.value != m.currentIndex || p.layout != m.currentLayout)
  }

  /** `componentDidUpdate`: store the new index and layout, then queue one timer. */
  function Update(m: Model, p: Props): (r: Model)
    ensures !Triggers(r, p)
    ensures r.scrolls == m.scrolls
    ensures r.timers == m.timers || r.timers == m.timers + [p.contentOffset]
  {
    if Triggers(m, p) then
      Model(p.index.value, p.layout, m.timers + [p.contentOffset], m.scrolls)
    else
      m
  }

  /** The call a timer makes when it runs: the index held in the state at that moment. */
  function TimerCall(currentIndex: real, viewOffset: int): ScrollCall
  {
    ScrollCall(currentIndex, viewOffset, false)
  }

  /** Running the oldest pending timer, if there is one. */
  function RunTimer(m: Model): (r: Model)
    ensures r.currentIndex == m.currentIndex && r.currentLayout == m.currentLayout
    ensures |r.timers| + |r.scrolls| == |m.timers| + |m.scrolls|
    ensures m.timers != [] ==> r.timers == m.timers[1..] && r.scrolls[..|m.scrolls|] == m.scrolls
    ensures m.timers != [] ==> r.scrolls[|m.scrolls|] == ScrollCall(m.currentIndex, m.timers[0], false)
    ensures m.timers == [] ==> r == m
  {
    if m.timers == [] then m
    else Model(m.currentIndex, m.currentLayout, m.timers[1..], m.scrolls + [TimerCall(m.currentIndex, m.timers[0])])
  }

  /** The calls that the timers `timers` make when they all run with the state index `currentIndex`. */
  function PendingCalls(currentIndex: real, timers: seq<int>): (calls: seq<ScrollCall>)
    ensures |calls| == |timers|
    ensures forall k :: 0 <= k < |calls| ==>
              calls[k].index == currentIndex && calls[k].viewOffset == timers[k] && !calls[k].animated
  {
    if timers == [] then []
    else [TimerCall(currentIndex, timers[0])] + PendingCalls(currentIndex, timers[1..])
  }

  /** Running every pending timer, with no state change in between. */
  function Flush(m: Model): (r: Model)
    ensures r.currentIndex == m.currentIndex && r.currentLayout == m.currentLayout
    ensures r.timers == []
    ensures |r.scrolls| == |m.scrolls| + |m.timers| && r.scrolls[..|m.scrolls|] == m.scrolls
    ensures forall k :: |m.scrolls| <= k < |r.scrolls| ==>
              r.scrolls[k] == ScrollCall(m.currentIndex, m.timers[k - |m.scrolls|], false)
  {
    Model(m.currentIndex, m.currentLayout, [], m.scrolls + PendingCalls(m.currentIndex, m.timers))
  }

  /** Running `n` timers one after another. */
  function RunTimers(m: Model, n: nat): Model
    decreases n
  {
    if n == 0 then m else RunTimers(RunTimer(m), n - 1)
  }

  /** The same props applied `n` times in a row, as the re-render after `setState` does. */
  function Repeat(m: Model, p: Props, n: nat): Model
  {
    if n == 0 then m else Update(Repeat(m, p, n - 1), p)
  }

  /**
   * An update either stores the integer index and the layout and queues
   * exactly one timer capturing `contentOffset`, or changes nothing; it does
   * the former exactly when the index is an integer that differs from the
   * state, or the layout is a different object.
   */
  lemma UpdateOutcome(m: Model, p: Props)
    ensures Triggers(m, p) ==>
              Update(m, p).currentIndex == p.index.value && Update(m, p).currentLayout == p.layout &&
              Update(m, p).timers == m.timers + [p.contentOffset] && Update(m, p).scrolls == m.scrolls
    ensures !IsInteger(p.index) ==> Update(m, p) == m
    ensures p.index == Num(m.currentIndex) && p.layout == m.currentLayout ==> Update(m, p) == m
    ensures |Update(m, p).timers| == |m.timers| + (if Triggers(m, p) then 1 else 0)
  {
  }

  /** Re-applying the props of an update is a no-op. */
  lemma UpdateIdempotent(m: Model, p: Props)
    ensures Update(Update(m, p), p) == Update(m, p)
  {
  }

  /** Any number of repetitions of the same props queues at most one timer. */
  lemma {:induction false} RepeatedPropsQueueOnce(m: Model, p: Props, n: nat)
    requires n >= 1
    ensures Repeat(m, p, n) == Update(m, p)
    ensures |Repeat(m, p, n).timers| == |m.timers| + (if Triggers(m, p) then 1 else 0)
  {
    if n > 1 {
      RepeatedPropsQueueOnce(m, p, n - 1);
      UpdateIdempotent(m, p);
    }
  }

  /** Running the oldest timer first and then flushing is flushing. */
  lemma FlushAfterRunTimer(m: Model)
    ensures Flush(RunTimer(m)) == Flush(m)
  {
  }

  /** Running the pending timers one at a time makes the same calls as flushing them. */
  lemma {:induction false} TimersOneByOneIsFlush(m: Model)
    ensures RunTimers(m, |m.timers|) == Flush(m)
    decreases |m.timers|
  {
    if m.timers == [] {
      assert PendingCalls(m.currentIndex, m.timers) == [];
      assert m.scrolls + [] == m.scrolls;
    } else {
      var m' := RunTimer(m);
      assert |m'.timers| == |m.timers| - 1;
      assert RunTimers(m, |m.timers|) == RunTimers(m', |m'.timers|);
      TimersOneByOneIsFlush(m');
      FlushAfterRunTimer(m);
    }
  }

  /**
   * Two updates before the timers run: both timers scroll to the second
   * update's index, each with its own update's `contentOffset`.
   */
  lemma LatestIndexWins(m: Model, p1: Props, p2: Props)
    requires m.timers == []
    requires Triggers(m, p1)
    requires Triggers(Update(m, p1), p2)
    ensures Flush(Update(Update(m, p1), p2)).scrolls
         == m.scrolls + [ScrollCall(p2.index.value, p1.contentOffset, false),
                         ScrollCall(p2.index.value, p2.contentOffset, false)]
  {
  }

  /** Updates keep the invariant. */
  lemma UpdateKeepsInv(m: Model, p: Props)
    requires Inv(m)
    ensures Inv(Update(m, p))
  {
  }

  /** Running a timer keeps the invariant. */
  lemma RunTimerKeepsInv(m: Model)
    requires Inv(m)
    ensures Inv(RunTimer(m))
  {
  }

  /** Flushing keeps the invariant: every call it records has an integer index. */
  lemma FlushKeepsInv(m: Model)
    requires Inv(m)
    ensures Inv(Flush(m))
  {
  }
}
