/**
 * Item geometry of the carousel: the analytic layout the list is given for
 * each item (`getItemLayout`) and the scroll positions at which an item's
 * scale animation is pinned (`transitionAnimation`).
 *
 * Widths and offsets are modelled as integers; the carousel is used with a
 * positive `itemWidth`, which the lemmas below assume where they need it.
 */
module Geometry {
  import opened Wrappers

  /** Where item `index` sits along the scroll axis, and how wide it is. */
  datatype ItemLayout = ItemLayout(offset: int, length: int, index: int)

  /** The layout `getItemLayout` reports for item `index`: no measurement pass. */
  function GetItemLayout(itemWidth: int, contentOffset: int, index: int): (r: ItemLayout)
    ensures r.index == index && r.length == itemWidth
    ensures itemWidth >= 0 && index >= 0 ==> r.offset >= contentOffset
  {
    ItemLayout(itemWidth * index + contentOffset, itemWidth, index)
  }

  /**
   * Reference layout: the content padding, then the items placed one after
   * another, each as long as `GetItemLayout` says.
   */
  function StackedOffset(itemWidth: int, contentOffset: int, n: nat): int
  {
    if n == 0 then contentOffset
    else StackedOffset(itemWidth, contentOffset, n - 1) + GetItemLayout(itemWidth, contentOffset, n - 1).length
  }

  /** The analytic offset is where the items end up when stacked one after another. */
  lemma {:induction false} LayoutMatchesStacking(itemWidth: int, contentOffset: int, n: nat)
    ensures GetItemLayout(itemWidth, contentOffset, n).offset == StackedOffset(itemWidth, contentOffset, n)
    ensures GetItemLayout(itemWidth, contentOffset, n).length == itemWidth
    ensures GetItemLayout(itemWidth, contentOffset, n).index == n
  {
    if n > 0 {
      LayoutMatchesStacking(itemWidth, contentOffset, n - 1);
      assert itemWidth * n == itemWidth * (n - 1) + itemWidth;
    }
  }

  /** Item `index + 1` starts exactly where item `index` ends. */
  lemma ConsecutiveItemsAbut(itemWidth: int, contentOffset: int, index: int)
    ensures GetItemLayout(itemWidth, contentOffset, index + 1).offset
         == GetItemLayout(itemWidth, contentOffset, index).offset + itemWidth
    ensures GetItemLayout(itemWidth, contentOffset, index + 1).offset
         == GetItemLayout(itemWidth, contentOffset, index).offset
          + GetItemLayout(itemWidth, contentOffset, index).length
  {
  }

  /** With a positive width, an earlier item ends no later than a later one starts. */
  lemma ItemsDoNotOverlap(itemWidth: int, contentOffset: int, i: int, j: int)
    requires itemWidth > 0
    requires i < j
    ensures GetItemLayout(itemWidth, contentOffset, i).offset + GetItemLayout(itemWidth, contentOffset, i).length
         <= GetItemLayout(itemWidth, contentOffset, j).offset
  {
    assert itemWidth * j - itemWidth * i == itemWidth * (j - i);
    assert itemWidth * (j - i) >= itemWidth * 1 by {
      MulMonotone(itemWidth, 1, j - i);
    }
  }

  /** Multiplying by a positive factor keeps order. */
  lemma MulMonotone(w: int, a: int, b: int)
    requires w > 0
    requires a <= b
    ensures w * a <= w * b
  {
  }

  /** With a positive factor, equal products have equal cofactors. */
  lemma MulCancel(w: int, a: int, b: int)
    requires w > 0
    ensures w * a == w * b <==> a == b
  {
  }

  /**
   * The scroll positions at which item `index`'s scale is pinned: one item
   * width before it, at it, and one item width after it.
   */
  function ScaleInputRange(itemWidth: int, index: int): (r: seq<int>)
    ensures |r| == 3
    ensures r[0] + itemWidth == r[1] && r[1] + itemWidth == r[2]
    ensures itemWidth > 0 ==> r[0] < r[1] < r[2]
  {
    [(index - 1) * itemWidth, index * itemWidth, (index + 1) * itemWidth]
  }

  /** The centre breakpoint is the item's layout offset with the content padding taken off. */
  lemma ScaleCentreIsItemOffset(itemWidth: int, contentOffset: int, index: int)
    ensures ScaleInputRange(itemWidth, index)[1]
         == GetItemLayout(itemWidth, contentOffset, index).offset - contentOffset
  {
  }

  /** The item to the right of item `index` is centred where item `index`'s range ends. */
  lemma NeighbourRangesInterlock(itemWidth: int, index: int)
    ensures ScaleInputRange(itemWidth, index)[2] == ScaleInputRange(itemWidth, index + 1)[1]
    ensures ScaleInputRange(itemWidth, index)[1] == ScaleInputRange(itemWidth, index + 1)[0]
  {
  }

  /**
   * The two scale outputs, kept symbolic: `Shrunk` stands for 0.35 and
   * `Full` for 1.
   */
  datatype Scale = Shrunk | Full

  /** The output range paired with `ScaleInputRange`, breakpoint by breakpoint. */
  const ScaleOutputRange: seq<Scale> := [Shrunk, Full, Shrunk]

  /**
   * The scale of item `index` when the list is scrolled to `scrollX`, where
   * `scrollX` is one of the item's breakpoints; `None` elsewhere, where the
   * value is an interpolation this model does not compute.
   */
  function BreakpointScale(itemWidth: int, index: int, scrollX: int): (r: Option<Scale>)
    ensures r.Some? <==> scrollX in ScaleInputRange(itemWidth, index)
    ensures itemWidth > 0 ==> (r == Some(Full) <==> scrollX == index * itemWidth)
  {
    var inputRange := ScaleInputRange(itemWidth, index);
    if scrollX == inputRange[0] then Some(ScaleOutputRange[0])
    else if scrollX == inputRange[1] then Some(ScaleOutputRange[1])
    else if scrollX == inputRange[2] then Some(ScaleOutputRange[2])
    else None
  }

  /**
   * Scrolled so that item `k` is centred, item `k` is at full scale, its two
   * neighbours are shrunk, and every other item is away from its breakpoints.
   */
  lemma CentredItemIsFullNeighboursShrunk(itemWidth: int, k: int, j: int)
    requires itemWidth > 0
    ensures BreakpointScale(itemWidth, j, k * itemWidth) == Some(Full) <==> j == k
    ensures BreakpointScale(itemWidth, j, k * itemWidth) == Some(Shrunk) <==> (j == k - 1 || j == k + 1)
    ensures BreakpointScale(itemWidth, j, k * itemWidth) == None <==> (j < k - 1 || j > k + 1)
  {
    var x := k * itemWidth;
    var r := ScaleInputRange(itemWidth, j);
    MulCancel(itemWidth, j - 1, k);
    MulCancel(itemWidth, j, k);
    MulCancel(itemWidth, j + 1, k);
    assert r[0] == itemWidth * (j - 1) && r[1] == itemWidth * j && r[2] == itemWidth * (j + 1);
    assert x == itemWidth * k;
  }
}
