/** The windowing arithmetic of the virtual list: which rows are rendered
    for a scroll position, and where the rendered block is placed. Lengths
    are JavaScript numbers, here reals; indices are integers. */
module VirtualList {

  const DefaultOverscan: int := 5

  function Min(a: int, b: int): int { if a <= b then a else b }
  function Max(a: int, b: int): int { if a >= b then a else b }

  /** `Math.ceil`. */
  function Ceil(x: real): (c: int)
    ensures c as real >= x && (c - 1) as real < x
  {
    -((-x).Floor)
  }

  /** How `Array.prototype.slice` reads an index: a negative one counts
      from the end, and both are clamped to the length. */
  function SliceIndex(i: int, n: nat): (k: int)
    ensures 0 <= k <= n
  {
    if i < 0 then Max(n + i, 0) else Min(i, n)
  }

  /** `items.slice(from, to)`: the run of items from the first index read
      to the second, empty when the second is not past the first. */
  function JsSlice<T>(items: seq<T>, from: int, to: int): (r: seq<T>)
    ensures var a, b := SliceIndex(from, |items|), SliceIndex(to, |items|);
            |r| == Max(0, b - a) && forall k :: 0 <= k < |r| ==> r[k] == items[a + k]
  {
    var a, b := SliceIndex(from, |items|), SliceIndex(to, |items|);
    if a < b then items[a..b] else []
  }

  /** A negative end within the list counts back from its length. */
  lemma SliceNegativeEnd<T>(items: seq<T>, from: int, to: int)
    requires -|items| <= to < 0
    ensures JsSlice(items, from, to) == JsSlice(items, from, |items| + to)
  {
  }

  /** A negative start within the list counts back from its length. */
  lemma SliceNegativeStart<T>(items: seq<T>, from: int, to: int)
    requires -|items| <= from < 0
    ensures JsSlice(items, from, to) == JsSlice(items, |items| + from, to)
  {
  }

  /** With non-negative indices both ends are clamped to the length. */
  lemma SliceNonNegative<T>(items: seq<T>, from: int, to: int)
    requires 0 <= from && 0 <= to
    ensures var a, b := Min(from, |items|), Min(to, |items|);
            JsSlice(items, from, to) == if a < b then items[a..b] else []
  {
  }

  /** A rendered row: the item and its index in the whole list. */
  datatype Entry<T> = Entry(item: T, index: int)

  datatype Window<T> = Window(visibleItems: seq<Entry<T>>, totalHeight: real, offsetY: real)

  /** The first row that intersects the viewport: the row whose span
      contains the scroll position. */
  function VisibleStart(scrollTop: real, itemHeight: real): (v: int)
    requires itemHeight > 0.0
    ensures v as real * itemHeight <= scrollTop < (v + 1) as real * itemHeight
  {
    var v := (scrollTop / itemHeight).Floor;
    RowSpan(scrollTop, itemHeight, v);
    v
  }

  lemma RowSpan(y: real, h: real, v: int)
    requires h > 0.0 && v as real <= y / h < v as real + 1.0
    ensures v as real * h <= y < (v + 1) as real * h
  {
    var q, lo, hi := y / h, v as real, (v + 1) as real;
    assert y == q * h;
    assert hi == lo + 1.0;
    ScaleLe(lo, q, h);
    ScaleLt(q, hi, h);
    assert q * h < hi * h;
    assert y < hi * h;
  }

  lemma ScaleLe(a: real, b: real, h: real)
    requires h > 0.0 && a <= b
    ensures a * h <= b * h
  {
  }

  lemma ScaleLt(a: real, b: real, h: real)
    requires h > 0.0 && a < b
    ensures a * h < b * h
  {
  }

  /** The last row that intersects the viewport, at most the last row:
      unless it is the last row, the rows from the first visible one up to
      it are at least as tall as the container. */
  function VisibleEnd(n: nat, scrollTop: real, itemHeight: real, containerHeight: real): (v: int)
    requires itemHeight > 0.0
    ensures v <= n - 1
    ensures v == n - 1 || (v - VisibleStart(scrollTop, itemHeight)) as real * itemHeight >= containerHeight
  {
    var rows := Ceil(containerHeight / itemHeight);
    CeilCovers(containerHeight, itemHeight, rows);
    Min(VisibleStart(scrollTop, itemHeight) + rows, n - 1)
  }

  lemma CeilCovers(c: real, h: real, rows: int)
    requires h > 0.0 && rows as real >= c / h
    ensures rows as real * h >= c
  {
    assert c == (c / h) * h;
  }

  /** The first rendered row: `overscan` rows before the viewport, at
      least row 0. */
  function Start(scrollTop: real, itemHeight: real, overscan: int): (s: int)
    requires itemHeight > 0.0
    ensures s >= 0
  {
    Max(0, VisibleStart(scrollTop, itemHeight) - overscan)
  }

  /** The last rendered row: `overscan` rows after the viewport, at most
      the last row. */
  function End(n: nat, scrollTop: real, itemHeight: real, containerHeight: real, overscan: int): (e: int)
    requires itemHeight > 0.0
    ensures e <= n - 1
  {
    Min(n - 1, VisibleEnd(n, scrollTop, itemHeight, containerHeight) + overscan)
  }

  /** The `useMemo` body: the slice from `start` to `end` tagged with
      indices counted from `start`, the height of the whole list, and the
      offset of the first rendered row. Every rendered entry is the item at
      the index it carries. */
  function ComputeWindow<T>(items: seq<T>, scrollTop: real, itemHeight: real, containerHeight: real, overscan: int)
    : (w: Window<T>)
    requires itemHeight > 0.0
    ensures w.totalHeight == |items| as real * itemHeight
    ensures w.offsetY == Start(scrollTop, itemHeight, overscan) as real * itemHeight
    ensures |w.visibleItems| <= |items|
    ensures forall k :: 0 <= k < |w.visibleItems| ==>
              && w.visibleItems[k].index == Start(scrollTop, itemHeight, overscan) + k
              && 0 <= w.visibleItems[k].index < |items|
              && w.visibleItems[k].item == items[w.visibleItems[k].index]
  {
    var start := Start(scrollTop, itemHeight, overscan);
    var end := End(|items|, scrollTop, itemHeight, containerHeight, overscan);
    var slice := JsSlice(items, start, end + 1);
    var visible := seq(|slice|, i requires 0 <= i < |slice| => Entry(slice[i], start + i));
    Window(visible, |items| as real * itemHeight, start as real * itemHeight)
  }

  /** For a scroll position and a viewport that are not negative, the last
      rendered row is at least one before the first, so the entries are
      exactly the rows `start` to `end`. */
  lemma {:induction false} WindowIsContiguous<T>(items: seq<T>, scrollTop: real, itemHeight: real,
                                                 containerHeight: real, overscan: int)
    requires itemHeight > 0.0 && scrollTop >= 0.0 && containerHeight >= 0.0 && overscan >= 0
    ensures var start := Start(scrollTop, itemHeight, overscan);
            var end := End(|items|, scrollTop, itemHeight, containerHeight, overscan);
            var w := ComputeWindow(items, scrollTop, itemHeight, containerHeight, overscan);
            && end >= -1
            && |w.visibleItems| == Max(0, end - start + 1)
            && forall k :: 0 <= k < |w.visibleItems| ==> w.visibleItems[k] == Entry(items[start + k], start + k)
  {
    var vs := VisibleStart(scrollTop, itemHeight);
    assert scrollTop / itemHeight >= 0.0;
    assert vs >= 0;
    assert containerHeight / itemHeight >= 0.0;
  }

  /** An empty list, or a first row past the last one, renders nothing. */
  lemma EmptyWindow<T>(items: seq<T>, scrollTop: real, itemHeight: real, containerHeight: real, overscan: int)
    requires itemHeight > 0.0 && scrollTop >= 0.0 && containerHeight >= 0.0 && overscan >= 0
    requires |items| == 0 || Start(scrollTop, itemHeight, overscan) > End(|items|, scrollTop, itemHeight, containerHeight, overscan)
    ensures ComputeWindow(items, scrollTop, itemHeight, containerHeight, overscan).visibleItems == []
  {
    WindowIsContiguous(items, scrollTop, itemHeight, containerHeight, overscan);
  }

  /** At the top of the list the block starts at row 0, with no offset. */
  lemma WindowAtTop<T>(items: seq<T>, itemHeight: real, containerHeight: real, overscan: int)
    requires itemHeight > 0.0 && overscan >= 0
    ensures Start(0.0, itemHeight, overscan) == 0
    ensures ComputeWindow(items, 0.0, itemHeight, containerHeight, overscan).offsetY == 0.0
  {
  }

  /** At most the rows of one viewport, plus `overscan` on each side, plus
      one for a row cut by the lower edge, are rendered. */
  lemma WindowSizeBound<T>(items: seq<T>, scrollTop: real, itemHeight: real, containerHeight: real, overscan: int)
    requires itemHeight > 0.0 && scrollTop >= 0.0 && containerHeight >= 0.0 && overscan >= 0
    ensures |ComputeWindow(items, scrollTop, itemHeight, containerHeight, overscan).visibleItems|
            <= Ceil(containerHeight / itemHeight) + 2 * overscan + 1
  {
    WindowIsContiguous(items, scrollTop, itemHeight, containerHeight, overscan);
  }

  /** Every row that intersects the viewport is rendered. */
  lemma WindowCoversViewport<T>(items: seq<T>, scrollTop: real, itemHeight: real, containerHeight: real,
                                overscan: int, j: int)
    requires itemHeight > 0.0 && scrollTop >= 0.0 && containerHeight >= 0.0 && overscan >= 0
    requires VisibleStart(scrollTop, itemHeight) <= j <= VisibleEnd(|items|, scrollTop, itemHeight, containerHeight)
    ensures var w := ComputeWindow(items, scrollTop, itemHeight, containerHeight, overscan);
            var k := j - Start(scrollTop, itemHeight, overscan);
            0 <= k < |w.visibleItems| && w.visibleItems[k] == Entry(items[j], j)
  {
    WindowIsContiguous(items, scrollTop, itemHeight, containerHeight, overscan);
  }

  /** The list as the explore screen configures it: rows of 180 pixels in
      a 600 pixel viewport with 5 rows of overscan render at most 15 rows. */
  lemma ExploreScreenWindow<T>(items: seq<T>, scrollTop: real)
    requires scrollTop >= 0.0
    ensures |ComputeWindow(items, scrollTop, 180.0, 600.0, DefaultOverscan).visibleItems| <= 15
  {
    WindowSizeBound(items, scrollTop, 180.0, 600.0, DefaultOverscan);
    assert Ceil(600.0 / 180.0) == 4;
  }

  /** A scroll position far above the top (elastic over-scrolling) makes
      the end of the slice negative, which `slice` counts from the end of
      the list: the first rows are rendered although none is in view. */
  lemma FarOverscroll()
    ensures var items := seq(20, i => i);
            |ComputeWindow(items, -3600.0, 180.0, 600.0, DefaultOverscan).visibleItems| == 10
  {
    var items := seq(20, i => i);
    assert VisibleStart(-3600.0, 180.0) == -20;
    assert Ceil(600.0 / 180.0) == 4;
    assert End(20, -3600.0, 180.0, 600.0, DefaultOverscan) == -11;
  }
}
