/** The bottom-anchored chat viewport: where the visible window starts, and what `render` shows.
 *  Drawing an item, padding a line and the pill's text are parameters. */
module Viewport {
  import opened Wrappers

  datatype ScrollPosition = ScrollPosition(startIndex: nat, skipRows: nat, totalRows: nat)

  /** How items and lines are drawn at one width. `art` is the picture for an empty chat. */
  datatype Canvas<!I, !T> = Canvas(view: I -> seq<T>, pad: T -> T, blank: T, pill: T, art: seq<T>)

  datatype Deps<I> = Deps(items: seq<I>, scrollOffset: int, hasNew: bool)

  function Sum(heights: seq<nat>): nat {
    if heights == [] then 0 else heights[0] + Sum(heights[1..])
  }

  function Flatten<T>(blocks: seq<seq<T>>): seq<T> {
    if blocks == [] then [] else blocks[0] + Flatten(blocks[1..])
  }

  function Heights<T>(blocks: seq<seq<T>>): seq<nat> {
    seq(|blocks|, i requires 0 <= i < |blocks| => |blocks[i]|)
  }

  function Views<I, T>(items: seq<I>, view: I -> seq<T>): seq<seq<T>> {
    seq(|items|, i requires 0 <= i < |items| => view(items[i]))
  }

  /** `itemHeights[i] ?? 0`. */
  function HeightAt(heights: seq<nat>, i: nat): nat { if i < |heights| then heights[i] else 0 }

  /** The first visible row: `height` rows above the bottom, `offset` rows further up, and never
   *  above the first row. */
  function TopRow(total: nat, height: int, offset: int): (top: nat) {
    Max(0, total - height - Max(0, offset))
  }

  /** `height` rows of `rows` from the top row on, padded, then blanks. */
  function Window<I, T>(rows: seq<T>, height: nat, offset: int, canvas: Canvas<I, T>): (shown: seq<T>)
    ensures |shown| == height
  {
    var top := TopRow(|rows|, height, offset);
    seq(height, k requires 0 <= k < height => if top + k < |rows| then canvas.pad(rows[top + k]) else canvas.blank)
  }

  /** What the viewport must show for a non-empty chat. */
  function Screen<I, T>(deps: Deps<I>, height: nat, canvas: Canvas<I, T>): (shown: seq<T>)
    ensures |shown| == height
  {
    var window := Window(Flatten(Views(deps.items, canvas.view)), height, deps.scrollOffset, canvas);
    if deps.hasNew && deps.scrollOffset > 0 && height > 0 then window[height - 1 := canvas.pill] else window
  }

  /** `Array.prototype.slice(0, end)`. */
  function SliceTo<T>(s: seq<T>, end: int): seq<T> {
    if end >= 0 then s[..Min(end, |s|)] else s[..Max(0, |s| + end)]
  }

  function Blanks<T>(n: nat, blank: T): seq<T> { seq(n, _ => blank) }

  /** The picture for an empty chat, centred between blanks and cut to the height. */
  function EmptyScreen<I, T>(height: int, canvas: Canvas<I, T>): seq<T> {
    var above := Blanks(Max(0, (height - |canvas.art|) / 2), canvas.blank);
    var art := seq(|canvas.art|, i requires 0 <= i < |canvas.art| => canvas.pad(canvas.art[i]));
    SliceTo(above + art + Blanks(Max(0, height - |above| - |art|), canvas.blank), height)
  }

  lemma {:induction false} SumSplit(heights: seq<nat>, i: nat)
    requires i <= |heights|
    ensures Sum(heights[..i]) + Sum(heights[i..]) == Sum(heights)
  {
    if i == 0 {
      assert heights[..0] == [] && heights[0..] == heights;
    } else {
      SumSplit(heights[1..], i - 1);
      assert heights[..i][1..] == heights[1..][..i - 1];
      assert heights[1..][i - 1..] == heights[i..];
    }
  }

  method SumHeights(heights: seq<nat>) returns (total: nat)
    ensures total == Sum(heights)
  {
    total := 0;
    for i := 0 to |heights|
      invariant total + Sum(heights[i..]) == Sum(heights)
    {
      total := total + heights[i];
    }
  }

  /** Locates the window's top edge inside the item list: the rows of the items above, plus the
   *  skipped rows, are exactly the rows above the window, and the edge lies inside its item. */
  method BottomAnchoredSlice(items: nat, heights: seq<nat>, height: int, offset: int) returns (pos: ScrollPosition)
    ensures pos.totalRows == Sum(heights)
    ensures height <= 0 || items == 0 ==> pos.startIndex == 0 && pos.skipRows == 0
    ensures height > 0 && items > 0 ==> pos.startIndex < items
    ensures pos.skipRows > 0 || pos.startIndex > 0 ==>
      pos.startIndex < items && pos.skipRows < HeightAt(heights, pos.startIndex)
    ensures height > 0 && 0 < items == |heights| ==>
      Sum(heights[..pos.startIndex]) + pos.skipRows == TopRow(Sum(heights), height, offset)
  {
    var total := SumHeights(heights);
    if height <= 0 || items == 0 || total <= height {
      return ScrollPosition(0, 0, total);
    }
    var want := height + Max(0, offset);
    var rowsFromBottom: nat := 0;
    var i := items;
    while i > 0
      invariant 0 <= i <= items
      invariant rowsFromBottom < want
      invariant |heights| == items ==> rowsFromBottom == Sum(heights[i..])
    {
      i := i - 1;
      rowsFromBottom := rowsFromBottom + HeightAt(heights, i);
      if |heights| == items {
        SumSplit(heights, i);
      }
      if rowsFromBottom >= want {
        return ScrollPosition(i, Max(0, rowsFromBottom - want), total);
      }
    }
    assert heights[0..] == heights;
    return ScrollPosition(0, 0, total);
  }

  lemma {:induction false} FlattenFrom<T>(blocks: seq<seq<T>>, i: nat)
    requires i <= |blocks|
    ensures |Flatten(blocks)| == Sum(Heights(blocks))
    ensures Sum(Heights(blocks)[..i]) <= |Flatten(blocks)|
    ensures Flatten(blocks[i..]) == Flatten(blocks)[Sum(Heights(blocks)[..i])..]
  {
    var heights := Heights(blocks);
    if blocks == [] {
    } else {
      assert Heights(blocks[1..]) == heights[1..];
      FlattenFrom(blocks[1..], if i == 0 then 0 else i - 1);
      if i == 0 {
        assert heights[..0] == [] && blocks[0..] == blocks;
      } else {
        assert heights[..i][1..] == heights[1..][..i - 1];
        assert blocks[1..][i - 1..] == blocks[i..];
      }
    }
  }

  /** Without new messages hidden below, the last row of the chat is on the last line of a full
   *  window, and every row of the chat is visible at some offset. */
  lemma {:induction false} EveryRowReachable<I, T>(rows: seq<T>, height: nat, row: nat, canvas: Canvas<I, T>)
    requires height > 0 && row < |rows|
    ensures |rows| >= height ==> Window(rows, height, 0, canvas)[height - 1] == canvas.pad(rows[|rows| - 1])
    ensures exists offset, k ::
      0 <= offset < |rows| && 0 <= k < height && Window(rows, height, offset, canvas)[k] == canvas.pad(rows[row])
  {
    var offset := |rows| - 1 - row;
    var top := TopRow(|rows|, height, offset);
    assert top <= row < top + height;
    assert Window(rows, height, offset, canvas)[row - top] == canvas.pad(rows[row]);
  }

  /** Scrolling one line further moves the window up by exactly one row, until the first row of
   *  the chat is on its first line; from there on scrolling changes nothing. */
  lemma {:induction false} ScrollByOne<I, T>(rows: seq<T>, height: nat, offset: nat, canvas: Canvas<I, T>)
    requires height > 0
    ensures |rows| > height + offset ==>
      Window(rows, height, offset + 1, canvas)[1..] == Window(rows, height, offset, canvas)[..height - 1]
    ensures |rows| <= height + offset ==>
      Window(rows, height, offset + 1, canvas) == Window(rows, height, offset, canvas)
  {
  }

  /** Line by line: the last line is the pill exactly while the view is scrolled up and something is new;
   *  every other line `k` is the row `height + offset - k` from the end of the chat, or `k` from its
   *  start once the first row is in view, or a blank below the last row. */
  lemma {:induction false} ScreenLines<I, T>(deps: Deps<I>, height: nat, canvas: Canvas<I, T>, k: nat)
    requires k < height
    ensures var rows := Flatten(Views(deps.items, canvas.view));
      var offset := if deps.scrollOffset >= 1 then deps.scrollOffset else 0;
      Screen(deps, height, canvas)[k] ==
        if deps.hasNew && offset >= 1 && k + 1 == height then canvas.pill
        else if |rows| >= height + offset then canvas.pad(rows[|rows| - height - offset + k])
        else if k < |rows| then canvas.pad(rows[k])
        else canvas.blank
  {
  }

  /** The picture with that many blanks above it, and as many or one more below. */
  ghost predicate Centred<I, T>(out: seq<T>, height: int, canvas: Canvas<I, T>, above: nat) {
    var n := |canvas.art|;
    && (height <= n ==> above == 0) && (height >= n ==> above <= height - n - above <= above + 1)
    && forall k :: 0 <= k < |out| ==>
         out[k] == if above <= k < above + n then canvas.pad(canvas.art[k - above]) else canvas.blank
  }

  /** The picture for an empty chat is in the middle; a window lower than the picture shows its first
   *  lines, and one of negative height all but the last so many. */
  lemma {:induction false} EmptyScreenIs<I, T>(height: int, canvas: Canvas<I, T>)
    ensures var out := EmptyScreen(height, canvas);
      && |out| == (if height >= 0 then height else Max(0, |canvas.art| + height))
      && exists above: nat :: Centred(out, height, canvas, above)
  {
    var n := |canvas.art|;
    assert Centred(EmptyScreen(height, canvas), height, canvas, if height <= n then 0 else (height - n) / 2);
  }

  /** Rows shown from the top row on are the window. */
  lemma {:induction false} WindowFrom<I, T>(rows: seq<T>, height: nat, offset: int, out: seq<T>, canvas: Canvas<I, T>)
    requires |out| == height && ShownFrom(rows, TopRow(|rows|, height, offset), out, canvas)
    ensures out == Window(rows, height, offset, canvas)
  {
  }

  class ChatViewport<I, T> {
    var height: int
    var deps: Deps<I>

    constructor (deps: Deps<I>)
      ensures this.deps == deps && height == 6
    {
      this.height := 6;
      this.deps := deps;
    }

    method SetHeight(h: int)
      modifies this`height
      ensures height == h
    {
      height := h;
    }

    method SetDeps(deps: Deps<I>)
      modifies this`deps
      ensures this.deps == deps
    {
      this.deps := deps;
    }

    /** Shows exactly the window of the flattened rows, and exactly `height` lines of it. */
    method Render(canvas: Canvas<I, T>) returns (out: seq<T>)
      ensures deps.items == [] ==> out == EmptyScreen(height, canvas)
      ensures deps.items != [] && height <= 0 ==> out == []
      ensures deps.items != [] && height > 0 ==> out == Screen(deps, height, canvas)
    {
      var items := deps.items;
      if items == [] {
        out := EmptyState(canvas);
        return;
      }
      out := Visible(canvas);
      if deps.hasNew && deps.scrollOffset > 0 {
        if height > 0 {
          out := out[height - 1 := canvas.pill];
        }
      }
      out := SliceTo(out, height);
    }

    /** The window, before the pill. */
    method Visible(canvas: Canvas<I, T>) returns (out: seq<T>)
      requires deps.items != []
      ensures height > 0 ==> out == Window(Flatten(Views(deps.items, canvas.view)), height, deps.scrollOffset, canvas)
      ensures height <= 0 ==> |out| <= 1
    {
      var rendered, heights := DrawItems(canvas);
      var pos := BottomAnchoredSlice(|deps.items|, heights, height, deps.scrollOffset);
      out := FillWindow(rendered, pos.startIndex, pos.skipRows, canvas);
      ghost var chat := Flatten(rendered);
      ghost var top := TopRow(|chat|, height, deps.scrollOffset);
      if height > 0 {
        ghost var above := Sum(heights[..pos.startIndex]);
        FlattenFrom(rendered, pos.startIndex);
      }
      out := FillBlanks(out, chat, top, canvas);
      if height > 0 { WindowFrom(chat, height, deps.scrollOffset, out, canvas); }
    }

    /** Draws every item and remembers the drawn heights. */
    method DrawItems(canvas: Canvas<I, T>) returns (rendered: seq<seq<T>>, heights: seq<nat>)
      ensures rendered == Views(deps.items, canvas.view) && heights == Heights(rendered)
    {
      rendered, heights := [], [];
      for i := 0 to |deps.items|
        invariant rendered == Views(deps.items, canvas.view)[..i]
        invariant heights == Heights(rendered)
      {
        var rows := canvas.view(deps.items[i]);
        rendered := rendered + [rows];
        heights := heights + [|rows|];
      }
    }

    /** Fills the rest of the window with blanks. */
    method FillBlanks(shown: seq<T>, ghost chat: seq<T>, ghost top: nat, canvas: Canvas<I, T>) returns (out: seq<T>)
      requires height > 0 ==> |shown| == Max(0, Min(height, |chat| - top)) && ShownFrom(chat, top, shown, canvas)
      ensures height > 0 ==> |out| == height && ShownFrom(chat, top, out, canvas)
      ensures height <= 0 ==> out == shown
    {
      out := shown;
      while |out| < height
        invariant height > 0 ==> |shown| <= |out| <= height && ShownFrom(chat, top, out, canvas)
        invariant height <= 0 ==> out == shown
        decreases height - |out|
      {
        out := out + [canvas.blank];
      }
    }

    /** The nested loops of `render`: skip the rows above the window, stop when it is full. */
    method FillWindow(rendered: seq<seq<T>>, startIndex: nat, skipRows: nat, canvas: Canvas<I, T>) returns (out: seq<T>)
      requires startIndex <= |rendered|
      ensures var shown := Flatten(rendered[startIndex..]);
        && ShownFrom(shown, skipRows, out, canvas)
        && |out| <= Max(1, height)
        && (height > 0 ==> |out| == Max(0, Min(height, |shown| - skipRows)))
    {
      ghost var shown := Flatten(rendered[startIndex..]);
      out := [];
      var skipping := skipRows;
      var i := startIndex;
      ghost var seen: nat := 0;
      while i < |rendered|
        invariant startIndex <= i <= |rendered|
        invariant Position(shown, seen, Flatten(rendered[i..]))
        invariant skipping == Max(0, skipRows - seen) && |out| == Max(0, seen - skipRows)
        invariant |out| < Max(1, height) && ShownFrom(shown, skipRows, out, canvas)
      {
        var rows := rendered[i];
        ghost var later := Flatten(rendered[i + 1..]);
        assert rendered[i..][1..] == rendered[i + 1..];
        var j := 0;
        while j < |rows|
          invariant 0 <= j <= |rows|
          invariant Position(shown, seen, rows[j..] + later)
          invariant skipping == Max(0, skipRows - seen) && |out| == Max(0, seen - skipRows)
          invariant |out| < Max(1, height) && ShownFrom(shown, skipRows, out, canvas)
        {
          assert shown[seen] == rows[j] && (rows[j..] + later)[1..] == rows[j + 1..] + later;
          seen := seen + 1;
          if skipping > 0 {
            skipping := skipping - 1;
            j := j + 1;
            continue;
          }
          out := out + [canvas.pad(rows[j])];
          if |out| >= height { break; }
          j := j + 1;
        }
        if |out| >= height { break; }
        i := i + 1;
      }
    }

    /** Four lines of art in the middle, cut to the height. */
    method EmptyState(canvas: Canvas<I, T>) returns (out: seq<T>)
      ensures out == EmptyScreen(height, canvas)
    {
      var pad := Max(0, (height - |canvas.art|) / 2);
      out := [];
      for i := 0 to pad
        invariant out == Blanks(i, canvas.blank)
      {
        out := out + [canvas.blank];
      }
      ghost var above := out;
      ghost var art := seq(|canvas.art|, i requires 0 <= i < |canvas.art| => canvas.pad(canvas.art[i]));
      for i := 0 to |canvas.art|
        invariant out == above + art[..i]
      {
        out := out + [canvas.pad(canvas.art[i])];
      }
      ghost var n: nat := 0;
      while |out| < height
        invariant out == above + art + Blanks(n, canvas.blank)
        invariant n == 0 || |out| <= height
        decreases height - |out|
      {
        out := out + [canvas.blank];
        n := n + 1;
      }
      out := SliceTo(out, height);
    }
  }

  /** `rest` are the rows of `shown` after the first `seen`. */
  ghost predicate Position<T>(shown: seq<T>, seen: nat, rest: seq<T>) {
    seen <= |shown| && rest == shown[seen..]
  }

  /** `out` are the rows from `top` on, padded, with blanks behind the last. */
  ghost predicate ShownFrom<I, T>(rows: seq<T>, top: nat, out: seq<T>, canvas: Canvas<I, T>) {
    forall k :: 0 <= k < |out| ==> out[k] == if top + k < |rows| then canvas.pad(rows[top + k]) else canvas.blank
  }
}
