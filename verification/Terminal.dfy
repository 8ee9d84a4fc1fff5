/** Column widths, line wrapping and cursor rows. A string is its sequence of UTF-16 code units;
 *  `for (const ch of line)` visits its characters, one or two units each. */
module Terminal {
  type CodeUnit = n: nat | n < 0x10000
  type Text = seq<CodeUnit>

  datatype WrappedRow = WrappedRow(text: Text, width: nat)

  predicate High(u: CodeUnit) { 0xd800 <= u <= 0xdbff }

  predicate Low(u: CodeUnit) { 0xdc00 <= u <= 0xdfff }

  predicate StartsPair(s: Text) {
    |s| >= 2 && High(s[0]) && Low(s[1])
  }

  /** The length of the first character of a non-empty string. */
  function CharLength(s: Text): (n: nat)
    requires s != []
    ensures 1 <= n <= |s| && n <= 2
  {
    if StartsPair(s) then 2 else 1
  }

  function CodePointAt(s: Text): nat
    requires s != []
  {
    if StartsPair(s) then (s[0] as int - 0xd800) * 0x400 + (s[1] as int - 0xdc00) + 0x10000 else s[0]
  }

  function CharDisplayWidth(ch: Text): (w: nat)
    ensures w <= 2
  {
    if ch == [] then 0
    else
      var code := CodePointAt(ch);
      if (0x1100 <= code <= 0x115f) || code == 0x2329 || code == 0x232a || (0x2e80 <= code <= 0x303e)
        || (0x3040 <= code <= 0xa4cf) || (0xac00 <= code <= 0xd7a3) || (0xf900 <= code <= 0xfaff)
        || (0xfe10 <= code <= 0xfe19) || (0xfe30 <= code <= 0xfe6f) || (0xff00 <= code <= 0xff60)
        || (0xffe0 <= code <= 0xffe6) || (0x20000 <= code <= 0x2fffd) || (0x30000 <= code <= 0x3fffd)
      then 2
      else if code < 0x20 || (0x300 <= code <= 0x36f) then 0
      else 1
  }

  /** The characters a `for ... of` loop visits. */
  function Chars(s: Text): seq<Text> {
    if s == [] then [] else [s[..CharLength(s)]] + Chars(s[CharLength(s)..])
  }

  function Flat(cs: seq<Text>): Text {
    if cs == [] then [] else cs[0] + Flat(cs[1..])
  }

  function Width(cs: seq<Text>): nat {
    if cs == [] then 0 else CharDisplayWidth(cs[0]) + Width(cs[1..])
  }

  function Texts(rows: seq<WrappedRow>): seq<Text> {
    seq(|rows|, i requires 0 <= i < |rows| => rows[i].text)
  }

  /** Greedy wrapping of the characters `cs` behind the row begun with `current`. */
  function WrapChars(cs: seq<Text>, current: Text, currentWidth: nat, maxWidth: int): (rows: seq<WrappedRow>)
    ensures rows != []
    decreases |cs|
  {
    if cs == [] then [WrappedRow(current, currentWidth)]
    else
      var w := CharDisplayWidth(cs[0]);
      if currentWidth + w > maxWidth && |current| > 0 then
        [WrappedRow(current, currentWidth)] + WrapChars(cs[1..], cs[0], w, maxWidth)
      else
        WrapChars(cs[1..], current + cs[0], currentWidth + w, maxWidth)
  }

  function Wrap(line: Text, maxWidth: int): (rows: seq<WrappedRow>)
    ensures rows != []
  {
    if maxWidth <= 0 then [WrappedRow(line, Width(Chars(line)))] else WrapChars(Chars(line), [], 0, maxWidth)
  }

  method DisplayWidth(input: Text) returns (width: nat)
    ensures width == Width(Chars(input))
  {
    width := 0;
    var unread := input;
    while unread != []
      invariant width + Width(Chars(unread)) == Width(Chars(input))
      decreases |unread|
    {
      var n := CharLength(unread);
      width := width + CharDisplayWidth(unread[..n]);
      unread := unread[n..];
    }
  }

  method WrapLineToRows(line: Text, maxWidth: int) returns (rows: seq<WrappedRow>)
    ensures rows == Wrap(line, maxWidth)
  {
    if maxWidth <= 0 {
      var width := DisplayWidth(line);
      return [WrappedRow(line, width)];
    }
    rows := [];
    var current: Text := [];
    var currentWidth: nat := 0;
    var unread := line;
    ghost var rest := Wrap(line, maxWidth);
    while unread != []
      invariant rest == WrapChars(Chars(unread), current, currentWidth, maxWidth)
      invariant rows + rest == Wrap(line, maxWidth)
      decreases |unread|
    {
      var n := CharLength(unread);
      var ch := unread[..n];
      WrapNext(unread, n, current, currentWidth, maxWidth);
      unread := unread[n..];
      var w := CharDisplayWidth(ch);
      if currentWidth + w > maxWidth && |current| > 0 {
        rest := WrapChars(Chars(unread), ch, w, maxWidth);
        PushRow(rows, WrappedRow(current, currentWidth), rest);
        rows := rows + [WrappedRow(current, currentWidth)];
        current := ch;
        currentWidth := w;
      } else {
        current := current + ch;
        currentWidth := currentWidth + w;
      }
    }
    rows := rows + [WrappedRow(current, currentWidth)];
  }

  lemma {:induction false} WrapNext(unread: Text, n: nat, current: Text, width: nat, maxWidth: int)
    requires unread != [] && n == CharLength(unread)
    ensures var ch, later := unread[..n], Chars(unread[n..]);
      var w := CharDisplayWidth(ch);
      WrapChars(Chars(unread), current, width, maxWidth) ==
        if width + w > maxWidth && |current| > 0
        then [WrappedRow(current, width)] + WrapChars(later, ch, w, maxWidth)
        else WrapChars(later, current + ch, width + w, maxWidth)
  {
    assert Chars(unread)[1..] == Chars(unread[n..]);
  }

  lemma {:induction false} PushRow(rows: seq<WrappedRow>, row: WrappedRow, rest: seq<WrappedRow>)
    ensures rows + ([row] + rest) == (rows + [row]) + rest
  {
  }

  // ---- characters

  /** Characters that a string splits into: units, or pairs, with no pair left unjoined. */
  predicate Canonical(cs: seq<Text>) {
    && (forall k :: 0 <= k < |cs| ==> cs[k] != [] && CharLength(cs[k]) == |cs[k]|)
    && (forall k :: 0 <= k < |cs| - 1 && |cs[k]| == 1 ==> !(High(cs[k][0]) && Low(cs[k + 1][0])))
  }

  lemma {:induction false} CharsAreCanonical(s: Text)
    ensures Canonical(Chars(s)) && Flat(Chars(s)) == s
    ensures s != [] ==> Chars(s) != [] && Chars(s)[0][0] == s[0]
  {
    if s != [] {
      var n := CharLength(s);
      CharsAreCanonical(s[n..]);
      CanonicalCons(s[..n], Chars(s[n..]), s);
    }
  }

  lemma {:induction false} CanonicalCons(ch: Text, rest: seq<Text>, s: Text)
    requires s != [] && ch == s[..CharLength(s)] && Canonical(rest) && Flat(rest) == s[|ch|..]
    requires |ch| < |s| ==> rest != [] && rest[0][0] == s[|ch|]
    ensures Canonical([ch] + rest) && Flat([ch] + rest) == s
  {
    assert ([ch] + rest)[1..] == rest;
    assert CharLength(ch) == |ch|;
  }

  lemma {:induction false} CanonicalSplits(cs: seq<Text>)
    requires Canonical(cs)
    ensures Chars(Flat(cs)) == cs
    ensures cs != [] ==> Flat(cs) != [] && Flat(cs)[0] == cs[0][0]
  {
    if cs != [] {
      CanonicalSplits(cs[1..]);
      var s := Flat(cs);
      assert s[..|cs[0]|] == cs[0] && s[|cs[0]|..] == Flat(cs[1..]);
      if |cs[0]| == 1 && |cs| > 1 {
        assert s[1] == cs[1][0];
      }
      assert CharLength(s) == |cs[0]|;
    }
  }

  lemma {:induction false} FlatAppend(cs: seq<Text>, ch: Text)
    ensures Flat(cs + [ch]) == Flat(cs) + ch
  {
    if cs == [] { assert cs + [ch] == [ch]; } else {
      FlatAppend(cs[1..], ch);
      assert (cs + [ch])[1..] == cs[1..] + [ch];
    }
  }

  lemma {:induction false} WidthAppend(cs: seq<Text>, ch: Text)
    ensures Width(cs + [ch]) == Width(cs) + CharDisplayWidth(ch)
  {
    if cs == [] { assert cs + [ch] == [ch]; } else {
      WidthAppend(cs[1..], ch);
      assert (cs + [ch])[1..] == cs[1..] + [ch];
    }
  }

  // ---- what wrapping promises

  lemma {:induction false} FirstRow(row: WrappedRow, rest: seq<WrappedRow>)
    ensures Flat(Texts([row] + rest)) == row.text + Flat(Texts(rest))
  {
    assert Texts([row] + rest)[1..] == Texts(rest);
  }

  lemma {:induction false} WrapCharsLosesNothing(cs: seq<Text>, current: Text, width: nat, maxWidth: int)
    ensures Flat(Texts(WrapChars(cs, current, width, maxWidth))) == current + Flat(cs)
    decreases |cs|
  {
    if cs == [] {
      FirstRow(WrappedRow(current, width), []);
    } else {
      var w := CharDisplayWidth(cs[0]);
      if width + w > maxWidth && |current| > 0 {
        WrapCharsLosesNothing(cs[1..], cs[0], w, maxWidth);
        FirstRow(WrappedRow(current, width), WrapChars(cs[1..], cs[0], w, maxWidth));
      } else {
        WrapCharsLosesNothing(cs[1..], current + cs[0], width + w, maxWidth);
        assert current + cs[0] + Flat(cs[1..]) == current + (cs[0] + Flat(cs[1..]));
      }
    }
  }

  /** At every width, the rows joined are the line: nothing is lost, added or reordered. */
  lemma {:induction false} WrapLosesNothing(line: Text, maxWidth: int)
    ensures Flat(Texts(Wrap(line, maxWidth))) == line
  {
    CharsAreCanonical(line);
    if maxWidth <= 0 {
      assert Texts(Wrap(line, maxWidth)) == [line];
    } else {
      WrapCharsLosesNothing(Chars(line), [], 0, maxWidth);
    }
  }

  ghost predicate TrueWidths(rows: seq<WrappedRow>) {
    forall k :: 0 <= k < |rows| ==> rows[k].width == Width(Chars(rows[k].text))
  }

  lemma {:induction false} CanonicalParts(a: seq<Text>, b: seq<Text>)
    requires Canonical(a + b)
    ensures Canonical(a) && Canonical(b)
  {
    assert forall k :: 0 <= k < |a| ==> a[k] == (a + b)[k];
    assert forall k :: 0 <= k < |b| ==> b[k] == (a + b)[|a| + k];
  }

  /** `begun` are the characters of the current row. */
  lemma {:induction false} WrapCharsWidths(begun: seq<Text>, cs: seq<Text>, maxWidth: int)
    requires Canonical(begun + cs)
    ensures TrueWidths(WrapChars(cs, Flat(begun), Width(begun), maxWidth))
    decreases |cs|
  {
    CanonicalParts(begun, cs);
    CanonicalSplits(begun);
    if cs != [] {
      var ch, rest := cs[0], cs[1..];
      var row := WrappedRow(Flat(begun), Width(begun));
      if row.width + CharDisplayWidth(ch) > maxWidth && |row.text| > 0 {
        OneCharRow(ch);
        assert cs == [ch] + rest;
        WrapCharsWidths([ch], rest, maxWidth);
        RowThenTrueWidths(row, WrapChars(rest, ch, CharDisplayWidth(ch), maxWidth));
      } else {
        RowGrows(begun, ch, rest);
        assert cs == [ch] + rest;
        WrapCharsWidths(begun + [ch], rest, maxWidth);
      }
    }
  }

  lemma {:induction false} RowGrows(begun: seq<Text>, ch: Text, rest: seq<Text>)
    ensures Flat(begun + [ch]) == Flat(begun) + ch && Width(begun + [ch]) == Width(begun) + CharDisplayWidth(ch)
    ensures begun + ([ch] + rest) == begun + [ch] + rest
  {
    FlatAppend(begun, ch);
    WidthAppend(begun, ch);
  }

  lemma {:induction false} OneCharRow(ch: Text)
    ensures Flat([ch]) == ch && Width([ch]) == CharDisplayWidth(ch)
  {
  }

  lemma {:induction false} RowThenTrueWidths(row: WrappedRow, rest: seq<WrappedRow>)
    requires row.width == Width(Chars(row.text)) && TrueWidths(rest)
    ensures TrueWidths([row] + rest)
  {
  }

  /** Every row records its own display width. */
  lemma {:induction false} WrapRecordsWidths(line: Text, maxWidth: int)
    ensures TrueWidths(Wrap(line, maxWidth))
  {
    if maxWidth > 0 {
      CharsAreCanonical(line);
      var none: seq<Text> := [];
      assert none + Chars(line) == Chars(line);
      WrapCharsWidths(none, Chars(line), maxWidth);
      assert Wrap(line, maxWidth) == WrapChars(Chars(line), Flat(none), Width(none), maxWidth);
    }
  }

  predicate AllFit(cs: seq<Text>, maxWidth: int) {
    forall k :: 0 <= k < |cs| ==> CharDisplayWidth(cs[k]) <= maxWidth
  }

  lemma {:induction false} WrapCharsFits(cs: seq<Text>, current: Text, width: nat, maxWidth: int)
    requires maxWidth >= 1 && (current == [] ==> width == 0)
    requires forall k :: 0 <= k < |cs| ==> cs[k] != []
    ensures var rows := WrapChars(cs, current, width, maxWidth);
      (forall k :: 0 <= k < |rows| ==> rows[k].width <= maxWidth) <==> width <= maxWidth && AllFit(cs, maxWidth)
    ensures WrapChars(cs, current, width, maxWidth)[0].width >= width
    decreases |cs|
  {
    if cs != [] {
      var w := CharDisplayWidth(cs[0]);
      if width + w > maxWidth && |current| > 0 {
        var rest := WrapChars(cs[1..], cs[0], w, maxWidth);
        WrapCharsFits(cs[1..], cs[0], w, maxWidth);
        var rows := WrapChars(cs, current, width, maxWidth);
        assert rows == [WrappedRow(current, width)] + rest;
        assert forall k :: 0 <= k < |rest| ==> rest[k] == rows[k + 1];
      } else {
        WrapCharsFits(cs[1..], current + cs[0], width + w, maxWidth);
      }
    } else {
      assert WrapChars(cs, current, width, maxWidth)[0].width == width;
    }
  }

  /** From width 1 on, every row fits exactly when every character does; from width 2 on, always. */
  lemma {:induction false} RowsFit(line: Text, maxWidth: int)
    requires maxWidth >= 1
    ensures (forall k :: 0 <= k < |Wrap(line, maxWidth)| ==> Wrap(line, maxWidth)[k].width <= maxWidth)
      <==> AllFit(Chars(line), maxWidth)
    ensures maxWidth >= 2 ==> AllFit(Chars(line), maxWidth)
  {
    CharsAreCanonical(line);
    WrapCharsFits(Chars(line), [], 0, maxWidth);
    assert Wrap(line, maxWidth) == WrapChars(Chars(line), [], 0, maxWidth);
  }

  // ---- no other cutting needs fewer rows

  /** Number of rows of greedy wrapping when the current row has `used` columns taken. */
  function Rows(cs: seq<Text>, used: nat, maxWidth: nat): nat {
    if cs == [] then 1
    else
      var w := CharDisplayWidth(cs[0]);
      if used + w > maxWidth then 1 + Rows(cs[1..], w, maxWidth) else Rows(cs[1..], used + w, maxWidth)
  }

  lemma {:induction false} WrapCharsCount(cs: seq<Text>, current: Text, used: nat, maxWidth: nat)
    requires AllFit(cs, maxWidth) && (current == [] ==> used == 0)
    requires forall k :: 0 <= k < |cs| ==> cs[k] != []
    ensures |WrapChars(cs, current, used, maxWidth)| == Rows(cs, used, maxWidth)
    decreases |cs|
  {
    if cs != [] {
      var w := CharDisplayWidth(cs[0]);
      if used + w > maxWidth {
        WrapCharsCount(cs[1..], cs[0], w, maxWidth);
      } else {
        WrapCharsCount(cs[1..], current + cs[0], used + w, maxWidth);
      }
    }
  }

  /** A fuller row costs at most one more row. */
  lemma {:induction false} RowsMonotone(cs: seq<Text>, less: nat, more: nat, maxWidth: nat)
    requires less <= more
    ensures Rows(cs, less, maxWidth) <= Rows(cs, more, maxWidth) <= Rows(cs, less, maxWidth) + 1
  {
    if cs != [] {
      var w := CharDisplayWidth(cs[0]);
      if less + w <= maxWidth {
        if more + w > maxWidth {
          RowsMonotone(cs[1..], w, less + w, maxWidth);
        } else {
          RowsMonotone(cs[1..], less + w, more + w, maxWidth);
        }
      }
    }
  }

  function Joined(cut: seq<seq<Text>>): seq<Text> {
    if cut == [] then [] else cut[0] + Joined(cut[1..])
  }

  /** `cut` divides `cs` into rows; its first row joins `used` columns already taken. */
  lemma {:induction false} GreedyNeedsNoMore(cs: seq<Text>, cut: seq<seq<Text>>, used: nat, maxWidth: nat)
    requires cut != [] && Joined(cut) == cs && used + Width(cut[0]) <= maxWidth
    requires forall k :: 0 <= k < |cut| ==> Width(cut[k]) <= maxWidth
    ensures Rows(cs, used, maxWidth) <= |cut|
    decreases |cut|, |cut[0]|
  {
    if cut[0] == [] {
      if |cut| == 1 {
        assert Joined(cut[1..]) == [];
      } else {
        assert Joined(cut) == Joined(cut[1..]);
        GreedyNeedsNoMore(cs, cut[1..], 0, maxWidth);
        RowsMonotone(cs, 0, used, maxWidth);
      }
    } else {
      var ch := cut[0][0];
      var cut' := [cut[0][1..]] + cut[1..];
      assert cs == [ch] + (cut[0][1..] + Joined(cut[1..]));
      assert cut'[1..] == cut[1..];
      GreedyNeedsNoMore(cs[1..], cut', used + CharDisplayWidth(ch), maxWidth);
    }
  }

  lemma {:induction false} CutFits(cut: seq<seq<Text>>, maxWidth: nat)
    requires forall k :: 0 <= k < |cut| ==> Width(cut[k]) <= maxWidth
    ensures AllFit(Joined(cut), maxWidth)
  {
    if cut != [] {
      CutFits(cut[1..], maxWidth);
      RowFits(cut[0], maxWidth);
    }
  }

  lemma {:induction false} RowFits(row: seq<Text>, maxWidth: nat)
    requires Width(row) <= maxWidth
    ensures AllFit(row, maxWidth)
  {
    if row != [] { RowFits(row[1..], maxWidth); }
  }

  /** No way of cutting the line's characters into rows that fit uses fewer rows. */
  lemma {:induction false} WrapIsOptimal(line: Text, cut: seq<seq<Text>>, maxWidth: nat)
    requires maxWidth >= 1 && cut != [] && Joined(cut) == Chars(line)
    requires forall k :: 0 <= k < |cut| ==> Width(cut[k]) <= maxWidth
    ensures |Wrap(line, maxWidth)| <= |cut|
  {
    CharsAreCanonical(line);
    CutFits(cut, maxWidth);
    WrapCharsCount(Chars(line), [], 0, maxWidth);
    GreedyNeedsNoMore(Chars(line), cut, 0, maxWidth);
  }

  // ---- the cursor

  /** Rows the cursor moves down while it passes `units`, from `width` columns on. */
  function CursorDescent(units: Text, width: nat, maxWidth: int): nat {
    if units == [] then 0
    else
      var w := Width(Chars([units[0]]));
      if width + w > maxWidth then 1 + CursorDescent(units[1..], w, maxWidth)
      else CursorDescent(units[1..], width + w, maxWidth)
  }

  function RowsAbove(lines: seq<Text>, n: int, maxWidth: int): nat
    requires n <= |lines|
  {
    if n <= 0 then 0 else RowsAbove(lines, n - 1, maxWidth) + |Wrap(lines[n - 1], maxWidth)|
  }

  function LineAt(lines: seq<Text>, i: int): Text {
    if 0 <= i < |lines| then lines[i] else []
  }

  function Before(line: Text, col: int): Text {
    if col <= 0 then [] else if col < |line| then line[..col] else line
  }

  function CursorRow(cursorLine: int, cursorCol: int, lines: seq<Text>, maxWidth: int): nat {
    RowsAbove(lines, if cursorLine < |lines| then cursorLine else |lines|, maxWidth)
    + CursorDescent(Before(LineAt(lines, cursorLine), cursorCol), 0, maxWidth)
  }

  method FindCursorDisplayRow(cursorLine: int, cursorCol: int, lines: seq<Text>, maxWidth: int) returns (row: nat)
    ensures row == CursorRow(cursorLine, cursorCol, lines, maxWidth)
  {
    row := 0;
    var i := 0;
    while i < cursorLine && i < |lines|
      invariant 0 <= i <= |lines| && (i <= cursorLine || i == 0)
      invariant row == RowsAbove(lines, i, maxWidth)
    {
      var rows := WrapLineToRows(lines[i], maxWidth);
      row := row + |rows|;
      i := i + 1;
    }
    ghost var n := if cursorLine < |lines| then cursorLine else |lines|;
    assert row == RowsAbove(lines, n, maxWidth) by { assert n == i || n <= 0 == i; }
    var below := DescendLine(LineAt(lines, cursorLine), cursorCol, maxWidth);
    row := row + below;
  }

  /** The second loop of the cursor computation, over the code units before the cursor. */
  method DescendLine(line: Text, col: int, maxWidth: int) returns (row: nat)
    ensures row == CursorDescent(Before(line, col), 0, maxWidth)
  {
    row := 0;
    ghost var passed := Before(line, col);
    var width: nat := 0;
    var c := 0;
    while c < col && c < |line|
      invariant 0 <= c <= |passed|
      invariant row + CursorDescent(passed[c..], width, maxWidth) == CursorDescent(passed, 0, maxWidth)
    {
      var w := DisplayWidth([line[c]]);
      if width + w > maxWidth {
        row := row + 1;
        width := 0;
      }
      width := width + w;
      c := c + 1;
    }
  }

  // ---- strings as code points

  /** The UTF-16 form of a code point. */
  function Encode(code: nat): (units: Text)
    requires code <= 0x10ffff
    ensures units != []
  {
    if code < 0x10000 then [code] else [0xd800 + (code - 0x10000) / 0x400, 0xdc00 + (code - 0x10000) % 0x400]
  }

  /** A code point that is not half of a pair. */
  predicate Scalar(code: nat) { code <= 0xd7ff || 0xe000 <= code <= 0x10ffff }

  ghost predicate Scalars(codes: seq<nat>) { forall i :: 0 <= i < |codes| ==> Scalar(codes[i]) }

  function EncodeEach(codes: seq<nat>): seq<Text>
    requires Scalars(codes)
  {
    seq(|codes|, i requires 0 <= i < |codes| => Encode(codes[i]))
  }

  /** First and last code points that take two columns. */
  const WIDE: set<(nat, nat)> := {
    (0x1100, 0x115f), (0x2329, 0x232a), (0x2e80, 0x303e), (0x3040, 0xa4cf), (0xac00, 0xd7a3), (0xf900, 0xfaff),
    (0xfe10, 0xfe19), (0xfe30, 0xfe6f), (0xff00, 0xff60), (0xffe0, 0xffe6), (0x20000, 0x2fffd), (0x30000, 0x3fffd)}

  /** Control characters and combining marks take none. */
  const WIDTHLESS: set<(nat, nat)> := {(0x0, 0x1f), (0x300, 0x36f)}

  predicate Within(code: nat, ranges: set<(nat, nat)>) { exists r :: r in ranges && r.0 <= code <= r.1 }

  function Columns(code: nat): nat { if Within(code, WIDE) then 2 else if Within(code, WIDTHLESS) then 0 else 1 }

  function TotalColumns(codes: seq<nat>): nat {
    if codes == [] then 0 else Columns(codes[0]) + TotalColumns(codes[1..])
  }

  lemma {:induction false} EncodedFirst(code: nat, rest: Text)
    requires Scalar(code)
    ensures var text := Encode(code) + rest;
      CharLength(text) == |Encode(code)| && CodePointAt(text) == CodePointAt(Encode(code)) == code
  {
    if code >= 0x10000 {
      var q, r := (code - 0x10000) / 0x400, (code - 0x10000) % 0x400;
      assert q < 0x400 && r < 0x400 && q * 0x400 + r == code - 0x10000;
    }
  }

  lemma {:induction false} InRange(code: nat, ranges: set<(nat, nat)>, r: (nat, nat))
    requires r in ranges && r.0 <= code <= r.1
    ensures Within(code, ranges)
  {
  }

  lemma {:induction false} WithinRanges(code: nat)
    ensures Within(code, WIDTHLESS) <==> code < 0x20 || 0x300 <= code <= 0x36f
    ensures Within(code, WIDE) <==>
      (0x1100 <= code <= 0x115f) || (0x2329 <= code <= 0x232a) || (0x2e80 <= code <= 0x303e)
      || (0x3040 <= code <= 0xa4cf) || (0xac00 <= code <= 0xd7a3) || (0xf900 <= code <= 0xfaff)
      || (0xfe10 <= code <= 0xfe19) || (0xfe30 <= code <= 0xfe6f) || (0xff00 <= code <= 0xff60)
      || (0xffe0 <= code <= 0xffe6) || (0x20000 <= code <= 0x2fffd) || (0x30000 <= code <= 0x3fffd)
  {
    forall r | r in WIDE && r.0 <= code <= r.1 ensures Within(code, WIDE) { InRange(code, WIDE, r); }
    forall r | r in WIDTHLESS && r.0 <= code <= r.1 ensures Within(code, WIDTHLESS) { InRange(code, WIDTHLESS, r); }
    assert {(0x1100, 0x115f), (0x2329, 0x232a), (0x2e80, 0x303e), (0x3040, 0xa4cf)} <= WIDE;
    assert {(0xac00, 0xd7a3), (0xf900, 0xfaff), (0xfe10, 0xfe19), (0xfe30, 0xfe6f)} <= WIDE;
    assert {(0xff00, 0xff60), (0xffe0, 0xffe6), (0x20000, 0x2fffd), (0x30000, 0x3fffd)} <= WIDE;
    assert {(0x0, 0x1f), (0x300, 0x36f)} <= WIDTHLESS;
  }

  /** A string of code points is visited code point by code point, and its width is the sum of their
   *  columns. */
  lemma {:induction false} WidthOfString(codes: seq<nat>)
    requires Scalars(codes)
    ensures Chars(Flat(EncodeEach(codes))) == EncodeEach(codes)
    ensures Width(Chars(Flat(EncodeEach(codes)))) == TotalColumns(codes)
  {
    if codes != [] {
      var first, rest := Encode(codes[0]), Flat(EncodeEach(codes[1..]));
      assert EncodeEach(codes) == [first] + EncodeEach(codes[1..]);
      EncodedFirst(codes[0], rest);
      assert (first + rest)[..|first|] == first && (first + rest)[|first|..] == rest;
      WidthOfString(codes[1..]);
      ColumnsAre(codes[0]);
    }
  }

  /** The display width of a character is that of its code point: two columns for the East Asian wide
   *  ranges, none for control characters and combining marks, else one. */
  lemma {:induction false} ColumnsAre(code: nat)
    requires Scalar(code)
    ensures CharDisplayWidth(Encode(code)) == Columns(code)
  {
    EncodedFirst(code, []);
    assert Encode(code) + [] == Encode(code);
    WithinRanges(code);
  }
}
