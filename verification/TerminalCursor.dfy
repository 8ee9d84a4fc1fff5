/** Where the two computations of the cursor's row agree: the wrapper counts characters, the descent
 *  counts code units. */
module TerminalCursor {
  import opened Terminal

  /** No high surrogate is followed by a low one. */
  predicate NoPairs(s: Text) {
    forall i :: 0 <= i < |s| - 1 ==> !(High(s[i]) && Low(s[i + 1]))
  }

  lemma {:induction false} SingleUnits(s: Text)
    requires NoPairs(s)
    ensures |Chars(s)| == |s| && forall i :: 0 <= i < |s| ==> Chars(s)[i] == [s[i]]
  {
    if s != [] { SingleUnits(s[1..]); }
  }

  lemma {:induction false} UnitWidth(u: CodeUnit)
    ensures Width(Chars([u])) == CharDisplayWidth([u])
  {
  }

  lemma {:induction false} DescentCountsBreaks(s: Text, cs: seq<Text>, current: Text, width: nat, maxWidth: int)
    requires |cs| == |s| && (forall i :: 0 <= i < |s| ==> cs[i] == [s[i]]) && current != []
    ensures |WrapChars(cs, current, width, maxWidth)| == 1 + CursorDescent(s, width, maxWidth)
    decreases |cs|
  {
    if cs != [] {
      UnitWidth(s[0]);
      var w := CharDisplayWidth(cs[0]);
      if width + w > maxWidth {
        DescentCountsBreaks(s[1..], cs[1..], cs[0], w, maxWidth);
      } else {
        DescentCountsBreaks(s[1..], cs[1..], current + cs[0], width + w, maxWidth);
      }
    }
  }

  lemma {:induction false} DescentWithoutRoom(s: Text, width: nat, maxWidth: int)
    requires maxWidth <= 0 && (maxWidth == 0 ==> width == 0)
    ensures CursorDescent(s, width, maxWidth) == 0 <==>
      s == [] || (maxWidth == 0 && forall i :: 0 <= i < |s| ==> CharDisplayWidth([s[i]]) == 0)
  {
    if s != [] {
      UnitWidth(s[0]);
      if width + CharDisplayWidth([s[0]]) <= maxWidth {
        DescentWithoutRoom(s[1..], 0, maxWidth);
        assert forall i :: 1 <= i < |s| ==> s[i] == s[1..][i - 1];
      }
    }
  }

  /** Columns the code units take one by one. */
  function UnitWidths(s: Text): nat {
    if s == [] then 0 else CharDisplayWidth([s[0]]) + UnitWidths(s[1..])
  }

  /** A character is never wider than its code units are together. */
  lemma {:induction false} UnitsAreWider(s: Text)
    ensures Width(Chars(s)) <= UnitWidths(s)
  {
    if s != [] {
      var n := CharLength(s);
      UnitsAreWider(s[n..]);
      if n == 2 {
        assert CharDisplayWidth([s[0]]) == 1 && CharDisplayWidth([s[1]]) == 1;
        assert s[1..][0] == s[1] && s[1..][1..] == s[2..];
      } else {
        assert s[..1] == [s[0]];
      }
    }
  }

  lemma {:induction false} DescentWithinRow(s: Text, width: nat, maxWidth: int)
    requires width <= maxWidth
    ensures CursorDescent(s, width, maxWidth) == 0 <==> width + UnitWidths(s) <= maxWidth
  {
    if s != [] {
      UnitWidth(s[0]);
      var w := CharDisplayWidth([s[0]]);
      if width + w <= maxWidth { DescentWithinRow(s[1..], width + w, maxWidth); }
    }
  }

  lemma {:induction false} OneRow(cs: seq<Text>, current: Text, width: nat, maxWidth: int)
    requires width + Width(cs) <= maxWidth
    ensures |WrapChars(cs, current, width, maxWidth)| == 1
    decreases |cs|
  {
    if cs != [] { OneRow(cs[1..], current + cs[0], width + CharDisplayWidth(cs[0]), maxWidth); }
  }

  // ---- rows whose characters and units break alike

  /** Row by row below a row on which `before` columns were counted: the first character does not fit
   *  there, and the units of the row have room, but for the half of a pair counted on the row above. */
  predicate RowsInStep(texts: seq<Text>, before: int, maxWidth: int)
    decreases texts, 1
  {
    texts == [] ||
    (texts[0] != []
      && before + UnitWidths(texts[0][..CharLength(texts[0])]) > maxWidth
      && RowInStep(texts, if StartsPair(texts[0]) && before < maxWidth then 1 else 0, false, maxWidth))
  }

  /** `carry` columns of the first row were counted on the row above. A single unit has a row of its own
   *  at any width, but not in the `first` row. */
  predicate RowInStep(texts: seq<Text>, carry: nat, first: bool, maxWidth: int)
    requires texts != []
    decreases texts, 0
  {
    var fill := UnitWidths(texts[0]) - carry;
    (fill <= maxWidth || (!first && |texts[0]| == 1)) && RowsInStep(texts[1..], fill, maxWidth)
  }

  /** The columns counted after passing the units, from `width` on. */
  function FillAfter(units: Text, width: nat, maxWidth: int): nat {
    if units == [] then width
    else
      var w := Width(Chars([units[0]]));
      FillAfter(units[1..], if width + w > maxWidth then w else width + w, maxWidth)
  }

  lemma {:induction false} DescentSplit(a: Text, b: Text, width: nat, maxWidth: int)
    ensures CursorDescent(a + b, width, maxWidth) ==
      CursorDescent(a, width, maxWidth) + CursorDescent(b, FillAfter(a, width, maxWidth), maxWidth)
  {
    if a == [] {
      assert a + b == b;
    } else {
      var w := Width(Chars([a[0]]));
      assert (a + b)[1..] == a[1..] + b;
      DescentSplit(a[1..], b, if width + w > maxWidth then w else width + w, maxWidth);
    }
  }

  lemma {:induction false} UnitWidthsAppend(a: Text, b: Text)
    ensures UnitWidths(a + b) == UnitWidths(a) + UnitWidths(b)
  {
    if a == [] {
      assert a + b == b;
    } else {
      assert (a + b)[1..] == a[1..] + b;
      UnitWidthsAppend(a[1..], b);
    }
  }

  predicate IsChar(ch: Text) { ch != [] && CharLength(ch) == |ch| }

  lemma {:induction false} OfOneUnit(u: CodeUnit, width: nat, maxWidth: int)
    ensures UnitWidths([u]) == CharDisplayWidth([u])
    ensures var w := CharDisplayWidth([u]); var breaks := width + w > maxWidth;
      CursorDescent([u], width, maxWidth) == (if breaks then 1 else 0) && FillAfter([u], width, maxWidth) ==
        if breaks then w else width + w
  {
    UnitWidth(u);
    assert [u][0] == u && [u][1..] == [];
  }

  lemma {:induction false} UnitsOfChar(ch: Text)
    requires IsChar(ch)
    ensures |ch| == 1 ==> UnitWidths(ch) == CharDisplayWidth(ch)
    ensures |ch| == 2 ==>
      StartsPair(ch) && UnitWidths(ch) == 2 && CharDisplayWidth(ch[..1]) == CharDisplayWidth(ch[1..]) == 1
  {
    OfOneUnit(ch[0], 0, 0);
    if |ch| == 1 {
      assert ch == [ch[0]];
    } else {
      assert ch == [ch[0]] + [ch[1]] && ch[..1] == [ch[0]] && ch[1..] == [ch[1]];
      OfOneUnit(ch[1], 0, 0);
    }
  }

  /** A character that does not fit takes the cursor down one row; only a pair may take it down two. */
  predicate OneRowDown(ch: Text, width: nat, maxWidth: int) {
    |ch| == 1 || width < maxWidth || (width == maxWidth && maxWidth >= 2)
  }

  /** What one character does to the descent. */
  lemma {:induction false} DescentOfChar(ch: Text, width: nat, maxWidth: int)
    requires IsChar(ch) && maxWidth >= 1
    ensures var u, d, fill := UnitWidths(ch), CursorDescent(ch, width, maxWidth), FillAfter(ch, width, maxWidth);
      if width + u <= maxWidth then d == 0 && fill == width + u
      else if OneRowDown(ch, width, maxWidth) then d == 1
        && fill == u - (if |ch| == 2 && width < maxWidth then 1 else 0)
      else d >= 1 && (maxWidth == 1 ==> d == 2)
  {
    UnitsOfChar(ch);
    OfOneUnit(ch[0], width, maxWidth);
    if |ch| == 1 {
      assert ch == [ch[0]];
    } else {
      assert ch == [ch[0]] + [ch[1]] && ch[..1] == [ch[0]] && ch[1..] == [ch[1]];
      OfOneUnit(ch[1], FillAfter([ch[0]], width, maxWidth), maxWidth);
      UnitWidth(ch[0]);
    }
  }

  // ---- along the wrapping

  /** From here on every character moves the cursor down exactly when it begins a row. */
  predicate StepByStep(cs: seq<Text>, begun: bool, width: nat, fill: nat, maxWidth: int) {
    if cs == [] then true
    else
      var w := CharDisplayWidth(cs[0]);
      var breaks := begun && width + w > maxWidth;
      && CursorDescent(cs[0], fill, maxWidth) == (if breaks then 1 else 0)
      && StepByStep(cs[1..], true, if breaks then w else width + w, FillAfter(cs[0], fill, maxWidth), maxWidth)
  }

  /** After `n` more characters the rows begun and the rows descended are as many. */
  predicate EvenAfter(cs: seq<Text>, n: nat, current: Text, width: nat, fill: nat, maxWidth: int)
    requires n <= |cs|
  {
    |WrapChars(cs[..n], current, width, maxWidth)| - 1 == CursorDescent(Flat(cs[..n]), fill, maxWidth)
  }

  lemma {:induction false} EvenAfterOne(cs: seq<Text>, n: nat, current: Text, width: nat, fill: nat, maxWidth: int)
    requires n < |cs|
    ensures var ch, w := cs[0], CharDisplayWidth(cs[0]); var breaks := current != [] && width + w > maxWidth;
      EvenAfter(cs, n + 1, current, width, fill, maxWidth) <==>
        (if breaks then 1 else 0)
          + |WrapChars(cs[1..][..n], if breaks then ch else current + ch,
                       if breaks then w else width + w, maxWidth)| - 1
        == CursorDescent(ch, fill, maxWidth)
          + CursorDescent(Flat(cs[1..][..n]), FillAfter(ch, fill, maxWidth), maxWidth)
  {
    assert cs[..n + 1][0] == cs[0] && cs[..n + 1][1..] == cs[1..][..n];
    DescentSplit(cs[0], Flat(cs[1..][..n]), fill, maxWidth);
  }

  lemma {:induction false} EvenIffStepByStep(cs: seq<Text>, current: Text, width: nat, fill: nat, maxWidth: int)
    requires forall k :: 0 <= k < |cs| ==> cs[k] != []
    ensures (forall n :: 0 <= n <= |cs| ==> EvenAfter(cs, n, current, width, fill, maxWidth))
      <==> StepByStep(cs, current != [], width, fill, maxWidth)
  {
    assert cs[..0] == [];
    if cs != [] {
      var ch, w := cs[0], CharDisplayWidth(cs[0]);
      var breaks := current != [] && width + w > maxWidth;
      assert cs[1..][..0] == [];
      EvenAfterOne(cs, 0, current, width, fill, maxWidth);
      if CursorDescent(ch, fill, maxWidth) == if breaks then 1 else 0 {
        var current', width' := if breaks then ch else current + ch, if breaks then w else width + w;
        EvenAfterRest(cs, current, width, fill, current', width', FillAfter(ch, fill, maxWidth), maxWidth);
        EvenIffStepByStep(cs[1..], current', width', FillAfter(ch, fill, maxWidth), maxWidth);
      } else {
        assert !EvenAfter(cs, 1, current, width, fill, maxWidth);
      }
    }
  }

  /** Behind a character that moves both alike, both stay even if and only if they do from there on. */
  lemma {:induction false} EvenAfterRest(cs: seq<Text>, current: Text, width: nat, fill: nat, current': Text,
          width': nat, fill': nat, maxWidth: int)
    requires cs != [] && fill' == FillAfter(cs[0], fill, maxWidth)
    requires var ch, w := cs[0], CharDisplayWidth(cs[0]);
      if current != [] && width + w > maxWidth then CursorDescent(ch, fill, maxWidth) == 1 && current' == ch
        && width' == w
      else CursorDescent(ch, fill, maxWidth) == 0 && current' == current + ch && width' == width + w
    ensures (forall n :: 0 <= n <= |cs| ==> EvenAfter(cs, n, current, width, fill, maxWidth)) <==>
      (forall n :: 0 <= n <= |cs[1..]| ==> EvenAfter(cs[1..], n, current', width', fill', maxWidth))
  {
    assert cs[..0] == [];
    forall n: nat | n < |cs|
      ensures EvenAfter(cs, n + 1, current, width, fill, maxWidth) <==>
        EvenAfter(cs[1..], n, current', width', fill', maxWidth)
    {
      EvenAfterOne(cs, n, current, width, fill, maxWidth);
    }
    if forall n :: 0 <= n <= |cs[1..]| ==> EvenAfter(cs[1..], n, current', width', fill', maxWidth) {
      forall n | 0 <= n <= |cs| ensures EvenAfter(cs, n, current, width, fill, maxWidth) {
        if n > 0 { assert EvenAfter(cs[1..], n - 1, current', width', fill', maxWidth); }
      }
    }
    if forall n :: 0 <= n <= |cs| ==> EvenAfter(cs, n, current, width, fill, maxWidth) {
      forall n | 0 <= n <= |cs[1..]| ensures EvenAfter(cs[1..], n, current', width', fill', maxWidth) {
        assert EvenAfter(cs, n + 1, current, width, fill, maxWidth);
      }
    }
  }

  lemma {:induction false} RowBegins(cs: seq<Text>, current: Text, width: nat, maxWidth: int)
    ensures var t := WrapChars(cs, current, width, maxWidth)[0].text; current <= t <= current + Flat(cs)
    decreases |cs|
  {
    if cs != [] {
      var w := CharDisplayWidth(cs[0]);
      assert current + cs[0] + Flat(cs[1..]) == current + Flat(cs);
      if !(width + w > maxWidth && |current| > 0) { RowBegins(cs[1..], current + cs[0], width + w, maxWidth); }
    }
  }

  lemma {:induction false} FirstCharOfRow(ch: Text, cs: seq<Text>, width: nat, maxWidth: int)
    requires Canonical([ch] + cs)
    ensures var t := WrapChars(cs, ch, width, maxWidth)[0].text;
      t != [] && t[..CharLength(t)] == ch && (StartsPair(t) <==> |ch| == 2) && UnitWidths(ch) <= UnitWidths(t)
  {
    var t := WrapChars(cs, ch, width, maxWidth)[0].text;
    assert IsChar(([ch] + cs)[0]);
    RowBegins(cs, ch, width, maxWidth);
    UnitWidthsAppend(ch, t[|ch|..]);
    assert t == ch + t[|ch|..];
    CanonicalParts([ch], cs);
    CanonicalSplits(cs);
    if |t| > |ch| == 1 {
      assert cs != [] && t[1] == (ch + Flat(cs))[1] == cs[0][0];
      assert ([ch] + cs)[1] == cs[0];
    }
    if |ch| == 2 { UnitsOfChar(ch); }
  }

  /** The first row is no less filled than what it begins with. */
  lemma {:induction false} RowFill(cs: seq<Text>, current: Text, ch: Text, width: nat, maxWidth: int)
    ensures var t := WrapChars(cs, current + ch, width, maxWidth)[0].text;
      UnitWidths(current) + UnitWidths(ch) <= UnitWidths(t) && |current| + |ch| <= |t|
  {
    var t := WrapChars(cs, current + ch, width, maxWidth)[0].text;
    RowBegins(cs, current + ch, width, maxWidth);
    UnitWidthsAppend(current, ch);
    UnitWidthsAppend(current + ch, t[|current + ch|..]);
    assert t == (current + ch) + t[|current + ch|..];
  }

  lemma {:induction false} TextsCons(row: WrappedRow, rows: seq<WrappedRow>)
    ensures Texts([row] + rows) == [row.text] + Texts(rows)
  {
  }

  /** The row under way: `fill` of its columns are counted on it and `carry` on the row above. */
  ghost predicate UnderWay(current: Text, width: nat, fill: nat, carry: nat, first: bool, maxWidth: int) {
    && fill + carry == UnitWidths(current)
    && (fill <= maxWidth || (width > maxWidth && !first && |current| == 1))
    && (current == [] ==> width == 0 && first)
  }

  lemma {:induction false} StepsAreRows(cs: seq<Text>, current: Text, width: nat, fill: nat, carry: nat, first: bool,
          maxWidth: int)
    requires maxWidth >= 1 && Canonical(cs) && UnderWay(current, width, fill, carry, first, maxWidth)
    ensures StepByStep(cs, current != [], width, fill, maxWidth) <==>
      RowInStep(Texts(WrapChars(cs, current, width, maxWidth)), carry, first, maxWidth)
    decreases |cs|
  {
    if cs == [] {
      assert Texts(WrapChars(cs, current, width, maxWidth)) == [current];
    } else {
      var ch, w := cs[0], CharDisplayWidth(cs[0]);
      if current != [] && width + w > maxWidth {
        NextRow(cs, current, width, fill, carry, first, maxWidth);
      } else {
        SameRowOn(cs, current, width, fill, carry, first, maxWidth);
      }
    }
  }

  lemma {:induction false} Overfull(cs: seq<Text>, current: Text, ch: Text, width: nat, fill: nat, carry: nat,
          first: bool, maxWidth: int)
    requires fill + carry == UnitWidths(current) && fill + UnitWidths(ch) > maxWidth && ch != []
      && (current == [] ==> first)
    ensures !RowInStep(Texts(WrapChars(cs, current + ch, width, maxWidth)), carry, first, maxWidth)
  {
    RowFill(cs, current, ch, width, maxWidth);
  }

  /** At width 1 a pair that finds the row filled takes the cursor down two rows, and its row is overfull. */
  lemma {:induction false} PairWithoutRoom(ch: Text, cs: seq<Text>, w: nat, current: Text, width: nat, fill: nat,
          carry: nat, first: bool, maxWidth: int)
    requires maxWidth >= 1 && Canonical([ch] + cs) && UnderWay(current, width, fill, carry, first, maxWidth)
    requires IsChar(ch) && !OneRowDown(ch, fill, maxWidth)
    ensures maxWidth == 1 && |ch| == 2 && fill >= maxWidth
    ensures !RowInStep(Texts(WrapChars(cs, ch, w, maxWidth)), 0, false, maxWidth)
  {
    if fill > maxWidth { UnitsOfChar(current); }
    UnitsOfChar(ch);
    FirstCharOfRow(ch, cs, w, maxWidth);
  }

  lemma {:induction false} SameRowOn(cs: seq<Text>, current: Text, width: nat, fill: nat, carry: nat, first: bool,
          maxWidth: int)
    requires maxWidth >= 1 && cs != [] && Canonical(cs) && UnderWay(current, width, fill, carry, first, maxWidth)
    requires current == [] || width + CharDisplayWidth(cs[0]) <= maxWidth
    ensures StepByStep(cs, current != [], width, fill, maxWidth) <==>
      RowInStep(Texts(WrapChars(cs, current, width, maxWidth)), carry, first, maxWidth)
    decreases |cs|, 0
  {
    var ch, w := cs[0], CharDisplayWidth(cs[0]);
    assert IsChar(ch) && cs == [ch] + cs[1..];
    CanonicalParts([ch], cs[1..]);
    StepAlong(cs, current != [], width, fill, maxWidth);
    if fill + UnitWidths(ch) <= maxWidth {
      UnitWidthsAppend(current, ch);
      StepsAreRows(cs[1..], current + ch, width + w, fill + UnitWidths(ch), carry, first, maxWidth);
    } else {
      Overfull(cs[1..], current, ch, width + w, fill, carry, first, maxWidth);
    }
  }

  lemma {:induction false} StepAlong(cs: seq<Text>, begun: bool, width: nat, fill: nat, maxWidth: int)
    requires maxWidth >= 1 && cs != [] && IsChar(cs[0]) && (begun ==> width + CharDisplayWidth(cs[0]) <= maxWidth)
    ensures var ch := cs[0]; var u := UnitWidths(ch);
      StepByStep(cs, begun, width, fill, maxWidth) <==>
        (fill + u <= maxWidth && StepByStep(cs[1..], true, width + CharDisplayWidth(ch), fill + u, maxWidth))
  {
    DescentOfChar(cs[0], fill, maxWidth);
  }

  /** A row begun by `ch` below a row of `fill` columns. */
  lemma {:induction false} RowBelow(current: Text, width: nat, ch: Text, rows: seq<WrappedRow>, fill: nat, carry: nat,
          first: bool, maxWidth: int)
    requires UnderWay(current, width, fill, carry, first, maxWidth) && rows != []
    requires var t := rows[0].text; t != [] && t[..CharLength(t)] == ch && (StartsPair(t) <==> |ch| == 2)
    ensures RowInStep(Texts([WrappedRow(current, width)] + rows), carry, first, maxWidth) <==>
      (fill + UnitWidths(ch) > maxWidth
        && RowInStep(Texts(rows), if |ch| == 2 && fill < maxWidth then 1 else 0, false, maxWidth))
  {
    TextsCons(WrappedRow(current, width), rows);
    assert Texts(rows)[0] == rows[0].text;
  }

  lemma {:induction false} RowsDown(cs: seq<Text>, current: Text, width: nat, fill: nat, carry: nat, first: bool,
          maxWidth: int)
    requires maxWidth >= 1 && cs != [] && Canonical(cs) && UnderWay(current, width, fill, carry, first, maxWidth)
    requires current != [] && width + CharDisplayWidth(cs[0]) > maxWidth
    ensures var ch := cs[0];
      RowInStep(Texts(WrapChars(cs, current, width, maxWidth)), carry, first, maxWidth) <==>
        (fill + UnitWidths(ch) > maxWidth
          && RowInStep(Texts(WrapChars(cs[1..], ch, CharDisplayWidth(ch), maxWidth)),
                       if |ch| == 2 && fill < maxWidth then 1 else 0, false, maxWidth))
  {
    var ch, w := cs[0], CharDisplayWidth(cs[0]);
    assert cs == [ch] + cs[1..];
    FirstCharOfRow(ch, cs[1..], w, maxWidth);
    RowBelow(current, width, ch, WrapChars(cs[1..], ch, w, maxWidth), fill, carry, first, maxWidth);
  }

  lemma {:induction false} StepDown(cs: seq<Text>, width: nat, fill: nat, maxWidth: int)
    requires maxWidth >= 1 && cs != [] && IsChar(cs[0]) && width + CharDisplayWidth(cs[0]) > maxWidth
    requires !OneRowDown(cs[0], fill, maxWidth) ==> maxWidth == 1
    ensures var ch := cs[0]; var u := UnitWidths(ch);
      StepByStep(cs, true, width, fill, maxWidth) <==>
        (fill + u > maxWidth && OneRowDown(ch, fill, maxWidth)
          && StepByStep(cs[1..], true, CharDisplayWidth(ch), u - (if |ch| == 2 && fill < maxWidth then 1 else 0),
            maxWidth))
  {
    UnitsOfChar(cs[0]);
    DescentOfChar(cs[0], fill, maxWidth);
  }

  lemma {:induction false} RowBegun(ch: Text, fill: nat, maxWidth: int)
    requires maxWidth >= 1 && IsChar(ch) && OneRowDown(ch, fill, maxWidth)
    ensures var carry := if |ch| == 2 && fill < maxWidth then 1 else 0;
      UnitWidths(ch) >= carry && UnderWay(ch, CharDisplayWidth(ch), UnitWidths(ch) - carry, carry, false, maxWidth)
  {
    UnitsOfChar(ch);
  }

  lemma {:induction false} NextRow(cs: seq<Text>, current: Text, width: nat, fill: nat, carry: nat, first: bool,
          maxWidth: int)
    requires maxWidth >= 1 && cs != [] && Canonical(cs) && UnderWay(current, width, fill, carry, first, maxWidth)
    requires current != [] && width + CharDisplayWidth(cs[0]) > maxWidth
    ensures StepByStep(cs, true, width, fill, maxWidth) <==>
      RowInStep(Texts(WrapChars(cs, current, width, maxWidth)), carry, first, maxWidth)
    decreases |cs|, 0
  {
    var ch, w := cs[0], CharDisplayWidth(cs[0]);
    var carry' := if |ch| == 2 && fill < maxWidth then 1 else 0;
    assert IsChar(ch) && cs == [ch] + cs[1..];
    CanonicalParts([ch], cs[1..]);
    RowsDown(cs, current, width, fill, carry, first, maxWidth);
    if !OneRowDown(ch, fill, maxWidth) {
      PairWithoutRoom(ch, cs[1..], w, current, width, fill, carry, first, maxWidth);
    }
    StepDown(cs, width, fill, maxWidth);
    if fill + UnitWidths(ch) > maxWidth && OneRowDown(ch, fill, maxWidth) {
      RowBegun(ch, fill, maxWidth);
      StepsAreRows(cs[1..], ch, w, UnitWidths(ch) - carry', carry', false, maxWidth);
    }
  }

  // ---- where the cursor's row is right

  /** Every wrapped row has room for its code units, and breaks where they break. */
  predicate InStep(line: Text, maxWidth: int) {
    RowInStep(Texts(Wrap(line, maxWidth)), 0, true, maxWidth)
  }

  /** When the fast computation may be trusted for the text before the cursor. */
  predicate CursorAgrees(passed: Text, maxWidth: int) {
    || passed == []
    || (maxWidth >= 1 && InStep(passed, maxWidth))
    || (maxWidth == 0 && forall i :: 0 <= i < |passed| ==> CharDisplayWidth([passed[i]]) == 0)
  }

  /** Both ways of counting give the same row. */
  predicate SameRow(passed: Text, maxWidth: int) {
    CursorDescent(passed, 0, maxWidth) == |Wrap(passed, maxWidth)| - 1
  }

  /** The column of the cursor behind the first `n` characters. */
  function ColumnAfter(line: Text, n: nat): nat
    requires n <= |Chars(line)|
  {
    |Flat(Chars(line)[..n])|
  }

  lemma {:induction false} FlatSplit(cs: seq<Text>, n: nat)
    requires n <= |cs|
    ensures Flat(cs) == Flat(cs[..n]) + Flat(cs[n..])
  {
    if n > 0 {
      FlatSplit(cs[1..], n - 1);
      assert cs[..n][0] == cs[0] && cs[..n][1..] == cs[1..][..n - 1] && cs[1..][n - 1..] == cs[n..];
    } else {
      assert cs[..0] == [] && cs[0..] == cs;
    }
  }

  lemma {:induction false} BeforeColumn(line: Text, n: nat)
    requires n <= |Chars(line)|
    ensures Before(line, ColumnAfter(line, n)) == Flat(Chars(line)[..n])
      && Chars(Flat(Chars(line)[..n])) == Chars(line)[..n]
    ensures ColumnAfter(line, n) <= |line|
  {
    var cs := Chars(line);
    CharsAreCanonical(line);
    FlatSplit(cs, n);
    assert cs == cs[..n] + cs[n..];
    CanonicalParts(cs[..n], cs[n..]);
    CanonicalSplits(cs[..n]);
  }

  /** At every place between characters the cursor's row is the last row of wrapping the text before it,
   *  if and only if the line is in step: row by row the units have room, but for the half of a pair of
   *  two columns that was counted on the row above, and the next row's first character has none. */
  lemma {:induction false} CursorAlwaysRightIff(line: Text, maxWidth: int)
    ensures (forall n :: 0 <= n <= |Chars(line)| ==> SameRow(Before(line, ColumnAfter(line, n)), maxWidth)) <==>
      CursorAgrees(line, maxWidth)
  {
    if maxWidth >= 1 { AlwaysRightWithRoom(line, maxWidth); } else { AlwaysRightWithoutRoom(line, maxWidth); }
  }

  lemma {:induction false} AlwaysRightWithRoom(line: Text, maxWidth: int)
    requires maxWidth >= 1
    ensures (forall n :: 0 <= n <= |Chars(line)| ==> SameRow(Before(line, ColumnAfter(line, n)), maxWidth)) <==>
      InStep(line, maxWidth)
    ensures line == [] ==> InStep(line, maxWidth)
  {
    var cs := Chars(line);
    CharsAreCanonical(line);
    EvenIffStepByStep(cs, [], 0, 0, maxWidth);
    StepsAreRows(cs, [], 0, 0, 0, true, maxWidth);
    forall n | 0 <= n <= |cs|
      ensures SameRow(Before(line, ColumnAfter(line, n)), maxWidth) <==> EvenAfter(cs, n, [], 0, 0, maxWidth)
    {
      BeforeColumn(line, n);
    }
  }

  lemma {:induction false} AlwaysRightWithoutRoom(line: Text, maxWidth: int)
    requires maxWidth <= 0
    ensures (forall n :: 0 <= n <= |Chars(line)| ==> SameRow(Before(line, ColumnAfter(line, n)), maxWidth)) <==>
      CursorAgrees(line, maxWidth)
  {
    WholeLine(line);
    DescentWithoutRoom(line, 0, maxWidth);
    forall n | 0 <= n <= |Chars(line)| && CursorAgrees(line, maxWidth)
      ensures SameRow(Before(line, ColumnAfter(line, n)), maxWidth)
    {
      BeforeColumn(line, n);
      DescentWithoutRoom(Before(line, ColumnAfter(line, n)), 0, maxWidth);
    }
  }

  /** For one place in a line: the cursor's row is right whenever the text before it is in step, and only
   *  then if that text has no surrogate pairs, fits one row, or the screen has no columns. Elsewhere the
   *  counts may part and meet again. Without pairs every text is in step from width 2 on. */
  lemma {:induction false} CursorRowIsLastWrappedRow(passed: Text, maxWidth: int)
    ensures CursorAgrees(passed, maxWidth) ==> SameRow(passed, maxWidth)
    ensures NoPairs(passed) || Width(Chars(passed)) <= maxWidth || maxWidth <= 0 ==>
      (SameRow(passed, maxWidth) <==> CursorAgrees(passed, maxWidth))
    ensures NoPairs(passed) && maxWidth >= 2 ==> CursorAgrees(passed, maxWidth)
  {
    CursorAlwaysRightIff(passed, maxWidth);
    WholeLine(passed);
    if maxWidth <= 0 {
      DescentWithoutRoom(passed, 0, maxWidth);
    } else {
      if NoPairs(passed) { InStepWithoutPairs(passed, maxWidth); }
      if Width(Chars(passed)) <= maxWidth { AgreesInOneRow(passed, maxWidth); }
    }
  }

  lemma {:induction false} WholeLine(line: Text)
    ensures Before(line, ColumnAfter(line, |Chars(line)|)) == line
  {
    CharsAreCanonical(line);
    BeforeColumn(line, |Chars(line)|);
    assert Chars(line)[..|Chars(line)|] == Chars(line);
  }

  lemma {:induction false} AgreesInOneRow(passed: Text, maxWidth: int)
    requires Width(Chars(passed)) <= maxWidth && maxWidth >= 1
    ensures SameRow(passed, maxWidth) <==> UnitWidths(passed) <= maxWidth
    ensures InStep(passed, maxWidth) <==> UnitWidths(passed) <= maxWidth
  {
    OneRow(Chars(passed), [], 0, maxWidth);
    DescentWithinRow(passed, 0, maxWidth);
    WrapLosesNothing(passed, maxWidth);
    var rows := Wrap(passed, maxWidth);
    assert Texts(rows) == [rows[0].text];
    OneText(rows[0].text, maxWidth);
  }

  lemma {:induction false} OneText(text: Text, maxWidth: int)
    ensures Flat([text]) == text && (RowInStep([text], 0, true, maxWidth) <==> UnitWidths(text) <= maxWidth)
  {
    assert [text][1..] == [];
    assert Flat([text]) == text + Flat([]);
  }

  lemma {:induction false} InStepWithoutPairs(passed: Text, maxWidth: int)
    requires NoPairs(passed) && maxWidth >= 1
    ensures SameRow(passed, maxWidth) <==> CursorAgrees(passed, maxWidth)
    ensures maxWidth >= 2 ==> CursorAgrees(passed, maxWidth)
  {
    CursorAlwaysRightIff(passed, maxWidth);
    AgreesWithoutPairs(passed, maxWidth);
    WholeLine(passed);
    forall n | 0 <= n <= |Chars(passed)|
      ensures SameRow(passed, maxWidth) ==> SameRow(Before(passed, ColumnAfter(passed, n)), maxWidth)
      ensures maxWidth >= 2 ==> SameRow(Before(passed, ColumnAfter(passed, n)), maxWidth)
    {
      BeforeColumn(passed, n);
      AgreesWithoutPairs(Before(passed, ColumnAfter(passed, n)), maxWidth);
    }
  }

  lemma {:induction false} AgreesWithoutPairs(passed: Text, maxWidth: int)
    requires NoPairs(passed) && maxWidth >= 1
    ensures SameRow(passed, maxWidth) <==> passed == [] || CharDisplayWidth([passed[0]]) <= maxWidth
  {
    SingleUnits(passed);
    if passed != [] {
      var cs := Chars(passed);
      UnitWidth(passed[0]);
      var w := CharDisplayWidth(cs[0]);
      DescentCountsBreaks(passed[1..], cs[1..], cs[0], w, maxWidth);
      assert [] + cs[0] == cs[0];
      assert WrapChars(cs, [], 0, maxWidth) == WrapChars(cs[1..], cs[0], w, maxWidth);
    }
  }

  // ---- pairs of one column

  /** Surrogate pairs take one column each, as most emoji do. */
  predicate NarrowPairs(line: Text) {
    forall k :: 0 <= k < |Chars(line)| && |Chars(line)[k]| == 2 ==> CharDisplayWidth(Chars(line)[k]) == 1
  }

  ghost predicate RoomForHalves(rows: seq<WrappedRow>, maxWidth: int) {
    forall k :: 0 <= k < |rows| ==> UnitWidths(rows[k].text) <= maxWidth
  }

  lemma {:induction false} RoomAppend(row: WrappedRow, rows: seq<WrappedRow>, maxWidth: int)
    ensures RoomForHalves([row] + rows, maxWidth) <==> UnitWidths(row.text) <= maxWidth && RoomForHalves(rows, maxWidth)
  {
    var all := [row] + rows;
    assert all[0] == row;
    assert forall k :: 0 <= k < |rows| ==> rows[k] == all[k + 1];
  }

  lemma {:induction false} NarrowRows(cs: seq<Text>, current: Text, width: nat, first: bool, maxWidth: int)
    requires maxWidth >= 2 && Canonical(cs) && width <= UnitWidths(current) && width <= maxWidth
    requires forall k :: 0 <= k < |cs| && |cs[k]| == 2 ==> CharDisplayWidth(cs[k]) == 1
    ensures var rows := WrapChars(cs, current, width, maxWidth);
      RowInStep(Texts(rows), 0, first, maxWidth) <==> RoomForHalves(rows, maxWidth)
    decreases |cs|
  {
    if cs == [] {
      var row := WrappedRow(current, width);
      assert WrapChars(cs, current, width, maxWidth) == [row] && Texts([row]) == [current];
      RoomAppend(row, [], maxWidth);
      if |current| == 1 { UnitsOfChar(current); }
    } else {
      var ch, w := cs[0], CharDisplayWidth(cs[0]);
      assert IsChar(ch) && cs == [ch] + cs[1..];
      CanonicalParts([ch], cs[1..]);
      UnitsOfChar(ch);
      if width + w > maxWidth && |current| > 0 {
        NarrowRows(cs[1..], ch, w, false, maxWidth);
        NarrowRowBelow(cs, current, width, first, maxWidth);
      } else {
        UnitWidthsAppend(current, ch);
        NarrowRows(cs[1..], current + ch, width + w, first, maxWidth);
      }
    }
  }

  lemma {:induction false} NarrowRowBelow(cs: seq<Text>, current: Text, width: nat, first: bool, maxWidth: int)
    requires maxWidth >= 2 && cs != [] && Canonical(cs) && width <= UnitWidths(current) && width <= maxWidth
    requires |cs[0]| == 2 ==> CharDisplayWidth(cs[0]) == 1
    requires current != [] && width + CharDisplayWidth(cs[0]) > maxWidth
    requires var rows := WrapChars(cs[1..], cs[0], CharDisplayWidth(cs[0]), maxWidth);
      RowInStep(Texts(rows), 0, false, maxWidth) <==> RoomForHalves(rows, maxWidth)
    ensures var rows := WrapChars(cs, current, width, maxWidth);
      RowInStep(Texts(rows), 0, first, maxWidth) <==> RoomForHalves(rows, maxWidth)
  {
    var ch := cs[0];
    var rows := WrapChars(cs[1..], ch, CharDisplayWidth(ch), maxWidth);
    assert IsChar(ch) && cs == [ch] + cs[1..];
    UnitsOfChar(ch);
    RoomAppend(WrappedRow(current, width), rows, maxWidth);
    if |current| == 1 { UnitsOfChar(current); }
    if UnitWidths(current) <= maxWidth {
      RowsDown(cs, current, width, UnitWidths(current), 0, first, maxWidth);
    } else {
      TextsCons(WrappedRow(current, width), rows);
    }
  }

  /** With pairs of one column, from width 2 on: the cursor's row is right all along the line if and only
   *  if every wrapped row has room for twice its pairs. */
  lemma {:induction false} NarrowPairsRightIff(line: Text, maxWidth: int)
    requires maxWidth >= 2 && NarrowPairs(line)
    ensures (forall n :: 0 <= n <= |Chars(line)| ==> SameRow(Before(line, ColumnAfter(line, n)), maxWidth))
      <==> RoomForHalves(Wrap(line, maxWidth), maxWidth)
  {
    AlwaysRightWithRoom(line, maxWidth);
    CharsAreCanonical(line);
    NarrowRows(Chars(line), [], 0, true, maxWidth);
  }

  lemma {:induction false} PrefixNeedsNoMore(cs: seq<Text>, n: nat, current: Text, width: nat, maxWidth: int)
    requires n <= |cs|
    ensures |WrapChars(cs[..n], current, width, maxWidth)| <= |WrapChars(cs, current, width, maxWidth)|
    decreases |cs|
  {
    if n > 0 {
      var w := CharDisplayWidth(cs[0]);
      assert cs[..n][1..] == cs[1..][..n - 1] && cs[..n][0] == cs[0];
      PrefixNeedsNoMore(cs[1..], n - 1, cs[0], w, maxWidth);
      PrefixNeedsNoMore(cs[1..], n - 1, current + cs[0], width + w, maxWidth);
    }
  }

  /** Without surrogate pairs and from width 2 on, the cursor's row is the rows of the earlier lines
   *  plus the last row of the wrapped text before it, and is a row of the wrapped line. */
  lemma {:induction false} CursorRowOnScreen(lines: seq<Text>, line: nat, col: int, maxWidth: int)
    requires line < |lines| && NoPairs(lines[line]) && maxWidth >= 2
    ensures var passed := Before(lines[line], col);
      && CursorDescent(passed, 0, maxWidth) == |Wrap(passed, maxWidth)| - 1
      && RowsAbove(lines, line, maxWidth) + CursorDescent(passed, 0, maxWidth) < RowsAbove(lines, line + 1, maxWidth)
  {
    var text := lines[line];
    var passed := Before(text, col);
    CursorRowIsLastWrappedRow(passed, maxWidth);
    SingleUnits(text);
    SingleUnits(passed);
    assert Chars(passed) == Chars(text)[..|passed|];
    PrefixNeedsNoMore(Chars(text), |passed|, [], 0, maxWidth);
  }

  /** In a line that is in step, whatever its pairs, the same holds at every place between characters. */
  lemma {:induction false} CursorRowOnScreenInStep(lines: seq<Text>, line: nat, n: nat, maxWidth: int)
    requires line < |lines| && n <= |Chars(lines[line])| && maxWidth >= 1 && InStep(lines[line], maxWidth)
    ensures var passed := Before(lines[line], ColumnAfter(lines[line], n));
      && CursorDescent(passed, 0, maxWidth) == |Wrap(passed, maxWidth)| - 1
      && RowsAbove(lines, line, maxWidth) + CursorDescent(passed, 0, maxWidth) < RowsAbove(lines, line + 1, maxWidth)
  {
    AlwaysRightWithRoom(lines[line], maxWidth);
    assert SameRow(Before(lines[line], ColumnAfter(lines[line], n)), maxWidth);
    BeforeColumn(lines[line], n);
    PrefixNeedsNoMore(Chars(lines[line]), n, [], 0, maxWidth);
  }

  /** All lines wrapped, one below the other. */
  function AllRows(lines: seq<Text>, maxWidth: int): seq<WrappedRow> {
    if lines == [] then []
    else AllRows(lines[..|lines| - 1], maxWidth) + Wrap(lines[|lines| - 1], maxWidth)
  }

  lemma {:induction false} RowsAboveAre(lines: seq<Text>, n: nat, maxWidth: int)
    requires n <= |lines|
    ensures RowsAbove(lines, n, maxWidth) == |AllRows(lines[..n], maxWidth)|
  {
    if n > 0 {
      RowsAboveAre(lines, n - 1, maxWidth);
      assert lines[..n][..n - 1] == lines[..n - 1];
    }
  }

  lemma {:induction false} RowsBelow(lines: seq<Text>, n: nat, maxWidth: int)
    requires n <= |lines|
    ensures AllRows(lines[..n], maxWidth) <= AllRows(lines, maxWidth)
  {
    var last := |lines| - 1;
    if n < |lines| {
      RowsBelow(lines[..last], n, maxWidth);
      assert lines[..last][..n] == lines[..n];
    } else {
      assert lines[..n] == lines;
    }
  }

  /** Row `k` of a wrapped line, among all rows. */
  lemma {:induction false} RowOfLine(lines: seq<Text>, line: nat, k: nat, maxWidth: int)
    requires line < |lines| && k < |Wrap(lines[line], maxWidth)|
    ensures var row := RowsAbove(lines, line, maxWidth) + k;
      row < |AllRows(lines, maxWidth)| && AllRows(lines, maxWidth)[row] == Wrap(lines[line], maxWidth)[k]
  {
    RowsAboveAre(lines, line, maxWidth);
    RowsBelow(lines, line + 1, maxWidth);
    assert lines[..line + 1][..line] == lines[..line];
  }

  /** Without surrogate pairs and from width 2 on, the row the cursor is placed on is, of all rows shown,
   *  that row of its line on which the text before the cursor ends; a cursor below the last line is
   *  placed below the last row, and one above the first line on the first row. */
  lemma {:induction false} CursorRowShows(lines: seq<Text>, line: int, col: int, maxWidth: int)
    requires 0 <= line < |lines| ==> NoPairs(lines[line]) && maxWidth >= 2
    ensures line >= |lines| ==> CursorRow(line, col, lines, maxWidth) == |AllRows(lines, maxWidth)|
    ensures line < 0 ==> CursorRow(line, col, lines, maxWidth) == 0
    ensures 0 <= line < |lines| ==>
      var text, all := lines[line], AllRows(lines, maxWidth);
      var passed := if col < 0 then [] else if col <= |text| then text[..col] else text;
      var row, last := CursorRow(line, col, lines, maxWidth), |Wrap(passed, maxWidth)| - 1;
      row < |all| && last < |Wrap(text, maxWidth)| && all[row] == Wrap(text, maxWidth)[last]
  {
    if line >= |lines| {
      RowsAboveAre(lines, |lines|, maxWidth);
      assert lines[..|lines|] == lines;
    } else if line >= 0 {
      var text := lines[line];
      var passed := if col < 0 then [] else if col <= |text| then text[..col] else text;
      assert passed == Before(text, col);
      RowInside(lines, line, col, passed, maxWidth);
    }
  }

  lemma {:induction false} RowInside(lines: seq<Text>, line: nat, col: int, passed: Text, maxWidth: int)
    requires line < |lines| && NoPairs(lines[line]) && maxWidth >= 2 && passed == Before(lines[line], col)
    ensures var all, row := AllRows(lines, maxWidth), CursorRow(line, col, lines, maxWidth);
      var wrapped, last := Wrap(lines[line], maxWidth), |Wrap(passed, maxWidth)| - 1;
      row < |all| && last < |wrapped| && all[row] == wrapped[last]
  {
    CursorRowOnScreen(lines, line, col, maxWidth);
    RowOfLine(lines, line, |Wrap(passed, maxWidth)| - 1, maxWidth);
  }

  /** Surrogate pairs break the agreement: each half counts as one column. After a pair of width 1,
   *  such as most emoji, given twice, the cursor is said to be on a second row of a screen two columns
   *  wide, which the wrapped line does not have. */
  lemma {:induction false} CursorMiscountsPairs(emoji: Text)
    requires |emoji| == 2 && StartsPair(emoji) && CharDisplayWidth(emoji) == 1
    ensures CursorDescent(Before(emoji + emoji, 4), 0, 2) == 1 && |Wrap(emoji + emoji, 2)| == 1
    ensures StartsPair([0xd83d, 0xde00]) && CharDisplayWidth([0xd83d, 0xde00]) == 1
  {
    var line := emoji + emoji;
    TwoPairs(line, emoji);
    OneRow(Chars(line), [], 0, 2);
    assert CharDisplayWidth([emoji[0]]) == 1 && CharDisplayWidth([emoji[1]]) == 1;
    FourUnits(line);
  }

  lemma {:induction false} TwoPairs(line: Text, emoji: Text)
    requires |emoji| == 2 && StartsPair(emoji) && line == emoji + emoji
    ensures Width(Chars(line)) == 2 * CharDisplayWidth(emoji)
  {
    assert line[..2] == emoji && line[2..] == emoji && emoji[..2] == emoji && emoji[2..] == [];
    assert Chars(emoji) == [emoji] + Chars([]);
    assert Chars(line) == [emoji] + Chars(emoji);
    assert Chars(line) == [emoji, emoji];
    assert [emoji, emoji][1..] == [emoji] && [emoji][1..] == [];
    assert Width([emoji]) == CharDisplayWidth(emoji)
      && Width([emoji, emoji]) == CharDisplayWidth(emoji) + Width([emoji]);
  }

  lemma {:induction false} FourUnits(s: Text)
    requires |s| == 4 && forall i :: 0 <= i < 4 ==> CharDisplayWidth([s[i]]) == 1
    ensures CursorDescent(s, 0, 2) == 1
  {
    OneUnit(s, 0);
    OneUnit(s[1..], 1);
    OneUnit(s[2..], 2);
    OneUnit(s[3..], 1);
    assert s[1..][1..] == s[2..] && s[2..][1..] == s[3..] && s[3..][1..] == [];
  }

  lemma {:induction false} OneUnit(s: Text, width: nat)
    requires s != [] && CharDisplayWidth([s[0]]) == 1 && width <= 2
    ensures CursorDescent(s, width, 2) == if width == 2 then 1 + CursorDescent(s[1..], 1, 2)
      else CursorDescent(s[1..], width + 1, 2)
  {
    UnitWidth(s[0]);
  }

  /** A text may be out of step and its end on the right row all the same: behind two pairs of one column
   *  on three columns the count is a row ahead, and two characters later it is right again. */
  lemma {:induction false} CountsMeetAgain(emoji: Text, a: CodeUnit)
    requires |emoji| == 2 && StartsPair(emoji) && CharDisplayWidth(emoji) == 1 && CharDisplayWidth([a]) == 1
    ensures var passed := Flat([emoji, emoji, [a], [a]]); SameRow(passed, 3) && !CursorAgrees(passed, 3)
  {
    var cs := [emoji, emoji, [a], [a]];
    var full := emoji + emoji + [a];
    assert IsChar(emoji) && IsChar([a]) && Canonical(cs);
    CanonicalSplits(cs);
    assert cs[1..] == [emoji, [a], [a]] && cs[2..] == [[a], [a]] && cs[3..] == [[a]];
    assert cs[1..][1..] == cs[2..] && cs[2..][1..] == cs[3..] && cs[3..][1..] == cs[4..];
    assert WrapChars(cs, [], 0, 3) == WrapChars(cs[1..], emoji, 1, 3) by { assert [] + emoji == emoji; }
    assert WrapChars(cs[1..], emoji, 1, 3) == WrapChars([[a], [a]], emoji + emoji, 2, 3) ==
      WrapChars([[a]], full, 3, 3);
    assert WrapChars([[a]], full, 3, 3) == [WrappedRow(full, 3)] + WrapChars([], [a], 1, 3);
    UnitsOfChar(emoji);
    UnitsOfChar([a]);
    UnitWidthsAppend(emoji, emoji);
    UnitWidthsAppend(emoji + emoji, [a]);
    assert Texts(Wrap(Flat(cs), 3))[0] == full;
    MeetingDescent(emoji, a, cs);
  }

  lemma {:induction false} MeetingDescent(emoji: Text, a: CodeUnit, cs: seq<Text>)
    requires IsChar(emoji) && |emoji| == 2 && CharDisplayWidth([a]) == 1 && cs == [emoji, emoji, [a], [a]]
    ensures CursorDescent(Flat(cs), 0, 3) == 1
  {
    UnitsOfChar(emoji);
    OfOneUnit(a, 1, 3);
    OfOneUnit(a, 2, 3);
    DescentOfChar(emoji, 0, 3);
    DescentOfChar(emoji, 2, 3);
    assert cs[1..][1..] == [[a], [a]] && [[a], [a]][1..] == [[a]];
    assert Flat([[a]]) == [a] by { assert [[a]][1..] == []; }
    assert Flat(cs[1..]) == emoji + Flat([[a], [a]]) && Flat([[a], [a]]) == [a] + Flat([[a]]);
    assert Flat(cs) == emoji + (emoji + ([a] + [a]));
    DescentSplit(emoji, emoji + ([a] + [a]), 0, 3);
    DescentSplit(emoji, [a] + [a], 2, 3);
    DescentSplit([a], [a], 1, 3);
  }
}
