/** Heading lines of the memory file: recognising, printing and splitting them. */
module MemoryHeading {
  import opened Text
  import opened Wrappers
  import opened MemoryMeta

  predicate HashIn(s: string, from: nat, to: nat) { to <= |s| && forall i :: from <= i < to ==> s[i] == '#' }

  predicate SpaceIn(s: string, from: nat, to: nat) { to <= |s| && forall i :: from <= i < to ==> IsSpace(s[i]) }

  predicate NoLineEndIn(s: string, from: nat, to: nat) { to <= |s| && forall i :: from <= i < to ==> !IsLineEnd(s[i]) }

  /** A match of `^(#{2,})\s+(.+?)\s*$`: hashes up to `k`, white space up to `a`, text without
   *  line ends up to `b`, white space to the end. */
  predicate HeadingAt(line: string, k: nat, a: nat, b: nat) {
    && 2 <= k < a < b <= |line|
    && HashIn(line, 0, k) && SpaceIn(line, k, a) && NoLineEndIn(line, a, b) && SpaceIn(line, b, |line|)
  }

  predicate IsHeadingLine(line: string) {
    exists k: nat, a: nat, b: nat :: k < |line| && a < |line| && b <= |line| && HeadingAt(line, k, a, b)
  }

  function Commented(heading: string, text: string): string { heading + " <!-- " + text + " -->" }

  function FormatHeading(heading: string, meta: Meta): string {
    if meta == DEFAULT_META then heading else Commented(heading, MetaText(meta))
  }

  /** The end of the hashes, and of the white space, that start at `i`. */
  function HashesTo(s: string, i: nat): (k: nat)
    requires i <= |s|
    ensures i <= k <= |s| && HashIn(s, i, k) && (k < |s| ==> s[k] != '#')
    decreases |s| - i
  {
    if i < |s| && s[i] == '#' then HashesTo(s, i + 1) else i
  }

  function SpacesTo(s: string, i: nat): (b: nat)
    requires i <= |s|
    ensures i <= b <= |s| && SpaceIn(s, i, b) && (b < |s| ==> !IsSpace(s[b]))
    decreases |s| - i
  {
    if i < |s| && IsSpace(s[i]) then SpacesTo(s, i + 1) else i
  }

  function Hashes(s: string): nat { HashesTo(s, 0) }

  /** The first character behind the hashes and the white space after them. */
  function CoreStart(s: string): nat { SpacesTo(s, HashesTo(s, 0)) }

  predicate Opens(t: string, p: nat) {
    p + 4 <= |t| && t[p] == '<' && t[p + 1] == '!' && t[p + 2] == '-' && t[p + 3] == '-'
  }

  predicate Closes(t: string) {
    var n := |t|;
    n >= 3 && t[n - 3] == '-' && t[n - 2] == '-' && t[n - 1] == '>'
  }

  /** A comment opens at `p` and closes at the end of `t`. */
  predicate CommentAt(t: string, p: nat) { p + 7 <= |t| && Opens(t, p) && Closes(t) }

  /** The leftmost comment at or after `i`. */
  function FindFrom(t: string, i: nat): (found: Option<nat>)
    ensures found.Some? ==> found.value >= i && CommentAt(t, found.value) && forall p :: i <= p < found.value ==>
      !CommentAt(t, p)
    ensures found.None? ==> forall p :: i <= p ==> !CommentAt(t, p)
    decreases |t| - i
  {
    if CommentAt(t, i) then Some(i) else if i < |t| then FindFrom(t, i + 1) else None
  }

  /** Where `^(#{2,}\s+.+?)\s*<!--\s*(.*?)\s*-->\s*$` finds the comment in a trimmed heading line.
   *  The heading text before it needs one character: usually the core's first, or else the last
   *  white space but one before the core, unless that white space is all line ends. */
  function FindComment(t: string): (found: Option<nat>)
    ensures found.Some? ==> CommentAt(t, found.value)
  {
    var k, b := Hashes(t), CoreStart(t);
    var inside := FindFrom(t, b + 1);
    if inside.Some? then inside
    else if k < b && CommentAt(t, b) && exists i :: k < i < b && !IsLineEnd(t[i]) then Some(b)
    else None
  }

  function SplitHeading(raw: string): (string, Meta) {
    var t := Trim(raw);
    var comment := FindComment(t);
    if comment.None? then (t, DEFAULT_META)
    else (Trim(t[..comment.value]), ParseMeta(Trim(t[comment.value + 4..|t| - 3])))
  }

  function NormalizeSection(section: string): string {
    var trimmed := Trim(section);
    "## " + if IsHeadingLine(trimmed) then trimmed[CoreStart(trimmed)..] else trimmed
  }

  /** A line of one line only is a heading line when it begins with two hashes or more, then white space,
   *  then anything. */
  lemma {:induction false} HeadingLineIs(line: string)
    requires forall i :: 0 <= i < |line| ==> !IsLineEnd(line[i])
    ensures IsHeadingLine(line) <==>
      exists k: nat :: 2 <= k && k + 1 < |line| && BeginsWithHashes(line, k) && IsSpace(line[k])
  {
    if IsHeadingLine(line) {
      var k: nat, a: nat, b: nat :| k < |line| && a < |line| && b <= |line| && HeadingAt(line, k, a, b);
      assert BeginsWithHashes(line, k) && IsSpace(line[k]);
    }
    forall k: nat | 2 <= k && k + 1 < |line| && BeginsWithHashes(line, k) && IsSpace(line[k])
      ensures IsHeadingLine(line)
    {
      assert HeadingAt(line, k, k + 1, |line|);
    }
  }

  predicate BeginsWithHashes(line: string, n: nat) { n <= |line| && forall i :: 0 <= i < n ==> line[i] == '#' }

  /** A heading line without a comment is a note of the agent's without a time. */
  lemma {:induction false} BareHeadingMeta(line: string)
    requires FindComment(Trim(line)).None?
    ensures SplitHeading(line) == (Trim(line), Meta(Notes, Agent, 0))
  {
  }

  /** A heading is printed bare for those three values and no others, and otherwise with all of them. */
  lemma {:induction false} BareHeadingIff(heading: string, meta: Meta)
    ensures FormatHeading(heading, meta) == heading <==>
      meta.category == Notes && meta.authority == Agent && meta.ts == 0
    ensures FormatHeading(heading, meta) != heading ==>
      FormatHeading(heading, meta) == heading + " <!-- " + MetaText(meta) + " -->"
  {
    assert |Commented(heading, MetaText(meta))| > |heading|;
  }

  // Facts about heading lines

  lemma {:induction false} CoreStartIs(s: string, k: nat, b: nat)
    requires k < b <= |s| && HashIn(s, 0, k) && SpaceIn(s, k, b) && (b < |s| ==> !IsSpace(s[b]))
    ensures Hashes(s) == k && CoreStart(s) == b
  {
    assert IsSpace(s[k]);
    assert Hashes(s) == k;
  }

  /** A heading line without white space at its ends: hashes, white space, and a core without line
   *  ends. */
  lemma {:induction false} TrimmedHeading(t: string)
    requires Trimmed(t)
    ensures IsHeadingLine(t) <==> 2 <= Hashes(t) < CoreStart(t) < |t| && NoLineEndIn(t, CoreStart(t), |t|)
  {
    var h, c := Hashes(t), CoreStart(t);
    if 2 <= h < c < |t| && NoLineEndIn(t, c, |t|) {
      assert HeadingAt(t, h, c, |t|);
    }
    if IsHeadingLine(t) {
      var k: nat, a: nat, b: nat :| k < |t| && a < |t| && b <= |t| && HeadingAt(t, k, a, b);
      assert IsSpace(t[k]) && !IsSpace(t[|t| - 1]);
      assert b == |t|;
      assert h == k && a <= c;
    }
  }

  /** Cutting the white space off a heading line leaves a heading line, or nothing but hashes. */
  lemma {:induction false} TrimHeading(raw: string)
    requires IsHeadingLine(raw)
    ensures var t := Trim(raw);
      && t <= raw && Trimmed(t) && 2 <= Hashes(t)
      && (IsHeadingLine(t) || Hashes(t) == |t|)
  {
    var from, to := TrimCuts(raw);
    var t := Trim(raw);
    var k: nat, a: nat, b: nat :| k < |raw| && a < |raw| && b <= |raw| && HeadingAt(raw, k, a, b);
    assert from == 0 && k <= to by { assert raw[0] == '#' && raw[k - 1] == '#'; }
    assert t == raw[..to] && |t| == to && Trimmed(t);
    assert forall i :: 0 <= i < to ==> t[i] == raw[i];
    if to > k {
      assert !IsSpace(t[to - 1]);
      assert HeadingAt(t, k, a, to);
      TrimmedHeading(t);
    } else {
      assert HashIn(t, 0, k);
      assert Hashes(t) == k;
    }
  }

  // The comment expression

  /** A match of `^(#{2,}\s+.+?)\s*<!--\s*(.*?)\s*-->\s*$` in a trimmed text: hashes to `k`, white
   *  space to `a`, heading text to `e`, white space to the comment at `p`, which holds no line end
   *  between its white space. */
  predicate CommentMatch(t: string, k: nat, a: nat, e: nat, p: nat) {
    && 2 <= k < a < e <= p
    && HashIn(t, 0, k) && SpaceIn(t, k, a) && NoLineEndIn(t, a, e) && SpaceIn(t, e, p)
    && p + 7 <= |t| && t[p..p + 4] == "<!--" && t[|t| - 3..] == "-->"
    && NoLineEndIn(Trim(t[p + 4..|t| - 3]), 0, |Trim(t[p + 4..|t| - 3])|)
  }

  lemma {:induction false} CommentMarks(t: string, p: nat)
    ensures Opens(t, p) <==> p + 4 <= |t| && t[p..p + 4] == "<!--"
    ensures CommentAt(t, p) <==> p + 7 <= |t| && t[p..p + 4] == "<!--" && t[|t| - 3..] == "-->"
  {
    if p + 4 <= |t| {
      var mark := t[p..p + 4];
      assert mark[0] == t[p] && mark[1] == t[p + 1] && mark[2] == t[p + 2] && mark[3] == t[p + 3];
    }
    if |t| >= 3 {
      var end := t[|t| - 3..];
      assert end[0] == t[|t| - 3] && end[1] == t[|t| - 2] && end[2] == t[|t| - 1];
    }
  }

  /** A comment is found exactly when the expression matches. */
  lemma {:induction false} CommentFoundIff(raw: string)
    requires IsHeadingLine(raw)
    ensures FindComment(Trim(raw)).Some? <==>
      exists k: nat, a: nat, e: nat, p: nat :: CommentMatch(Trim(raw), k, a, e, p)
  {
    var t := Trim(raw);
    TrimHeading(raw);
    TrimmedHeading(t);
    if FindComment(t).Some? { FoundMatches(t); }
    if k: nat, a: nat, e: nat, p: nat :| CommentMatch(t, k, a, e, p) { MatchFound(t, k, a, e, p); }
  }

  lemma {:induction false} FoundMatches(t: string)
    requires Trimmed(t) && 2 <= Hashes(t) && (IsHeadingLine(t) || Hashes(t) == |t|)
    requires FindComment(t).Some?
    ensures exists k: nat, a: nat, e: nat, p: nat :: CommentMatch(t, k, a, e, p)
  {
    var h, b := Hashes(t), CoreStart(t);
    var p := FindComment(t).value;
    CommentMarks(t, p);
    TrimmedHeading(t);
    assert h < |t|;
    NoLineEndInside(t, b, p + 4, |t| - 3);
    if p > b {
      assert CommentMatch(t, h, b, p, p);
    } else {
      var i: nat :| h < i < b && !IsLineEnd(t[i]);
      assert CommentMatch(t, h, i, i + 1, p);
    }
  }

  lemma {:induction false} MatchFound(t: string, k: nat, a: nat, e: nat, p: nat)
    requires CommentMatch(t, k, a, e, p)
    ensures FindComment(t).Some?
  {
    CommentMarks(t, p);
    assert IsSpace(t[k]) && Hashes(t) == k;
    assert a <= CoreStart(t) <= p;
    if p == CoreStart(t) {
      assert k < a < p && !IsLineEnd(t[a]);
    }
  }

  lemma {:induction false} NoLineEndInside(t: string, b: nat, from: nat, to: nat)
    requires NoLineEndIn(t, b, |t|) && b <= from <= to <= |t|
    ensures NoLineEndIn(Trim(t[from..to]), 0, |Trim(t[from..to])|)
  {
    var x, y := TrimCuts(t[from..to]);
    forall i | 0 <= i < |Trim(t[from..to])| ensures !IsLineEnd(Trim(t[from..to])[i]) {
      assert Trim(t[from..to])[i] == t[from + x + i];
    }
  }

  // Reading back a printed heading

  /** Headings that can be printed with `meta` and read back: trimmed heading lines in which the
   *  expression finds no comment, or behind which the printed comment is the first one. */
  predicate Stable(h: string, meta: Meta) {
    && '\n' !in h && Trimmed(h) && IsHeadingLine(h)
    && if meta == DEFAULT_META then FindComment(h).None? else forall p :: CoreStart(h) < p < |h| ==> !Opens(h, p)
  }

  predicate Plain(text: string) {
    text != "" && Trimmed(text) && forall c :: c in text ==> c != '<' && !IsLineEnd(c)
  }

  lemma {:induction false} MetaTextPlain(meta: Meta)
    ensures Plain(MetaText(meta))
  {
    NamesAreLetters(meta);
    DecimalRoundTrip(meta.ts);
    var s, n := MetaText(meta), Decimal(meta.ts);
    assert n[|n| - 1] in n && s[|s| - 1] == n[|n| - 1] && s[0] == 'c';
    forall c | c in s ensures c != '<' && !IsLineEnd(c) {
      assert c in "category: " || c in CategoryName(meta.category) || c in "; authority: "
        || c in AuthorityName(meta.authority) || c in "; ts: " || c in n;
    }
  }

  /** How a comment behind `h` sits in the printed line. */
  lemma {:induction false} CommentedShape(h: string, text: string)
    requires Plain(text)
    ensures var t := Commented(h, text); var p := |h| + 1;
      && |t| == |h| + |text| + 10 && h <= t && t[|h|] == ' ' && t[|t| - 1] == '>'
      && Opens(t, p) && Closes(t) && t[..p] == h + " "
      && t[p + 4..|t| - 3] == " " + text + " "
      && (forall i :: p < i < |t| ==> t[i] != '<')
      && NoLineEndIn(t, |h|, |t|)
  {
    var t := Commented(h, text);
    forall i | |h| <= i < |t| ensures !IsLineEnd(t[i]) && (i > |h| + 1 ==> t[i] != '<') {
      if |h| + 6 <= i < |h| + 6 + |text| { assert t[i] == text[i - |h| - 6] && t[i] in text; }
    }
  }

  lemma {:induction false} TrimBothSides(text: string)
    requires text != "" && Trimmed(text)
    ensures Trim(" " + text + " ") == text
  {
    var s := " " + text + " ";
    assert s[1..] == text + " ";
    assert TrimStart(s) == text + " ";
    TrimPadded(text, " ");
    assert Trim(text + " ") == TrimEnd(text + " ");
  }

  /** Printed behind a stable heading the comment is the one that is found. */
  lemma {:induction false} CommentIsFound(h: string, text: string)
    requires Plain(text) && Trimmed(h) && IsHeadingLine(h)
    requires forall p :: CoreStart(h) < p < |h| ==> !Opens(h, p)
    ensures Trimmed(Commented(h, text)) && IsHeadingLine(Commented(h, text))
    ensures FindComment(Commented(h, text)) == Some(|h| + 1)
  {
    var t := Commented(h, text);
    CommentedShape(h, text);
    TrimmedHeading(h);
    var k, b := Hashes(h), CoreStart(h);
    CoreStartIs(t, k, b);
    TrimmedHeading(t);
    forall p | b < p < |h| + 1 ensures !Opens(t, p) {
      assert p < |h| ==> !Opens(h, p);
      assert p <= |h| < p + 4 ==> t[|h|] == ' ';
    }
    assert CommentAt(t, |h| + 1);
  }

  /** A heading is printed as one heading line that splits back into the heading and its metadata
   *  exactly when it is stable. */
  lemma {:induction false} StableIff(h: string, meta: Meta)
    ensures ('\n' !in h && IsHeadingLine(FormatHeading(h, meta))
      && SplitHeading(FormatHeading(h, meta)) == (h, meta)) <==> Stable(h, meta)
  {
    if meta == DEFAULT_META {
      BareStableIff(h);
    } else {
      MetaTextPlain(meta);
      ParseMetaText(meta);
      if Stable(h, meta) { CommentedReadsBack(h, meta); }
      if '\n' !in h && IsHeadingLine(FormatHeading(h, meta)) && SplitHeading(FormatHeading(h, meta)) == (h, meta) {
        OnlyStableReadsBack(h, meta);
      }
    }
  }

  lemma {:induction false} BareStableIff(h: string)
    ensures ('\n' !in h && IsHeadingLine(h) && SplitHeading(h) == (h, DEFAULT_META)) <==> Stable(h, DEFAULT_META)
  {
    var from, to := TrimCuts(h);
    if Trimmed(h) { TrimmedStays(h); }
    var comment := FindComment(Trim(h));
    if comment.Some? {
      var x, y := TrimCuts(Trim(h)[..comment.value]);
    }
  }

  lemma {:induction false} CommentedReadsBack(h: string, meta: Meta)
    requires Stable(h, meta) && meta != DEFAULT_META
    ensures IsHeadingLine(FormatHeading(h, meta)) && SplitHeading(FormatHeading(h, meta)) == (h, meta)
  {
    MetaTextPlain(meta);
    var text := MetaText(meta);
    CommentIsFound(h, text);
    CommentedParts(h, text);
    CommentedSplit(h, text);
    ParseMetaText(meta);
  }

  lemma {:induction false} CommentedSplit(h: string, text: string)
    requires var t := Commented(h, text);
      Trim(t) == t && FindComment(t) == Some(|h| + 1) && Trim(t[..|h| + 1]) == h && Trim(t[|h| + 5..|t| - 3]) == text
    ensures SplitHeading(Commented(h, text)) == (h, ParseMeta(text))
  {
  }

  /** The two parts of a printed line, cut at its comment and trimmed. */
  lemma {:induction false} CommentedParts(h: string, text: string)
    requires Plain(text) && Trimmed(h) && h != "" && Trimmed(Commented(h, text))
    ensures var t := Commented(h, text); var p := |h| + 1;
      p + 7 <= |t| && Trim(t) == t && Trim(t[..p]) == h && Trim(t[p + 4..|t| - 3]) == text
  {
    TrimmedStays(Commented(h, text));
    CommentedShape(h, text);
    TrimPadded(h, " ");
    TrimBothSides(text);
  }

  lemma {:induction false} OnlyStableReadsBack(h: string, meta: Meta)
    requires meta != DEFAULT_META && '\n' !in h
    requires IsHeadingLine(FormatHeading(h, meta)) && SplitHeading(FormatHeading(h, meta)).0 == h
    ensures Stable(h, meta)
  {
    var t := FormatHeading(h, meta);
    MetaTextPlain(meta);
    CommentedShape(h, MetaText(meta));
    CommentNotBefore(h, t);
    CommentBehind(h, t);
    TrimmedHeading(h);
    TrimmedHeading(t);
  }

  lemma {:induction false} CommentNotBefore(h: string, t: string)
    requires h < t && IsHeadingLine(t) && t[|t| - 1] == '>' && SplitHeading(t).0 == h
    ensures Trimmed(t) && Trimmed(h) && FindComment(t).Some? && |h| <= FindComment(t).value
  {
    TrimHeading(t);
    var from, to := TrimCuts(t);
    assert Trim(t) == t;
    var p := FindComment(t).value;
    var x, y := TrimCuts(t[..p]);
  }

  /** A comment found no earlier than where the printed one stands. */
  lemma {:induction false} CommentBehind(h: string, t: string)
    requires h <= t && Trimmed(h) && IsHeadingLine(t) && Trimmed(t) && |h| + 1 < |t|
    requires t[|h|] == ' ' && CommentAt(t, |h| + 1) && forall i :: |h| + 1 < i < |t| ==> t[i] != '<'
    requires FindComment(t).Some? && |h| <= FindComment(t).value
    ensures Hashes(h) == Hashes(t) && CoreStart(h) == CoreStart(t) < |h|
    ensures forall q :: CoreStart(h) < q < |h| ==> !Opens(h, q)
  {
    TrimmedHeading(t);
    var k, b := Hashes(t), CoreStart(t);
    assert k <= |h| && (h != "" ==> t[|h| - 1] == h[|h| - 1]);
    assert b < |h|;
    CoreStartIs(h, k, b);
    forall q | b < q < |h| ensures !Opens(h, q) {
      assert !CommentAt(t, q);
    }
  }

  /** What splitting a heading line gives: a heading without line breaks or outer white space, that
   *  begins with a hash, and that is stable unless it is no heading line itself (nothing but
   *  hashes) or its text begins with a comment mark. */
  lemma {:induction false} SplitGives(raw: string)
    requires IsHeadingLine(raw) && '\n' !in raw
    ensures var (h, meta) := SplitHeading(raw);
      && '\n' !in h && Trimmed(h) && h != "" && h[0] == '#'
      && (IsHeadingLine(h) && !Opens(h, CoreStart(h)) ==> Stable(h, meta))
  {
    var t := Trim(raw);
    TrimHeading(raw);
    var (h, meta) := SplitHeading(raw);
    var comment := FindComment(t);
    if comment.Some? {
      var p := comment.value;
      var from, to := TrimCuts(t[..p]);
        assert p >= 1 && t[0] == '#' && !IsSpace(t[..p][0]);
      assert from == 0 && h == t[..to];
      if IsHeadingLine(h) && !Opens(h, CoreStart(h)) { CutIsStable(t, to, meta); }
    }
  }

  lemma {:induction false} CutIsStable(t: string, n: nat, meta: Meta)
    requires Trimmed(t) && FindComment(t).Some? && n <= FindComment(t).value <= |t| && '\n' !in t
    requires Trimmed(t[..n]) && IsHeadingLine(t[..n]) && !Opens(t[..n], CoreStart(t[..n]))
    ensures Stable(t[..n], meta)
  {
    var h := t[..n];
    var p := FindComment(t).value;
    TrimmedHeading(h);
    var k, b := Hashes(h), CoreStart(h);
    CoreStartIs(t, k, b);
    forall q | b <= q ensures !Opens(h, q) && !CommentAt(h, q) {
      assert b < q < p ==> !CommentAt(t, q);
    }
  }
}
