/** The memory file as a document: its sections parsed, printed and edited. */
module MemoryDoc {
  import opened Text
  import opened Wrappers
  import opened MemoryMeta
  import opened MemoryHeading

  /** Section headings in order, with a body for each and for the preamble `""`. */
  datatype Doc = Doc(headings: seq<string>, bodies: map<string, string>, meta: map<string, Meta>)

  datatype Cursor = Cursor(doc: Doc, current: string)

  datatype Action =
    | Append(section: string, body: string, category: Option<Category>, authority: Option<Authority>)
    | Replace(section: string, body: string, category: Option<Category>, authority: Option<Authority>)
    | Delete(section: string)

  function BodyOf(bodies: map<string, string>, key: string): string {
    if key in bodies then bodies[key] else ""
  }

  function MetaOf(meta: map<string, Meta>, key: string): Meta {
    if key in meta then meta[key] else DEFAULT_META
  }

  const EMPTY := Cursor(Doc([], map["" := ""], map[]), "")

  function OpenSection(doc: Doc, heading: string, meta: Meta): Doc {
    var known := heading in doc.bodies;
    Doc(if known then doc.headings else doc.headings + [heading],
        if known then doc.bodies else doc.bodies[heading := ""],
        doc.meta[heading := meta])
  }

  function AddText(doc: Doc, key: string, text: string): Doc {
    doc.(bodies := doc.bodies[key := BodyOf(doc.bodies, key) + text])
  }

  function ParseLine(c: Cursor, line: string): Cursor {
    if IsHeadingLine(line) then
      var (heading, meta) := SplitHeading(line);
      Cursor(OpenSection(c.doc, heading, meta), heading)
    else c.(doc := AddText(c.doc, c.current, line + "\n"))
  }

  function ParseLines(lines: seq<string>, c: Cursor): Cursor {
    if lines == [] then c else ParseLines(lines[1..], ParseLine(c, lines[0]))
  }

  function Parsed(raw: string): Doc { ParseLines(Lines(raw), EMPTY).doc }

  function PrintedFrom(headings: seq<string>, bodies: map<string, string>, meta: map<string, Meta>): string {
    if headings == [] then ""
    else
      FormatHeading(headings[0], MetaOf(meta, headings[0])) + "\n" + BodyOf(bodies, headings[0])
      + PrintedFrom(headings[1..], bodies, meta)
  }

  function Printed(doc: Doc): string {
    BodyOf(doc.bodies, "") + PrintedFrom(doc.headings, doc.bodies, doc.meta)
  }

  function Without(s: seq<string>, x: string): seq<string> {
    if s == [] then [] else if s[0] == x then s[1..] else [s[0]] + Without(s[1..], x)
  }

  function NewMeta(doc: Doc, action: Action, infer: string -> Category, now: nat): Meta
    requires !action.Delete?
  {
    var h := NormalizeSection(action.section);
    var known := if h in doc.meta then doc.meta[h] else Meta(infer(h), DEFAULT_META.authority, now);
    Meta(if action.category.Some? then action.category.value else known.category,
         if action.authority.Some? then action.authority.value else known.authority,
         now)
  }

  function Separator(existing: string): string {
    if existing == "" || existing[|existing| - 1] == '\n' then "" else "\n"
  }

  /** The document after an edit; nothing when the section to delete is missing. */
  function Edited(doc: Doc, action: Action, infer: string -> Category, now: nat): Option<Doc> {
    var h := NormalizeSection(action.section);
    match action
    case Append(_, body, _, _) =>
      var existing := BodyOf(doc.bodies, h);
      Some(Doc(if h in doc.bodies then doc.headings else doc.headings + [h],
               doc.bodies[h := existing + Separator(existing) + Trim(body) + "\n"],
               doc.meta[h := NewMeta(doc, action, infer, now)]))
    case Replace(_, body, _, _) =>
      Some(Doc(if h in doc.bodies then doc.headings else doc.headings + [h],
               doc.bodies[h := Trim(body) + "\n"],
               doc.meta[h := NewMeta(doc, action, infer, now)]))
    case Delete(_) =>
      if h !in doc.bodies then None
      else Some(Doc(Without(doc.headings, h), doc.bodies - {h}, doc.meta - {h}))
  }

  // What a document looks like

  predicate NoHeadingLines(text: string) { forall line :: line in Lines(text) ==> !IsHeadingLine(line) }

  /** Distinct headings, one body and one metadata record each, and bodies of complete lines. */
  ghost predicate Shaped(doc: Doc) {
    && Distinct(doc.headings) && "" !in doc.headings && "" in doc.bodies
    && (forall h :: h in doc.bodies <==> h == "" || h in doc.headings)
    && (forall h :: h in doc.meta <==> h in doc.headings)
    && (forall h :: h in doc.bodies ==> Complete(doc.bodies[h]))
  }

  ghost predicate HeadingFree(doc: Doc) { forall h :: h in doc.bodies ==> NoHeadingLines(doc.bodies[h]) }

  ghost predicate AllStable(doc: Doc) { forall h :: h in doc.headings ==> Stable(h, MetaOf(doc.meta, h)) }

  function LastKey(doc: Doc): string { if doc.headings == [] then "" else doc.headings[|doc.headings| - 1] }

  /** The document with one line break more behind its last body. */
  function Terminated(doc: Doc): Doc { AddText(doc, LastKey(doc), "\n") }

  // Parsing gives shaped documents

  ghost predicate CursorOk(c: Cursor) { Shaped(c.doc) && HeadingFree(c.doc) && c.current in c.doc.bodies }

  lemma {:induction false} EmptyIsNoHeading()
    ensures !IsHeadingLine("") && NoHeadingLines("")
  {
  }

  lemma {:induction false} NoHeadingLinesAppend(s: string, rest: string)
    requires Complete(s)
    ensures NoHeadingLines(s + rest) <==> NoHeadingLines(s) && NoHeadingLines(rest)
  {
    EmptyIsNoHeading();
    forall line | line != "" ensures line in Lines(s + rest) <==> line in Lines(s) || line in Lines(rest) {
      LinesAppend(s, rest, line);
    }
  }

  lemma {:induction false} NoHeadingLine(line: string)
    requires '\n' !in line && !IsHeadingLine(line)
    ensures NoHeadingLines(line + "\n") && Complete(line + "\n")
  {
    LinesOfLine(line, "");
    assert line + "\n" + "" == line + "\n";
  }

  lemma {:induction false} OpenSectionKeeps(doc: Doc, heading: string, meta: Meta)
    requires Shaped(doc) && HeadingFree(doc) && heading != ""
    ensures Shaped(OpenSection(doc, heading, meta)) && HeadingFree(OpenSection(doc, heading, meta))
    ensures heading in OpenSection(doc, heading, meta).bodies
  {
    OpenSectionShaped(doc, heading, meta);
    EmptyIsNoHeading();
  }

  lemma {:induction false} OpenSectionShaped(doc: Doc, heading: string, meta: Meta)
    requires Shaped(doc) && heading != ""
    ensures Shaped(OpenSection(doc, heading, meta))
  {
    assert forall h :: h in doc.headings + [heading] <==> h in doc.headings || h == heading;
  }

  lemma {:induction false} AddLineKeeps(doc: Doc, key: string, line: string)
    requires Shaped(doc) && HeadingFree(doc) && key in doc.bodies && '\n' !in line && !IsHeadingLine(line)
    ensures Shaped(AddText(doc, key, line + "\n")) && HeadingFree(AddText(doc, key, line + "\n"))
  {
    NoHeadingLine(line);
    NoHeadingLinesAppend(doc.bodies[key], line + "\n");
  }

  lemma {:induction false} ParseLineKeeps(c: Cursor, line: string)
    requires CursorOk(c) && '\n' !in line
    ensures CursorOk(ParseLine(c, line))
  {
    if IsHeadingLine(line) {
      SplitGives(line);
      var (heading, meta) := SplitHeading(line);
      OpenSectionKeeps(c.doc, heading, meta);
    } else {
      AddLineKeeps(c.doc, c.current, line);
    }
  }

  lemma {:induction false} ParseLinesKeeps(lines: seq<string>, c: Cursor)
    requires CursorOk(c) && forall l :: l in lines ==> '\n' !in l
    ensures CursorOk(ParseLines(lines, c))
  {
    if lines != [] {
      ParseLineKeeps(c, lines[0]);
      ParseLinesKeeps(lines[1..], ParseLine(c, lines[0]));
    }
  }

  lemma {:induction false} LinesHaveNoBreaks(s: string)
    ensures forall l :: l in Lines(s) ==> '\n' !in l
  {
    if s != "" { LinesHaveNoBreaks(s[1..]); }
  }

  /** Whatever the file holds, its sections have distinct headings and bodies of complete lines
   *  without heading lines. */
  lemma {:induction false} ParsedShape(raw: string)
    ensures Shaped(Parsed(raw)) && HeadingFree(Parsed(raw))
  {
    EmptyIsNoHeading();
    LinesHaveNoBreaks(raw);
    ParseLinesKeeps(Lines(raw), EMPTY);
  }

  // The round trip

  lemma {:induction false} AddNothing(doc: Doc, key: string)
    requires key in doc.bodies
    ensures AddText(doc, key, "") == doc
  {
    assert doc.bodies[key] + "" == doc.bodies[key];
    assert doc.bodies[key := doc.bodies[key]] == doc.bodies;
  }

  lemma {:induction false} AddTwice(doc: Doc, key: string, a: string, b: string)
    ensures AddText(AddText(doc, key, a), key, b) == AddText(doc, key, a + b)
  {
    var x := BodyOf(doc.bodies, key);
    assert x + a + b == x + (a + b);
  }

  lemma {:induction false} ParseBlock(text: string, rest: string, c: Cursor)
    requires Complete(text) && NoHeadingLines(text) && c.current in c.doc.bodies
    ensures ParseLines(Lines(text + rest), c) == ParseLines(Lines(rest), c.(doc := AddText(c.doc, c.current, text)))
    decreases |text|
  {
    if text == "" {
      assert text + rest == rest;
      AddNothing(c.doc, c.current);
    } else {
      var line, more := FirstLine(text);
      assert text + rest == line + "\n" + (more + rest);
      LinesOfLine(line, more + rest);
      LinesOfLine(line, more);
      var next := ParseLine(c, line);
      ParseBlock(more, rest, next);
      AddTwice(c.doc, c.current, line + "\n", more);
    }
  }

  function WithSection(doc: Doc, h: string, body: string, meta: Meta): Doc {
    Doc(doc.headings + [h], doc.bodies[h := body], doc.meta[h := meta])
  }

  function Extended(doc: Doc, headings: seq<string>, bodies: map<string, string>, meta: map<string, Meta>): Doc
    decreases |headings|
  {
    if headings == [] then doc
    else
      var h := headings[0];
      Extended(WithSection(doc, h, BodyOf(bodies, h), MetaOf(meta, h)), headings[1..], bodies, meta)
  }

  ghost predicate Printable(headings: seq<string>, bodies: map<string, string>, meta: map<string, Meta>) {
    && Distinct(headings)
    && (forall h :: h in headings ==> h in bodies && Stable(h, MetaOf(meta, h)))
    && (forall h :: h in headings ==> Complete(bodies[h]) && NoHeadingLines(bodies[h]))
  }

  lemma {:induction false} ParsePrinted(headings: seq<string>, bodies: map<string, string>, meta: map<string, Meta>,
          c: Cursor)
    requires Printable(headings, bodies, meta) && c.current in c.doc.bodies && c.current == LastKey(c.doc)
    requires forall h :: h in headings ==> h !in c.doc.bodies
    ensures ParseLines(Lines(PrintedFrom(headings, bodies, meta)), c).doc ==
      Terminated(Extended(c.doc, headings, bodies, meta))
    decreases |headings|
  {
    if headings == [] {
      ParseNothing(c);
    } else {
      var h := headings[0];
      var next := Cursor(WithSection(c.doc, h, bodies[h], MetaOf(meta, h)), h);
      ParseSection(headings, bodies, meta, c);
      ParsePrinted(headings[1..], bodies, meta, next);
    }
  }

  lemma {:induction false} ParseNothing(c: Cursor)
    ensures ParseLines(Lines(""), c).doc == AddText(c.doc, c.current, "\n")
  {
    EmptyIsNoHeading();
    assert Lines("")[1..] == [] && "" + "\n" == "\n";
  }

  /** The first printed section is read back as it was. */
  lemma {:induction false} ParseSection(headings: seq<string>, bodies: map<string, string>, meta: map<string, Meta>,
          c: Cursor)
    requires headings != [] && headings[0] in bodies && headings[0] !in c.doc.bodies && c.current in c.doc.bodies
    requires var h := headings[0]; Stable(h, MetaOf(meta, h)) && Complete(bodies[h]) && NoHeadingLines(bodies[h])
    ensures var h := headings[0];
      ParseLines(Lines(PrintedFrom(headings, bodies, meta)), c) ==
        ParseLines(Lines(PrintedFrom(headings[1..], bodies, meta)),
        Cursor(WithSection(c.doc, h, bodies[h], MetaOf(meta, h)), h))
  {
    var h, m := headings[0], MetaOf(meta, headings[0]);
    StableIff(h, m);
    ParseAnySection(headings, bodies, meta, c);
    FillSection(c.doc, h, bodies[h], m);
  }

  /** Where the parser stands behind a line and the text under it. */
  function AfterLine(c: Cursor, line: string, body: string): Cursor {
    var entered := ParseLine(c, line);
    entered.(doc := AddText(entered.doc, entered.current, body))
  }

  /** Where the parser stands behind the first printed section, whatever its heading reads as. */
  function AfterFirst(headings: seq<string>, bodies: map<string, string>, meta: map<string, Meta>, c: Cursor): Cursor
    requires headings != []
  {
    AfterLine(c, FormatHeading(headings[0], MetaOf(meta, headings[0])), BodyOf(bodies, headings[0]))
  }

  lemma {:induction false} ParseAnySection(headings: seq<string>, bodies: map<string, string>,
          meta: map<string, Meta>, c: Cursor)
    requires headings != [] && '\n' !in headings[0] && c.current in c.doc.bodies
    requires Complete(BodyOf(bodies, headings[0])) && NoHeadingLines(BodyOf(bodies, headings[0]))
    ensures ParseLines(Lines(PrintedFrom(headings, bodies, meta)), c) ==
      ParseLines(Lines(PrintedFrom(headings[1..], bodies, meta)), AfterFirst(headings, bodies, meta, c))
  {
    var h, m := headings[0], MetaOf(meta, headings[0]);
    var body := BodyOf(bodies, h);
    var line := FormatHeading(h, m);
    var rest := PrintedFrom(headings[1..], bodies, meta);
    NoBreakInHeading(h, m);
    LinesOfLine(line, body + rest);
    Regroup(line + "\n", body, rest);
    var lines := Lines(line + "\n" + (body + rest));
    assert lines[0] == line && lines[1..] == Lines(body + rest);
    ParseBlock(body, rest, ParseLine(c, line));
  }

  lemma {:induction false} FillSection(doc: Doc, h: string, body: string, meta: Meta)
    requires h !in doc.bodies
    ensures AddText(OpenSection(doc, h, meta), h, body) == WithSection(doc, h, body, meta)
  {
    assert "" + body == body;
  }

  lemma {:induction false} NoBreakInHeading(h: string, meta: Meta)
    requires '\n' !in h
    ensures '\n' !in FormatHeading(h, meta)
  {
    if meta != DEFAULT_META {
      MetaTextPlain(meta);
      CommentedShape(h, MetaText(meta));
      var t := FormatHeading(h, meta);
      forall i | 0 <= i < |t| ensures t[i] != '\n' {
        if i < |h| { assert t[i] == h[i]; }
      }
    }
  }

  /** What `k` maps to in a document with the sections `headings` added. */
  ghost predicate JoinedAt(d: Doc, doc: Doc, headings: seq<string>, bodies: map<string, string>,
          meta: map<string, Meta>, k: string) {
    if k in headings then k in d.bodies && k in d.meta && d.bodies[k] == BodyOf(bodies, k)
      && d.meta[k] == MetaOf(meta, k)
    else
      && (k in d.bodies <==> k in doc.bodies) && (k in d.meta <==> k in doc.meta)
      && BodyOf(d.bodies, k) == BodyOf(doc.bodies, k) && MetaOf(d.meta, k) == MetaOf(doc.meta, k)
  }

  lemma {:induction false} ExtendedAt(doc: Doc, headings: seq<string>, bodies: map<string, string>,
          meta: map<string, Meta>, k: string)
    requires Distinct(headings) && forall h :: h in headings ==> h !in doc.bodies
    ensures JoinedAt(Extended(doc, headings, bodies, meta), doc, headings, bodies, meta, k)
    ensures Extended(doc, headings, bodies, meta).headings == doc.headings + headings
    decreases |headings|
  {
    if headings != [] {
      var h, later := headings[0], headings[1..];
      var next := WithSection(doc, h, BodyOf(bodies, h), MetaOf(meta, h));
      assert k in headings <==> k == h || k in later;
      assert h !in later;
      ExtendedAt(next, later, bodies, meta, k);
      assert doc.headings + [h] + later == doc.headings + headings;
    }
  }

  lemma {:induction false} PreambleExtends(doc: Doc)
    requires Shaped(doc)
    ensures Extended(AddText(EMPTY.doc, "", doc.bodies[""]), doc.headings, doc.bodies, doc.meta) == doc
  {
    PreambleOnly(doc.bodies[""]);
    SectionsExtend(Doc([], map["" := doc.bodies[""]], map[]), doc);
  }

  lemma {:induction false} PreambleOnly(text: string)
    ensures AddText(EMPTY.doc, "", text) == Doc([], map["" := text], map[])
  {
    assert "" + text == text;
    assert map["" := ""]["" := text] == map["" := text];
  }

  lemma {:induction false} SectionsExtend(start: Doc, doc: Doc)
    requires Shaped(doc) && start == Doc([], map["" := doc.bodies[""]], map[])
    ensures Extended(start, doc.headings, doc.bodies, doc.meta) == doc
  {
    var d := Extended(start, doc.headings, doc.bodies, doc.meta);
    ExtendedAt(start, doc.headings, doc.bodies, doc.meta, "");
    forall k ensures JoinedAt(d, start, doc.headings, doc.bodies, doc.meta, k) {
      ExtendedAt(start, doc.headings, doc.bodies, doc.meta, k);
    }
    SameDoc(d, start, doc);
    assert [] + doc.headings == doc.headings;
  }

  lemma {:induction false} SameDoc(d: Doc, start: Doc, doc: Doc)
    requires Shaped(doc) && start.bodies == map["" := doc.bodies[""]] && start.meta == map[]
    requires forall k :: JoinedAt(d, start, doc.headings, doc.bodies, doc.meta, k)
    ensures d.bodies == doc.bodies && d.meta == doc.meta
  {
    forall k ensures (k in d.bodies <==> k in doc.bodies) && BodyOf(d.bodies, k) == BodyOf(doc.bodies, k) {
      assert JoinedAt(d, start, doc.headings, doc.bodies, doc.meta, k);
    }
    forall k ensures (k in d.meta <==> k in doc.meta) && MetaOf(d.meta, k) == MetaOf(doc.meta, k) {
      assert JoinedAt(d, start, doc.headings, doc.bodies, doc.meta, k);
    }
    assert forall k :: k in d.bodies ==> d.bodies[k] == BodyOf(d.bodies, k) == doc.bodies[k];
    assert forall k :: k in d.meta ==> d.meta[k] == MetaOf(d.meta, k) == doc.meta[k];
  }

  /** A printed document is read back with the same headings, metadata and bodies, and exactly one
   *  line break more behind the last body. */
  lemma {:induction false} RoundTrip(doc: Doc)
    requires Shaped(doc) && AllStable(doc) && HeadingFree(doc)
    ensures Parsed(Printed(doc)) == Terminated(doc)
  {
    var start := Cursor(AddText(EMPTY.doc, "", doc.bodies[""]), "");
    ParseBlock(doc.bodies[""], PrintedFrom(doc.headings, doc.bodies, doc.meta), EMPTY);
    ParsePrinted(doc.headings, doc.bodies, doc.meta, start);
    PreambleExtends(doc);
  }

  // When it fails

  ghost predicate PlainSections(headings: seq<string>, bodies: map<string, string>) {
    && Distinct(headings)
    && (forall h :: h in headings ==> '\n' !in h && Complete(BodyOf(bodies, h)) && NoHeadingLines(BodyOf(bodies, h)))
  }

  lemma {:induction false} PlainRest(headings: seq<string>, bodies: map<string, string>)
    requires PlainSections(headings, bodies) && headings != []
    ensures PlainSections(headings[1..], bodies) && headings[0] !in headings[1..]
    ensures '\n' !in headings[0] && Complete(BodyOf(bodies, headings[0])) && NoHeadingLines(BodyOf(bodies, headings[0]))
  {
    assert headings[0] in headings;
  }

  /** Where the parser ends behind the printed sections. */
  function ParsedFrom(headings: seq<string>, bodies: map<string, string>, meta: map<string, Meta>, c: Cursor): Doc {
    ParseLines(Lines(PrintedFrom(headings, bodies, meta)), c).doc
  }

  /** Each printed section opens at most one section when it is read. */
  lemma {:induction false} AtMostOneEach(headings: seq<string>, bodies: map<string, string>, meta: map<string, Meta>,
          c: Cursor)
    requires PlainSections(headings, bodies) && c.current in c.doc.bodies
    ensures c.doc.headings <= ParsedFrom(headings, bodies, meta, c).headings
    ensures |ParsedFrom(headings, bodies, meta, c).headings| <= |c.doc.headings| + |headings|
    decreases |headings|
  {
    if headings == [] {
      ParseNothing(c);
    } else {
      PlainRest(headings, bodies);
      var next := AfterFirst(headings, bodies, meta, c);
      LineOpensOne(c, FormatHeading(headings[0], MetaOf(meta, headings[0])), BodyOf(bodies, headings[0]));
      assert ParsedFrom(headings, bodies, meta, c) == ParsedFrom(headings[1..], bodies, meta, next) by {
        ParseAnySection(headings, bodies, meta, c);
      }
      AtMostOneEach(headings[1..], bodies, meta, next);
    }
  }

  /** If all headings come back, the first line reads as the first heading, with some metadata. */
  lemma {:induction false} FirstComesBack(headings: seq<string>, bodies: map<string, string>, meta: map<string, Meta>,
          c: Cursor) returns (next: Cursor, read: Meta)
    requires headings != [] && PlainSections(headings, bodies) && c.current in c.doc.bodies
    requires ParsedFrom(headings, bodies, meta, c).headings == c.doc.headings + headings
    ensures PlainSections(headings[1..], bodies) && headings[0] !in headings[1..] && next.current in next.doc.bodies
    ensures ParsedFrom(headings, bodies, meta, c) == ParsedFrom(headings[1..], bodies, meta, next)
    ensures next.doc.headings + headings[1..] == c.doc.headings + headings
    ensures next.doc.meta == c.doc.meta[headings[0] := read]
    ensures read == MetaOf(meta, headings[0]) ==> Stable(headings[0], read)
  {
    var h, m := headings[0], MetaOf(meta, headings[0]);
    var line := FormatHeading(h, m);
    next := AfterFirst(headings, bodies, meta, c);
    read := SplitHeading(line).1;
    PlainRest(headings, bodies);
    ParseAnySection(headings, bodies, meta, c);
    AtMostOneEach(headings[1..], bodies, meta, next);
    LineOpensOne(c, line, BodyOf(bodies, h));
    SameHeading(c.doc.headings, next.doc.headings, headings, ParsedFrom(headings, bodies, meta, c).headings);
    LineReadsAs(c, line, BodyOf(bodies, h), h);
    ReadsStable(h, m);
  }

  lemma {:induction false} LineOpensOne(c: Cursor, line: string, body: string)
    requires c.current in c.doc.bodies
    ensures AfterLine(c, line, body).current in AfterLine(c, line, body).doc.bodies
    ensures c.doc.headings <= AfterLine(c, line, body).doc.headings
      && |AfterLine(c, line, body).doc.headings| <= |c.doc.headings| + 1
  {
  }

  lemma {:induction false} LineReadsAs(c: Cursor, line: string, body: string, h: string)
    requires AfterLine(c, line, body).doc.headings == c.doc.headings + [h]
    ensures IsHeadingLine(line) && SplitHeading(line).0 == h
    ensures AfterLine(c, line, body).doc.meta == c.doc.meta[h := SplitHeading(line).1]
  {
    var next := AfterLine(c, line, body);
    assert |next.doc.headings| > |c.doc.headings|;
    assert next.doc.headings[|c.doc.headings|] == h;
  }

  lemma {:induction false} ReadsStable(h: string, m: Meta)
    requires '\n' !in h && IsHeadingLine(FormatHeading(h, m)) && SplitHeading(FormatHeading(h, m)).0 == h
    ensures SplitHeading(FormatHeading(h, m)).1 == m ==> Stable(h, m)
  {
    StableIff(h, m);
  }

  lemma {:induction false} SameHeading(before: seq<string>, next: seq<string>, headings: seq<string>,
          final: seq<string>)
    requires headings != [] && final == before + headings && next <= final
    requires |final| <= |next| + |headings| - 1 && |next| <= |before| + 1
    ensures next == before + [headings[0]] && next + headings[1..] == final
  {
  }

  ghost predicate MetaKept(final: map<string, Meta>, before: map<string, Meta>, headings: seq<string>) {
    forall k :: k !in headings ==> MetaOf(final, k) == MetaOf(before, k)
  }

  /** Headings that come back with their metadata are stable. */
  ghost predicate ReturnedStable(final: map<string, Meta>, meta: map<string, Meta>, headings: seq<string>) {
    forall h :: h in headings && MetaOf(final, h) == MetaOf(meta, h) ==> Stable(h, MetaOf(meta, h))
  }

  lemma {:induction false} OneMoreReturned(final: map<string, Meta>, before: map<string, Meta>,
          meta: map<string, Meta>, headings: seq<string>, read: Meta)
    requires headings != [] && headings[0] !in headings[1..]
    requires MetaKept(final, before[headings[0] := read], headings[1..]) && ReturnedStable(final, meta, headings[1..])
    requires read == MetaOf(meta, headings[0]) ==> Stable(headings[0], read)
    ensures MetaKept(final, before, headings) && ReturnedStable(final, meta, headings)
  {
    var h := headings[0];
    assert forall k :: k in headings <==> k == h || k in headings[1..];
    assert MetaOf(final, h) == read;
  }

  /** If all headings come back with their metadata, each is read back from its own line. */
  lemma {:induction false} AllComeBack(headings: seq<string>, bodies: map<string, string>, meta: map<string, Meta>,
          c: Cursor)
    requires PlainSections(headings, bodies) && c.current in c.doc.bodies
    requires ParsedFrom(headings, bodies, meta, c).headings == c.doc.headings + headings
    ensures MetaKept(ParsedFrom(headings, bodies, meta, c).meta, c.doc.meta, headings)
    ensures ReturnedStable(ParsedFrom(headings, bodies, meta, c).meta, meta, headings)
    decreases |headings|
  {
    if headings == [] {
      ParseNothing(c);
    } else {
      var next, read := FirstComesBack(headings, bodies, meta, c);
      AllComeBack(headings[1..], bodies, meta, next);
      OneMoreReturned(ParsedFrom(headings, bodies, meta, c).meta, c.doc.meta, meta, headings, read);
    }
  }

  lemma {:induction false} HeadingsWithoutBreaks(lines: seq<string>, c: Cursor)
    requires (forall h :: h in c.doc.headings ==> '\n' !in h) && forall l :: l in lines ==> '\n' !in l
    ensures forall h :: h in ParseLines(lines, c).doc.headings ==> '\n' !in h
  {
    if lines != [] {
      if IsHeadingLine(lines[0]) { SplitGives(lines[0]); }
      HeadingsWithoutBreaks(lines[1..], ParseLine(c, lines[0]));
    }
  }

  lemma {:induction false} OnlyStableComesBack(doc: Doc)
    requires Shaped(doc) && HeadingFree(doc) && Parsed(Printed(doc)) == Terminated(doc)
    ensures AllStable(doc)
  {
    LinesHaveNoBreaks(Printed(doc));
    HeadingsWithoutBreaks(Lines(Printed(doc)), EMPTY);
    var start := Cursor(AddText(EMPTY.doc, "", doc.bodies[""]), "");
    ParseBlock(doc.bodies[""], PrintedFrom(doc.headings, doc.bodies, doc.meta), EMPTY);
    assert start.doc.headings + doc.headings == doc.headings;
    AllComeBack(doc.headings, doc.bodies, doc.meta, start);
  }

  /** The round trip holds exactly when every heading can be printed and read back with its metadata
   *  and no body holds a heading line. */
  lemma {:induction false} RoundTripIff(doc: Doc)
    requires Shaped(doc)
    ensures Parsed(Printed(doc)) == Terminated(doc) <==> AllStable(doc) && HeadingFree(doc)
  {
    if AllStable(doc) && HeadingFree(doc) { RoundTrip(doc); }
    if Parsed(Printed(doc)) == Terminated(doc) {
      ParsedShape(Printed(doc));
      TerminatedFree(doc);
      OnlyStableComesBack(doc);
    }
  }

  lemma {:induction false} TerminatedFree(doc: Doc)
    requires Shaped(doc) && HeadingFree(Terminated(doc))
    ensures HeadingFree(doc)
  {
    forall h | h in doc.bodies ensures NoHeadingLines(doc.bodies[h]) {
      assert NoHeadingLines(Terminated(doc).bodies[h]);
      NoHeadingLinesAppend(doc.bodies[h], "\n");
    }
  }
}
