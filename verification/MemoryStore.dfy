/** The memory store: one file, read as sections and changed by one action at a time. The clock,
 *  the category inferred from a heading and whether a write succeeds are parameters. */
module MemoryStore {
  import opened Text
  import opened Wrappers
  import opened MemoryMeta
  import opened MemoryHeading
  import opened MemoryDoc

  datatype Failure = SectionNotFound(heading: string) | WriteFailed

  // What an edit keeps

  lemma {:induction false} WithoutIs(s: seq<string>, x: string)
    requires Distinct(s) && x in s
    ensures Distinct(Without(s, x)) && forall y :: y in Without(s, x) <==> y in s && y != x
  {
    assert forall y :: y in s <==> y == s[0] || y in s[1..];
    if s[0] != x {
      WithoutIs(s[1..], x);
      assert s[0] !in s[1..];
    } else {
      assert x !in s[1..];
    }
  }

  lemma {:induction false} NoHeadingLinesSnoc(s: string)
    ensures NoHeadingLines(s + "\n") <==> NoHeadingLines(s)
  {
    EmptyIsNoHeading();
    LinesSnoc(s);
  }

  /** Putting a body of complete lines into a section. */
  function Put(doc: Doc, h: string, body: string, meta: Meta): Doc {
    Doc(if h in doc.bodies then doc.headings else doc.headings + [h], doc.bodies[h := body], doc.meta[h := meta])
  }

  lemma {:induction false} PutShape(doc: Doc, h: string, body: string, meta: Meta)
    requires Shaped(doc) && HeadingFree(doc) && h != "" && Complete(body)
    ensures Shaped(Put(doc, h, body, meta))
    ensures HeadingFree(Put(doc, h, body, meta)) <==> NoHeadingLines(body)
  {
    assert forall k :: k in doc.headings + [h] <==> k in doc.headings || k == h;
    assert Put(doc, h, body, meta).bodies[h] == body;
  }

  /** The text an edit writes into the named section. */
  function NewBody(doc: Doc, action: Action): string
    requires !action.Delete?
  {
    (if action.Append? then BodyOf(doc.bodies, NormalizeSection(action.section)) else "") + Trim(action.body) + "\n"
  }

  function PutBy(doc: Doc, action: Action, infer: string -> Category, now: nat): Doc
    requires !action.Delete?
  {
    Put(doc, NormalizeSection(action.section), NewBody(doc, action), NewMeta(doc, action, infer, now))
  }

  lemma {:induction false} EditedIs(doc: Doc, action: Action, infer: string -> Category, now: nat)
    requires Shaped(doc) && !action.Delete?
    ensures Edited(doc, action, infer, now) == Some(PutBy(doc, action, infer, now))
  {
    if action.Append? {
      var existing := BodyOf(doc.bodies, NormalizeSection(action.section));
      assert Separator(existing) == "" && existing + "" == existing;
    } else {
      assert "" + Trim(action.body) == Trim(action.body);
    }
  }

  lemma {:induction false} NewBodyFree(doc: Doc, action: Action)
    requires Shaped(doc) && HeadingFree(doc) && !action.Delete?
    ensures Complete(NewBody(doc, action))
    ensures NoHeadingLines(NewBody(doc, action)) <==> NoHeadingLines(Trim(action.body))
  {
    EmptyIsNoHeading();
    var existing := if action.Append? then BodyOf(doc.bodies, NormalizeSection(action.section)) else "";
    var added := Trim(action.body) + "\n";
    Regroup(existing, Trim(action.body), "\n");
    NoHeadingLinesAppend(existing, added);
    NoHeadingLinesSnoc(Trim(action.body));
  }

  /** Whether an action's body can be stored as text: no line of it, trimmed, is a heading line. */
  predicate BodyIsText(action: Action) { action.Delete? || NoHeadingLines(Trim(action.body)) }

  lemma {:induction false} EditedShape(doc: Doc, action: Action, infer: string -> Category, now: nat)
    requires Shaped(doc) && HeadingFree(doc) && Edited(doc, action, infer, now).Some?
    ensures var d := Edited(doc, action, infer, now).value; Shaped(d) && (HeadingFree(d) <==> BodyIsText(action))
  {
    var h := NormalizeSection(action.section);
    assert h[0] == '#' && h != "";
    if action.Delete? {
      WithoutIs(doc.headings, h);
    } else {
      NewBodyFree(doc, action);
      EditedIs(doc, action, infer, now);
      PutShape(doc, h, NewBody(doc, action), NewMeta(doc, action, infer, now));
    }
  }

  /** The line break that printing adds behind the last body. */
  function End(doc: Doc, key: string): string { if key == LastKey(doc) then "\n" else "" }

  ghost predicate OthersKept(before: Doc, after: Doc, h: string) {
    && (forall k :: k != h ==> (k in after.bodies <==> k in before.bodies) && (k in after.meta <==> k in before.meta))
    && (forall k :: k != h && k in before.bodies ==> BodyOf(after.bodies, k) == before.bodies[k] + End(after, k))
    && (forall k :: k != h && k in before.meta ==> MetaOf(after.meta, k) == before.meta[k])
  }

  /** The section named by the action is changed as asked, every other keeps its place, metadata
   *  and body, up to one line break behind the last body of the file. */
  ghost predicate OnlyNamedChanged(before: Doc, after: Doc, action: Action, infer: string -> Category, now: nat) {
    var h := NormalizeSection(action.section);
    && OthersKept(before, after, h)
    && if action.Delete? then h !in after.bodies && h !in after.meta && after.headings == Without(before.headings, h)
       else
         && after.headings == (if h in before.headings then before.headings else before.headings + [h])
         && h in after.bodies && after.bodies[h] == NewBody(before, action) + End(after, h)
         && h in after.meta && after.meta[h] == NewMeta(before, action, infer, now)
  }

  /** Keys other than `h` map to the same in both. */
  ghost predicate SameBut(before: Doc, d: Doc, h: string) {
    && (forall k :: k != h ==> (k in d.bodies <==> k in before.bodies) && (k in d.meta <==> k in before.meta))
    && (forall k :: k != h && k in before.bodies ==> BodyOf(d.bodies, k) == before.bodies[k])
    && (forall k :: k != h && k in before.meta ==> MetaOf(d.meta, k) == before.meta[k])
  }

  lemma {:induction false} SameButEnd(before: Doc, d: Doc, h: string)
    requires Shaped(d) && SameBut(before, d, h)
    ensures OthersKept(before, Terminated(d), h)
  {
    TerminatedBodies(d);
    forall k | k != h && k in before.bodies
      ensures BodyOf(Terminated(d).bodies, k) == before.bodies[k] + End(Terminated(d), k)
    {
      assert BodyOf(d.bodies, k) == before.bodies[k];
    }
  }

  lemma {:induction false} PutSame(before: Doc, h: string, body: string, meta: Meta)
    requires Shaped(before)
    ensures SameBut(before, Put(before, h, body, meta), h)
  {
  }

  lemma {:induction false} TerminatedChanged(before: Doc, action: Action, infer: string -> Category, now: nat)
    requires Shaped(before) && HeadingFree(before) && Edited(before, action, infer, now).Some?
    ensures OnlyNamedChanged(before, Terminated(Edited(before, action, infer, now).value), action, infer, now)
  {
    EditedShape(before, action, infer, now);
    if action.Delete? {
      DeletedChanged(before, action, infer, now);
    } else {
      EditedIs(before, action, infer, now);
      PutChanged(before, action, infer, now);
    }
  }

  lemma {:induction false} DeleteSame(before: Doc, h: string)
    requires Shaped(before)
    ensures SameBut(before, Doc(Without(before.headings, h), before.bodies - {h}, before.meta - {h}), h)
  {
  }

  lemma {:induction false} DeletedChanged(before: Doc, action: Action, infer: string -> Category, now: nat)
    requires Shaped(before) && action.Delete? && Edited(before, action, infer, now).Some?
      && Shaped(Edited(before, action, infer, now).value)
    ensures OnlyNamedChanged(before, Terminated(Edited(before, action, infer, now).value), action, infer, now)
  {
    var h := NormalizeSection(action.section);
    var d := Edited(before, action, infer, now).value;
    DeleteSame(before, h);
    SameButEnd(before, d, h);
    TerminatedBodies(d);
  }

  lemma {:induction false} PutChanged(before: Doc, action: Action, infer: string -> Category, now: nat)
    requires Shaped(before) && !action.Delete?
    requires Shaped(PutBy(before, action, infer, now))
    ensures OnlyNamedChanged(before, Terminated(PutBy(before, action, infer, now)), action, infer, now)
  {
    var h := NormalizeSection(action.section);
    var body := NewBody(before, action);
    var meta := NewMeta(before, action, infer, now);
    var d := Put(before, h, body, meta);
    PutSame(before, h, body, meta);
    SameButEnd(before, d, h);
    TerminatedBodies(d);
    assert h[0] == '#' && (h in before.bodies <==> h in before.headings);
    assert d.bodies[h] == body && d.meta[h] == meta;
  }

  lemma {:induction false} TerminatedBodies(d: Doc)
    requires Shaped(d)
    ensures Terminated(d).headings == d.headings && Terminated(d).meta == d.meta
      && Terminated(d).bodies.Keys == d.bodies.Keys
    ensures forall k :: k in d.bodies ==> Terminated(d).bodies[k] == d.bodies[k] + End(Terminated(d), k)
  {
  }

  /** Every heading of the file, and the named one with its new metadata, can be printed and read
   *  back. */
  ghost predicate HeadingsPrintable(doc: Doc, action: Action, infer: string -> Category, now: nat) {
    var h := NormalizeSection(action.section);
    && OthersStable(doc, h)
    && (!action.Delete? ==> Stable(h, NewMeta(doc, action, infer, now)))
  }

  lemma {:induction false} EditedStableIff(doc: Doc, action: Action, infer: string -> Category, now: nat)
    requires Shaped(doc) && Edited(doc, action, infer, now).Some?
    ensures AllStable(Edited(doc, action, infer, now).value) <==> HeadingsPrintable(doc, action, infer, now)
  {
    var h := NormalizeSection(action.section);
    assert h[0] == '#';
    if action.Delete? {
      DeletedStableIff(doc, h);
    } else {
      EditedIs(doc, action, infer, now);
      PutStableIff(doc, h, NewBody(doc, action), NewMeta(doc, action, infer, now));
    }
  }

  ghost predicate OthersStable(doc: Doc, h: string) {
    forall g :: g in doc.headings && g != h ==> Stable(g, MetaOf(doc.meta, g))
  }

  lemma {:induction false} DeletedStableIff(doc: Doc, h: string)
    requires Shaped(doc) && h in doc.bodies && h != ""
    ensures AllStable(Doc(Without(doc.headings, h), doc.bodies - {h}, doc.meta - {h})) <==> OthersStable(doc, h)
  {
    WithoutIs(doc.headings, h);
    assert forall g :: g != h ==> MetaOf(doc.meta - {h}, g) == MetaOf(doc.meta, g);
  }

  lemma {:induction false} PutStableIff(doc: Doc, h: string, body: string, meta: Meta)
    requires Shaped(doc) && h != ""
    ensures AllStable(Put(doc, h, body, meta)) <==> OthersStable(doc, h) && Stable(h, meta)
  {
    var d := Put(doc, h, body, meta);
    assert forall g :: g in d.headings <==> g in doc.headings || g == h;
    assert forall g :: g != h ==> MetaOf(d.meta, g) == MetaOf(doc.meta, g);
  }

  /** There is one document that differs from `before` as the action asks. */
  lemma {:induction false} ChangedIsTerminated(before: Doc, after: Doc, action: Action, infer: string -> Category,
          now: nat)
    requires Shaped(before) && HeadingFree(before) && Edited(before, action, infer, now).Some?
    requires OnlyNamedChanged(before, after, action, infer, now)
    ensures after == Terminated(Edited(before, action, infer, now).value)
  {
    var d := Terminated(Edited(before, action, infer, now).value);
    TerminatedChanged(before, action, infer, now);
    EditedShape(before, action, infer, now);
    assert after.headings == d.headings by {
      if !action.Delete? { EditedIs(before, action, infer, now); }
    }
    forall k ensures SameAt(after, d, k) { SameChangeAt(before, after, d, action, infer, now, k); }
    SameEverywhere(after, d);
  }

  lemma {:induction false} SameEverywhere(a: Doc, b: Doc)
    requires a.headings == b.headings && forall k :: SameAt(a, b, k)
    ensures a == b
  {
    assert forall k :: k in a.bodies || k in b.bodies || k in a.meta || k in b.meta ==> SameAt(a, b, k);
    assert a.bodies == b.bodies && a.meta == b.meta;
  }

  ghost predicate SameAt(a: Doc, b: Doc, k: string) {
    && (k in a.bodies <==> k in b.bodies) && (k in a.bodies && k in b.bodies ==> a.bodies[k] == b.bodies[k])
    && (k in a.meta <==> k in b.meta) && (k in a.meta && k in b.meta ==> a.meta[k] == b.meta[k])
  }

  lemma {:induction false} SameChangeAt(before: Doc, a: Doc, b: Doc, action: Action, infer: string -> Category,
          now: nat, k: string)
    requires Shaped(before) && a.headings == b.headings
    requires OnlyNamedChanged(before, a, action, infer, now) && OnlyNamedChanged(before, b, action, infer, now)
    ensures SameAt(a, b, k)
  {
    var h := NormalizeSection(action.section);
    assert End(a, k) == End(b, k);
    if k != h {
      assert k in before.bodies ==> BodyOf(a.bodies, k) == BodyOf(b.bodies, k);
      assert k in before.meta ==> MetaOf(a.meta, k) == MetaOf(b.meta, k);
    }
  }

  /** Writing an action and reading the file back changes only the named section, exactly when the
   *  trimmed body holds no heading line and every heading that is printed can be read back. */
  lemma {:induction false} ApplyThenRead(raw: string, action: Action, infer: string -> Category, now: nat)
    requires Edited(Parsed(raw), action, infer, now).Some?
    ensures OnlyNamedChanged(Parsed(raw), Parsed(Printed(Edited(Parsed(raw), action, infer, now).value)), action,
      infer, now)
      <==> BodyIsText(action) && HeadingsPrintable(Parsed(raw), action, infer, now)
  {
    var before := Parsed(raw);
    ParsedShape(raw);
    EditedShape(before, action, infer, now);
    EditedStableIff(before, action, infer, now);
    var d := Edited(before, action, infer, now).value;
    var after := Parsed(Printed(d));
    RoundTripIff(d);
    if after == Terminated(d) { TerminatedChanged(before, action, infer, now); }
    if OnlyNamedChanged(before, after, action, infer, now) { ChangedIsTerminated(before, after, action, infer, now); }
  }

  /** Whether an edit of the file changes only the section it names. */
  ghost predicate ChangesOnlyNamed(raw: string, action: Action, infer: string -> Category, now: nat) {
    var edited := Edited(Parsed(raw), action, infer, now);
    edited.Some? && OnlyNamedChanged(Parsed(raw), Parsed(Printed(edited.value)), action, infer, now)
  }

  /** Whatever the file and the text, a section name with a line break, or with a comment mark behind
   *  its first character, is not read back as written. */
  lemma {:induction false} BadNameFails(raw: string, action: Action, infer: string -> Category, now: nat)
    requires now > 0 && !action.Delete?
    requires var h := NormalizeSection(action.section); '\n' in h || exists p :: CoreStart(h) < p < |h| && Opens(h, p)
    ensures !ChangesOnlyNamed(raw, action, infer, now)
  {
    if Edited(Parsed(raw), action, infer, now).Some? {
      ApplyThenRead(raw, action, infer, now);
      NotStable(NormalizeSection(action.section), NewMeta(Parsed(raw), action, infer, now));
    }
  }

  lemma {:induction false} NotStable(h: string, meta: Meta)
    requires '\n' in h || (meta != DEFAULT_META && exists p :: CoreStart(h) < p < |h| && Opens(h, p))
    ensures !Stable(h, meta)
  {
  }

  /** Three edits that change more than the section they name, whatever the file: two with such names,
   *  and one whose body is a heading line only when trimmed. */
  lemma {:induction false} FailingEdits(raw: string, body: string, infer: string -> Category, now: nat)
    requires now > 0
    ensures !ChangesOnlyNamed(raw, Replace("x <!-- y -->", body, None, None), infer, now)
    ensures !ChangesOnlyNamed(raw, Append("a\nb", body, None, None), infer, now)
    ensures !ChangesOnlyNamed(raw, Append("x", "  ## x", None, None), infer, now)
  {
    MarkedNameFails(raw, body, infer, now);
    BrokenNameFails(raw, body, infer, now);
    HeadingBodyFails(raw, infer, now);
  }

  lemma {:induction false} MarkedNameFails(raw: string, body: string, infer: string -> Category, now: nat)
    requires now > 0
    ensures !ChangesOnlyNamed(raw, Replace("x <!-- y -->", body, None, None), infer, now)
  {
    var name := "x <!-- y -->";
    var h := "## " + name;
    BareName(name);
    CoreStartIs(h, 2, 3);
    assert Opens(h, 5);
    BadNameFails(raw, Replace(name, body, None, None), infer, now);
  }

  lemma {:induction false} BrokenNameFails(raw: string, body: string, infer: string -> Category, now: nat)
    requires now > 0
    ensures !ChangesOnlyNamed(raw, Append("a\nb", body, None, None), infer, now)
  {
    var name := "a\nb";
    BareName(name);
    assert ("## " + name)[4] == '\n';
    BadNameFails(raw, Append(name, body, None, None), infer, now);
  }

  lemma {:induction false} BareName(name: string)
    requires name != "" && Trimmed(name) && name[0] != '#'
    ensures NormalizeSection(name) == "## " + name
  {
    TrimmedStays(name);
    TrimmedHeading(name);
    assert Hashes(name) == 0;
  }

  lemma {:induction false} HeadingBodyFails(raw: string, infer: string -> Category, now: nat)
    ensures !ChangesOnlyNamed(raw, Append("x", "  ## x", None, None), infer, now)
  {
    var action := Append("x", "  ## x", None, None);
    IndentedHeading();
    LinesOfLine("## x", "");
    assert "## x" in Lines(Trim(action.body));
    ApplyThenRead(raw, action, infer, now);
  }

  /** A file's headings can all be printed and read back, except those that are nothing but hashes
   *  or whose text begins with a comment mark. */
  lemma {:induction false} ParsedHeadingsStable(raw: string, h: string)
    requires h in Parsed(raw).headings && IsHeadingLine(h) && !Opens(h, CoreStart(h))
    ensures Stable(h, MetaOf(Parsed(raw).meta, h))
  {
    LinesHaveNoBreaks(raw);
    EmptyOk();
    ParsedLinesStable(Lines(raw), EMPTY, h);
    assert StableAt(Parsed(raw), h);
  }

  lemma {:induction false} EmptyOk()
    ensures CursorOk(EMPTY) && EMPTY.doc.headings == []
  {
  }

  ghost predicate StableAt(doc: Doc, h: string) {
    h in doc.headings ==> h in doc.bodies && h in doc.meta && Stable(h, doc.meta[h])
  }

  lemma {:induction false} ParsedLinesStable(lines: seq<string>, c: Cursor, h: string)
    requires CursorOk(c) && StableAt(c.doc, h) && (forall l :: l in lines ==> '\n' !in l)
    requires IsHeadingLine(h) && !Opens(h, CoreStart(h))
    ensures StableAt(ParseLines(lines, c).doc, h)
  {
    if lines != [] {
      ParseLineKeeps(c, lines[0]);
      if IsHeadingLine(lines[0]) { SplitGives(lines[0]); }
      ParsedLinesStable(lines[1..], ParseLine(c, lines[0]), h);
    }
  }

  // Section names

  /** Names that need no care: trimmed, without line ends, hashes in front or comment marks. */
  predicate PlainName(s: string) {
    && s != "" && Trimmed(s) && s[0] != '#' && NoLineEndIn(s, 0, |s|)
    && forall p :: 0 < p < |s| ==> !Opens(s, p)
  }

  /** A plain name, bare or behind two or more hashes, means one section, whose heading can be
   *  printed and read back with any metadata. */
  lemma {:induction false} NormalizePlain(name: string, hashes: nat, meta: Meta)
    requires PlainName(name) && hashes != 1
    ensures NormalizeSection(if hashes == 0 then name else Hashed(hashes, name)) == "## " + name
    ensures Stable("## " + name, meta)
  {
    PlainStable(name, meta);
    if hashes == 0 {
      TrimmedStays(name);
      TrimmedHeading(name);
      assert Hashes(name) == 0;
    } else {
      HashedShape(name, hashes);
      TrimmedStays(Hashed(hashes, name));
      TrimmedHeading(Hashed(hashes, name));
    }
  }

  function Hashed(hashes: nat, name: string): string { seq(hashes, _ => '#') + " " + name }

  lemma {:induction false} HashedShape(name: string, hashes: nat)
    requires PlainName(name) && hashes > 0
    ensures var s := Hashed(hashes, name);
      && Trimmed(s) && Hashes(s) == hashes && CoreStart(s) == hashes + 1 && s[hashes + 1..] == name
      && NoLineEndIn(s, hashes + 1, |s|)
  {
    CoreStartIs(Hashed(hashes, name), hashes, hashes + 1);
  }

  lemma {:induction false} PlainStable(name: string, meta: Meta)
    requires PlainName(name)
    ensures Stable("## " + name, meta)
  {
    var h := "## " + name;
    CoreStartIs(h, 2, 3);
    TrimmedHeading(h);
    assert '\n' !in h by {
      forall i | 0 <= i < |h| ensures h[i] != '\n' { if i >= 3 { assert h[i] == name[i - 3]; } }
    }
    forall p | 3 < p < |h| ensures !Opens(h, p) { assert !Opens(name, p - 3); }
  }

  /** A body that is no heading line as given, and is one when trimmed. */
  lemma {:induction false} IndentedHeading()
    ensures !IsHeadingLine("  ## x") && Trim("  ## x") == "## x" && IsHeadingLine("## x")
  {
    var s := "  ## x";
    var t := "## x";
    assert s[1..] == " ## x" && s[1..][1..] == t;
    assert TrimStart(s) == t;
    assert HeadingAt(t, 2, 3, 4);
    assert !HashIn(s, 0, 2);
  }

  /** `raw.split("\n")` in a loop over the lines. */
  method SplitSections(raw: string)
          returns (headings: seq<string>, bodies: map<string, string>, meta: map<string, Meta>)
    ensures Doc(headings, bodies, meta) == Parsed(raw)
  {
    var lines := Lines(raw);
    headings, bodies, meta := [], map["" := ""], map[];
    var current := "";
    while lines != []
      invariant ParseLines(lines, Cursor(Doc(headings, bodies, meta), current)).doc == Parsed(raw)
      decreases |lines|
    {
      var line := lines[0];
      lines := lines[1..];
      if IsHeadingLine(line) {
        var (heading, sectionMeta) := SplitHeading(line);
        current := heading;
        if current !in bodies {
          headings := headings + [current];
          bodies := bodies[current := ""];
        }
        meta := meta[current := sectionMeta];
        continue;
      }
      var body := if current in bodies then bodies[current] else "";
      bodies := bodies[current := body + (line + "\n")];
    }
  }

  lemma {:induction false} Shift(out: string, a: string, b: string, c: string)
    ensures out + a + b + c == out + (a + b + c)
  {
  }

  method Serialize(headings: seq<string>, bodies: map<string, string>, meta: map<string, Meta>) returns (out: string)
    ensures out == Printed(Doc(headings, bodies, meta))
  {
    out := "";
    if "" in bodies && bodies[""] != "" { out := bodies[""]; }
    var rest := headings;
    while rest != []
      invariant out + PrintedFrom(rest, bodies, meta) == Printed(Doc(headings, bodies, meta))
      decreases |rest|
    {
      var h := rest[0];
      var heading := FormatHeading(h, if h in meta then meta[h] else DEFAULT_META);
      var body := if h in bodies then bodies[h] else "";
      Shift(out, heading + "\n", body, PrintedFrom(rest[1..], bodies, meta));
      out := out + (heading + "\n") + body;
      rest := rest[1..];
    }
  }

  class MemoryStore {
    var file: Option<string>

    constructor (file: Option<string>)
      ensures this.file == file
    {
      this.file := file;
    }

    method Read() returns (raw: string, sections: map<string, string>)
      ensures raw == if file.Some? then file.value else ""
      ensures sections == if file.Some? then Parsed(raw).bodies - {""} else map[]
    {
      if file.None? { return "", map[]; }
      raw := file.value;
      var headings, bodies, meta := SplitSections(raw);
      sections := bodies - {""};
    }

    /** Writes the edited document, or leaves the file alone and says why. */
    method Apply(action: Action, infer: string -> Category, now: nat, writes: bool)
            returns (result: Result<string, Failure>)
      modifies this
      ensures var edited := Edited(Parsed(if old(file).Some? then old(file).value else ""), action, infer, now);
        && (edited.None? ==> result == Err(SectionNotFound(NormalizeSection(action.section))) && file == old(file))
        && (edited.Some? && !writes ==> result == Err(WriteFailed) && file == old(file))
        && (edited.Some? && writes ==> result == Ok(Printed(edited.value)) && file == Some(Printed(edited.value)))
    {
      var current := if file.Some? then file.value else "";
      var headings, bodies, meta := SplitSections(current);
      var found;
      found, headings, bodies, meta := Edit(headings, bodies, meta, action, infer, now);
      if !found { return Err(SectionNotFound(NormalizeSection(action.section))); }
      var next := Serialize(headings, bodies, meta);
      if !writes { return Err(WriteFailed); }
      file := Some(next);
      result := Ok(next);
    }

    /** The edit itself: the metadata first, then the body and the heading list. */
    static method Edit(headings0: seq<string>, bodies0: map<string, string>, meta0: map<string, Meta>, action: Action,
            infer: string -> Category, now: nat)
      returns (found: bool, headings: seq<string>, bodies: map<string, string>, meta: map<string, Meta>)
      ensures var edited := Edited(Doc(headings0, bodies0, meta0), action, infer, now);
        found == edited.Some? && (found ==> Doc(headings, bodies, meta) == edited.value)
    {
      headings, bodies, meta := headings0, bodies0, meta0;
      var heading := NormalizeSection(action.section);
      if !action.Delete? { meta := meta[heading := NewMeta(Doc(headings, bodies, meta), action, infer, now)]; }
      match action {
        case Append(_, body, _, _) =>
          if heading !in bodies {
            headings := headings + [heading];
            bodies := bodies[heading := ""];
          }
          var existing := bodies[heading];
          var separator := if existing == "" || existing[|existing| - 1] == '\n' then "" else "\n";
          bodies := bodies[heading := existing + separator + Trim(body) + "\n"];
          assert bodies == bodies0[heading := bodies[heading]];
        case Replace(_, body, _, _) =>
          if heading !in bodies { headings := headings + [heading]; }
          bodies := bodies[heading := Trim(body) + "\n"];
        case Delete(_) =>
          if heading !in bodies { return false, headings, bodies, meta; }
          bodies := bodies - {heading};
          meta := meta - {heading};
          headings := Without(headings, heading);
      }
      found := true;
    }
  }
}
