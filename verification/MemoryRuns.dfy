/** Runs of edits: the file is written and read back again and again, and what each section then holds. */
module MemoryRuns {
  import opened StableSort
  import opened Text
  import opened Wrappers
  import opened MemoryMeta
  import opened MemoryHeading
  import opened MemoryDoc
  import opened MemoryStore

  /** An action and the clock reading it is stamped with. */
  datatype Write = Write(action: Action, now: nat)

  function Named(w: Write): string { NormalizeSection(w.action.section) }

  /** The file after the writes; one that deletes a missing section leaves it as it is. */
  function FileAfter(raw: string, writes: seq<Write>, infer: string -> Category): string {
    if writes == [] then raw
    else
      var before := FileAfter(raw, writes[..|writes| - 1], infer);
      var w := writes[|writes| - 1];
      match Edited(Parsed(before), w.action, infer, w.now)
      case Some(doc) => Printed(doc)
      case None => before
  }

  function DocAfter(raw: string, writes: seq<Write>, infer: string -> Category): Doc {
    Parsed(FileAfter(raw, writes, infer))
  }

  // ---- what the file should hold

  predicate Applies(order: seq<string>, w: Write) { w.action.Delete? ==> Named(w) in order }

  /** The headings: new ones come last, deleted ones go. */
  function Order(headings: seq<string>, writes: seq<Write>): seq<string> {
    if writes == [] then headings
    else
      var before := Order(headings, writes[..|writes| - 1]);
      var w := writes[|writes| - 1];
      if w.action.Delete? then Without(before, Named(w))
      else if Named(w) in before then before
      else before + [Named(w)]
  }

  predicate IsLast(order: seq<string>, key: string) { key == if order == [] then "" else order[|order| - 1] }

  /** A section's body as its own actions make it, and one line break more for each write after which
   *  it was the last of the file. */
  function TextOf(start: string, headings: seq<string>, writes: seq<Write>, key: string): string {
    if writes == [] then start
    else
      var earlier := writes[..|writes| - 1];
      var w := writes[|writes| - 1];
      var before := TextOf(start, headings, earlier, key);
      if !Applies(Order(headings, earlier), w) then before
      else OwnText(before, w, key) + if IsLast(Order(headings, writes), key) then "\n" else ""
  }

  /** What one action makes of a section's body; nothing, unless it names it. */
  function OwnText(before: string, w: Write, key: string): string {
    if Named(w) != key then before
    else
      match w.action
      case Delete(_) => ""
      case Append(_, body, _, _) => before + Trim(body) + "\n"
      case Replace(_, body, _, _) => "" + Trim(body) + "\n"
  }

  function MetaAt(doc: Doc, key: string): Option<Meta> { if key in doc.meta then Some(doc.meta[key]) else None }

  /** A section's metadata: those its own last action gave or kept, stamped with that action's time. */
  function MetaOfRun(start: Option<Meta>, writes: seq<Write>, infer: string -> Category, key: string): Option<Meta> {
    if writes == [] then start
    else
      var before := MetaOfRun(start, writes[..|writes| - 1], infer, key);
      var w := writes[|writes| - 1];
      if Named(w) != key then before else if w.action.Delete? then None else Some(OwnMeta(before, w, infer))
  }

  function OwnMeta(before: Option<Meta>, w: Write, infer: string -> Category): Meta
    requires !w.action.Delete?
  {
    var known := if before.Some? then before.value else Meta(infer(Named(w)), DEFAULT_META.authority, w.now);
    Meta(if w.action.category.Some? then w.action.category.value else known.category,
         if w.action.authority.Some? then w.action.authority.value else known.authority,
         w.now)
  }

  /** Every write of the run can be read back: its body is text and the headings are printable. */
  ghost predicate Readable(raw: string, writes: seq<Write>, infer: string -> Category) {
    writes == [] ||
    var n := |writes| - 1;
    Readable(raw, writes[..n], infer) && ReadableAt(DocAfter(raw, writes[..n], infer), writes[n], infer)
  }

  ghost predicate ReadableAt(doc: Doc, w: Write, infer: string -> Category) {
    Edited(doc, w.action, infer, w.now).Some? ==> BodyIsText(w.action) && HeadingsPrintable(doc, w.action, infer, w.now)
  }

  /** The document holds, under these headings, what the writes make of `start`. */
  ghost predicate Holds(doc: Doc, start: Doc, writes: seq<Write>, infer: string -> Category) {
    && doc.headings == Order(start.headings, writes)
    && forall key :: HoldsAt(doc, start, writes, infer, key)
  }

  ghost predicate HoldsAt(doc: Doc, start: Doc, writes: seq<Write>, infer: string -> Category, key: string) {
    && BodyOf(doc.bodies, key) == TextOf(BodyOf(start.bodies, key), start.headings, writes, key)
    && MetaAt(doc, key) == MetaOfRun(MetaAt(start, key), writes, infer, key)
  }

  // ---- one more write

  lemma {:induction false} WithoutAbsent(s: seq<string>, x: string)
    requires x !in s
    ensures Without(s, x) == s
  {
    if s != [] { WithoutAbsent(s[1..], x); }
  }

  lemma {:induction false} EditedIff(doc: Doc, w: Write, infer: string -> Category)
    requires Shaped(doc)
    ensures Edited(doc, w.action, infer, w.now).Some? <==> Applies(doc.headings, w)
    ensures Named(w) != ""
  {
    assert Named(w)[0] == '#';
  }

  lemma {:induction false} OneMoreBody(doc: Doc, after: Doc, w: Write, infer: string -> Category, key: string)
    requires Shaped(doc) && Shaped(after) && OnlyNamedChanged(doc, after, w.action, infer, w.now)
    ensures BodyOf(after.bodies, key) ==
      OwnText(BodyOf(doc.bodies, key), w, key) + if IsLast(after.headings, key) then "\n" else ""
  {
    if key != Named(w) {
      OtherBody(doc, after, Named(w), key);
    } else if w.action.Delete? {
      assert Named(w)[0] == '#';
      assert key !in after.headings;
    } else {
      NewBodyIs(doc, w);
      EndIs(after, key);
    }
  }

  lemma {:induction false} NewBodyIs(doc: Doc, w: Write)
    requires !w.action.Delete?
    ensures NewBody(doc, w.action) == OwnText(BodyOf(doc.bodies, Named(w)), w, Named(w))
  {
  }

  lemma {:induction false} EndIs(doc: Doc, key: string)
    ensures End(doc, key) == if IsLast(doc.headings, key) then "\n" else ""
  {
  }

  lemma {:induction false} OtherBody(doc: Doc, after: Doc, h: string, key: string)
    requires Shaped(doc) && Shaped(after) && OthersKept(doc, after, h) && key != h
    ensures BodyOf(after.bodies, key) == BodyOf(doc.bodies, key) + if IsLast(after.headings, key) then "\n" else ""
  {
    if key !in after.bodies {
      assert key != "" && key !in after.headings;
      assert !IsLast(after.headings, key);
    }
  }

  lemma {:induction false} OneMoreMeta(doc: Doc, after: Doc, w: Write, infer: string -> Category, key: string)
    requires Shaped(doc) && Shaped(after) && OnlyNamedChanged(doc, after, w.action, infer, w.now)
    ensures MetaAt(after, key) == if Named(w) != key then MetaAt(doc, key) else if w.action.Delete? then None
      else Some(OwnMeta(MetaAt(doc, key), w, infer))
  {
    if key in doc.meta && key != Named(w) { assert MetaOf(after.meta, key) == doc.meta[key]; }
  }

  lemma {:induction false} OneMoreWrite(doc: Doc, after: Doc, start: Doc, writes: seq<Write>, infer: string -> Category)
    requires writes != [] && Shaped(doc) && Shaped(after)
    requires var n := |writes| - 1; var w := writes[n];
      && Holds(doc, start, writes[..n], infer)
      && if Applies(doc.headings, w) then OnlyNamedChanged(doc, after, w.action, infer, w.now) else after == doc
    ensures Holds(after, start, writes, infer)
  {
    var n := |writes| - 1;
    var w := writes[n];
    if Applies(doc.headings, w) {
      assert after.headings == Order(start.headings, writes);
      forall key ensures HoldsAt(after, start, writes, infer, key) {
        assert HoldsAt(doc, start, writes[..n], infer, key);
        OneMoreBody(doc, after, w, infer, key);
        OneMoreMeta(doc, after, w, infer, key);
      }
    } else {
      WithoutAbsent(doc.headings, Named(w));
      forall key
        ensures HoldsAt(after, start, writes, infer, key)
      {
        assert HoldsAt(doc, start, writes[..n], infer, key);
      }
    }
  }

  /** A write that the store accepts changes only the section it names. */
  ghost predicate ChangesItsOwn(raw: string, w: Write, infer: string -> Category) {
    Edited(Parsed(raw), w.action, infer, w.now).Some? ==> ChangesOnlyNamed(raw, w.action, infer, w.now)
  }

  ghost predicate EachChangesItsOwn(raw: string, writes: seq<Write>, infer: string -> Category) {
    writes == [] ||
    var n := |writes| - 1;
    EachChangesItsOwn(raw, writes[..n], infer) && ChangesItsOwn(FileAfter(raw, writes[..n], infer), writes[n], infer)
  }

  /** Every write of the run changes only the section it names, if and only if the run can be read back. */
  lemma {:induction false} EachChangesItsOwnIff(raw: string, writes: seq<Write>, infer: string -> Category)
    ensures EachChangesItsOwn(raw, writes, infer) <==> Readable(raw, writes, infer)
  {
    if writes != [] {
      var n := |writes| - 1;
      EachChangesItsOwnIff(raw, writes[..n], infer);
      ChangesItsOwnIff(FileAfter(raw, writes[..n], infer), writes[n], infer);
    }
  }

  lemma {:induction false} ChangesItsOwnIff(raw: string, w: Write, infer: string -> Category)
    ensures ChangesItsOwn(raw, w, infer) <==> ReadableAt(Parsed(raw), w, infer)
  {
    if Edited(Parsed(raw), w.action, infer, w.now).Some? { ApplyThenRead(raw, w.action, infer, w.now); }
  }

  /** After any run of writes that can be read back, the file's headings are in the order of their first
   *  mention, and every section's body and metadata are what its own actions made of them, but for one
   *  line break for each write after which the section was the last of the file. */
  lemma {:induction false} RunOfEdits(raw: string, writes: seq<Write>, infer: string -> Category)
    requires Readable(raw, writes, infer)
    ensures Holds(DocAfter(raw, writes, infer), Parsed(raw), writes, infer)
  {
    if writes != [] {
      var n := |writes| - 1;
      var before := FileAfter(raw, writes[..n], infer);
      RunOfEdits(raw, writes[..n], infer);
      ParsedShape(before);
      ParsedShape(FileAfter(raw, writes, infer));
      EditedIff(Parsed(before), writes[n], infer);
      if Applies(Parsed(before).headings, writes[n]) { ApplyThenRead(before, writes[n].action, infer, writes[n].now); }
      OneMoreWrite(Parsed(before), DocAfter(raw, writes, infer), Parsed(raw), writes, infer);
    }
  }

  // ---- what other sections' writes leave alone

  /** How many writes left the section the last of the file. */
  function TimesLast(headings: seq<string>, writes: seq<Write>, key: string): nat {
    if writes == [] then 0
    else
      var earlier := writes[..|writes| - 1];
      TimesLast(headings, earlier, key) +
        if Applies(Order(headings, earlier), writes[|writes| - 1]) && IsLast(Order(headings, writes), key) then 1 else 0
  }

  function Breaks(n: nat): string { seq(n, _ => '\n') }

  lemma {:induction false} UntouchedText(start: string, headings: seq<string>, writes: seq<Write>, key: string)
    requires forall w :: w in writes ==> Named(w) != key
    ensures TextOf(start, headings, writes, key) == start + Breaks(TimesLast(headings, writes, key))
  {
    if writes == [] {
      assert start + Breaks(0) == start;
    } else {
      var n := |writes| - 1;
      UntouchedText(start, headings, writes[..n], key);
      assert Named(writes[n]) != key;
      var m := TimesLast(headings, writes[..n], key);
      assert start + Breaks(m) + "\n" == start + Breaks(m + 1);
    }
  }

  /** A section no write names keeps its metadata and gains exactly one line break for each write after
   *  which it was the last of the file. */
  lemma {:induction false} UntouchedSection(raw: string, writes: seq<Write>, infer: string -> Category, key: string)
    requires Readable(raw, writes, infer) && forall w :: w in writes ==> Named(w) != key
    ensures var start, doc := Parsed(raw), DocAfter(raw, writes, infer);
      && BodyOf(doc.bodies, key) == BodyOf(start.bodies, key) + Breaks(TimesLast(start.headings, writes, key))
      && MetaAt(doc, key) == MetaAt(start, key)
  {
    var start := Parsed(raw);
    RunOfEdits(raw, writes, infer);
    assert HoldsAt(DocAfter(raw, writes, infer), start, writes, infer, key);
    UntouchedText(BodyOf(start.bodies, key), start.headings, writes, key);
    UntouchedMeta(MetaAt(start, key), writes, infer, key);
  }

  lemma {:induction false} UntouchedMeta(start: Option<Meta>, writes: seq<Write>, infer: string -> Category,
          key: string)
    requires forall w :: w in writes ==> Named(w) != key
    ensures MetaOfRun(start, writes, infer, key) == start
  {
    if writes != [] {
      UntouchedMeta(start, writes[..|writes| - 1], infer, key);
      assert writes[|writes| - 1] in writes;
    }
  }

  // ---- whose sections they are

  /** Who wrote a section: whoever one of its edits named last since it was made, or else the agent. */
  function AuthorOf(start: Option<Authority>, writes: seq<Write>, key: string): Option<Authority> {
    if writes == [] then start
    else
      var before := AuthorOf(start, writes[..|writes| - 1], key);
      var w := writes[|writes| - 1];
      if Named(w) != key then before
      else
        match w.action
        case Delete(_) => None
        case Append(_, _, _, Some(who)) => Some(who)
        case Replace(_, _, _, Some(who)) => Some(who)
        case _ => if before.Some? then before else Some(Agent)
  }

  function AuthorityAt(meta: Option<Meta>): Option<Authority> {
    if meta.Some? then Some(meta.value.authority) else None
  }

  lemma {:induction false} AuthorOfRun(start: Option<Meta>, writes: seq<Write>, infer: string -> Category, key: string)
    ensures AuthorityAt(MetaOfRun(start, writes, infer, key)) == AuthorOf(AuthorityAt(start), writes, key)
  {
    if writes != [] { AuthorOfRun(start, writes[..|writes| - 1], infer, key); }
  }

  lemma {:induction false} AgentUnlessNamed(start: Option<Authority>, writes: seq<Write>, key: string)
    requires start == None
    requires forall w :: w in writes && Named(w) == key && !w.action.Delete? ==> w.action.authority.None?
    ensures AuthorOf(start, writes, key) == None || AuthorOf(start, writes, key) == Some(Agent)
  {
    if writes != [] {
      AgentUnlessNamed(start, writes[..|writes| - 1], key);
      assert writes[|writes| - 1] in writes;
    }
  }

  /** After a readable run a section's authority is the one its edits named last since it was made; one
   *  that was made in the run, by edits that named none, is the agent's. */
  lemma {:induction false} SectionAuthor(raw: string, writes: seq<Write>, infer: string -> Category, key: string)
    requires Readable(raw, writes, infer)
    ensures var start, meta := MetaAt(Parsed(raw), key), MetaAt(DocAfter(raw, writes, infer), key);
      && AuthorityAt(meta) == AuthorOf(AuthorityAt(start), writes, key)
      && (start == None && meta.Some?
          && (forall w :: w in writes && Named(w) == key && !w.action.Delete? ==> w.action.authority.None?)
          ==> meta.value.authority == Agent)
  {
    var start := MetaAt(Parsed(raw), key);
    RunOfEdits(raw, writes, infer);
    assert HoldsAt(DocAfter(raw, writes, infer), Parsed(raw), writes, infer, key);
    AuthorOfRun(start, writes, infer, key);
    if start == None && forall w :: w in writes && Named(w) == key && !w.action.Delete? ==> w.action.authority.None? {
      AgentUnlessNamed(None, writes, key);
    }
  }

  // ---- the lines that are not empty

  function Ink(text: string): seq<string> { Filter(Lines(text), (line: string) => line != "") }

  /** The non-empty lines a section's own actions leave, in order. */
  function OwnInk(start: seq<string>, writes: seq<Write>, key: string): seq<string> {
    if writes == [] then start
    else
      var before := OwnInk(start, writes[..|writes| - 1], key);
      var w := writes[|writes| - 1];
      if Named(w) != key then before
      else
        match w.action
        case Delete(_) => []
        case Append(_, body, _, _) => before + Ink(Trim(body))
        case Replace(_, body, _, _) => Ink(Trim(body))
  }

  lemma {:induction false} LinesConcat(s: string, rest: string)
    requires Complete(s)
    ensures Lines(s + rest) == Lines(s)[..|Lines(s)| - 1] + Lines(rest) && Lines(s)[|Lines(s)| - 1] == ""
    decreases |s|
  {
    if s == [] {
      assert s + rest == rest;
    } else {
      var l, r := FirstLine(s);
      LinesOfLine(l, r);
      LinesOfLine(l, r + rest);
      LineThen(l, r, rest);
      LinesConcat(r, rest);
      AllButLast(l, Lines(r), Lines(rest));
    }
  }

  lemma {:induction false} LineThen(l: string, r: string, rest: string)
    ensures l + "\n" + r + rest == l + "\n" + (r + rest)
  {
  }

  lemma {:induction false} AllButLast(l: string, lines: seq<string>, rest: seq<string>)
    requires lines != []
    ensures ([l] + lines)[..|lines|] + rest == [l] + (lines[..|lines| - 1] + rest)
  {
  }

  lemma {:induction false} InkConcat(s: string, rest: string)
    requires Complete(s)
    ensures Ink(s + rest) == Ink(s) + Ink(rest)
  {
    var inked := (line: string) => line != "";
    LinesConcat(s, rest);
    var head := Lines(s)[..|Lines(s)| - 1];
    FilterAppend(head, Lines(rest), inked);
    assert Filter(Lines(s), inked) == Filter(head, inked);
  }

  lemma {:induction false} InkOfBreak(s: string)
    ensures Ink(s + "\n") == Ink(s) && Ink("") == []
  {
    LinesSnoc(s);
    assert (Lines(s) + [""])[..|Lines(s)|] == Lines(s);
    assert Lines("") == [""];
    assert Filter([""], (line: string) => line != "") == [] by { assert [""][..0] == []; }
  }

  lemma {:induction false} OwnTextInk(before: string, w: Write, key: string)
    requires Complete(before)
    ensures var text := OwnText(before, w, key);
      Complete(text) && Ink(text) == if Named(w) != key then Ink(before) else
        match w.action
        case Delete(_) => []
        case Append(_, body, _, _) => Ink(before) + Ink(Trim(body))
        case Replace(_, body, _, _) => Ink(Trim(body))
  {
    if Named(w) == key {
      match w.action
      case Delete(_) => InkOfBreak("");
      case Append(_, body, _, _) =>
        InkOfBreak(Trim(body));
        InkConcat(before, Trim(body) + "\n");
        assert before + (Trim(body) + "\n") == before + Trim(body) + "\n";
      case Replace(_, body, _, _) =>
        InkOfBreak(Trim(body));
        assert "" + Trim(body) + "\n" == Trim(body) + "\n";
    }
  }

  lemma {:induction false} OrderDistinct(headings: seq<string>, writes: seq<Write>)
    requires Distinct(headings) && "" !in headings
    ensures Distinct(Order(headings, writes)) && "" !in Order(headings, writes)
  {
    if writes != [] {
      var n := |writes| - 1;
      var before := Order(headings, writes[..n]);
      OrderDistinct(headings, writes[..n]);
      assert Named(writes[n])[0] == '#';
      if Named(writes[n]) in before {
        WithoutIs(before, Named(writes[n]));
      } else {
        WithoutAbsent(before, Named(writes[n]));
      }
    }
  }

  /** A section that is not there has no text. */
  lemma {:induction false} AbsentIsEmpty(start: string, headings: seq<string>, writes: seq<Write>, key: string)
    requires Distinct(headings) && "" !in headings && key != "" && (key !in headings ==> start == "")
    ensures key !in Order(headings, writes) ==> TextOf(start, headings, writes, key) == ""
  {
    if writes != [] {
      var n := |writes| - 1;
      var before := Order(headings, writes[..n]);
      AbsentIsEmpty(start, headings, writes[..n], key);
      OrderDistinct(headings, writes[..n]);
      OrderDistinct(headings, writes);
      if Named(writes[n]) in before {
        WithoutIs(before, Named(writes[n]));
      } else {
        WithoutAbsent(before, Named(writes[n]));
      }
    }
  }

  lemma {:induction false} TextInk(start: string, headings: seq<string>, writes: seq<Write>, key: string)
    requires Complete(start) && Distinct(headings) && "" !in headings && (key != "" && key !in headings ==> start == "")
    ensures Complete(TextOf(start, headings, writes, key))
    ensures Ink(TextOf(start, headings, writes, key)) == OwnInk(Ink(start), writes, key)
  {
    if writes != [] {
      var n := |writes| - 1;
      var w := writes[n];
      var before := TextOf(start, headings, writes[..n], key);
      TextInk(start, headings, writes[..n], key);
      OwnTextInk(before, w, key);
      if Applies(Order(headings, writes[..n]), w) {
        BreakBehind(OwnText(before, w, key), IsLast(Order(headings, writes), key));
      } else if Named(w) == key {
        assert Named(w)[0] == '#';
        AbsentIsEmpty(start, headings, writes[..n], key);
        InkOfBreak("");
      }
    }
  }

  lemma {:induction false} BreakBehind(text: string, last: bool)
    requires Complete(text)
    ensures var ended := text + if last then "\n" else ""; Complete(ended) && Ink(ended) == Ink(text)
  {
    if last { InkOfBreak(text); } else { assert text + "" == text; }
  }

  /** The non-empty lines of every section, in order, are those of its own actions since it was last
   *  replaced or made, behind those it began with; nothing else in the run touches them. */
  lemma {:induction false} SectionInk(raw: string, writes: seq<Write>, infer: string -> Category, key: string)
    requires Readable(raw, writes, infer)
    ensures Ink(BodyOf(DocAfter(raw, writes, infer).bodies, key)) ==
      OwnInk(Ink(BodyOf(Parsed(raw).bodies, key)), writes, key)
  {
    var start := Parsed(raw);
    RunOfEdits(raw, writes, infer);
    ParsedShape(raw);
    assert HoldsAt(DocAfter(raw, writes, infer), start, writes, infer, key);
    TextInk(BodyOf(start.bodies, key), start.headings, writes, key);
  }

  // ---- runs that can be read back

  ghost predicate AlwaysPrintable(h: string) { forall meta: Meta :: Stable(h, meta) }

  /** What can be checked before the run: the file's headings are printable as they are, and every write
   *  has a text for a body and names a heading that is printable with any metadata. */
  ghost predicate PlainRun(raw: string, writes: seq<Write>) {
    && AllStable(Parsed(raw))
    && forall w :: w in writes ==> BodyIsText(w.action) && (w.action.Delete? || AlwaysPrintable(Named(w)))
  }

  lemma {:induction false} PlainStep(raw: string, w: Write, infer: string -> Category)
    requires AllStable(Parsed(raw)) && BodyIsText(w.action) && (w.action.Delete? || AlwaysPrintable(Named(w)))
    ensures ReadableAt(Parsed(raw), w, infer)
    ensures var edited := Edited(Parsed(raw), w.action, infer, w.now);
      edited.Some? ==> AllStable(Parsed(Printed(edited.value)))
  {
    var doc := Parsed(raw);
    ParsedShape(raw);
    if Edited(doc, w.action, infer, w.now).Some? {
      var d := Edited(doc, w.action, infer, w.now).value;
      EditedStableIff(doc, w.action, infer, w.now);
      EditedShape(doc, w.action, infer, w.now);
      RoundTripIff(d);
      TerminatedBodies(d);
    }
  }

  /** Such a run can be read back all along. */
  lemma {:induction false} PlainRunIsReadable(raw: string, writes: seq<Write>, infer: string -> Category)
    requires PlainRun(raw, writes)
    ensures Readable(raw, writes, infer) && AllStable(DocAfter(raw, writes, infer))
  {
    if writes != [] {
      var n := |writes| - 1;
      PlainRunIsReadable(raw, writes[..n], infer);
      assert writes[n] in writes;
      PlainStep(FileAfter(raw, writes[..n], infer), writes[n], infer);
    }
  }
}
