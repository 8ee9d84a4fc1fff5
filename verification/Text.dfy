/** The string operations the memory file is read and written with: white space, trimming and
 *  splitting into lines. */
module Text {
  /** `\s`, and what `trim` removes. */
  predicate IsSpace(c: char) {
    || c == ' ' || '\t' <= c <= '\r' || c == '\U{00A0}' || c == '\U{1680}' || '\U{2000}' <= c <= '\U{200A}'
    || IsLineEnd(c) || c == '\U{202F}' || c == '\U{205F}' || c == '\U{3000}' || c == '\U{FEFF}'
  }

  /** The characters `.` does not match. */
  predicate IsLineEnd(c: char) {
    c == '\n' || c == '\r' || c == '\U{2028}' || c == '\U{2029}'
  }

  /** By code point: the white space and the line ends of ECMAScript. */
  lemma {:induction false} WhiteSpaceIs(c: char)
    ensures IsSpace(c) <==>
      || 0x9 <= c as int <= 0xd || 0x2000 <= c as int <= 0x200a
      || c as int in {0x20, 0xa0, 0x1680, 0x2028, 0x2029, 0x202f, 0x205f, 0x3000, 0xfeff}
    ensures IsLineEnd(c) <==> c as int in {0xa, 0xd, 0x2028, 0x2029}
  {
  }

  predicate AllSpace(s: string) { forall i :: 0 <= i < |s| ==> IsSpace(s[i]) }

  predicate Trimmed(s: string) {
    s != [] ==> !IsSpace(s[0]) && !IsSpace(s[|s| - 1])
  }

  function TrimStart(s: string): string {
    if s != [] && IsSpace(s[0]) then TrimStart(s[1..]) else s
  }

  function TrimEnd(s: string): string {
    if s != [] && IsSpace(s[|s| - 1]) then TrimEnd(s[..|s| - 1]) else s
  }

  function Trim(s: string): string { TrimEnd(TrimStart(s)) }

  lemma {:induction false} TrimStartCuts(s: string)
    ensures |TrimStart(s)| <= |s| && TrimStart(s) == s[|s| - |TrimStart(s)|..] && AllSpace(s[..|s| - |TrimStart(s)|])
    ensures TrimStart(s) != [] ==> !IsSpace(TrimStart(s)[0])
  {
    if s != [] && IsSpace(s[0]) {
      TrimStartCuts(s[1..]);
      var n := |s| - |TrimStart(s)|;
      assert s[..n] == [s[0]] + s[1..][..n - 1];
    }
  }

  lemma {:induction false} TrimEndCuts(s: string)
    ensures |TrimEnd(s)| <= |s| && TrimEnd(s) == s[..|TrimEnd(s)|] && AllSpace(s[|TrimEnd(s)|..])
    ensures TrimEnd(s) != [] ==> !IsSpace(TrimEnd(s)[|TrimEnd(s)| - 1])
  {
    if s != [] && IsSpace(s[|s| - 1]) {
      var n := |s| - 1;
      TrimEndCuts(s[..n]);
      assert s[|TrimEnd(s)|..] == s[..n][|TrimEnd(s)|..] + [s[n]];
    }
  }

  /** Trimming cuts white space off both ends, and all of it. */
  lemma {:induction false} TrimCuts(s: string) returns (from: nat, to: nat)
    ensures from <= to <= |s| && Trim(s) == s[from..to] && Trimmed(Trim(s))
    ensures forall i :: 0 <= i < from || to <= i < |s| ==> IsSpace(s[i])
  {
    TrimStartCuts(s);
    var t := TrimStart(s);
    TrimEndCuts(t);
    from := |s| - |t|;
    to := from + |TrimEnd(t)|;
    forall i | 0 <= i < from || to <= i < |s| ensures IsSpace(s[i]) {
      if i < from { assert s[i] == s[..from][i]; } else { assert s[i] == t[|TrimEnd(t)|..][i - to]; }
    }
  }

  lemma {:induction false} TrimmedStays(s: string)
    requires Trimmed(s)
    ensures Trim(s) == s
  {
  }

  /** Trimming a trimmed string behind which white space was written. */
  lemma {:induction false} TrimPadded(s: string, pad: string)
    requires s != [] && Trimmed(s) && AllSpace(pad)
    ensures Trim(s + pad) == s
    decreases |pad|
  {
    assert TrimStart(s + pad) == s + pad;
    if pad == [] {
      assert s + pad == s;
    } else {
      var n := |pad| - 1;
      TrimPadded(s, pad[..n]);
      assert (s + pad)[..|s + pad| - 1] == s + pad[..n];
      assert TrimStart(s + pad[..n]) == s + pad[..n];
    }
  }

  /** `raw.split("\n")`. */
  function Lines(s: string): (lines: seq<string>)
    ensures lines != []
  {
    if s == [] then [""]
    else if s[0] == '\n' then [""] + Lines(s[1..])
    else var rest := Lines(s[1..]); [[s[0]] + rest[0]] + rest[1..]
  }

  /** Nothing, or a number of complete lines. */
  predicate Complete(s: string) { s != [] ==> s[|s| - 1] == '\n' }

  lemma {:induction false} LinesOfLine(line: string, rest: string)
    requires '\n' !in line
    ensures Lines(line + "\n" + rest) == [line] + Lines(rest)
    ensures Lines(line) == [line]
  {
    var s := line + "\n" + rest;
    if line == [] {
      assert s[1..] == rest;
    } else {
      LinesOfLine(line[1..], rest);
      assert s[0] == line[0] && s[1..] == line[1..] + "\n" + rest;
      assert line == [line[0]] + line[1..];
      assert Lines(s[1..])[1..] == Lines(rest);
    }
  }

  lemma {:induction false} LinesSnoc(s: string)
    ensures Lines(s + "\n") == Lines(s) + [""]
  {
    if s == "" {
      assert (s + "\n")[1..] == "";
    } else {
      assert (s + "\n")[1..] == s[1..] + "\n";
      LinesSnoc(s[1..]);
    }
  }

  /** The first line of a text that is complete lines and not empty. */
  lemma {:induction false} FirstLine(s: string) returns (line: string, rest: string)
    requires s != [] && Complete(s)
    ensures s == line + "\n" + rest && '\n' !in line && Complete(rest)
  {
    if s[0] == '\n' {
      line, rest := "", s[1..];
    } else {
      var l, r := FirstLine(s[1..]);
      line, rest := [s[0]] + l, r;
    }
  }

  /** Every line of a complete text, and of what follows, is a line of the whole. */
  lemma {:induction false} LinesAppend(s: string, rest: string, line: string)
    requires Complete(s)
    ensures line != "" ==> (line in Lines(s + rest) <==> line in Lines(s) || line in Lines(rest))
    decreases |s|
  {
    if s == [] {
      assert s + rest == rest;
    } else {
      var l, r := FirstLine(s);
      LinesOfLine(l, r);
      LinesOfLine(l, r + rest);
      assert s + rest == l + "\n" + (r + rest);
      LinesAppend(r, rest, line);
      if r == "" { assert Lines(r) == [""]; }
    }
  }
}
