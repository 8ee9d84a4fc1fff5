/** The metadata comment behind a heading of the memory file. */
module MemoryMeta {
  import opened Text
  import opened Wrappers

  datatype Category = Facts | Preferences | Decisions | Failures | Procedures | Tools | Style | Notes

  datatype Authority = User | System | Agent | Tape

  datatype Meta = Meta(category: Category, authority: Authority, ts: nat)

  const DEFAULT_META := Meta(Notes, Agent, 0)

  function CategoryName(c: Category): string {
    match c
    case Facts => "facts"
    case Preferences => "preferences"
    case Decisions => "decisions"
    case Failures => "failures"
    case Procedures => "procedures"
    case Tools => "tools"
    case Style => "style"
    case Notes => "notes"
  }

  function AuthorityName(a: Authority): string {
    match a
    case User => "user"
    case System => "system"
    case Agent => "agent"
    case Tape => "tape"
  }

  function CategoryOf(name: string): Option<Category> {
    if name == "facts" then Some(Facts)
    else if name == "preferences" then Some(Preferences)
    else if name == "decisions" then Some(Decisions)
    else if name == "failures" then Some(Failures)
    else if name == "procedures" then Some(Procedures)
    else if name == "tools" then Some(Tools)
    else if name == "style" then Some(Style)
    else if name == "notes" then Some(Notes)
    else None
  }

  function AuthorityOf(name: string): Option<Authority> {
    if name == "user" then Some(User)
    else if name == "system" then Some(System)
    else if name == "agent" then Some(Agent)
    else if name == "tape" then Some(Tape)
    else None
  }

  // Decimal numbers

  function Digit(d: nat): char requires d < 10 { (48 + d) as char }

  function Decimal(n: nat): string {
    if n < 10 then [Digit(n)] else Decimal(n / 10) + [Digit(n % 10)]
  }

  predicate IsDigit(c: char) { '0' <= c <= '9' }

  function ParseDecimal(s: string): nat
    requires forall c :: c in s ==> IsDigit(c)
  {
    if s == "" then 0
    else
      var last := s[|s| - 1];
      assert last in s && IsDigit(last);
      10 * ParseDecimal(s[..|s| - 1]) + (last as int - '0' as int)
  }

  lemma {:induction false} DecimalRoundTrip(n: nat)
    ensures Decimal(n) != "" && (forall c :: c in Decimal(n) ==> IsDigit(c)) && ParseDecimal(Decimal(n)) == n
  {
    if n < 10 {
      assert Decimal(n)[..0] == "";
    } else {
      DecimalRoundTrip(n / 10);
      assert Decimal(n)[..|Decimal(n)| - 1] == Decimal(n / 10);
    }
  }

  // The metadata comment

  function Lower(c: char): char {
    if 'A' <= c <= 'Z' then (c as int + 32) as char else c
  }

  predicate IsLetter(c: char) { 'a' <= Lower(c) <= 'z' }

  /** `s` begins with `key`, letter case aside. */
  predicate StartsWith(s: string, key: string) {
    |key| <= |s| && forall j :: 0 <= j < |key| ==> Lower(s[j]) == key[j]
  }

  function Run(s: string, p: char -> bool): (r: string)
    ensures |r| <= |s| && r == s[..|r|] && (forall c :: c in r ==> p(c)) && (|r| < |s| ==> !p(s[|r|]))
  {
    if s != "" && p(s[0]) then [s[0]] + Run(s[1..], p) else ""
  }

  /** What follows `key` and white space, if anything does. */
  function ValueAfter(s: string, key: string, p: char -> bool): string
    requires StartsWith(s, key)
  {
    Run(TrimStart(s[|key|..]), p)
  }

  /** The capture of `key\s*(p+)` at its leftmost match. */
  function Capture(s: string, key: string, p: char -> bool): (value: Option<string>)
    ensures value.Some? ==> forall c :: c in value.value ==> p(c)
  {
    if StartsWith(s, key) && ValueAfter(s, key, p) != "" then Some(ValueAfter(s, key, p))
    else if s == "" then None
    else Capture(s[1..], key, p)
  }

  function ParseMeta(comment: string): Meta {
    var category := Capture(comment, "category:", IsLetter);
    var authority := Capture(comment, "authority:", IsLetter);
    var ts := Capture(comment, "ts:", IsDigit);
    Meta(
      if category.Some? && CategoryOf(category.value).Some? then CategoryOf(category.value).value
        else DEFAULT_META.category,
      if authority.Some? && AuthorityOf(authority.value).Some? then AuthorityOf(authority.value).value
        else DEFAULT_META.authority,
      if ts.Some? && ParseDecimal(ts.value) > 0 then ParseDecimal(ts.value) else DEFAULT_META.ts)
  }

  function Field(key: string, value: string): string { key + " " + value }

  function MetaText(meta: Meta): string {
    Field("category:", CategoryName(meta.category)) + "; "
      + (Field("authority:", AuthorityName(meta.authority)) + "; " + Field("ts:", Decimal(meta.ts)))
  }

  /** The comment, spelled out. */
  lemma {:induction false} MetaTextIs(meta: Meta)
    ensures var category := match meta.category
        case Facts => "facts" case Preferences => "preferences" case Decisions => "decisions"
        case Failures => "failures" case Procedures => "procedures" case Tools => "tools"
        case Style => "style" case Notes => "notes";
      var authority := match meta.authority
        case User => "user" case System => "system" case Agent => "agent" case Tape => "tape";
      MetaText(meta) == "category: " + category + "; authority: " + authority + "; ts: " + Decimal(meta.ts)
  {
    var c, w, n := CategoryName(meta.category), AuthorityName(meta.authority), Decimal(meta.ts);
    assert Field("category:", c) == "category: " + c && Field("authority:", w) == "authority: " + w;
    assert Field("ts:", n) == "ts: " + n;
    assert "category: " + c + "; " + ("authority: " + w + "; " + ("ts: " + n))
      == "category: " + c + "; authority: " + w + "; ts: " + n;
  }

  predicate KnownCategory(name: string) {
    name == "facts" || name == "preferences" || name == "decisions" || name == "failures" || name == "procedures"
    || name == "tools" || name == "style" || name == "notes"
  }

  predicate KnownAuthority(name: string) { name == "user" || name == "system" || name == "agent" || name == "tape" }

  /** The same letter, in whatever case. */
  predicate SameLetter(c: char, k: char) {
    c == k || exists i :: 0 <= i < 26 && c == "ABCDEFGHIJKLMNOPQRSTUVWXYZ"[i] && k == "abcdefghijklmnopqrstuvwxyz"[i]
  }

  /** A key is found in whatever case it is written. */
  lemma {:induction false} KeyMatches(s: string, key: string)
    requires forall x :: x in key ==> !('A' <= x <= 'Z')
    ensures StartsWith(s, key) <==> |key| <= |s| && forall j :: 0 <= j < |key| ==> SameLetter(s[j], key[j])
  {
    forall j | 0 <= j < |key| && j < |s| ensures Lower(s[j]) == key[j] <==> SameLetter(s[j], key[j]) {
      assert key[j] in key;
      LowerIsSameLetter(s[j], key[j]);
    }
  }

  lemma {:induction false} LowerIsSameLetter(c: char, k: char)
    requires !('A' <= k <= 'Z')
    ensures Lower(c) == k <==> SameLetter(c, k)
  {
    var small, capital := "abcdefghijklmnopqrstuvwxyz", "ABCDEFGHIJKLMNOPQRSTUVWXYZ";
    assert forall i :: 0 <= i < 26 ==> capital[i] as int == 65 + i && small[i] as int == 97 + i;
    if 'A' <= c <= 'Z' {
      assert capital[c as int - 65] == c && small[c as int - 65] == Lower(c);
    }
  }

  /** The key stands at `i`, and a value behind it. */
  predicate ValueAt(s: string, i: nat, key: string, p: char -> bool)
    requires i <= |s|
  {
    StartsWith(s[i..], key) && ValueAfter(s[i..], key, p) != ""
  }

  ghost predicate FirstValueAt(s: string, i: nat, key: string, p: char -> bool, value: string) {
    && i <= |s| && ValueAt(s, i, key, p) && value == ValueAfter(s[i..], key, p)
    && forall j :: 0 <= j < i ==> !ValueAt(s, j, key, p)
  }

  /** What is captured is the value behind the leftmost key that has one. */
  lemma {:induction false} CaptureIsFirst(s: string, key: string, p: char -> bool)
    ensures match Capture(s, key, p)
      case Some(value) => exists i: nat :: FirstValueAt(s, i, key, p, value)
      case None => forall i :: 0 <= i <= |s| ==> !ValueAt(s, i, key, p)
  {
    assert s[0..] == s;
    if ValueAt(s, 0, key, p) {
      assert Capture(s, key, p) == Some(ValueAfter(s, key, p));
      assert FirstValueAt(s, 0, key, p, Capture(s, key, p).value);
    } else if s != "" {
      assert Capture(s, key, p) == Capture(s[1..], key, p);
      CaptureIsFirst(s[1..], key, p);
      forall i: nat | i <= |s| - 1 ensures ValueAt(s, i + 1, key, p) <==> ValueAt(s[1..], i, key, p) {
        assert s[1..][i..] == s[i + 1..];
      }
      match Capture(s[1..], key, p)
      case Some(value) =>
        var i: nat :| FirstValueAt(s[1..], i, key, p, value);
        FirstValueNext(s, i, key, p, value);
      case None =>
        forall i | 0 <= i <= |s| ensures !ValueAt(s, i, key, p) {
          if i > 0 { assert !ValueAt(s[1..], i - 1, key, p); }
        }
    }
  }

  lemma {:induction false} FirstValueNext(s: string, i: nat, key: string, p: char -> bool, value: string)
    requires s != "" && !ValueAt(s, 0, key, p) && FirstValueAt(s[1..], i, key, p, value)
    ensures FirstValueAt(s, i + 1, key, p, value)
  {
    assert s[1..][i..] == s[i + 1..];
    forall j | 0 <= j < i + 1 ensures !ValueAt(s, j, key, p) {
      if j > 0 {
        assert s[1..][j - 1..] == s[j..];
        assert !ValueAt(s[1..], j - 1, key, p);
      }
    }
  }

  /** A known name and a time are taken; what a comment leaves out, or gives by no known name, is a note
   *  of the agent's without a time. */
  lemma {:induction false} MissingMeta(comment: string)
    ensures var meta := ParseMeta(comment);
      var c, w := Capture(comment, "category:", IsLetter), Capture(comment, "authority:", IsLetter);
      var n := Capture(comment, "ts:", IsDigit);
      && (c.None? || !KnownCategory(c.value) ==> meta.category == Notes)
      && (w.None? || !KnownAuthority(w.value) ==> meta.authority == Agent)
      && (c.Some? && KnownCategory(c.value) ==> CategoryName(meta.category) == c.value)
      && (w.Some? && KnownAuthority(w.value) ==> AuthorityName(meta.authority) == w.value)
      && meta.ts == if n.Some? then ParseDecimal(n.value) else 0
  {
  }

  lemma {:induction false} CaptureSkips(s: string, n: nat, key: string, p: char -> bool)
    requires n <= |s| && key != ""
    requires forall i :: 0 <= i < n ==> !StartsWith(s[i..], key)
    ensures Capture(s, key, p) == Capture(s[n..], key, p)
  {
    if n == 0 {
      assert s[0..] == s;
    } else {
      assert s[0..] == s;
      forall i | 0 <= i < n - 1 ensures !StartsWith(s[1..][i..], key) {
        assert s[1..][i..] == s[i + 1..];
      }
      CaptureSkips(s[1..], n - 1, key, p);
      assert s[1..][n - 1..] == s[n..];
    }
  }

  /** A name: nothing but letters, so neither white space nor a colon. */
  lemma {:induction false} NamesAreLetters(meta: Meta)
    ensures CategoryName(meta.category) != "" && forall c :: c in CategoryName(meta.category) ==> 'a' <= c <= 'z'
    ensures AuthorityName(meta.authority) != "" && forall c :: c in AuthorityName(meta.authority) ==> 'a' <= c <= 'z'
    ensures CategoryOf(CategoryName(meta.category)) == Some(meta.category)
    ensures AuthorityOf(AuthorityName(meta.authority)) == Some(meta.authority)
  {
  }

  /** A value written behind its key and one space is captured, up to the first other character. */
  lemma {:induction false} CaptureValue(key: string, value: string, rest: string, p: char -> bool)
    requires forall j :: 0 <= j < |key| ==> Lower(key[j]) == key[j]
    requires value != "" && !IsSpace(value[0]) && forall c :: c in value ==> p(c)
    requires rest != "" ==> !p(rest[0])
    ensures Capture(Field(key, value) + rest, key, p) == Some(value)
  {
    var s := Field(key, value) + rest;
    FieldCut(key, value, rest);
    assert StartsWith(s, key);
    assert ValueAfter(s, key, p) == value by { RunIs(value, rest, p); }
  }

  lemma {:induction false} FieldCut(key: string, value: string, rest: string)
    requires value != "" && !IsSpace(value[0])
    ensures var s := Field(key, value) + rest;
      |key| <= |s| && s[..|key|] == key && TrimStart(s[|key|..]) == value + rest
  {
    var s := Field(key, value) + rest;
    var behind := s[|key|..];
    assert behind[0] == ' ' && behind[1..] == value + rest;
    assert TrimStart(behind) == TrimStart(value + rest);
  }

  lemma {:induction false} RunIs(value: string, rest: string, p: char -> bool)
    requires forall c :: c in value ==> p(c)
    requires rest != "" ==> !p(rest[0])
    ensures Run(value + rest, p) == value
  {
    if value == "" {
      assert value + rest == rest;
    } else {
      assert (value + rest)[1..] == value[1..] + rest;
      RunIs(value[1..], rest, p);
    }
  }

  /** No colon behind the letter `x` at or after `from`. */
  predicate NoColonAfter(s: string, x: char, from: nat) {
    forall j :: from <= j < |s| && 0 < j ==> s[j] != ':' || Lower(s[j - 1]) != x
  }

  /** A key ends in a colon, so it starts nowhere in a text without its last letter and colon. */
  lemma {:induction false} SkipTo(a: string, b: string, key: string, p: char -> bool)
    requires |key| >= 2 && key[|key| - 1] == ':' && key <= b
    requires NoColonAfter(a + key[..|key| - 1], key[|key| - 2], |key| - 1)
    ensures Capture(a + b, key, p) == Capture(b, key, p)
  {
    var s := a + b;
    var n := |key| - 1;
    forall i | 0 <= i < |a| ensures !StartsWith(s[i..], key) {
      if StartsWith(s[i..], key) {
        assert Lower(s[i..][n]) == ':' && Lower(s[i..][n - 1]) == key[n - 1];
        assert s[i + n] == s[i..][n] && s[i + n - 1] == s[i..][n - 1];
        SameStart(a, b, key[..n], i + n);
        SameStart(a, b, key[..n], i + n - 1);
        assert false;
      }
    }
    CaptureSkips(s, |a|, key, p);
    assert s[|a|..] == b;
  }

  lemma {:induction false} SameStart(a: string, b: string, c: string, j: nat)
    requires c <= b && j < |a| + |c|
    ensures (a + b)[j] == (a + c)[j]
  {
  }

  /** Reading back written metadata. */
  lemma {:induction false} ParseMetaText(meta: Meta)
    ensures ParseMeta(MetaText(meta)) == meta
  {
    NamesAreLetters(meta);
    DecimalRoundTrip(meta.ts);
    FieldsReadBack(CategoryName(meta.category), AuthorityName(meta.authority), Decimal(meta.ts));
  }

  ghost predicate ReadsBack(s: string, c: string, w: string, n: string) {
    && Capture(s, "category:", IsLetter) == Some(c)
    && Capture(s, "authority:", IsLetter) == Some(w)
    && Capture(s, "ts:", IsDigit) == Some(n)
  }

  ghost predicate Name(s: string) { s != "" && forall x :: x in s ==> 'a' <= x <= 'z' }

  lemma {:induction false} FieldsReadBack(c: string, w: string, n: string)
    requires Name(c) && Name(w) && n != "" && forall x :: x in n ==> IsDigit(x)
    ensures ReadsBack(Field("category:", c) + "; " + (Field("authority:", w) + "; " + Field("ts:", n)), c, w, n)
  {
    NameReadBack("category:", c, Field("authority:", w) + "; " + Field("ts:", n));
    AuthorityReadBack(c, w, Field("ts:", n));
    NumberReadBack(n);
    SkipToTs(c, w, Field("ts:", n));
  }

  lemma {:induction false} AuthorityReadBack(c: string, w: string, ts: string)
    requires Name(c) && Name(w)
    ensures Capture(Field("category:", c) + "; " + (Field("authority:", w) + "; " + ts), "authority:", IsLetter) ==
      Some(w)
  {
    NameReadBack("authority:", w, ts);
    SkipCategory(c, Field("authority:", w) + "; " + ts);
  }

  lemma {:induction false} NumberReadBack(n: string)
    requires n != "" && forall x :: x in n ==> IsDigit(x)
    ensures Capture(Field("ts:", n), "ts:", IsDigit) == Some(n)
  {
    assert n[0] in n && Field("ts:", n) + "" == Field("ts:", n);
    CaptureValue("ts:", n, "", IsDigit);
  }

  lemma {:induction false} NameReadBack(key: string, name: string, rest: string)
    requires forall j :: 0 <= j < |key| ==> Lower(key[j]) == key[j]
    requires Name(name)
    ensures Capture(Field(key, name) + "; " + rest, key, IsLetter) == Some(name)
  {
    assert name[0] in name;
    CaptureValue(key, name, "; " + rest, IsLetter);
    assert Field(key, name) + "; " + rest == Field(key, name) + ("; " + rest);
  }

  lemma {:induction false} SkipCategory(c: string, rest: string)
    requires Name(c) && "authority:" <= rest
    ensures Capture(Field("category:", c) + "; " + rest, "authority:", IsLetter) ==
      Capture(rest, "authority:", IsLetter)
  {
    var a := Field("category:", c) + "; ";
    var key := "authority:";
    var tail := " " + c + "; " + key[..9];
    assert a + key[..9] == "category:" + tail;
    forall j | 9 <= j < |a + key[..9]| ensures (a + key[..9])[j] != ':' {
      assert (a + key[..9])[j] == tail[j - 9];
      if 1 <= j - 9 <= |c| { assert tail[j - 9] in c; }
    }
    SkipTo(a, rest, key, IsLetter);
  }

  lemma {:induction false} SkipToTs(c: string, w: string, rest: string)
    requires Name(c) && Name(w) && "ts:" <= rest
    ensures Capture(Field("category:", c) + "; " + (Field("authority:", w) + "; " + rest), "ts:", IsDigit) ==
      Capture(rest, "ts:", IsDigit)
  {
    var head, mid, end := "category: ", "; authority: ", "; ts";
    var a := Field("category:", c) + "; " + Field("authority:", w) + "; ";
    var key := "ts:";
    assert a + key[..2] == head + (c + (mid + (w + end)));
    NoColonName(w, end);
    NoColonName(c, mid + (w + end));
    SkipTo(a, rest, key, IsDigit);
    RegroupFields(Field("category:", c), "; ", Field("authority:", w), rest);
  }

  lemma {:induction false} RegroupFields(a: string, b: string, c: string, d: string)
    ensures a + b + c + b + d == a + b + (c + b + d)
  {
  }

  lemma {:induction false} NoColonName(name: string, rest: string)
    requires Name(name) && NoColonAfter(rest, 's', 0) && rest != "" && rest[0] != ':'
    ensures NoColonAfter(name + rest, 's', 0) && (name + rest)[0] != ':'
  {
    assert forall j :: 0 <= j < |name| ==> name[j] in name;
  }
}
