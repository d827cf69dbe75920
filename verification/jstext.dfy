/** The JavaScript string built-ins the scraping code relies on: the `\s`
    character class and `trim`, `includes`/`indexOf`, `replace` with a string
    pattern (first occurrence only), `replaceAll` of single characters,
    `split` on single characters and `toLowerCase`. Strings are sequences of
    Unicode scalar values. */
module JsText {
  import opened Wrappers

  /** JavaScript white space and line terminators: what `\s` matches and what
      `trim` removes. */
  predicate IsSpace(c: char) {
    || c == '\t' || c == '\n' || c == '\U{000B}' || c == '\U{000C}' || c == '\r'
    || c == ' ' || c == '\U{00A0}' || c == '\U{1680}'
    || ('\U{2000}' <= c <= '\U{200A}')
    || c == '\U{2028}' || c == '\U{2029}' || c == '\U{202F}' || c == '\U{205F}'
    || c == '\U{3000}' || c == '\U{FEFF}'
  }

  /** The characters a regular-expression `.` does not match. */
  predicate IsLineTerminator(c: char) {
    c == '\n' || c == '\r' || c == '\U{2028}' || c == '\U{2029}'
  }

  predicate IsDigit(c: char) {
    '0' <= c <= '9'
  }

  /** String.prototype.trimStart */
  function TrimStart(s: string): (r: string)
    ensures |r| <= |s| && r == s[|s| - |r|..]
    ensures forall i :: 0 <= i < |s| - |r| ==> IsSpace(s[i])
    ensures r == [] || !IsSpace(r[0])
  {
    if s != [] && IsSpace(s[0]) then TrimStart(s[1..]) else s
  }

  /** String.prototype.trimEnd */
  function TrimEnd(s: string): (r: string)
    ensures |r| <= |s| && r == s[..|r|]
    ensures forall i :: |r| <= i < |s| ==> IsSpace(s[i])
    ensures r == [] || !IsSpace(r[|r| - 1])
  {
    if s != [] && IsSpace(s[|s| - 1]) then TrimEnd(s[..|s| - 1]) else s
  }

  /** String.prototype.trim: the text between the leading and the trailing
      white space, which it keeps character for character. */
  function Trim(s: string): (r: string)
    ensures r == [] || (!IsSpace(r[0]) && !IsSpace(r[|r| - 1]))
    ensures forall c :: c in r ==> c in s
    ensures |r| <= |s|
  {
    var t := TrimStart(s);
    var r := TrimEnd(t);
    assert forall c :: c in r ==> c in t;
    assert forall c :: c in t ==> c in s;
    r
  }

  predicate OccursAt(s: string, pat: string, i: nat) {
    i + |pat| <= |s| && s[i..i + |pat|] == pat
  }

  /** The first index at or after `from` where `pat` occurs. */
  function IndexOfFrom(s: string, pat: string, from: nat): (r: Option<nat>)
    ensures r.Some? ==> from <= r.value && OccursAt(s, pat, r.value)
    ensures r.Some? ==> forall j :: from <= j < r.value ==> !OccursAt(s, pat, j)
    ensures r.None? ==> forall j :: from <= j ==> !OccursAt(s, pat, j)
    decreases |s| - from
  {
    if from + |pat| > |s| then None
    else if OccursAt(s, pat, from) then Some(from)
    else IndexOfFrom(s, pat, from + 1)
  }

  /** String.prototype.indexOf, with `undefined` for -1. */
  function IndexOf(s: string, pat: string): (r: Option<nat>)
    ensures r.Some? ==> OccursAt(s, pat, r.value)
    ensures r.Some? ==> forall j :: 0 <= j < r.value ==> !OccursAt(s, pat, j)
    ensures r.None? ==> forall j :: !OccursAt(s, pat, j)
  {
    IndexOfFrom(s, pat, 0)
  }

  /** String.prototype.includes */
  predicate Includes(s: string, pat: string) {
    IndexOf(s, pat).Some?
  }

  /** String.prototype.startsWith */
  predicate StartsWith(s: string, prefix: string) {
    |prefix| <= |s| && s[..|prefix|] == prefix
  }

  /** String.prototype.replace with a string pattern: only the first
      occurrence is replaced. */
  function ReplaceFirst(s: string, pat: string, repl: string): (r: string)
    ensures IndexOf(s, pat).None? ==> r == s
    ensures IndexOf(s, pat).Some? ==> |r| == |s| - |pat| + |repl|
    ensures forall c :: c in r ==> c in s || c in repl
  {
    match IndexOf(s, pat)
    case None => s
    case Some(i) =>
      var r := s[..i] + repl + s[i + |pat|..];
      assert forall c :: c in s[..i] || c in s[i + |pat|..] ==> c in s;
      r
  }

  /** `replaceAll(a, b)` for one-character `a` and `b`. */
  function ReplaceChar(s: string, a: char, b: char): (r: string)
    ensures |r| == |s|
    ensures forall i :: 0 <= i < |s| ==> r[i] == (if s[i] == a then b else s[i])
  {
    if s == [] then [] else [if s[0] == a then b else s[0]] + ReplaceChar(s[1..], a, b)
  }

  /** `replaceAll(/[...]/g, '')`: every character of the class removed. */
  function RemoveChars(s: string, cs: set<char>): (r: string)
    ensures forall c :: c in r ==> c in s && c !in cs
    ensures |r| <= |s|
  {
    if s == [] then []
    else if s[0] in cs then RemoveChars(s[1..], cs)
    else [s[0]] + RemoveChars(s[1..], cs)
  }

  /** `split` with a one-character separator (or a class of them): the
      pieces between separators, always at least one. */
  function SplitOn(s: string, seps: set<char>): (r: seq<string>)
    ensures |r| >= 1
  {
    if s == [] then [""]
    else
      var rest := SplitOn(s[1..], seps);
      if s[0] in seps then [""] + rest
      else [[s[0]] + rest[0]] + rest[1..]
  }

  /** The i-th element of an array, or of an array destructuring: `undefined`
      past the end. */
  function Field(fields: seq<string>, i: nat): (r: Option<string>)
    ensures r.Some? <==> i < |fields|
    ensures r.Some? ==> r.value == fields[i]
  {
    if i < |fields| then Some(fields[i]) else None
  }

  /** `pieces.join(sep)` */
  function Join(pieces: seq<string>, sep: char): string
    requires |pieces| >= 1
  {
    if |pieces| == 1 then pieces[0] else pieces[0] + [sep] + Join(pieces[1..], sep)
  }

  /** Splitting on one character and joining with it gives the text back. */
  lemma {:induction false} SplitJoin(s: string, sep: char)
    ensures Join(SplitOn(s, {sep}), sep) == s
  {
    if s != [] {
      SplitJoin(s[1..], sep);
      var rest := SplitOn(s[1..], {sep});
      if s[0] != sep {
        var r := SplitOn(s, {sep});
        assert r == [[s[0]] + rest[0]] + rest[1..];
        if |rest| == 1 {
          assert Join(r, sep) == [s[0]] + rest[0];
        } else {
          assert r[1..] == rest[1..];
          assert Join(r, sep) == [s[0]] + rest[0] + [sep] + Join(rest[1..], sep);
          assert Join(rest, sep) == rest[0] + [sep] + Join(rest[1..], sep);
        }
      }
    }
  }

  /** A text without a separator splits into itself. */
  lemma {:induction false} SplitOnNoSeparator(a: string, seps: set<char>)
    requires forall c :: c in a ==> c !in seps
    ensures SplitOn(a, seps) == [a]
  {
    if a != [] {
      SplitOnNoSeparator(a[1..], seps);
      assert a[0] in a;
      assert [a[0]] + a[1..] == a;
    }
  }

  /** A separator after a separator-free piece ends the first piece. */
  lemma {:induction false} SplitOnPiece(a: string, sep: char, b: string, seps: set<char>)
    requires sep in seps && forall c :: c in a ==> c !in seps
    ensures SplitOn(a + [sep] + b, seps) == [a] + SplitOn(b, seps)
  {
    if a != [] {
      SplitOnPiece(a[1..], sep, b, seps);
      var s := a + [sep] + b;
      assert s[0] == a[0] && a[0] in a;
      assert s[1..] == a[1..] + [sep] + b;
      var rest := SplitOn(s[1..], seps);
      assert rest[0] == a[1..] && rest[1..] == SplitOn(b, seps);
      assert [s[0]] + rest[0] == a;
    } else {
      assert (a + [sep] + b)[1..] == b;
    }
  }

  /** Joining pieces that hold no separator and splitting again gives the
      pieces back. */
  lemma {:induction false} JoinSplit(pieces: seq<string>, sep: char)
    requires |pieces| >= 1
    requires forall i :: 0 <= i < |pieces| ==> sep !in pieces[i]
    ensures SplitOn(Join(pieces, sep), {sep}) == pieces
    decreases |pieces|
  {
    if |pieces| == 1 {
      SplitOnNoSeparator(pieces[0], {sep});
    } else {
      JoinSplit(pieces[1..], sep);
      SplitOnPiece(pieces[0], sep, Join(pieces[1..], sep), {sep});
    }
  }

  /** toLowerCase on the Latin and Cyrillic letters the sources use. */
  function LowerChar(c: char): char {
    if 'A' <= c <= 'Z' then (c as int + 32) as char
    else if '\U{0410}' <= c <= '\U{042F}' then (c as int + 32) as char
    else if '\U{0400}' <= c <= '\U{040F}' then (c as int + 80) as char
    else if c == '\U{0490}' then '\U{0491}'
    else c
  }

  /** String.prototype.toLowerCase, letter by letter. */
  function ToLower(s: string): (r: string)
    ensures |r| == |s|
    ensures forall i :: 0 <= i < |s| ==> r[i] == LowerChar(s[i])
  {
    if s == [] then [] else [LowerChar(s[0])] + ToLower(s[1..])
  }
}
