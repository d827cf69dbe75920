/** The trip-report parser of the "Globus" club site (`reports/globus.ts`):
    the lookup tables over the text of report fields, the route splitter and
    the per-stop extraction of grade, elevation and place type. Fetching and
    querying the pages is not modelled: the functions take the text that the
    page selectors return. */
module Globus {
  import opened Wrappers
  import opened JsText
  import opened JsNumbers
  import opened Domain

  // ---------------------------------------------------------------------
  // Lookup tables over the text of report fields

  /** The text that stands for each trip type on the report page. */
  function TripTypeName(t: TripType): string {
    match t
    case Cycling => "Велотуризм"
    case Mountaineering => "Гірський туризм"
    case Ski => "Лижний туризм"
    case Hiking => "Пішохідний туризм"
  }

  /** parseTripType's table: exactly the four names give a type, each the
      type it names. */
  function TripTypeOf(text: string): (r: Option<TripType>)
    ensures r.Some? <==> text in {"Велотуризм", "Гірський туризм", "Лижний туризм", "Пішохідний туризм"}
    ensures r.Some? ==> TripTypeName(r.value) == text
  {
    if text == "Велотуризм" then Some(Cycling)
    else if text == "Гірський туризм" then Some(Mountaineering)
    else if text == "Лижний туризм" then Some(Ski)
    else if text == "Пішохідний туризм" then Some(Hiking)
    else None
  }

  /** The text that stands for each trip category on the report page. */
  function TripDifficultyName(d: TripDifficulty): string {
    match d
    case NonCategorical => "н/к"
    case First => "1 к.с."
    case Second => "2 к.с."
    case Third => "3 к.с."
    case Fourth => "4 к.с."
    case Fifth => "5 к.с."
    case Sixth => "6 к.с."
  }

  /** parseTripDifficulty's table, looked up with the trimmed text of a field
      that may be missing: exactly the seven names give a category, each the
      category it names. */
  function TripDifficultyOf(field: Option<string>): (r: Option<TripDifficulty>)
    ensures field.None? ==> r.None?
    ensures r.Some? <==>
      (field.Some? && Trim(field.value) in {"н/к", "1 к.с.", "2 к.с.", "3 к.с.", "4 к.с.", "5 к.с.", "6 к.с."})
    ensures r.Some? ==> TripDifficultyName(r.value) == Trim(field.value)
  {
    match field
    case None => None
    case Some(raw) =>
      var text := Trim(raw);
      if text == "н/к" then Some(NonCategorical)
      else if text == "1 к.с." then Some(First)
      else if text == "2 к.с." then Some(Second)
      else if text == "3 к.с." then Some(Third)
      else if text == "4 к.с." then Some(Fourth)
      else if text == "5 к.с." then Some(Fifth)
      else if text == "6 к.с." then Some(Sixth)
      else None
  }

  /** The text that stands for each season on the report page. */
  function SeasonName(s: Season): string {
    match s
    case Summer => "Літо"
    case Autumn => "Осінь"
    case Winter => "Зима"
    case Spring => "Весна"
  }

  /** parseTripSeason's table: exactly the four names give a season, each
      the season it names. */
  function SeasonOf(text: string): (r: Option<Season>)
    ensures r.Some? <==> text in {"Літо", "Осінь", "Зима", "Весна"}
    ensures r.Some? ==> SeasonName(r.value) == text
  {
    if text == "Літо" then Some(Summer)
    else if text == "Осінь" then Some(Autumn)
    else if text == "Зима" then Some(Winter)
    else if text == "Весна" then Some(Spring)
    else None
  }

  /** Every trip type is read back from its own name. */
  lemma TripTypeNameRoundTrip(t: TripType)
    ensures TripTypeOf(TripTypeName(t)) == Some(t)
  {
  }

  /** Every trip category is read back from its own name, with or without
      white space around it. */
  lemma TripDifficultyNameRoundTrip(d: TripDifficulty, padded: string)
    requires Trim(padded) == TripDifficultyName(d)
    ensures TripDifficultyOf(Some(TripDifficultyName(d))) == Some(d)
    ensures TripDifficultyOf(Some(padded)) == Some(d)
  {
    TripDifficultyNameTrimmed(d);
  }

  /** The category names have no white space at either end. */
  lemma TripDifficultyNameTrimmed(d: TripDifficulty)
    ensures Trim(TripDifficultyName(d)) == TripDifficultyName(d)
  {
    var name := TripDifficultyName(d);
    assert name[0] in "н123456" && name[|name| - 1] in "к.";
    TrimUnchanged(name);
  }

  /** Every season is read back from its own name. */
  lemma SeasonNameRoundTrip(s: Season)
    ensures SeasonOf(SeasonName(s)) == Some(s)
  {
  }

  /** The text that stands for each grade in a route description. */
  function GradeName(d: LocationDifficulty): string {
    match d
    case NonCategorized => "н/к"
    case FirstA => "1\U{0410}"
    case FirstAStar => "1\U{0410}*"
    case FirstB => "1\U{0411}"
    case FirstBStar => "1\U{0411}*"
    case SecondA => "2\U{0410}"
    case SecondAStar => "2\U{0410}*"
    case SecondB => "2\U{0411}"
    case SecondBStar => "2\U{0411}*"
    case ThirdA => "3\U{0410}"
    case ThirdAStar => "3\U{0410}*"
    case ThirdB => "3\U{0411}"
    case ThirdBStar => "3\U{0411}*"
  }

  /** difficultyFromString: exactly the thirteen grade names map to grades,
      each to the grade it names; any other text gives undefined. */
  function DifficultyFromString(str: string): (r: Option<LocationDifficulty>)
    ensures r.Some? ==> GradeName(r.value) == str
    ensures r.None? ==> forall d :: GradeName(d) != str
  {
    if str == "н/к" then Some(NonCategorized)
    else if str == "1\U{0410}" then Some(FirstA)
    else if str == "1\U{0410}*" then Some(FirstAStar)
    else if str == "1\U{0411}" then Some(FirstB)
    else if str == "1\U{0411}*" then Some(FirstBStar)
    else if str == "2\U{0410}" then Some(SecondA)
    else if str == "2\U{0410}*" then Some(SecondAStar)
    else if str == "2\U{0411}" then Some(SecondB)
    else if str == "2\U{0411}*" then Some(SecondBStar)
    else if str == "3\U{0410}" then Some(ThirdA)
    else if str == "3\U{0410}*" then Some(ThirdAStar)
    else if str == "3\U{0411}" then Some(ThirdB)
    else if str == "3\U{0411}*" then Some(ThirdBStar)
    else None
  }

  /** Every grade is read back from its own name. */
  lemma GradeNameRoundTrip(d: LocationDifficulty)
    ensures DifficultyFromString(GradeName(d)) == Some(d)
  {
    match d
    case NonCategorized =>
    case FirstA =>
    case FirstAStar =>
    case FirstB =>
    case FirstBStar =>
    case SecondA =>
    case SecondAStar =>
    case SecondB =>
    case SecondBStar =>
    case ThirdA =>
    case ThirdAStar =>
    case ThirdB =>
    case ThirdBStar =>
  }

  // ---------------------------------------------------------------------
  // Normalising the route text

  /** `replace(/–/g, '-')`: en-dashes become hyphens. */
  function ReplaceEnDash(s: string): (r: string)
    ensures '\U{2013}' !in r
    ensures |r| == |s|
    ensures forall i :: 0 <= i < |s| ==> r[i] == if s[i] == '\U{2013}' then '-' else s[i]
  {
    ReplaceChar(s, '\U{2013}', '-')
  }

  /** The length of the run of white space starting at k. */
  function SpaceRun(s: string, k: nat): (n: nat)
    requires k <= |s|
    ensures k + n <= |s|
    ensures forall i :: k <= i < k + n ==> IsSpace(s[i])
    ensures k + n == |s| || !IsSpace(s[k + n])
    decreases |s| - k
  {
    if k < |s| && IsSpace(s[k]) then 1 + SpaceRun(s, k + 1) else 0
  }

  /** The text without its white space. */
  function NonSpace(s: string): string {
    if s == [] then [] else if IsSpace(s[0]) then NonSpace(s[1..]) else [s[0]] + NonSpace(s[1..])
  }

  lemma {:induction false} NonSpaceSkipsSpaces(s: string, n: nat)
    requires n <= |s|
    requires forall i :: 0 <= i < n ==> IsSpace(s[i])
    ensures NonSpace(s[n..]) == NonSpace(s)
  {
    if n > 0 {
      assert s[1..][n - 1..] == s[n..];
      NonSpaceSkipsSpaces(s[1..], n - 1);
    }
  }

  /** `replace(/\s+/g, ' ')`: every run of white space becomes one space, so
      the only white space left is ' ', never two in a row, and the other
      characters are kept in order. */
  function CollapseWhitespace(s: string): (r: string)
    ensures forall i :: 0 <= i < |r| && IsSpace(r[i]) ==> r[i] == ' '
    ensures forall i :: 0 <= i < |r| - 1 ==> !(IsSpace(r[i]) && IsSpace(r[i + 1]))
    ensures s == [] <==> r == []
    ensures s != [] ==> (IsSpace(r[0]) <==> IsSpace(s[0]))
    ensures forall c :: c in r ==> c in s || c == ' '
    ensures NonSpace(r) == NonSpace(s)
    decreases |s|
  {
    if s == [] then []
    else if IsSpace(s[0]) then
      var n := SpaceRun(s, 0);
      var rest := CollapseWhitespace(s[n..]);
      NonSpaceSkipsSpaces(s, n);
      assert forall c :: c in s[n..] ==> c in s;
      [' '] + rest
    else
      var rest := CollapseWhitespace(s[1..]);
      assert forall c :: c in s[1..] ==> c in s;
      [s[0]] + rest
  }

  /** The reference reading of `replace(/\s+/g, ' ')`, one character at a
      time: a white-space character writes a space unless the one before it
      was white space too; any other character is copied. */
  function Squeeze(s: string, afterSpace: bool): string
    decreases |s|
  {
    if s == [] then []
    else if IsSpace(s[0]) then (if afterSpace then [] else [' ']) + Squeeze(s[1..], true)
    else [s[0]] + Squeeze(s[1..], false)
  }

  /** After white space, further white space writes nothing. */
  lemma {:induction false} SqueezeSkipsSpaces(s: string, n: nat)
    requires n <= |s|
    requires forall i :: 0 <= i < n ==> IsSpace(s[i])
    ensures Squeeze(s, true) == Squeeze(s[n..], true)
    decreases n
  {
    if n > 0 {
      assert s[1..][n - 1..] == s[n..];
      SqueezeSkipsSpaces(s[1..], n - 1);
    }
  }

  /** Collapsing whole runs of white space agrees with the reference
      reading: each maximal run becomes exactly one space and every other
      character is kept in place. */
  lemma {:induction false} CollapseWhitespaceIsSqueeze(s: string)
    ensures CollapseWhitespace(s) == Squeeze(s, false)
    decreases |s|
  {
    if s != [] {
      if IsSpace(s[0]) {
        var n := SpaceRun(s, 0);
        assert s[1..][n - 1..] == s[n..];
        SqueezeSkipsSpaces(s[1..], n - 1);
        CollapseWhitespaceIsSqueeze(s[n..]);
      } else {
        CollapseWhitespaceIsSqueeze(s[1..]);
      }
    }
  }

  /** Replacing one non-space character by another commutes with dropping
      the white space. */
  lemma {:induction false} NonSpaceReplaceChar(s: string, a: char, b: char)
    requires !IsSpace(a) && !IsSpace(b)
    ensures NonSpace(ReplaceChar(s, a, b)) == ReplaceChar(NonSpace(s), a, b)
    decreases |s|
  {
    if s != [] {
      NonSpaceReplaceChar(s[1..], a, b);
      assert ReplaceChar(s, a, b)[1..] == ReplaceChar(s[1..], a, b);
    }
  }

  /** Everything the route text goes through before it is split: Unicode
      normalisation (NFKD, a parameter here), en-dash unification and
      white-space collapsing. The result is the reference reading of the
      normalised text with hyphens for en-dashes, and its non-white-space
      text is the normalised text's, en-dashes turned into hyphens. */
  function NormalizeRoute(normalize: string -> string, route: string): (r: string)
    ensures '\U{2013}' !in r
    ensures forall i :: 0 <= i < |r| && IsSpace(r[i]) ==> r[i] == ' '
    ensures forall i :: 0 <= i < |r| - 1 ==> !(r[i] == ' ' && r[i + 1] == ' ')
    ensures r == Squeeze(ReplaceEnDash(normalize(route)), false)
    ensures NonSpace(r) == ReplaceChar(NonSpace(normalize(route)), '\U{2013}', '-')
  {
    CollapseWhitespaceIsSqueeze(ReplaceEnDash(normalize(route)));
    NonSpaceReplaceChar(normalize(route), '\U{2013}', '-');
    CollapseWhitespace(ReplaceEnDash(normalize(route)))
  }

  // ---------------------------------------------------------------------
  // Splitting the route into stops on /(?<!\s)- | -(?!\s)| - /g

  /** The length of the separator match starting at q, or 0: "- " not
      preceded by white space, " -" not followed by white space, or " - ". */
  function SeparatorAt(s: string, q: nat): (n: nat)
    ensures n == 0 || n == 2 || n == 3
    ensures n > 0 ==> q + n <= |s|
    ensures n > 0 ==> s[q..q + n] == "- " || s[q..q + n] == " -" || s[q..q + n] == " - "
  {
    if q + 2 <= |s| && s[q] == '-' && s[q + 1] == ' ' && (q == 0 || !IsSpace(s[q - 1])) then 2
    else if q + 2 <= |s| && s[q] == ' ' && s[q + 1] == '-' && (q + 2 == |s| || !IsSpace(s[q + 2])) then 2
    else if q + 3 <= |s| && s[q] == ' ' && s[q + 1] == '-' && s[q + 2] == ' ' then 3
    else 0
  }

  /** A span of the text removed by the split. */
  datatype Cut = Cut(start: nat, end: nat)

  predicate IsCut(s: string, c: Cut) {
    c.start < c.end <= |s| && SeparatorAt(s, c.start) == c.end - c.start
  }

  /** The cuts lie in order, without overlapping, at or after p. */
  predicate CutsAfter(s: string, cs: seq<Cut>, p: nat) {
    cs == [] || (p <= cs[0].start < cs[0].end <= |s| && CutsAfter(s, cs[1..], cs[0].end))
  }

  predicate CoveredBy(cs: seq<Cut>, j: nat) {
    cs != [] && ((cs[0].start <= j < cs[0].end) || CoveredBy(cs[1..], j))
  }

  /** The separators `split` finds scanning from q: each is a separator
      match, they are in order, and every position from q on where a
      separator starts lies in one of them (so none is skipped between
      two cuts). */
  function CutsFrom(s: string, q: nat): (cs: seq<Cut>)
    requires q <= |s|
    ensures forall i :: 0 <= i < |cs| ==> IsCut(s, cs[i])
    ensures CutsAfter(s, cs, q)
    ensures forall j :: q <= j < |s| && SeparatorAt(s, j) > 0 ==> CoveredBy(cs, j)
    decreases |s| - q
  {
    if q == |s| then []
    else
      var n := SeparatorAt(s, q);
      if n > 0 then [Cut(q, q + n)] + CutsFrom(s, q + n)
      else CutsFrom(s, q + 1)
  }

  /** The pieces of s[p..] between the cuts. */
  function PiecesFrom(s: string, cs: seq<Cut>, p: nat): (ps: seq<string>)
    requires p <= |s| && CutsAfter(s, cs, p)
    ensures |ps| == |cs| + 1
  {
    if cs == [] then [s[p..]]
    else [s[p..cs[0].start]] + PiecesFrom(s, cs[1..], cs[0].end)
  }

  /** The text of each cut. */
  function CutTexts(s: string, cs: seq<Cut>, p: nat): (ts: seq<string>)
    requires p <= |s| && CutsAfter(s, cs, p)
    ensures |ts| == |cs|
  {
    if cs == [] then [] else [s[cs[0].start..cs[0].end]] + CutTexts(s, cs[1..], cs[0].end)
  }

  function Interleave(pieces: seq<string>, seps: seq<string>): string
    requires |pieces| == |seps| + 1
  {
    if seps == [] then pieces[0] else pieces[0] + seps[0] + Interleave(pieces[1..], seps[1..])
  }

  /** `split(hyphenBetweenLocations)`: the stop names in text order. */
  function SplitStops(s: string): (r: seq<string>)
    ensures |r| == |CutsFrom(s, 0)| + 1
  {
    PiecesFrom(s, CutsFrom(s, 0), 0)
  }

  /** Nothing is lost: the pieces with the separators put back between them
      are the text again. */
  lemma {:induction false} PiecesReassemble(s: string, cs: seq<Cut>, p: nat)
    requires p <= |s| && CutsAfter(s, cs, p)
    ensures Interleave(PiecesFrom(s, cs, p), CutTexts(s, cs, p)) == s[p..]
    decreases |cs|
  {
    if cs != [] {
      PiecesReassemble(s, cs[1..], cs[0].end);
      assert s[p..] == s[p..cs[0].start] + s[cs[0].start..cs[0].end] + s[cs[0].end..];
    }
  }

  lemma SplitReassembles(s: string)
    ensures Interleave(SplitStops(s), CutTexts(s, CutsFrom(s, 0), 0)) == s
  {
    PiecesReassemble(s, CutsFrom(s, 0), 0);
  }

  /** A hyphen inside a separator always has a space right beside it. */
  lemma HyphenInSeparator(s: string, q: nat, i: nat)
    requires SeparatorAt(s, q) > 0 && q <= i < q + SeparatorAt(s, q)
    requires s[i] == '-'
    ensures (0 < i && s[i - 1] == ' ') || (i + 1 < |s| && s[i + 1] == ' ')
  {
    var n := SeparatorAt(s, q);
    assert s[q..q + n][i - q] == s[i];
  }

  /** A hyphen flush between two characters that are not white space
      ("Контр-скеля") is never part of a separator, so it stays inside a
      stop name. */
  lemma FlushHyphenKept(s: string, i: nat)
    requires 0 < i < |s| - 1 && s[i] == '-'
    requires !IsSpace(s[i - 1]) && !IsSpace(s[i + 1])
    ensures forall k :: 0 <= k < |CutsFrom(s, 0)| ==>
      !(CutsFrom(s, 0)[k].start <= i < CutsFrom(s, 0)[k].end)
  {
    var cs := CutsFrom(s, 0);
    forall k | 0 <= k < |cs|
      ensures !(cs[k].start <= i < cs[k].end)
    {
      if cs[k].start <= i < cs[k].end {
        HyphenInSeparator(s, cs[k].start, i);
      }
    }
  }

  /** A flush hyphen stays in its stop and a spaced one separates two. */
  lemma SplitExample()
    ensures SplitStops("А-Б - В") == ["А-Б", "В"]
  {
    var s := "А-Б - В";
    assert SeparatorAt(s, 6) == 0;
    assert CutsFrom(s, 6) == [];
    assert SeparatorAt(s, 3) == 3;
    assert CutsFrom(s, 3) == [Cut(3, 6)];
    assert SeparatorAt(s, 2) == 0;
    assert SeparatorAt(s, 1) == 0;
    assert SeparatorAt(s, 0) == 0;
    assert CutsFrom(s, 0) == [Cut(3, 6)];
    assert PiecesFrom(s, [Cut(3, 6)], 0) == [s[..3], s[6..]];
    assert s[..3] == "А-Б" && s[6..] == "В";
  }

  /** parseRouteStops: an empty or missing route text throws; otherwise the
      stops are the pieces of the normalised text, numbered 0..n-1 in text
      order, each with its raw text and what parseLocation extracts from it. */
  function ParseRouteStops(normalize: string -> string, route: Option<string>): (r: Result<seq<RouteStopDto>, string>)
    ensures r.Failure? <==> route.None? || route.value == ""
    ensures r.Success? ==>
      var pieces := SplitStops(NormalizeRoute(normalize, route.value));
      && |r.value| == |pieces|
      && forall i :: 0 <= i < |r.value| ==>
           r.value[i].number == i && r.value[i].name == pieces[i]
           && r.value[i].location == ParsedLocation(pieces[i])
  {
    match route
    case None => Failure("No route on route page")
    case Some(text) =>
      if text == "" then Failure("No route on route page")
      else
        var pieces := SplitStops(NormalizeRoute(normalize, text));
        Success(seq(|pieces|, i requires 0 <= i < |pieces| => RouteStopDto(pieces[i], i, ParsedLocation(pieces[i]))))
  }

  // ---------------------------------------------------------------------
  // The five grade/elevation patterns, as the backtracking regex engine
  // runs them

  /** Where the grade `([1-3][АБ][*]?|н/к)` starting at p ends; the star is
      taken when present. */
  function GradeEnd(s: string, p: nat): (r: Option<nat>)
    ensures r.Some? ==> p + 2 <= r.value <= |s|
  {
    if p + 2 <= |s| && '1' <= s[p] <= '3' && (s[p + 1] == '\U{0410}' || s[p + 1] == '\U{0411}') then
      Some(if p + 3 <= |s| && s[p + 2] == '*' then p + 3 else p + 2)
    else if p + 3 <= |s| && s[p] == 'н' && s[p + 1] == '/' && s[p + 2] == 'к' then Some(p + 3)
    else None
  }

  /** Whatever the grade group captures is one of the thirteen grade names,
      so a pattern that matched always yields a grade. */
  lemma CapturedGradeIsKnown(s: string, p: nat)
    requires GradeEnd(s, p).Some?
    ensures DifficultyFromString(s[p..GradeEnd(s, p).value]).Some?
  {
    var e := GradeEnd(s, p).value;
    var g := s[p..e];
    if e == p + 3 && s[p] != 'н' {
      assert g == [s[p], s[p + 1], '*'];
    } else if e == p + 2 {
      assert g == [s[p], s[p + 1]];
    } else {
      assert g == ['н', '/', 'к'];
    }
  }

  /** The length of the run of digits starting at k. */
  function DigitRun(s: string, k: nat): (n: nat)
    requires k <= |s|
    ensures k + n <= |s|
    ensures forall i :: k <= i < k + n ==> IsDigit(s[i])
    ensures k + n == |s| || !IsDigit(s[k + n])
    decreases |s| - k
  {
    if k < |s| && IsDigit(s[k]) then 1 + DigitRun(s, k + 1) else 0
  }

  /** Where the numeral `[0-9]+[,.]?[0-9]+` starting at k can end, in the
      order the engine tries them: digits, separator, digits first; the
      whole first run of digits (at least two of them) next. The other
      backtracking points leave a digit right after the numeral, which
      nothing that follows a numeral in the patterns can consume. */
  function NumeralEnds(s: string, k: nat): (ends: seq<nat>)
    requires k <= |s|
    ensures forall i :: 0 <= i < |ends| ==> k + 2 <= ends[i] <= |s|
  {
    var a := DigitRun(s, k);
    var withSeparator :=
      if a >= 1 && k + a + 1 < |s| && (s[k + a] == ',' || s[k + a] == '.') && IsDigit(s[k + a + 1])
      then [k + a + 1 + DigitRun(s, k + a + 1)] else [];
    withSeparator + (if a >= 2 then [k + a] else [])
  }

  /** `( н.р.м)?` at v: the group first, then nothing. */
  function AboveSeaEnds(s: string, v: nat): (ends: seq<nat>)
    requires v <= |s|
    ensures |ends| >= 1 && ends[0] >= v
    ensures forall i :: 0 <= i < |ends| ==> v <= ends[i] <= |s|
  {
    if v + 6 <= |s| && s[v] == ' ' && s[v + 1] == 'н' && !IsLineTerminator(s[v + 2])
       && s[v + 3] == 'р' && !IsLineTerminator(s[v + 4]) && s[v + 5] == 'м'
    then [v + 6, v]
    else [v]
  }

  /** `(метрів|м.|м)?( н.р.м)?` at u, alternatives in order, then nothing. */
  function UnitEnds(s: string, u: nat): (ends: seq<nat>)
    requires u <= |s|
    ensures |ends| >= 1
    ensures forall i :: 0 <= i < |ends| ==> u <= ends[i] <= |s|
  {
    (if u + 6 <= |s| && s[u] == 'м' && s[u + 1] == 'е' && s[u + 2] == 'т' && s[u + 3] == 'р'
        && s[u + 4] == 'і' && s[u + 5] == 'в'
     then AboveSeaEnds(s, u + 6) else [])
    + (if u + 2 <= |s| && s[u] == 'м' && !IsLineTerminator(s[u + 1]) then AboveSeaEnds(s, u + 2) else [])
    + (if u + 1 <= |s| && s[u] == 'м' then AboveSeaEnds(s, u + 1) else [])
    + AboveSeaEnds(s, u)
  }

  /** `\s*(метрів|м.|м)?( н.р.м)?` at j, trying w, w-1, ..., 0 white-space
      characters. */
  function TailEndsWithin(s: string, j: nat, w: nat): (ends: seq<nat>)
    requires j + w <= |s|
    ensures |ends| >= 1
    ensures forall i :: 0 <= i < |ends| ==> j <= ends[i] <= |s|
  {
    UnitEnds(s, j + w) + (if w == 0 then [] else TailEndsWithin(s, j, w - 1))
  }

  /** The ends of the elevation's tail after a numeral that ends at j. */
  function TailEnds(s: string, j: nat): (ends: seq<nat>)
    requires j <= |s|
    ensures |ends| >= 1
    ensures forall i :: 0 <= i < |ends| ==> j <= ends[i] <= |s|
  {
    TailEndsWithin(s, j, SpaceRun(s, j))
  }

  /** A match of one pattern: its span and the text of its named groups. */
  datatype PatternMatch = PatternMatch(start: nat, end: nat, grade: Option<string>, elevation: Option<string>)

  /** difficultyElevationRegexList, in its order:
      r1 `\(E,\s*D\)`, r2 `\(D\)`, r3 `(E)` (written `\(E\)` in a template
      literal, where `\(` is a plain `(`: a group, not brackets), r4 ` D`,
      r5 ` E`; D is the grade and E the elevation with its unit. */
  datatype Pattern = ElevationAndGrade | GradeInBrackets | ElevationGroup | SpacedGrade | SpacedElevation

  const Patterns: seq<Pattern> := [ElevationAndGrade, GradeInBrackets, ElevationGroup, SpacedGrade, SpacedElevation]

  /** A captured grade is always one of the grade names. */
  predicate KnownGrade(m: PatternMatch) {
    m.grade.Some? ==> DifficultyFromString(m.grade.value).Some?
  }

  /** r1 after the numeral ended at e: the first tail end followed by ',',
      white space, a grade and ')'. */
  function GradeAfterTails(s: string, k: nat, e: nat, tails: seq<nat>): (r: Option<PatternMatch>)
    requires k < e <= |s|
    requires forall i :: 0 <= i < |tails| ==> e <= tails[i] <= |s|
    ensures r.Some? ==> r.value.start == k < r.value.end <= |s| && KnownGrade(r.value)
  {
    if tails == [] then None
    else
      var t := tails[0];
      var g := if t < |s| && s[t] == ',' then t + 1 + SpaceRun(s, t + 1) else t;
      if t < |s| && s[t] == ',' && GradeEnd(s, g).Some?
         && GradeEnd(s, g).value < |s| && s[GradeEnd(s, g).value] == ')'
      then
        var ge := GradeEnd(s, g).value;
        CapturedGradeIsKnown(s, g);
        Some(PatternMatch(k, ge + 1, Some(s[g..ge]), Some(s[k + 1..e])))
      else GradeAfterTails(s, k, e, tails[1..])
  }

  /** r1 over the numeral ends in the engine's order. */
  function ElevationAndGradeFrom(s: string, k: nat, ends: seq<nat>): (r: Option<PatternMatch>)
    requires forall i :: 0 <= i < |ends| ==> k + 2 <= ends[i] <= |s|
    ensures r.Some? ==> r.value.start == k < r.value.end <= |s| && KnownGrade(r.value)
  {
    if ends == [] then None
    else match GradeAfterTails(s, k, ends[0], TailEnds(s, ends[0]))
      case Some(m) => Some(m)
      case None => ElevationAndGradeFrom(s, k, ends[1..])
  }

  /** r3 at k: the first numeral end and the first tail end (nothing follows
      in the pattern, so the first path the engine tries succeeds). */
  function ElevationAt(s: string, k: nat): (r: Option<PatternMatch>)
    requires k <= |s|
    ensures r.Some? ==> r.value.start == k < r.value.end <= |s| && KnownGrade(r.value)
  {
    var ends := NumeralEnds(s, k);
    if ends == [] then None
    else Some(PatternMatch(k, TailEnds(s, ends[0])[0], None, Some(s[k..ends[0]])))
  }

  /** r1 at k. */
  function ElevationAndGradeAt(s: string, k: nat): (r: Option<PatternMatch>)
    requires k <= |s|
    ensures r.Some? ==> r.value.start == k < r.value.end <= |s| && KnownGrade(r.value)
  {
    if k < |s| && s[k] == '(' then ElevationAndGradeFrom(s, k, NumeralEnds(s, k + 1)) else None
  }

  /** r2 at k. */
  function GradeInBracketsAt(s: string, k: nat): (r: Option<PatternMatch>)
    requires k <= |s|
    ensures r.Some? ==> r.value.start == k < r.value.end <= |s| && KnownGrade(r.value)
  {
    if k < |s| && s[k] == '(' then
      match GradeEnd(s, k + 1)
      case None => None
      case Some(e) =>
        CapturedGradeIsKnown(s, k + 1);
        if e < |s| && s[e] == ')' then Some(PatternMatch(k, e + 1, Some(s[k + 1..e]), None)) else None
    else None
  }

  /** r4 at k. */
  function SpacedGradeAt(s: string, k: nat): (r: Option<PatternMatch>)
    requires k <= |s|
    ensures r.Some? ==> r.value.start == k < r.value.end <= |s| && KnownGrade(r.value)
  {
    if k < |s| && s[k] == ' ' then
      match GradeEnd(s, k + 1)
      case None => None
      case Some(e) =>
        CapturedGradeIsKnown(s, k + 1);
        Some(PatternMatch(k, e, Some(s[k + 1..e]), None))
    else None
  }

  /** r5 at k. */
  function SpacedElevationAt(s: string, k: nat): (r: Option<PatternMatch>)
    requires k <= |s|
    ensures r.Some? ==> r.value.start == k < r.value.end <= |s| && KnownGrade(r.value)
  {
    if k < |s| && s[k] == ' ' then
      match ElevationAt(s, k + 1)
      case None => None
      case Some(m) => Some(PatternMatch(k, m.end, None, m.elevation))
    else None
  }

  /** The match of pattern p that starts at k, if any. */
  function MatchAt(p: Pattern, s: string, k: nat): (r: Option<PatternMatch>)
    requires k <= |s|
    ensures r.Some? ==> r.value.start == k < r.value.end <= |s| && KnownGrade(r.value)
  {
    match p
    case ElevationAndGrade => ElevationAndGradeAt(s, k)
    case GradeInBrackets => GradeInBracketsAt(s, k)
    case ElevationGroup => ElevationAt(s, k)
    case SpacedGrade => SpacedGradeAt(s, k)
    case SpacedElevation => SpacedElevationAt(s, k)
  }

  /** The first position from k on that holds a value. */
  function FirstSome<T>(xs: seq<Option<T>>, k: nat): (r: Option<nat>)
    ensures r.Some? ==> k <= r.value < |xs| && xs[r.value].Some?
    ensures r.Some? ==> forall j :: k <= j < r.value ==> xs[j].None?
    ensures r.None? ==> forall j :: k <= j < |xs| ==> xs[j].None?
    decreases |xs| - k
  {
    if k >= |xs| then None else if xs[k].Some? then Some(k) else FirstSome(xs, k + 1)
  }

  /** `s.match(p)`: the match of p at the leftmost position where it
      matches. */
  function Match(p: Pattern, s: string): (r: Option<PatternMatch>)
    ensures r.Some? ==> r.value.start <= |s| && MatchAt(p, s, r.value.start) == r
  {
    var ms := seq(|s| + 1, j requires 0 <= j <= |s| => MatchAt(p, s, j));
    match FirstSome(ms, 0)
    case None => None
    case Some(k) => ms[k]
  }

  /** No match starts before the one `match` returns: wherever p matches,
      `match` finds a match there or further left. */
  lemma MatchIsLeftmost(p: Pattern, s: string, j: nat)
    requires j <= |s| && MatchAt(p, s, j).Some?
    ensures Match(p, s).Some? && Match(p, s).value.start <= j
  {
    var ms := seq(|s| + 1, j requires 0 <= j <= |s| => MatchAt(p, s, j));
    assert ms[j].Some?;
    var k := FirstSome(ms, 0).value;
    assert ms[k] == MatchAt(p, s, k);
  }

  /** What each pattern of the list finds in s. */
  function PatternResults(s: string): (rs: seq<Option<PatternMatch>>)
    ensures |rs| == |Patterns|
  {
    seq(|Patterns|, i requires 0 <= i < |Patterns| => Match(Patterns[i], s))
  }

  /** The first pattern of the list that matches s, with its match. */
  function FirstPattern(s: string): (r: Option<(nat, PatternMatch)>)
    ensures r.Some? ==> r.value.0 < |Patterns| && Match(Patterns[r.value.0], s) == Some(r.value.1)
  {
    var rs := PatternResults(s);
    match FirstSome(rs, 0)
    case None => None
    case Some(i) => Some((i, rs[i].value))
  }

  /** Order is important: a pattern is applied only when no pattern listed
      before it matches. */
  lemma EarlierPatternWins(s: string, j: nat)
    requires j < |Patterns| && Match(Patterns[j], s).Some?
    ensures FirstPattern(s).Some? && FirstPattern(s).value.0 <= j
  {
    var rs := PatternResults(s);
    assert rs[j].Some?;
  }

  /** What the grade/elevation step leaves: the remaining text and the
      values read from the match. */
  datatype Extracted = Extracted(rest: string, difficulty: Option<LocationDifficulty>, elevation: JsNum)

  /** The values a match yields: the grade through difficultyFromString and
      the elevation through Number; a group the pattern lacks stays
      undefined. */
  function Values(m: PatternMatch): (Option<LocationDifficulty>, JsNum)
  {
    (if m.grade.Some? then DifficultyFromString(m.grade.value) else None,
     if m.elevation.Some? then ToNumber(m.elevation.value) else Undefined)
  }

  /** At most one pattern is applied: the first in list order that matches;
      its leftmost match is cut out and the rest trimmed. */
  function ExtractGradeAndElevation(s: string): (r: Extracted)
    ensures FirstPattern(s).None? ==> r == Extracted(s, None, Undefined)
    ensures FirstPattern(s).Some? ==>
      var m := FirstPattern(s).value.1;
      && r.rest == Trim(s[..m.start] + s[m.end..])
      && (m.grade.Some? <==> r.difficulty.Some?)
      && (m.grade.Some? ==> GradeName(r.difficulty.value) == m.grade.value)
      && (m.elevation.None? <==> r.elevation.Undefined?)
      && (m.elevation.Some? ==> r.elevation == ToNumber(m.elevation.value))
  {
    match FirstPattern(s)
    case None => Extracted(s, None, Undefined)
    case Some((_, m)) =>
      var (d, e) := Values(m);
      Extracted(Trim(s[..m.start] + s[m.end..]), d, e)
  }

  // ---------------------------------------------------------------------
  // Place-type hints

  /** abbreviationToLocationType, in its order. */
  const Abbreviations: seq<(string, LocationType)> := [
    ("смт.", Settlement),
    ("вис.", Height),
    ("выс.", Height),
    ("д.р.", Walley),
    ("дол. р.", Walley),
    ("долина р.", Walley),
    ("пер.", MountainPass),
    ("п.", MountainPass),
    ("г.", Mountain),
    ("ур.", NatureObject),
    ("хр.", MountainRange),
    ("р.", Stream),
    ("пос.", Settlement),
    ("с.", Settlement),
    ("пол.", Polonyna),
    ("дол.", Walley),
    ("оз.", Lake),
    ("о.", Lake),
    ("в.", Mountain),
    ("м.", Settlement)
  ]

  /** The index of the first table entry from i on whose abbreviation occurs
      in s. */
  function FirstAbbreviation(s: string, i: nat): (r: Option<nat>)
    requires i <= |Abbreviations|
    ensures r.Some? ==> i <= r.value < |Abbreviations| && Includes(s, Abbreviations[r.value].0)
    ensures r.Some? ==> forall j :: i <= j < r.value ==> !Includes(s, Abbreviations[j].0)
    ensures r.None? ==> forall j :: i <= j < |Abbreviations| ==> !Includes(s, Abbreviations[j].0)
    decreases |Abbreviations| - i
  {
    if i == |Abbreviations| then None
    else if Includes(s, Abbreviations[i].0) then Some(i)
    else FirstAbbreviation(s, i + 1)
  }

  /** The type hint step: the earliest-listed abbreviation found gives the
      type, and its first occurrence is removed; none found leaves the text
      and no type. */
  function ExtractType(s: string): (r: (string, Option<LocationType>))
    ensures FirstAbbreviation(s, 0).None? ==> r == (s, None)
    ensures FirstAbbreviation(s, 0).Some? ==>
      var (abbreviation, t) := Abbreviations[FirstAbbreviation(s, 0).value];
      r == (Trim(ReplaceFirst(s, abbreviation, "")), Some(t))
  {
    match FirstAbbreviation(s, 0)
    case None => (s, None)
    case Some(i) => (Trim(ReplaceFirst(s, Abbreviations[i].0, "")), Some(Abbreviations[i].1))
  }

  /** Whether the pair of characters x, y occurs in s from position k on. */
  predicate HasPair(s: string, x: char, y: char, k: nat)
    decreases |s| - k
  {
    k + 1 < |s| && ((s[k] == x && s[k + 1] == y) || HasPair(s, x, y, k + 1))
  }

  /** Whether every pair of adjacent characters of t from position a on
      occurs somewhere in s. */
  predicate PairsIn(t: string, s: string, a: nat)
    decreases |t| - a
  {
    a + 1 >= |t| || (HasPair(s, t[a], t[a + 1], 0) && PairsIn(t, s, a + 1))
  }

  /** A test that t may occur in s: it is no longer, and each pair of
      adjacent characters of t occurs in s. */
  predicate MayInclude(s: string, t: string) {
    |t| <= |s| && PairsIn(t, s, 0)
  }

  lemma {:induction false} HasPairAt(s: string, x: char, y: char, k: nat, q: nat)
    requires k <= q && q + 1 < |s| && s[q] == x && s[q + 1] == y
    ensures HasPair(s, x, y, k)
    decreases q - k
  {
    if k < q {
      HasPairAt(s, x, y, k + 1, q);
    }
  }

  /** Where t occurs in s, each of its pairs of adjacent characters occurs
      in s, so `MayInclude` is necessary for `includes`. */
  lemma {:induction false} PairsOfOccurrence(s: string, t: string, q: nat, a: nat)
    requires OccursAt(s, t, q)
    ensures PairsIn(t, s, a)
    decreases |t| - a
  {
    if a + 1 < |t| {
      assert s[q..q + |t|][a] == t[a] && s[q..q + |t|][a + 1] == t[a + 1];
      HasPairAt(s, t[a], t[a + 1], 0, q + a);
      PairsOfOccurrence(s, t, q, a + 1);
    }
  }

  lemma IncludedMayInclude(s: string, t: string)
    requires Includes(s, t)
    ensures MayInclude(s, t)
  {
    PairsOfOccurrence(s, t, IndexOf(s, t).value, 0);
  }

  /** No abbreviation of the table may occur inside one listed after it,
      checked for the entries from `lo` to `hi - 1` in each of the lemmas
      below. */
  lemma NoEarlierAbbreviationInside1()
    ensures forall i, j :: 1 <= i < 5 && 0 <= j < i ==> !MayInclude(Abbreviations[i].0, Abbreviations[j].0)
  {
    assert !MayInclude("вис.", "смт.");
    assert !MayInclude("выс.", "смт.") && !MayInclude("выс.", "вис.");
    assert !MayInclude("д.р.", "смт.") && !MayInclude("д.р.", "вис.") &&
      !MayInclude("д.р.", "выс.");
    assert !MayInclude("дол. р.", "смт.") && !MayInclude("дол. р.", "вис.") &&
      !MayInclude("дол. р.", "выс.") && !MayInclude("дол. р.", "д.р.");
  }

  lemma NoEarlierAbbreviationInside5()
    ensures forall i, j :: 5 <= i < 7 && 0 <= j < i ==> !MayInclude(Abbreviations[i].0, Abbreviations[j].0)
  {
    assert !MayInclude("долина р.", "смт.") && !MayInclude("долина р.", "вис.") &&
      !MayInclude("долина р.", "выс.") && !MayInclude("долина р.", "д.р.") &&
      !MayInclude("долина р.", "дол. р.");
    assert !MayInclude("пер.", "смт.") && !MayInclude("пер.", "вис.") &&
      !MayInclude("пер.", "выс.") && !MayInclude("пер.", "д.р.");
  }

  lemma NoEarlierAbbreviationInside7()
    ensures forall i, j :: 7 <= i < 13 && 0 <= j < i ==> !MayInclude(Abbreviations[i].0, Abbreviations[j].0)
  {
    assert !MayInclude("г.", "п.");
    assert !MayInclude("ур.", "п.") && !MayInclude("ур.", "г.");
    assert !MayInclude("хр.", "п.") && !MayInclude("хр.", "г.") && !MayInclude("хр.", "ур.");
    assert !MayInclude("р.", "п.") && !MayInclude("р.", "г.");
    assert !MayInclude("пос.", "смт.") && !MayInclude("пос.", "вис.") &&
      !MayInclude("пос.", "выс.") && !MayInclude("пос.", "д.р.") && !MayInclude("пос.", "пер.") &&
      !MayInclude("пос.", "п.") && !MayInclude("пос.", "г.") && !MayInclude("пос.", "ур.") &&
      !MayInclude("пос.", "хр.") && !MayInclude("пос.", "р.");
  }

  lemma NoEarlierAbbreviationInside13()
    ensures forall i, j :: 13 <= i < 15 && 0 <= j < i ==> !MayInclude(Abbreviations[i].0, Abbreviations[j].0)
  {
    assert !MayInclude("с.", "п.") && !MayInclude("с.", "г.") && !MayInclude("с.", "р.");
    assert !MayInclude("пол.", "смт.") && !MayInclude("пол.", "вис.") &&
      !MayInclude("пол.", "выс.") && !MayInclude("пол.", "д.р.") && !MayInclude("пол.", "пер.") &&
      !MayInclude("пол.", "п.") && !MayInclude("пол.", "г.") && !MayInclude("пол.", "ур.") &&
      !MayInclude("пол.", "хр.") && !MayInclude("пол.", "р.") && !MayInclude("пол.", "пос.") &&
      !MayInclude("пол.", "с.");
  }

  lemma NoEarlierAbbreviationInside15()
    ensures forall i, j :: 15 <= i < 17 && 0 <= j < i ==> !MayInclude(Abbreviations[i].0, Abbreviations[j].0)
  {
    assert !MayInclude("дол.", "смт.") && !MayInclude("дол.", "вис.") &&
      !MayInclude("дол.", "выс.") && !MayInclude("дол.", "д.р.") && !MayInclude("дол.", "пер.") &&
      !MayInclude("дол.", "п.") && !MayInclude("дол.", "г.") && !MayInclude("дол.", "ур.") &&
      !MayInclude("дол.", "хр.") && !MayInclude("дол.", "р.") && !MayInclude("дол.", "пос.") &&
      !MayInclude("дол.", "с.") && !MayInclude("дол.", "пол.");
    assert !MayInclude("оз.", "п.") && !MayInclude("оз.", "г.") && !MayInclude("оз.", "ур.") &&
      !MayInclude("оз.", "хр.") && !MayInclude("оз.", "р.") && !MayInclude("оз.", "с.");
  }

  lemma NoEarlierAbbreviationInside17()
    ensures forall i, j :: 17 <= i < 20 && 0 <= j < i ==> !MayInclude(Abbreviations[i].0, Abbreviations[j].0)
  {
    assert !MayInclude("о.", "п.") && !MayInclude("о.", "г.") && !MayInclude("о.", "р.") &&
      !MayInclude("о.", "с.");
    assert !MayInclude("в.", "п.") && !MayInclude("в.", "г.") && !MayInclude("в.", "р.") &&
      !MayInclude("в.", "с.") && !MayInclude("в.", "о.");
    assert !MayInclude("м.", "п.") && !MayInclude("м.", "г.") && !MayInclude("м.", "р.") &&
      !MayInclude("м.", "с.") && !MayInclude("м.", "о.") && !MayInclude("м.", "в.");
  }

  /** Order is important: when one abbreviation of the table occurs inside
      another, the longer one is listed first, so it is tried first. */
  lemma LongerAbbreviationsFirst()
    ensures forall i, j :: (0 <= i < |Abbreviations| && 0 <= j < |Abbreviations| && i != j
      && Includes(Abbreviations[i].0, Abbreviations[j].0)) ==> i < j
  {
    NoEarlierAbbreviationInside1();
    NoEarlierAbbreviationInside5();
    NoEarlierAbbreviationInside7();
    NoEarlierAbbreviationInside13();
    NoEarlierAbbreviationInside15();
    NoEarlierAbbreviationInside17();
    forall i, j | 0 <= i < |Abbreviations| && 0 <= j < |Abbreviations| && i != j
      && Includes(Abbreviations[i].0, Abbreviations[j].0)
      ensures i < j
    {
      IncludedMayInclude(Abbreviations[i].0, Abbreviations[j].0);
    }
  }

  /** The final clean-up: the radial and traverse markers and every bracket
      character go, and the name is trimmed. */
  function CleanName(s: string): (r: string)
    ensures forall c :: c in r ==> c !in {'(', ')', '[', ']'}
    ensures r == [] || (!IsSpace(r[0]) && !IsSpace(r[|r| - 1]))
  {
    var noBrackets := RemoveChars(ReplaceFirst(ReplaceFirst(s, "рад.", ""), "(рад)", ""), {'(', ')', '[', ']'});
    Trim(ReplaceFirst(noBrackets, "траверс", ""))
  }

  /** parseLocation, as a function of the stop text. */
  function ParsedLocation(text: string): StopLocation
  {
    var extracted := ExtractGradeAndElevation(Trim(text));
    var (rest, t) := ExtractType(extracted.rest);
    StopLocation(CleanName(rest), extracted.difficulty, extracted.elevation, t)
  }

  /** parseLocation's first loop: the patterns in order, stopping at the
      first that matches. */
  method StripGradeAndElevation(location: string) returns (rest: string, difficulty: Option<LocationDifficulty>, elevation: JsNum)
    ensures Extracted(rest, difficulty, elevation) == ExtractGradeAndElevation(location)
  {
    rest, difficulty, elevation := location, None, Undefined;
    ghost var results := PatternResults(location);
    var i := 0;
    while i < |Patterns|
      invariant 0 <= i <= |Patterns|
      invariant rest == location && difficulty == None && elevation == Undefined
      invariant FirstSome(results, 0) == FirstSome(results, i)
    {
      var m := Match(Patterns[i], rest);
      assert m == results[i];
      if m.Some? {
        if m.value.grade.Some? {
          difficulty := DifficultyFromString(m.value.grade.value);
        }
        if m.value.elevation.Some? {
          elevation := ToNumber(m.value.elevation.value);
        }
        rest := Trim(rest[..m.value.start] + rest[m.value.end..]);
        return;
      }
      i := i + 1;
    }
  }

  /** parseLocation's second loop: the abbreviations in order, stopping at
      the first that occurs. */
  method StripTypeHint(location: string) returns (rest: string, locationType: Option<LocationType>)
    ensures (rest, locationType) == ExtractType(location)
  {
    rest, locationType := location, None;
    var j := 0;
    while j < |Abbreviations|
      invariant 0 <= j <= |Abbreviations|
      invariant rest == location && locationType == None
      invariant FirstAbbreviation(location, 0) == FirstAbbreviation(location, j)
    {
      var (abbreviation, t) := Abbreviations[j];
      if Includes(rest, abbreviation) {
        rest := Trim(ReplaceFirst(rest, abbreviation, ""));
        locationType := Some(t);
        return;
      }
      j := j + 1;
    }
  }

  /** parseLocation: grade and elevation first, then the type hint, then
      the clean-up of the name. */
  method ParseLocation(text: string) returns (r: StopLocation)
    ensures r == ParsedLocation(text)
  {
    var location, difficulty, elevation := StripGradeAndElevation(Trim(text));
    var name, locationType := StripTypeHint(location);
    r := StopLocation(CleanName(name), difficulty, elevation, locationType);
  }
}
