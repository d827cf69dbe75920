/** The vpohid.com.ua catalogue (`scarping/locations/vpohid.ts`): one page per
    place, giving its name, a type text, a link to the site's map whose URL
    carries the coordinates, and a description. The catalogue walk and the
    page downloads are left to the caller: a page comes in as the texts the
    parser selects from it. */
module Vpohid {
  import opened Wrappers
  import opened JsText
  import opened JsNumbers
  import opened Domain

  // ---------------------------------------------------------------------
  // Name and type

  /** The type text of water objects. */
  const WaterObjectText := "Водний об'єкт"

  /** nameToLocationType. The spring entry's text starts with a space, so
      "Джерело/Криниця" written without it is not in the table. */
  const NameTypes: map<string, LocationType> := map[
    "Вершина гори" := Mountain,
    "Полонина" := Polonyna,
    "Орієнтир/Вказівник" := ArtificialObject,
    " Джерело/Криниця" := DrinkingWaterSource,
    "Туристична Будівля" := ArtificialObject,
    "Рятувальники/Служби" := ArtificialObject]

  /** waterObjectNameToType: keywords looked for in a water object's name, in
      priority order. */
  const WaterKeywords: seq<(string, LocationType)> := [
    ("озеро", Lake),
    ("ріка", Stream),
    ("річка", Stream),
    ("річечька", Stream),
    ("струмок", Stream),
    ("гук", Waterfall),
    ("вдсп.", Waterfall),
    ("водопад", Waterfall),
    ("водоспад", Waterfall)]

  /** One character of a keyword used as a case-insensitive regular
      expression: `.` matches anything but a line terminator, a letter
      matches itself in either case. */
  predicate CharMatches(p: char, c: char) {
    if p == '.' then !IsLineTerminator(c) else LowerChar(c) == LowerChar(p)
  }

  /** `new RegExp(keyword, 'i')` matches at position `i` of `s`. */
  predicate RegexMatchAt(s: string, keyword: string, i: nat) {
    i + |keyword| <= |s| && forall k :: 0 <= k < |keyword| ==> CharMatches(keyword[k], s[i + k])
  }

  /** The leftmost match at or after `from`. */
  function FirstRegexMatch(s: string, keyword: string, from: nat): (r: Option<nat>)
    ensures r.Some? ==> from <= r.value && RegexMatchAt(s, keyword, r.value)
    ensures r.Some? ==> forall j :: from <= j < r.value ==> !RegexMatchAt(s, keyword, j)
    ensures r.None? ==> forall j :: from <= j ==> !RegexMatchAt(s, keyword, j)
    decreases |s| - from
  {
    if from + |keyword| > |s| then None
    else if RegexMatchAt(s, keyword, from) then Some(from)
    else FirstRegexMatch(s, keyword, from + 1)
  }

  /** `s.replace(new RegExp(keyword, 'i'), '')`: the leftmost match removed. */
  function RegexRemoveFirst(s: string, keyword: string): (r: string)
    ensures FirstRegexMatch(s, keyword, 0).None? ==> r == s
    ensures FirstRegexMatch(s, keyword, 0).Some? ==> |r| == |s| - |keyword|
  {
    match FirstRegexMatch(s, keyword, 0)
    case None => s
    case Some(i) => s[..i] + s[i + |keyword|..]
  }

  /** The loop over the water keywords: the first keyword the lower-cased name
      includes gives the type and is cut out of the name; with none of them
      the place is a plain water object. */
  function WaterNameAndType(name: string, keywords: seq<(string, LocationType)>): (string, Option<LocationType>)
  {
    if keywords == [] then (name, Some(WaterObject))
    else if Includes(ToLower(name), keywords[0].0) then (RegexRemoveFirst(name, keywords[0].0), Some(keywords[0].1))
    else WaterNameAndType(name, keywords[1..])
  }

  /** parseNameAndLocationType over the page's heading and type text. */
  function NameAndType(name: string, typeText: string): (r: (string, Option<LocationType>))
    ensures typeText != WaterObjectText ==> r.0 == name
    ensures typeText != WaterObjectText ==> (r.1.Some? <==> typeText in NameTypes)
    ensures typeText != WaterObjectText && r.1.Some? ==> r.1.value == NameTypes[typeText]
  {
    if typeText != WaterObjectText then
      (name, if typeText in NameTypes then Some(NameTypes[typeText]) else None)
    else WaterNameAndType(name, WaterKeywords)
  }

  /** The first keyword the name includes decides: it is removed and its
      type is taken, whatever later keywords the name also holds. */
  lemma {:induction false} WaterNameFirstKeyword(name: string, keywords: seq<(string, LocationType)>, i: nat)
    requires i < |keywords| && Includes(ToLower(name), keywords[i].0)
    requires forall j :: 0 <= j < i ==> !Includes(ToLower(name), keywords[j].0)
    ensures WaterNameAndType(name, keywords) == (RegexRemoveFirst(name, keywords[i].0), Some(keywords[i].1))
    decreases i
  {
    if i > 0 {
      assert !Includes(ToLower(name), keywords[0].0);
      WaterNameFirstKeyword(name, keywords[1..], i - 1);
    }
  }

  /** A name that includes no keyword is kept, with type WaterObject. */
  lemma {:induction false} WaterNameNoKeyword(name: string, keywords: seq<(string, LocationType)>)
    requires forall j :: 0 <= j < |keywords| ==> !Includes(ToLower(name), keywords[j].0)
    ensures WaterNameAndType(name, keywords) == (name, Some(WaterObject))
    decreases |keywords|
  {
    if keywords != [] {
      assert !Includes(ToLower(name), keywords[0].0);
      WaterNameNoKeyword(name, keywords[1..]);
    }
  }

  predicate IsLowerCase(s: string) {
    forall k :: 0 <= k < |s| ==> LowerChar(s[k]) == s[k]
  }

  /** Every keyword is written in lower case. */
  lemma KeywordsAreLowerCase()
    ensures forall i :: 0 <= i < |WaterKeywords| ==> IsLowerCase(WaterKeywords[i].0)
  {
    assert IsLowerCase("озеро");
    assert IsLowerCase("ріка");
    assert IsLowerCase("річка");
    assert IsLowerCase("річечька");
    assert IsLowerCase("струмок");
    assert IsLowerCase("гук");
    assert IsLowerCase("вдсп.");
    assert IsLowerCase("водопад");
    assert IsLowerCase("водоспад");
  }

  /** Where the lower-cased name holds a lower-case keyword, the
      case-insensitive pattern matches the name there too, so a keyword
      that is found is also cut out. */
  lemma IncludedKeywordMatches(name: string, keyword: string)
    requires IsLowerCase(keyword) && Includes(ToLower(name), keyword)
    ensures FirstRegexMatch(name, keyword, 0).Some?
  {
    var i := IndexOf(ToLower(name), keyword).value;
    forall k | 0 <= k < |keyword|
      ensures CharMatches(keyword[k], name[i + k])
    {
      assert ToLower(name)[i..i + |keyword|][k] == ToLower(name)[i + k];
      assert LowerChar(name[i + k]) == keyword[k];
    }
    assert RegexMatchAt(name, keyword, i);
  }

  /** A water object whose lower-cased name first includes keyword `i`
      gets that keyword's type, and the name loses exactly one match of
      it. */
  lemma WaterObjectClassified(name: string, i: nat)
    requires i < |WaterKeywords| && Includes(ToLower(name), WaterKeywords[i].0)
    requires forall j :: 0 <= j < i ==> !Includes(ToLower(name), WaterKeywords[j].0)
    ensures NameAndType(name, WaterObjectText).1 == Some(WaterKeywords[i].1)
    ensures NameAndType(name, WaterObjectText).0 == RegexRemoveFirst(name, WaterKeywords[i].0)
    ensures |NameAndType(name, WaterObjectText).0| == |name| - |WaterKeywords[i].0|
  {
    WaterNameFirstKeyword(name, WaterKeywords, i);
    KeywordsAreLowerCase();
    IncludedKeywordMatches(name, WaterKeywords[i].0);
  }

  /** A water object whose name holds none of the keywords keeps its name
      and is a plain water object. */
  lemma WaterObjectUnclassified(name: string)
    requires forall j :: 0 <= j < |WaterKeywords| ==> !Includes(ToLower(name), WaterKeywords[j].0)
    ensures NameAndType(name, WaterObjectText) == (name, Some(WaterObject))
  {
    WaterNameNoKeyword(name, WaterKeywords);
  }

  /** A lake keyword wins over every other keyword: "озеро" is first in the
      list. */
  lemma LakeKeywordWins(name: string)
    requires Includes(ToLower(name), "озеро")
    ensures NameAndType(name, WaterObjectText).1 == Some(Lake)
  {
    WaterObjectClassified(name, 0);
  }

  /** Type texts outside the table, such as "Цікаве місце", and the spring
      text without its leading space, give no type. */
  lemma UnlistedTypeTexts(name: string)
    ensures NameAndType(name, "Цікаве місце") == (name, None)
    ensures NameAndType(name, "Джерело/Криниця") == (name, None)
    ensures NameAndType(name, " Джерело/Криниця") == (name, Some(DrinkingWaterSource))
  {
    assert "Джерело/Криниця" != " Джерело/Криниця";
  }

  // ---------------------------------------------------------------------
  // Coordinates

  /** An anchor of the page: its text and its (absolute) href. */
  datatype Link = Link(text: string, href: string)

  const MapLinkText := "Показати на загальній карті"

  /** `links.find(a => a.textContent === 'Показати на загальній карті')` */
  function FindMapLink(links: seq<Link>): (r: Option<nat>)
    ensures r.Some? ==> r.value < |links| && links[r.value].text == MapLinkText
    ensures r.Some? ==> forall j :: 0 <= j < r.value ==> links[j].text != MapLinkText
    ensures r.None? ==> forall j :: 0 <= j < |links| ==> links[j].text != MapLinkText
  {
    if links == [] then None
    else if links[0].text == MapLinkText then Some(0)
    else match FindMapLink(links[1..])
      case None => None
      case Some(i) => Some(i + 1)
  }

  /** parseCoordinates: the map link's URL split on '=' and '&', latitude
      from piece 1 and longitude from piece 3. Without a map link, reading
      `.href` of `undefined` throws. */
  function ParseCoordinates(links: seq<Link>): (r: Result<(JsNum, JsNum), string>)
    ensures r.Failure? <==> forall j :: 0 <= j < |links| ==> links[j].text != MapLinkText
    ensures r.Success? ==> (r.value.0.Num? || r.value.0.NaN?) && (r.value.1.Num? || r.value.1.NaN?)
  {
    match FindMapLink(links)
    case None => Failure("Cannot read properties of undefined (reading 'href')")
    case Some(i) =>
      var urlParts := SplitOn(links[i].href, {'=', '&'});
      Success((FieldToNumber(Field(urlParts, 1)), FieldToNumber(Field(urlParts, 3))))
  }

  predicate NoUrlSeparator(s: string) {
    forall c :: c in s ==> c !in {'=', '&'}
  }

  /** A map URL of the form `…?mclat=<lat>&mclng=<lon>&…` gives the numbers
      written for lat and lon. */
  lemma MapUrlCoordinates(links: seq<Link>, i: nat, path: string, lat: string, key: string, lon: string, rest: string)
    requires i < |links| && links[i].text == MapLinkText
    requires forall j :: 0 <= j < i ==> links[j].text != MapLinkText
    requires links[i].href == path + "=" + lat + "&" + key + "=" + lon + "&" + rest
    requires NoUrlSeparator(path) && NoUrlSeparator(lat) && NoUrlSeparator(key) && NoUrlSeparator(lon)
    ensures ParseCoordinates(links) == Success((ToNumber(lat), ToNumber(lon)))
  {
    var seps := {'=', '&'};
    var tail3 := lon + ['&'] + rest;
    var tail2 := key + ['='] + tail3;
    var tail1 := lat + ['&'] + tail2;
    assert links[i].href == path + ['='] + tail1;
    SplitOnPiece(lon, '&', rest, seps);
    SplitOnPiece(key, '=', tail3, seps);
    SplitOnPiece(lat, '&', tail2, seps);
    SplitOnPiece(path, '=', tail1, seps);
    var parts := SplitOn(links[i].href, seps);
    assert parts == [path] + ([lat] + ([key] + ([lon] + SplitOn(rest, seps))));
    assert parts[1] == lat && parts[3] == lon;
    assert FindMapLink(links) == Some(i);
  }

  // ---------------------------------------------------------------------
  // Pages

  /** What the parser selects from a place's page: the `h2` heading, the type
      cell, the anchors and the description block. A missing element is
      None; reading its text then throws. */
  datatype Page = Page(heading: Option<string>, typeText: Option<string>, links: seq<Link>, description: Option<string>)

  const MissingElement := "Cannot read properties of null (reading 'textContent')"

  /** parseLocation: name and type, coordinates and the trimmed description;
      no alternate names, elevation or difficulty. */
  function ParseLocation(page: Page): (r: Result<LocationDto, string>)
    ensures r.Success? <==>
      page.heading.Some? && page.typeText.Some? && page.description.Some?
      && exists j :: 0 <= j < |page.links| && page.links[j].text == MapLinkText
    ensures r.Success? ==> r.value.alternateNames == [] && r.value.elevation == Undefined && r.value.difficulty == None
    ensures r.Success? ==> (r.value.name, r.value.locationType) == NameAndType(page.heading.value, page.typeText.value)
    ensures r.Success? ==> r.value.description == Some(Trim(page.description.value))
    ensures r.Success? ==> ParseCoordinates(page.links) == Success((r.value.latitude, r.value.longitude))
  {
    if page.heading.None? || page.typeText.None? then Failure(MissingElement)
    else
      var (name, locationType) := NameAndType(page.heading.value, page.typeText.value);
      match ParseCoordinates(page.links)
      case Failure(e) => Failure(e)
      case Success(coordinates) =>
        if page.description.None? then Failure(MissingElement)
        else Success(LocationDto(name, [], coordinates.0, coordinates.1, Undefined, locationType, None,
                                 Some(Trim(page.description.value))))
  }

  /** Downloading and parsing each page of a list, as `Promise.all` does: the
      records in order, or the first failure. */
  function ParseAll(parse: string -> Result<LocationDto, string>, urls: seq<string>): Result<seq<LocationDto>, string>
  {
    if urls == [] then Success([])
    else match parse(urls[0])
      case Failure(e) => Failure(e)
      case Success(location) =>
        match ParseAll(parse, urls[1..])
        case Failure(e) => Failure(e)
        case Success(rest) => Success([location] + rest)
  }

  /** Either all pages parse, and record i is page i's, or the result is the
      failure of the first page that does not. */
  lemma {:induction false} ParseAllMeaning(parse: string -> Result<LocationDto, string>, urls: seq<string>)
    ensures ParseAll(parse, urls).Success? <==> forall i :: 0 <= i < |urls| ==> parse(urls[i]).Success?
    ensures ParseAll(parse, urls).Success? ==>
      |ParseAll(parse, urls).value| == |urls|
      && forall i :: 0 <= i < |urls| ==> ParseAll(parse, urls).value[i] == parse(urls[i]).value
    ensures ParseAll(parse, urls).Failure? ==>
      exists i :: (0 <= i < |urls| && parse(urls[i]).Failure? && ParseAll(parse, urls).error == parse(urls[i]).error
                   && forall j :: 0 <= j < i ==> parse(urls[j]).Success?)
    decreases |urls|
  {
    if urls != [] {
      ParseAllMeaning(parse, urls[1..]);
      if parse(urls[0]).Success? && ParseAll(parse, urls[1..]).Success? {
        var rest := ParseAll(parse, urls[1..]).value;
        assert forall i :: 1 <= i < |urls| ==> urls[i] == urls[1..][i - 1];
      } else if parse(urls[0]).Success? {
        var k :| 0 <= k < |urls[1..]| && parse(urls[1..][k]).Failure?
          && ParseAll(parse, urls[1..]).error == parse(urls[1..][k]).error
          && forall j :: 0 <= j < k ==> parse(urls[1..][j]).Success?;
        assert urls[k + 1] == urls[1..][k];
        forall j | 0 <= j < k + 1
          ensures parse(urls[j]).Success?
        {
          if j > 0 {
            assert urls[j] == urls[1..][j - 1];
          }
        }
      } else {
        assert parse(urls[0]).Failure?;
      }
    }
  }

  /** Joining the results of two consecutive lists. */
  function AppendResults(a: Result<seq<LocationDto>, string>, b: Result<seq<LocationDto>, string>): Result<seq<LocationDto>, string>
  {
    match a
    case Failure(e) => Failure(e)
    case Success(x) =>
      match b
      case Failure(e) => Failure(e)
      case Success(y) => Success(x + y)
  }

  /** Parsing a list in two consecutive parts gives the same result as
      parsing it whole. */
  lemma {:induction false} ParseAllAppend(parse: string -> Result<LocationDto, string>, a: seq<string>, b: seq<string>)
    ensures ParseAll(parse, a + b) == AppendResults(ParseAll(parse, a), ParseAll(parse, b))
    decreases |a|
  {
    if a != [] {
      ParseAllAppend(parse, a[1..], b);
      assert (a + b)[0] == a[0];
      assert (a + b)[1..] == a[1..] + b;
      if parse(a[0]).Success? && ParseAll(parse, a[1..]).Success? && ParseAll(parse, b).Success? {
        var x := ParseAll(parse, a[1..]).value;
        var y := ParseAll(parse, b).value;
        assert [parse(a[0]).value] + (x + y) == ([parse(a[0]).value] + x) + y;
      }
    } else {
      assert a + b == b;
      if ParseAll(parse, b).Success? {
        assert [] + ParseAll(parse, b).value == ParseAll(parse, b).value;
      }
    }
  }

  /** The parser of one URL: fetch the page, parse it. */
  function PageParser(fetch: string -> Page): string -> Result<LocationDto, string> {
    (url: string) => ParseLocation(fetch(url))
  }

  /** Parsing one more batch of a list: the prefix parsed so far extended,
      or, when the batch fails, the whole list failing with it. */
  lemma ParseBatchStep(parse: string -> Result<LocationDto, string>, urls: seq<string>, start: nat, n: nat)
    requires start + n <= |urls|
    ensures ParseAll(parse, urls[..start + n]) == AppendResults(ParseAll(parse, urls[..start]), ParseAll(parse, urls[start..][..n]))
    ensures ParseAll(parse, urls[..start]).Success? && ParseAll(parse, urls[start..][..n]).Failure? ==>
      ParseAll(parse, urls) == ParseAll(parse, urls[start..][..n])
  {
    assert urls[..start + n] == urls[..start] + urls[start..][..n];
    ParseAllAppend(parse, urls[..start], urls[start..][..n]);
    assert urls == urls[..start + n] + urls[start + n..];
    ParseAllAppend(parse, urls[..start + n], urls[start + n..]);
  }

  const UrlBatchSize := 100

  /** scarpLocations: the URLs, copied, are spliced off 100 at a time; the
      pages of each batch are downloaded and parsed with `parse` and their
      records appended. The caller's array is not modified. */
  method ScarpLocations(urls: array<string>, parse: string -> Result<LocationDto, string>)
    returns (r: Result<seq<LocationDto>, string>)
    ensures r == ParseAll(parse, urls[..])
  {
    var remaining := urls[..];
    ghost var start := 0;
    var locations: seq<LocationDto> := [];
    while |remaining| != 0
      invariant 0 <= start <= urls.Length
      invariant remaining == urls[start..]
      invariant ParseAll(parse, urls[..start]) == Success(locations)
      decreases |remaining|
    {
      var n := if |remaining| < UrlBatchSize then |remaining| else UrlBatchSize;
      var urlsBatch := remaining[..n];
      remaining := remaining[n..];
      ParseBatchStep(parse, urls[..], start, n);
      var newLocations := ParseAll(parse, urlsBatch);
      if newLocations.Failure? {
        return Failure(newLocations.error);
      }
      locations := locations + newLocations.value;
      start := start + n;
    }
    assert urls[..start] == urls[..];
    r := Success(locations);
  }

  /** scarpVpohidLocations, given the links of the catalogue: every page
      fetched and parsed, in catalogue order. */
  method ScarpVpohidLocations(links: array<string>, fetch: string -> Page) returns (r: Result<seq<LocationDto>, string>)
    ensures r == ParseAll(PageParser(fetch), links[..])
  {
    r := ScarpLocations(links, PageParser(fetch));
  }
}
