/** Places from the Ukrainian Wikipedia (`scarping/locations/wikipedia.ts`):
    the articles of a few categories, fetched in batches, each turned into a
    location record with a cleaned-up title and the category's type. The
    HTTP requests are parameters: `members` gives the category listing the
    API returns, `fetch` the summary and coordinates of an article. */
module Wikipedia {
  import opened Wrappers
  import opened JsText
  import opened JsNumbers
  import opened Domain

  // ---------------------------------------------------------------------
  // Batches

  const BatchSize: nat := 30

  /** The batches splitIntoBatches makes: consecutive slices of
      `batchSize`, the last one possibly shorter. */
  function Batches<T>(a: seq<T>, batchSize: nat): (r: seq<seq<T>>)
    requires batchSize > 0
    decreases |a|
  {
    if a == [] then []
    else if |a| <= batchSize then [a]
    else [a[..batchSize]] + Batches(a[batchSize..], batchSize)
  }

  /** The concatenation of a sequence of sequences. */
  function Flatten<T>(xs: seq<seq<T>>): (r: seq<T>)
  {
    if xs == [] then [] else xs[0] + Flatten(xs[1..])
  }

  lemma {:induction false} FlattenAppend<T>(xs: seq<seq<T>>, ys: seq<seq<T>>)
    ensures Flatten(xs + ys) == Flatten(xs) + Flatten(ys)
    decreases |xs|
  {
    if xs != [] {
      FlattenAppend(xs[1..], ys);
      assert (xs + ys)[0] == xs[0];
      assert (xs + ys)[1..] == xs[1..] + ys;
    } else {
      assert xs + ys == ys;
    }
  }

  /** The batches put back together are the input. */
  lemma {:induction false} BatchesFlatten<T>(a: seq<T>, batchSize: nat)
    requires batchSize > 0
    ensures Flatten(Batches(a, batchSize)) == a
    decreases |a|
  {
    if |a| > batchSize {
      BatchesFlatten(a[batchSize..], batchSize);
      assert a[..batchSize] + a[batchSize..] == a;
    }
  }

  /** Every batch but the last is full, the last is not empty, and an empty
      input gives no batch. */
  lemma {:induction false} BatchesSizes<T>(a: seq<T>, batchSize: nat)
    requires batchSize > 0
    ensures var b := Batches(a, batchSize);
      && (b == [] <==> a == [])
      && (forall i :: 0 <= i < |b| - 1 ==> |b[i]| == batchSize)
      && (b != [] ==> 0 < |b[|b| - 1]| <= batchSize)
    decreases |a|
  {
    if |a| > batchSize {
      BatchesSizes(a[batchSize..], batchSize);
    }
  }

  /** The part of `a` from `start` on, empty once `start` passes the end. */
  function From<T>(a: seq<T>, start: nat): seq<T> {
    if start < |a| then a[start..] else []
  }

  /** splitIntoBatches, for a positive batch size (with any other it never
      returns on a non-empty array). */
  method SplitIntoBatches<T>(items: seq<T>, batchSize: nat) returns (batches: seq<seq<T>>)
    requires batchSize > 0
    ensures batches == Batches(items, batchSize)
  {
    batches := [];
    var startIndex := 0;
    while startIndex < |items|
      invariant batches + Batches(From(items, startIndex), batchSize) == Batches(items, batchSize)
      decreases |items| - startIndex
    {
      var end := if startIndex + batchSize <= |items| then startIndex + batchSize else |items|;
      var rest := items[startIndex..];
      var batch := items[startIndex..end];
      assert From(items, startIndex) == rest;
      if startIndex + batchSize < |items| {
        assert rest[..batchSize] == batch;
        assert rest[batchSize..] == From(items, startIndex + batchSize);
        assert Batches(rest, batchSize) == [batch] + Batches(From(items, startIndex + batchSize), batchSize);
      } else {
        assert rest == batch;
        assert From(items, startIndex + batchSize) == [];
        assert Batches(rest, batchSize) == [batch] + Batches(From(items, startIndex + batchSize), batchSize);
      }
      assert batches + [batch] + Batches(From(items, startIndex + batchSize), batchSize)
          == batches + ([batch] + Batches(From(items, startIndex + batchSize), batchSize));
      batches := batches + [batch];
      startIndex := startIndex + batchSize;
    }
  }

  // ---------------------------------------------------------------------
  // Category members

  /** An entry of the API's category listing. */
  datatype Article = Article(title: string, pageid: int)

  const CategoryPrefix := "Категорія:"

  /** The category's own article: its name without the prefix, with spaces
      for underscores. */
  function ClearCategoryName(categoryName: string): string {
    ReplaceChar(ReplaceFirst(categoryName, CategoryPrefix, ""), '_', ' ')
  }

  /** Subcategories are dropped, and so is the category's own article. */
  predicate IsMember(categoryName: string, article: Article) {
    !StartsWith(article.title, CategoryPrefix) && article.title != ClearCategoryName(categoryName)
  }

  /** getArticlesInCategory's filter over the listing. */
  function CategoryMembers(categoryName: string, articles: seq<Article>): (r: seq<Article>)
    ensures |r| <= |articles|
  {
    if articles == [] then []
    else (if IsMember(categoryName, articles[0]) then [articles[0]] else [])
         + CategoryMembers(categoryName, articles[1..])
  }

  /** The filter keeps exactly the members. */
  lemma {:induction false} CategoryMembersAreMembers(categoryName: string, articles: seq<Article>)
    ensures forall a :: a in CategoryMembers(categoryName, articles) <==> a in articles && IsMember(categoryName, a)
    decreases |articles|
  {
    if articles != [] {
      CategoryMembersAreMembers(categoryName, articles[1..]);
      assert forall a :: a in articles <==> a == articles[0] || a in articles[1..];
    }
  }

  /** The filter keeps order: filtering two listings one after the other is
      filtering their concatenation. */
  lemma {:induction false} CategoryMembersAppend(categoryName: string, a: seq<Article>, b: seq<Article>)
    ensures CategoryMembers(categoryName, a + b) == CategoryMembers(categoryName, a) + CategoryMembers(categoryName, b)
    decreases |a|
  {
    if a != [] {
      CategoryMembersAppend(categoryName, a[1..], b);
      assert (a + b)[1..] == a[1..] + b;
    } else {
      assert a + b == b;
    }
  }

  /** For a name written as the prefix and a title, the category's own
      article is that title with spaces for underscores. */
  lemma ClearCategoryNameOfPrefixed(title: string)
    ensures ClearCategoryName(CategoryPrefix + title) == ReplaceChar(title, '_', ' ')
  {
    var s := CategoryPrefix + title;
    assert OccursAt(s, CategoryPrefix, 0);
    assert IndexOf(s, CategoryPrefix) == Some(0);
    assert s[..0] + "" + s[|CategoryPrefix|..] == title;
  }

  // ---------------------------------------------------------------------
  // Title cleaners

  /** The end of the run of non-white-space characters from `k`. */
  function NonSpaceRunEnd(s: string, k: nat): (r: nat)
    requires k <= |s|
    ensures k <= r <= |s|
    ensures forall j :: k <= j < r ==> !IsSpace(s[j])
    ensures r == |s| || IsSpace(s[r])
    decreases |s| - k
  {
    if k == |s| || IsSpace(s[k]) then k else NonSpaceRunEnd(s, k + 1)
  }

  const DistrictSuffix := " район)"

  /** The end of a match of `/\(\S+ район\)/` starting at `i`, if there is
      one. `\S+` cannot take a space, so it is the whole run of
      non-white-space characters after the parenthesis. */
  function RegionMatchAt(s: string, i: nat): (r: Option<nat>)
    requires i < |s|
    ensures r.Some? ==> i < r.value <= |s|
  {
    if s[i] != '(' then None
    else
      var j := NonSpaceRunEnd(s, i + 1);
      if j > i + 1 && OccursAt(s, DistrictSuffix, j) then Some(j + |DistrictSuffix|) else None
  }

  /** The leftmost match of the district pattern at or after `from`, as
      (start, end). */
  function FirstRegionMatch(s: string, from: nat): (r: Option<(nat, nat)>)
    requires from <= |s|
    ensures r.Some? ==> from <= r.value.0 < r.value.1 <= |s| && RegionMatchAt(s, r.value.0) == Some(r.value.1)
    ensures r.Some? ==> forall i :: from <= i < r.value.0 ==> RegionMatchAt(s, i).None?
    decreases |s| - from
  {
    if from == |s| then None
    else
      match RegionMatchAt(s, from)
      case Some(e) => Some((from, e))
      case None => FirstRegionMatch(s, from + 1)
  }

  /** `replace(/\(\S+ район\)/, '')`: the first match removed. */
  function RemoveRegion(s: string): string {
    match FirstRegionMatch(s, 0)
    case None => s
    case Some((i, e)) => s[..i] + s[e..]
  }

  /** clearSettlementTitle */
  function ClearSettlementTitle(title: string): string {
    Trim(RemoveRegion(ReplaceFirst(ReplaceFirst(ReplaceFirst(title, "(місто)", ""), "(смт)", ""), "(село)", "")))
  }

  /** clearRiverTitle */
  function ClearRiverTitle(title: string): string {
    Trim(ReplaceFirst(ReplaceFirst(ReplaceFirst(title, "(річка)", ""), "(струмок)", ""), "(потік)", ""))
  }

  /** The six kinds of category scraped, each with its own title cleaner and
      type. */
  datatype Kind = Lakes | Rivers | Mountains | MountainPasses | MountainRanges | Settlements

  /** The title cleaner of a kind of category. */
  function ClearTitle(kind: Kind, title: string): (r: string)
    ensures r == [] || (!IsSpace(r[0]) && !IsSpace(r[|r| - 1]))
  {
    match kind
    case Lakes => Trim(ReplaceFirst(ReplaceFirst(title, "(озеро)", ""), "озеро", ""))
    case Rivers => ClearRiverTitle(title)
    case Mountains => Trim(ReplaceFirst(title, "(гора)", ""))
    case MountainPasses => Trim(ReplaceFirst(title, "(перевал)", ""))
    case MountainRanges => Trim(ReplaceFirst(ReplaceFirst(title, "(хребет)", ""), "хребет", ""))
    case Settlements => ClearSettlementTitle(title)
  }

  function KindType(kind: Kind): LocationType {
    match kind
    case Lakes => Lake
    case Rivers => Stream
    case Mountains => Mountain
    case MountainPasses => MountainPass
    case MountainRanges => MountainRange
    case Settlements => Settlement
  }

  /** No occurrence of a parenthesised tag starts at a position of `s`
      that is not an opening parenthesis. */
  lemma NotAtPlainCharacter(s: string, tag: string, j: nat)
    requires tag != [] && tag[0] == '(' && j < |s| && s[j] != '('
    ensures !OccursAt(s, tag, j)
  {
    if j + |tag| <= |s| {
      assert s[j..j + |tag|][0] == s[j];
    }
  }

  /** A text with no parenthesis in it holds no parenthesised tag. */
  lemma NoTagInPlainText(s: string, tag: string)
    requires '(' !in s && tag != [] && tag[0] == '('
    ensures ReplaceFirst(s, tag, "") == s
  {
    forall j | 0 <= j
      ensures !OccursAt(s, tag, j)
    {
      if j < |s| {
        assert s[j] in s;
        NotAtPlainCharacter(s, tag, j);
      }
    }
  }

  /** The first parenthesis of `x + " " + tag` opens the tag, and removing it
      leaves the name and the space. */
  lemma TagAfterName(x: string, tag: string)
    requires '(' !in x && tag != [] && tag[0] == '('
    ensures ReplaceFirst(x + " " + tag, tag, "") == x + " "
  {
    var s := x + " " + tag;
    assert OccursAt(s, tag, |x| + 1) by {
      assert s[|x| + 1..|x| + 1 + |tag|] == tag;
    }
    forall j | 0 <= j < |x| + 1
      ensures !OccursAt(s, tag, j)
    {
      if j < |x| {
        assert s[j] == x[j] && x[j] in x;
      } else {
        assert s[j] == ' ';
      }
      NotAtPlainCharacter(s, tag, j);
    }
    assert IndexOf(s, tag) == Some(|x| + 1);
    assert s[..|x| + 1] == x + " ";
    assert s[|x| + 1 + |tag|..] == [];
  }

  /** Trimming a name with no white space at its ends, followed by one
      space, gives the name. */
  lemma TrimNameAndSpace(x: string)
    requires x != [] && !IsSpace(x[0]) && !IsSpace(x[|x| - 1])
    ensures Trim(x + " ") == x
  {
    var s := x + " ";
    var t := TrimStart(s);
    assert !IsSpace(s[0]);
    assert t == s;
    var r := TrimEnd(t);
    assert s[|x| - 1] == x[|x| - 1];
    assert r == s[..|r|];
    assert |r| == |x|;
    assert r == x;
  }

  /** A river title tagged "(річка)" after the name is cleaned to the name. */
  lemma RiverTagRemoved(x: string)
    requires x != [] && '(' !in x && !IsSpace(x[0]) && !IsSpace(x[|x| - 1])
    ensures ClearRiverTitle(x + " (річка)") == x
  {
    assert x + " (річка)" == x + " " + "(річка)";
    TagAfterName(x, "(річка)");
    var s1 := x + " ";
    assert '(' !in s1;
    NoTagInPlainText(s1, "(струмок)");
    NoTagInPlainText(s1, "(потік)");
    TrimNameAndSpace(x);
  }

  /** A settlement title tagged "(село)" after the name is cleaned to the
      name. */
  lemma VillageTagRemoved(x: string)
    requires x != [] && '(' !in x && !IsSpace(x[0]) && !IsSpace(x[|x| - 1])
    ensures ClearSettlementTitle(x + " (село)") == x
  {
    assert x + " (село)" == x + " " + "(село)";
    OtherTagNotFound(x, "(село)", "(місто)");
    assert "(смт)" != "(село)"[..5] by {
      assert "(смт)"[2] != "(село)"[..5][2];
    }
    OtherTagNotFound(x, "(село)", "(смт)");
    TagAfterName(x, "(село)");
    var s1 := x + " ";
    assert '(' !in s1;
    NoRegionInPlainText(s1);
    TrimNameAndSpace(x);
  }

  /** A tag that is not the one after the name is not found. */
  lemma OtherTagNotFound(x: string, tag: string, other: string)
    requires '(' !in x && |tag| >= 2 && tag[0] == '(' && '(' !in tag[1..]
    requires other != [] && other[0] == '(' && !(|other| <= |tag| && other == tag[..|other|])
    ensures ReplaceFirst(x + " " + tag, other, "") == x + " " + tag
  {
    var s := x + " " + tag;
    forall j | 0 <= j
      ensures !OccursAt(s, other, j)
    {
      if j < |x| {
        assert s[j] == x[j] && x[j] in x;
        NotAtPlainCharacter(s, other, j);
      } else if j == |x| {
        assert s[j] == ' ';
        NotAtPlainCharacter(s, other, j);
      } else if j == |x| + 1 {
        if j + |other| <= |s| {
          assert s[j..j + |other|] == tag[..|other|];
        }
      } else if j < |s| {
        assert s[j] == tag[j - |x| - 1] == tag[1..][j - |x| - 2];
        assert tag[1..][j - |x| - 2] in tag[1..];
        NotAtPlainCharacter(s, other, j);
      }
    }
  }

  /** Text with no parenthesis holds no district. */
  lemma NoRegionInPlainText(s: string)
    requires '(' !in s
    ensures RemoveRegion(s) == s
  {
    forall i | 0 <= i < |s|
      ensures RegionMatchAt(s, i).None?
    {
      assert s[i] in s;
    }
  }

  /** A district "(<word> район)" after the name is removed with the
      pattern, the word being any run of non-white-space characters. */
  lemma RegionRemoved(x: string, w: string)
    requires '(' !in x && w != [] && forall c :: c in w ==> !IsSpace(c)
    ensures RemoveRegion(x + " (" + w + DistrictSuffix) == x + " "
  {
    var s := x + " (" + w + DistrictSuffix;
    DistrictMatches(x, w);
    NoRegionBeforeDistrict(x, w);
    FirstRegionMatchIs(s, 0, |x| + 1);
    assert s[..|x| + 1] == x + " ";
  }

  /** The pattern matches at the district's parenthesis, up to the end. */
  lemma DistrictMatches(x: string, w: string)
    requires w != [] && forall c :: c in w ==> !IsSpace(c)
    ensures RegionMatchAt(x + " (" + w + DistrictSuffix, |x| + 1) == Some(|x + " (" + w + DistrictSuffix|)
  {
    var s := x + " (" + w + DistrictSuffix;
    var i := |x| + 1;
    assert s[i] == '(';
    forall j | i + 1 <= j < i + 1 + |w|
      ensures !IsSpace(s[j])
    {
      assert s[j] == w[j - i - 1] && w[j - i - 1] in w;
    }
    assert IsSpace(s[i + 1 + |w|]);
    NonSpaceRunEndIs(s, i + 1, i + 1 + |w|);
    assert s[i + 1 + |w|..i + 1 + |w| + |DistrictSuffix|] == DistrictSuffix;
  }

  /** The pattern matches nowhere in the name and the space before the
      district. */
  lemma NoRegionBeforeDistrict(x: string, w: string)
    requires '(' !in x
    ensures forall j :: 0 <= j < |x| + 1 ==> RegionMatchAt(x + " (" + w + DistrictSuffix, j).None?
  {
    var s := x + " (" + w + DistrictSuffix;
    forall j | 0 <= j < |x| + 1
      ensures RegionMatchAt(s, j).None?
    {
      if j < |x| {
        assert s[j] == x[j] && x[j] in x;
      } else {
        assert s[j] == ' ';
      }
    }
  }

  lemma {:induction false} NonSpaceRunEndIs(s: string, k: nat, e: nat)
    requires k <= e < |s| && IsSpace(s[e]) && forall j :: k <= j < e ==> !IsSpace(s[j])
    ensures NonSpaceRunEnd(s, k) == e
    decreases e - k
  {
    if k < e {
      NonSpaceRunEndIs(s, k + 1, e);
    }
  }

  lemma {:induction false} FirstRegionMatchIs(s: string, from: nat, i: nat)
    requires from <= i < |s| && RegionMatchAt(s, i).Some?
    requires forall j :: from <= j < i ==> RegionMatchAt(s, j).None?
    ensures FirstRegionMatch(s, from) == Some((i, RegionMatchAt(s, i).value))
    decreases i - from
  {
    if from < i {
      FirstRegionMatchIs(s, from + 1, i);
    }
  }

  // ---------------------------------------------------------------------
  // Records

  datatype Coordinates = Coordinates(lat: real, lon: real)

  /** What the page summary and coordinates requests give for an article:
      the title and extract of the summary, and the first coordinates of
      the page if it has any. */
  datatype ArticleData = ArticleData(title: string, extract: Option<string>, coordinates: Option<Coordinates>)

  /** genArticleToLocation's record: the cleaned title, no alternate names,
      `undefined` coordinates when the page has none, no elevation, the
      category's type and the summary's extract. */
  function ArticleToLocation(kind: Kind, data: ArticleData): (l: LocationDto)
    ensures l.name == ClearTitle(kind, data.title) && l.alternateNames == []
    ensures l.locationType == Some(KindType(kind)) && l.description == data.extract
    ensures data.coordinates.None? <==> l.latitude == Undefined
    ensures data.coordinates.None? <==> l.longitude == Undefined
    ensures l.elevation == Undefined && l.difficulty.None?
  {
    LocationDto(
      ClearTitle(kind, data.title), [],
      if data.coordinates.Some? then Num(data.coordinates.value.lat) else Undefined,
      if data.coordinates.Some? then Num(data.coordinates.value.lon) else Undefined,
      Undefined, Some(KindType(kind)), None, data.extract)
  }

  /** genArticleToLocation: the conversion for one kind of category,
      fetching each article's data. */
  function GenArticleToLocation(kind: Kind, fetch: Article -> ArticleData): Article -> LocationDto {
    (article: Article) => ArticleToLocation(kind, fetch(article))
  }

  /** The record of each article, in order. */
  function Locations(toLocation: Article -> LocationDto, articles: seq<Article>): (r: seq<LocationDto>)
    ensures |r| == |articles|
  {
    if articles == [] then []
    else [toLocation(articles[0])] + Locations(toLocation, articles[1..])
  }

  /** Record i is the record of article i. */
  lemma {:induction false} LocationsAreRecords(toLocation: Article -> LocationDto, articles: seq<Article>)
    ensures forall i :: 0 <= i < |articles| ==> Locations(toLocation, articles)[i] == toLocation(articles[i])
    decreases |articles|
  {
    if articles != [] {
      LocationsAreRecords(toLocation, articles[1..]);
    }
  }

  lemma {:induction false} LocationsAppend(toLocation: Article -> LocationDto, a: seq<Article>, b: seq<Article>)
    ensures Locations(toLocation, a + b) == Locations(toLocation, a) + Locations(toLocation, b)
    decreases |a|
  {
    if a != [] {
      LocationsAppend(toLocation, a[1..], b);
      assert (a + b)[0] == a[0];
      assert (a + b)[1..] == a[1..] + b;
    } else {
      assert a + b == b;
    }
  }

  /** The records of the batches so far, one batch more. */
  lemma LocationsOfBatchesStep(toLocation: Article -> LocationDto, batches: seq<seq<Article>>, i: nat)
    requires i < |batches|
    ensures Locations(toLocation, Flatten(batches[..i + 1]))
         == Locations(toLocation, Flatten(batches[..i])) + Locations(toLocation, batches[i])
  {
    assert batches[..i + 1] == batches[..i] + [batches[i]];
    FlattenAppend(batches[..i], [batches[i]]);
    assert Flatten([batches[i]]) == batches[i] + Flatten([]);
    assert Flatten([batches[i]]) == batches[i];
    LocationsAppend(toLocation, Flatten(batches[..i]), batches[i]);
  }

  /** scarpCategory: the members of the category, in batches of 30, each
      article turned into a record; the records come out in listing
      order. */
  method ScarpCategory(categoryName: string, members: string -> seq<Article>, toLocation: Article -> LocationDto)
    returns (locations: seq<LocationDto>)
    ensures locations == Locations(toLocation, CategoryMembers(categoryName, members(categoryName)))
  {
    var articles := CategoryMembers(categoryName, members(categoryName));
    var articleBatches := SplitIntoBatches(articles, BatchSize);
    BatchesFlatten(articles, BatchSize);
    locations := [];
    var i := 0;
    while i < |articleBatches|
      invariant 0 <= i <= |articleBatches|
      invariant locations == Locations(toLocation, Flatten(articleBatches[..i]))
    {
      var batch := articleBatches[i];
      var newLocations := Locations(toLocation, batch);
      LocationsOfBatchesStep(toLocation, articleBatches, i);
      locations := locations + newLocations;
      i := i + 1;
    }
    assert articleBatches[..i] == articleBatches;
  }

  /** The records of several categories of one kind, category after
      category. */
  function GroupLocations(categories: seq<string>, members: string -> seq<Article>,
                          toLocation: Article -> LocationDto): seq<LocationDto>
  {
    if categories == [] then []
    else
      var last := categories[|categories| - 1];
      GroupLocations(categories[..|categories| - 1], members, toLocation)
      + Locations(toLocation, CategoryMembers(last, members(last)))
  }

  /** The loops of scarpLakes, scarpRiverLocations and scarpSettelments. */
  method ScarpGroup(categories: seq<string>, members: string -> seq<Article>, toLocation: Article -> LocationDto)
    returns (locations: seq<LocationDto>)
    ensures locations == GroupLocations(categories, members, toLocation)
  {
    locations := [];
    var i := 0;
    while i < |categories|
      invariant 0 <= i <= |categories|
      invariant locations == GroupLocations(categories[..i], members, toLocation)
    {
      var newLocations := ScarpCategory(categories[i], members, toLocation);
      assert categories[..i + 1][..i] == categories[..i];
      locations := locations + newLocations;
      i := i + 1;
    }
    assert categories[..i] == categories;
  }

  const LakeCategories: seq<string> := [
    "Категорія:Озера_Івано-Франківської_області",
    "Категорія:Озера_Львівської_області",
    "Категорія:Озера_Закарпатської_області",
    "Категорія:Озера_Чернівецької_області"]

  const RiverCategories: seq<string> := [
    "Категорія:Річки_Івано-Франківської_області",
    "Категорія:Річки_Львівської_області",
    "Категорія:Річки_Закарпатської_області",
    "Категорія:Річки_Чернівецької_області"]

  const MountainCategory: string := "Категорія:Вершини_Карпат"
  const MountainPassCategory: string := "Категорія:Перевали_Українських_Карпат"
  const MountainRangeCategory: string := "Категорія:Гірські_хребти_України"

  const SettlementCategories: seq<string> := [
    "Категорія:Села_Івано-Франківської_області",
    "Категорія:Селища_міського_типу_Івано-Франківської_області",
    "Категорія:Міста_Івано-Франківської_області",
    "Категорія:Села_Львівської_області",
    "Категорія:Селища_міського_типу_Львівської_області",
    "Категорія:Міста_Львівської_області",
    "Категорія:Села_Закарпатської_області",
    "Категорія:Селища_міського_типу_Закарпатської_області",
    "Категорія:Міста_Закарпатської_області",
    "Категорія:Села_Чернівецької_області",
    "Категорія:Селища_міського_типу_Чернівецької_області",
    "Категорія:Міста_Чернівецької_області"]

  /** scarpWikipediaLocations: lakes, rivers, mountains, passes, ranges and
      settlements, in that order. */
  method ScarpWikipediaLocations(members: string -> seq<Article>, fetch: Article -> ArticleData)
    returns (allLocations: seq<LocationDto>)
    ensures allLocations ==
      GroupLocations(LakeCategories, members, GenArticleToLocation(Lakes, fetch))
      + GroupLocations(RiverCategories, members, GenArticleToLocation(Rivers, fetch))
      + Locations(GenArticleToLocation(Mountains, fetch), CategoryMembers(MountainCategory, members(MountainCategory)))
      + Locations(GenArticleToLocation(MountainPasses, fetch), CategoryMembers(MountainPassCategory, members(MountainPassCategory)))
      + Locations(GenArticleToLocation(MountainRanges, fetch), CategoryMembers(MountainRangeCategory, members(MountainRangeCategory)))
      + GroupLocations(SettlementCategories, members, GenArticleToLocation(Settlements, fetch))
  {
    var lakes := ScarpGroup(LakeCategories, members, GenArticleToLocation(Lakes, fetch));
    var rivers := ScarpGroup(RiverCategories, members, GenArticleToLocation(Rivers, fetch));
    var mountains := ScarpCategory(MountainCategory, members, GenArticleToLocation(Mountains, fetch));
    var mountainPasses := ScarpCategory(MountainPassCategory, members, GenArticleToLocation(MountainPasses, fetch));
    var mountainRanges := ScarpCategory(MountainRangeCategory, members, GenArticleToLocation(MountainRanges, fetch));
    var settlements := ScarpGroup(SettlementCategories, members, GenArticleToLocation(Settlements, fetch));
    allLocations := lakes + rivers + mountains + mountainPasses + mountainRanges + settlements;
  }
}
