/** The GeoNames country dump (`scarping/locations/geonames.ts`): one
    tab-separated row per place; the rows of the four Carpathian regions
    become location records. Reading the file is left to the caller: the
    rows come in as text. */
module GeoNames {
  import opened Wrappers
  import opened JsText
  import opened JsNumbers
  import opened Domain

  /** A parsed row, its fields by position. A row with fewer fields leaves
      the later ones `undefined` (None); `Number(...)` of a missing field is
      NaN. */
  datatype GeoNamesRecord = GeoNamesRecord(
    geonameid: JsNum,
    name: string,
    asciiname: string,
    alternatenames: seq<string>,
    latitude: JsNum,
    longitude: JsNum,
    featureClass: Option<string>,
    featureCode: Option<string>,
    countryCode: Option<string>,
    cc2: Option<string>,
    admin1Code: Option<string>,
    admin2Code: Option<string>,
    admin3Code: Option<string>,
    admin4Code: Option<string>,
    population: JsNum,
    elevation: JsNum,
    dem: Option<string>,
    timezone: Option<string>,
    modificationDate: Option<string>)

  /** `row.split(/\t/)` */
  function Fields(row: string): seq<string> {
    SplitOn(row, {'\t'})
  }

  /** parseGeoNamesRow: the tab-separated fields in order. A row with fewer
      than four fields has no alternatenames field, and splitting `undefined`
      throws. */
  function ParseGeoNamesRow(row: string): (r: Result<GeoNamesRecord, string>)
    ensures r.Failure? <==> |Fields(row)| < 4
    ensures r.Success? ==> r.value.name == Fields(row)[1]
    ensures r.Success? ==> |r.value.alternatenames| >= 1 && Join(r.value.alternatenames, ',') == Fields(row)[3]
  {
    var f := Fields(row);
    if |f| < 4 then Failure("Cannot read properties of undefined (reading 'split')")
    else
      SplitJoin(f[3], ',');
      Success(GeoNamesRecord(
        FieldToNumber(Field(f, 0)), f[1], f[2], SplitOn(f[3], {','}),
        FieldToNumber(Field(f, 4)), FieldToNumber(Field(f, 5)),
        Field(f, 6), Field(f, 7), Field(f, 8), Field(f, 9), Field(f, 10),
        Field(f, 11), Field(f, 12), Field(f, 13),
        FieldToNumber(Field(f, 14)), FieldToNumber(Field(f, 15)),
        Field(f, 16), Field(f, 17), Field(f, 18)))
  }

  /** A full row written from its nineteen fields parses back into them:
      each text field in its place, the numeric ones through `Number`, and
      the alternate names split at commas. */
  lemma ParseFullRow(fields: seq<string>)
    requires |fields| == 19
    requires forall i :: 0 <= i < |fields| ==> '\t' !in fields[i]
    ensures var r := ParseGeoNamesRow(Join(fields, '\t'));
      && r.Success?
      && r.value.geonameid == ToNumber(fields[0])
      && r.value.name == fields[1] && r.value.asciiname == fields[2]
      && r.value.alternatenames == SplitOn(fields[3], {','})
      && r.value.latitude == ToNumber(fields[4]) && r.value.longitude == ToNumber(fields[5])
      && r.value.featureClass == Some(fields[6]) && r.value.featureCode == Some(fields[7])
      && r.value.countryCode == Some(fields[8]) && r.value.cc2 == Some(fields[9])
      && r.value.admin1Code == Some(fields[10]) && r.value.admin2Code == Some(fields[11])
      && r.value.admin3Code == Some(fields[12]) && r.value.admin4Code == Some(fields[13])
      && r.value.population == ToNumber(fields[14]) && r.value.elevation == ToNumber(fields[15])
      && r.value.dem == Some(fields[16]) && r.value.timezone == Some(fields[17])
      && r.value.modificationDate == Some(fields[18])
  {
    JoinSplit(fields, '\t');
  }

  /** An empty alternatenames field gives one empty name, not none. */
  lemma EmptyAlternateNames(row: string)
    requires |Fields(row)| >= 4 && Fields(row)[3] == ""
    ensures ParseGeoNamesRow(row).value.alternatenames == [""]
  {
  }

  /** Transcarpathia, Ivano-Frankivsk, Lviv and Chernivtsi. */
  const CarpathianRegionsCodes: seq<string> := ["25", "06", "15", "03"]

  /** isInUaCarpathians */
  predicate IsInUaCarpathians(record: GeoNamesRecord) {
    record.countryCode == Some("UA")
    && record.admin1Code.Some? && record.admin1Code.value in CarpathianRegionsCodes
  }

  const CodeToLocationType: map<string, LocationType> := map[
    "LK" := Lake,
    "STM" := Stream,
    "MTU" := Mountain,
    "MT" := Mountain,
    "MTS" := MountainRange,
    "PASS" := MountainPass]

  const ClassToLocationType: map<string, LocationType> := map[
    "P" := Settlement,
    "R" := ArtificialObject,
    "S" := ArtificialObject,
    "U" := NatureObject,
    "T" := NatureObject,
    "H" := WaterObject]

  /** getLocationType: the feature code table first, then the feature class
      table, else no type. */
  function GetLocationType(record: GeoNamesRecord): Option<LocationType> {
    var code := record.featureCode;
    var featureClass := record.featureClass;
    if code.Some? && code.value in CodeToLocationType then Some(CodeToLocationType[code.value])
    else if featureClass.Some? && featureClass.value in ClassToLocationType then
      Some(ClassToLocationType[featureClass.value])
    else None
  }

  /** A code in the code table decides the type whatever the class; only
      otherwise does the class; a record matched by neither (classes A, L
      and V among them) has no type. */
  lemma LocationTypeChoice(record: GeoNamesRecord)
    ensures record.featureCode == Some("PASS") ==> GetLocationType(record) == Some(MountainPass)
    ensures record.featureCode == Some("MT") || record.featureCode == Some("MTU") ==>
      GetLocationType(record) == Some(Mountain)
    ensures (record.featureCode.None? || record.featureCode.value !in CodeToLocationType) ==>
      GetLocationType(record) ==
        (if record.featureClass.Some? && record.featureClass.value in ClassToLocationType
         then Some(ClassToLocationType[record.featureClass.value]) else None)
    ensures ((record.featureCode.None? || record.featureCode.value !in CodeToLocationType)
             && record.featureClass in {Some("A"), Some("L"), Some("V")}) ==>
      GetLocationType(record).None?
  {
  }

  /** geoNamesRecordToLocation */
  function GeoNamesRecordToLocation(record: GeoNamesRecord): LocationDto {
    LocationDto(record.name, record.alternatenames, record.latitude, record.longitude,
                record.elevation, GetLocationType(record), None, None)
  }

  /** Every row parsed, in file order. */
  function ParseRows(rows: seq<string>): (r: seq<Result<GeoNamesRecord, string>>)
    ensures |r| == |rows|
    ensures forall i :: 0 <= i < |rows| ==> r[i] == ParseGeoNamesRow(rows[i])
  {
    seq(|rows|, i requires 0 <= i < |rows| => ParseGeoNamesRow(rows[i]))
  }

  /** parseGeonamesData's loop over parsed rows: the first row that did not
      parse ends it with its error; of the others, those in a Carpathian
      region are converted, in order. */
  function Convert(parsed: seq<Result<GeoNamesRecord, string>>): (r: Result<seq<LocationDto>, string>)
    ensures r.Success? ==> |r.value| <= |parsed|
  {
    if parsed == [] then Success([])
    else
      var n := |parsed| - 1;
      match Convert(parsed[..n])
      case Failure(e) => Failure(e)
      case Success(ls) =>
        match parsed[n]
        case Failure(e) => Failure(e)
        case Success(record) =>
          Success(if IsInUaCarpathians(record) then ls + [GeoNamesRecordToLocation(record)] else ls)
  }

  /** parseGeonamesData's result for the lines of the file. */
  function ConvertRows(rows: seq<string>): Result<seq<LocationDto>, string> {
    Convert(ParseRows(rows))
  }

  /** The row parsed and lies in a Carpathian region. */
  predicate Kept(p: Result<GeoNamesRecord, string>) {
    p.Success? && IsInUaCarpathians(p.value)
  }

  /** The positions of the kept rows, in file order. */
  function KeptIndices(parsed: seq<Result<GeoNamesRecord, string>>): (r: seq<nat>)
    ensures |r| <= |parsed|
    ensures forall j :: 0 <= j < |r| ==> r[j] < |parsed|
  {
    if parsed == [] then []
    else
      var n := |parsed| - 1;
      KeptIndices(parsed[..n]) + if Kept(parsed[n]) then [n] else []
  }

  /** The kept positions increase and are exactly the rows that are kept. */
  lemma {:induction false} KeptIndicesAreKeptRows(parsed: seq<Result<GeoNamesRecord, string>>)
    ensures var ks := KeptIndices(parsed);
      && (forall j, k :: 0 <= j < k < |ks| ==> ks[j] < ks[k])
      && (forall i :: 0 <= i < |parsed| ==> (i in ks <==> Kept(parsed[i])))
    decreases |parsed|
  {
    if parsed != [] {
      var n := |parsed| - 1;
      KeptIndicesAreKeptRows(parsed[..n]);
      assert forall i :: 0 <= i < n ==> parsed[..n][i] == parsed[i];
    }
  }

  /** The conversion fails exactly when some row did not parse. */
  lemma {:induction false} ConvertFails(parsed: seq<Result<GeoNamesRecord, string>>)
    ensures Convert(parsed).Failure? <==> exists i :: 0 <= i < |parsed| && parsed[i].Failure?
    decreases |parsed|
  {
    if parsed != [] {
      var n := |parsed| - 1;
      ConvertFails(parsed[..n]);
      assert forall i :: 0 <= i < n ==> parsed[..n][i] == parsed[i];
    }
  }

  /** parseGeonamesData fails exactly when some line has fewer than four
      fields. */
  lemma ConvertRowsFails(rows: seq<string>)
    ensures ConvertRows(rows).Failure? <==> exists i :: 0 <= i < |rows| && |Fields(rows[i])| < 4
  {
    ConvertFails(ParseRows(rows));
  }

  /** The conversion keeps exactly the kept rows, in order, each converted
      from its record. */
  lemma {:induction false} ConvertKeepsKeptRows(parsed: seq<Result<GeoNamesRecord, string>>)
    requires Convert(parsed).Success?
    ensures var ls := Convert(parsed).value;
      var ks := KeptIndices(parsed);
      && |ls| == |ks|
      && forall j :: 0 <= j < |ls| ==>
           parsed[ks[j]].Success? && ls[j] == GeoNamesRecordToLocation(parsed[ks[j]].value)
    decreases |parsed|
  {
    if parsed != [] {
      var n := |parsed| - 1;
      ConvertKeepsKeptRows(parsed[..n]);
      var ks := KeptIndices(parsed[..n]);
      assert forall j :: 0 <= j < |ks| ==> parsed[..n][ks[j]] == parsed[ks[j]];
    }
  }

  /** parseGeonamesData keeps exactly the lines of the Carpathian regions, in
      file order, each converted from its record. */
  lemma ConvertRowsKeepsCarpathianRows(rows: seq<string>)
    requires ConvertRows(rows).Success?
    ensures var ls := ConvertRows(rows).value;
      var ks := KeptIndices(ParseRows(rows));
      && |ls| == |ks|
      && (forall j, k :: 0 <= j < k < |ks| ==> ks[j] < ks[k])
      && (forall i :: 0 <= i < |rows| ==> (i in ks <==> Kept(ParseGeoNamesRow(rows[i]))))
      && forall j :: 0 <= j < |ls| ==>
           ParseGeoNamesRow(rows[ks[j]]).Success?
           && ls[j] == GeoNamesRecordToLocation(ParseGeoNamesRow(rows[ks[j]]).value)
  {
    ConvertKeepsKeptRows(ParseRows(rows));
    KeptIndicesAreKeptRows(ParseRows(rows));
  }

  /** A converted location copies the record's name, alternate names,
      coordinates and elevation, takes its type from the tables and has no
      difficulty and no description. */
  lemma RecordToLocationCopies(record: GeoNamesRecord)
    ensures var l := GeoNamesRecordToLocation(record);
      && l.name == record.name && l.alternateNames == record.alternatenames
      && l.latitude == record.latitude && l.longitude == record.longitude
      && l.elevation == record.elevation && l.locationType == GetLocationType(record)
      && l.difficulty.None? && l.description.None?
  {
  }

  /** The conversion over one more line. */
  lemma ConvertRowsStep(rows: seq<string>, i: nat)
    requires i < |rows|
    ensures ConvertRows(rows[..i + 1]) ==
      match ConvertRows(rows[..i])
      case Failure(e) => Failure(e)
      case Success(ls) =>
        match ParseGeoNamesRow(rows[i])
        case Failure(e) => Failure(e)
        case Success(record) =>
          Success(if IsInUaCarpathians(record) then ls + [GeoNamesRecordToLocation(record)] else ls)
  {
    assert rows[..i + 1][..i] == rows[..i];
    var p := ParseRows(rows[..i + 1]);
    assert p[..i] == ParseRows(rows[..i]);
  }

  /** Once a prefix of the lines fails, the whole file fails with the same
      error. */
  lemma {:induction false} PrefixFailurePersists(rows: seq<string>, k: nat)
    requires k <= |rows| && ConvertRows(rows[..k]).Failure?
    ensures ConvertRows(rows) == ConvertRows(rows[..k])
    decreases |rows| - k
  {
    if k < |rows| {
      ConvertRowsStep(rows, k);
      PrefixFailurePersists(rows, k + 1);
    } else {
      assert rows[..k] == rows;
    }
  }

  /** parseGeonamesData over the lines of the file. */
  method ParseGeonamesData(rows: seq<string>) returns (r: Result<seq<LocationDto>, string>)
    ensures r == ConvertRows(rows)
  {
    var locations: seq<LocationDto> := [];
    var i := 0;
    while i < |rows|
      invariant 0 <= i <= |rows|
      invariant ConvertRows(rows[..i]) == Success(locations)
    {
      ConvertRowsStep(rows, i);
      var record := ParseGeoNamesRow(rows[i]);
      if record.Failure? {
        PrefixFailurePersists(rows, i + 1);
        return Failure(record.error);
      }
      i := i + 1;
      if !IsInUaCarpathians(record.value) {
        continue;
      }
      var location := GeoNamesRecordToLocation(record.value);
      locations := locations + [location];
    }
    assert rows[..i] == rows;
    return Success(locations);
  }
}
