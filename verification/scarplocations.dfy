/** The location scraper's upload step (`scarp-locations.service.ts`): every
    place record from the three sources is either merged into a stored
    location that is the same place, or inserted as a new location with its
    names in the name index. */
module ScarpLocations {
  import opened Wrappers
  import opened JsNumbers
  import opened Domain
  import opened Util
  import opened Store

  /** distanceTreshold: records closer than this many km to a stored
      location with the same name and type are the same place. */
  const DistanceThreshold: real := 10.0

  /** `l1.type === l2.type`: a stored type that is not set is `null` and a
      record's missing type is `undefined`, so an unknown type equals
      nothing. */
  predicate TypesEqual(stored: Option<LocationType>, record: Option<LocationType>) {
    stored.Some? && record.Some? && stored.value == record.value
  }

  /** The distance between a stored location and a record, when it is a
      number: a record coordinate that is `undefined` or NaN makes it NaN. */
  function RecordDistance(dist: Distance, l: Location, r: LocationDto): (d: Option<real>)
    requires LocationHasCoordinates(l)
    ensures d.Some? <==> r.latitude.Num? && r.longitude.Num?
  {
    if r.latitude.Num? && r.longitude.Num?
    then Some(dist(l.latitude.value, l.longitude.value, r.latitude.value, r.longitude.value))
    else None
  }

  /** coordinatesMatch, as written: presence is tested with hasCoordinates,
      for which only `null` is missing; a NaN distance compares false. */
  function CoordinatesMatch(dist: Distance, l: Location, r: LocationDto): bool {
    if !LocationHasCoordinates(l) && !RecordHasCoordinates(r) then true
    else if LocationHasCoordinates(l) && RecordHasCoordinates(r) then
      var d := RecordDistance(dist, l, r);
      d.Some? && d.value < DistanceThreshold
    else false
  }

  /** areSameLocation, as written: the same place exactly when the types are
      equal and either the stored location has coordinates and the record's
      are numbers within 10 km of them, or neither has coordinates, which for
      the record means a `null` coordinate. */
  function AreSameLocation(dist: Distance, l: Location, r: LocationDto): (same: bool)
    ensures same ==> TypesEqual(l.locationType, r.locationType)
    ensures same && LocationHasCoordinates(l) ==>
      RecordDistance(dist, l, r).Some? && RecordDistance(dist, l, r).value < DistanceThreshold
    ensures same && !LocationHasCoordinates(l) ==> r.latitude.Null? || r.longitude.Null?
    ensures (TypesEqual(l.locationType, r.locationType) && LocationHasCoordinates(l)
      && RecordDistance(dist, l, r).Some? && RecordDistance(dist, l, r).value < DistanceThreshold) ==> same
    ensures (TypesEqual(l.locationType, r.locationType) && !LocationHasCoordinates(l)
      && (r.latitude.Null? || r.longitude.Null?)) ==> same
  {
    TypesEqual(l.locationType, r.locationType) && CoordinatesMatch(dist, l, r)
  }

  /** A record coordinate is missing when it is `null` or `undefined`; the
      sources emit `undefined` (an article without coordinates) and never
      `null`. */
  predicate RecordCoordinatesKnown(r: LocationDto) {
    !r.latitude.Null? && !r.latitude.Undefined? && !r.longitude.Null? && !r.longitude.Undefined?
  }

  /** areSameLocation with presence tested as intended: a record without
      coordinates is one whose coordinates are `null` or `undefined`. */
  function AreSameLocationIntended(dist: Distance, l: Location, r: LocationDto): (same: bool)
    ensures same ==> TypesEqual(l.locationType, r.locationType)
    ensures same && LocationHasCoordinates(l) ==>
      RecordDistance(dist, l, r).Some? && RecordDistance(dist, l, r).value < DistanceThreshold
    ensures same && !LocationHasCoordinates(l) ==> !RecordCoordinatesKnown(r)
    ensures (TypesEqual(l.locationType, r.locationType) && LocationHasCoordinates(l)
      && RecordDistance(dist, l, r).Some? && RecordDistance(dist, l, r).value < DistanceThreshold) ==> same
    ensures TypesEqual(l.locationType, r.locationType) && !LocationHasCoordinates(l) && !RecordCoordinatesKnown(r) ==> same
  {
    TypesEqual(l.locationType, r.locationType) &&
    if !LocationHasCoordinates(l) && !RecordCoordinatesKnown(r) then true
    else if LocationHasCoordinates(l) && RecordCoordinatesKnown(r) then
      var d := RecordDistance(dist, l, r);
      d.Some? && d.value < DistanceThreshold
    else false
  }

  /** The test `.find` applies to each candidate. */
  type SameTest = (Location, LocationDto) -> bool

  /** The test the service applies: areSameLocation as written. */
  function AsWritten(dist: Distance): SameTest {
    (l: Location, r: LocationDto) => AreSameLocation(dist, l, r)
  }

  /** The test with presence checked as intended. */
  function Intended(dist: Distance): SameTest {
    (l: Location, r: LocationDto) => AreSameLocationIntended(dist, l, r)
  }

  /** The row insertLocation creates for a record: name, coordinates,
      elevation and type, and no description. A coordinate or elevation
      that is not a number (`undefined`, NaN) is stored as `null`. */
  function LocationFromRecord(id: nat, r: LocationDto): (l: Location)
    ensures l.id == id && l.canonicalName == r.name && l.locationType == r.locationType
    ensures l.description.None?
    ensures l.latitude == (if r.latitude.Num? then Some(r.latitude.value) else None)
    ensures l.longitude == (if r.longitude.Num? then Some(r.longitude.value) else None)
    ensures l.elevation == (if r.elevation.Num? then Some(r.elevation.value) else None)
    ensures LocationHasCoordinates(l) <==> r.latitude.Num? && r.longitude.Num?
  {
    Location(id, r.name, Stored(r.latitude), Stored(r.longitude), Stored(r.elevation), r.locationType, None)
  }

  /** As written, a record whose coordinates are `undefined` is never the
      same place as any stored location: they count as present, so either
      the stored location has none, or the distance is NaN. */
  lemma UndefinedCoordinatesNeverMatchAsWritten(dist: Distance, l: Location, r: LocationDto)
    requires r.latitude.Undefined? && r.longitude.Undefined?
    ensures !AreSameLocation(dist, l, r)
  {
  }

  /** With presence tested as intended, a record of known type is the same
      place as the location stored from it, whether or not it has
      coordinates (given that a point is at distance 0 from itself). */
  lemma RecordMatchesItsLocation(dist: Distance, id: nat, r: LocationDto)
    requires r.locationType.Some?
    requires (r.latitude.Num? && r.longitude.Num?) || !RecordCoordinatesKnown(r)
    requires r.latitude.Num? && r.longitude.Num? ==>
      dist(r.latitude.value, r.longitude.value, r.latitude.value, r.longitude.value) == 0.0
    ensures AreSameLocationIntended(dist, LocationFromRecord(id, r), r)
  {
    var l := LocationFromRecord(id, r);
    if r.latitude.Num? && r.longitude.Num? {
      assert RecordDistance(dist, l, r) == Some(0.0);
    }
  }

  /** `.find(...)` with a sameness test over the locations the record's
      name finds. */
  function FindSame(same: SameTest, candidates: seq<Location>, r: LocationDto): (found: Option<Location>)
    ensures found.Some? ==> found.value in candidates
  {
    if candidates == [] then None
    else if same(candidates[0], r) then Some(candidates[0])
    else FindSame(same, candidates[1..], r)
  }

  /** `.find` finds a candidate that passes the test, and none only when
      no candidate does. */
  lemma {:induction false} FindSameFinds(same: SameTest, candidates: seq<Location>, r: LocationDto)
    ensures FindSame(same, candidates, r).Some? ==> same(FindSame(same, candidates, r).value, r)
    ensures FindSame(same, candidates, r).None? ==> forall l :: l in candidates ==> !same(l, r)
    decreases |candidates|
  {
    if candidates != [] {
      FindSameFinds(same, candidates[1..], r);
    }
  }

  /** `.find` returns the first candidate that passes the test. */
  lemma {:induction false} FindSameIsFirst(same: SameTest, candidates: seq<Location>, r: LocationDto, j: nat)
    requires j < |candidates| && same(candidates[j], r)
    requires forall i :: 0 <= i < j ==> !same(candidates[i], r)
    ensures FindSame(same, candidates, r) == Some(candidates[j])
  {
    if j > 0 {
      FindSameIsFirst(same, candidates[1..], r, j - 1);
    }
  }

  /** getLocationIfExists: a stored location found through the record's
      name. */
  function GetLocationIfExists(same: SameTest, t: Tables, r: LocationDto): (found: Option<Location>)
    requires WellFormed(t)
    ensures found.Some? ==> found.value in t.locations
  {
    LocationsNamedMembers(t.names, t.locations, r.name);
    FindSame(same, LocationsNamed(t.names, t.locations, r.name), r)
  }

  /** The location found passes the test, and nothing is found only when no
      location stored under the record's name does. */
  lemma GetLocationIfExistsFinds(same: SameTest, t: Tables, r: LocationDto)
    requires WellFormed(t)
    ensures var found := GetLocationIfExists(same, t, r);
      && (found.Some? ==> same(found.value, r))
      && (found.None? ==> forall i :: 0 <= i < |t.names| && t.names[i].name == r.name ==>
            !same(t.locations[t.names[i].locationId], r))
  {
    LocationsNamedMembers(t.names, t.locations, r.name);
    FindSameFinds(same, LocationsNamed(t.names, t.locations, r.name), r);
  }

  /** A description is present when it is a non-empty string. */
  predicate Truthy(description: Option<string>) {
    description.Some? && description.value != ""
  }

  /** addInfoToLocation: a record's description fills in a stored
      location's missing or empty one, and never replaces one. */
  function AddInfo(t: Tables, l: Location, r: LocationDto): (u: Tables)
    requires l.id < |t.locations|
    ensures Truthy(l.description) || !Truthy(r.description) ==> u == t
    ensures !Truthy(l.description) && Truthy(r.description) ==> u == SetDescription(t, l.id, r.description.value)
  {
    if Truthy(l.description) || !Truthy(r.description) then t
    else SetDescription(t, l.id, r.description.value)
  }

  /** The name index entries insertLocationNames writes: the alternate names
      in order, then the name, all for the new location. */
  function NameEntries(r: LocationDto, id: nat): (es: seq<NameEntry>)
    ensures |es| == |r.alternateNames| + 1
    ensures forall i :: 0 <= i < |es| ==> es[i].locationId == id
    ensures forall i :: 0 <= i < |r.alternateNames| ==> es[i].name == r.alternateNames[i]
    ensures es[|es| - 1].name == r.name
  {
    seq(|r.alternateNames|, i requires 0 <= i < |r.alternateNames| => NameEntry(r.alternateNames[i], id))
    + [NameEntry(r.name, id)]
  }

  /** One iteration of scarp's loop: merge into the same place, or insert a
      new location and its names. */
  function Merge(same: SameTest, t: Tables, r: LocationDto): (u: Tables)
    requires WellFormed(t)
    ensures WellFormed(u)
  {
    match GetLocationIfExists(same, t, r)
    case Some(l) => AddInfo(t, l, r)
    case None =>
      var id := |t.locations|;
      var t1 := AddLocation(t, r.name, Stored(r.latitude), Stored(r.longitude), Stored(r.elevation), r.locationType);
      AddNames(t1, NameEntries(r, id))
  }

  /** scarp's loop over the records in order. */
  function MergeAll(same: SameTest, t: Tables, records: seq<LocationDto>): (u: Tables)
    requires WellFormed(t)
    ensures WellFormed(u)
  {
    if records == [] then t
    else Merge(same, MergeAll(same, t, records[..|records| - 1]), records[|records| - 1])
  }

  /** The fold over a prefix one record longer. */
  lemma MergeAllStep(same: SameTest, t: Tables, records: seq<LocationDto>, i: nat)
    requires WellFormed(t) && i < |records|
    ensures MergeAll(same, t, records[..i + 1]) == Merge(same, MergeAll(same, t, records[..i]), records[i])
  {
    assert records[..i + 1][..i] == records[..i];
  }

  /** What one merge does to the tables: it inserts exactly one location,
      with its name entries, when no stored location is the same place, and
      otherwise changes at most that location's description. Earlier rows
      keep everything but a missing description, and only the location and
      name tables change. */
  lemma MergeEffect(same: SameTest, t: Tables, r: LocationDto)
    requires WellFormed(t)
    ensures var u := Merge(same, t, r);
      && u.routeCount == t.routeCount && u.routeStops == t.routeStops
      && u.reports == t.reports && u.difficulties == t.difficulties
      && (GetLocationIfExists(same, t, r).None? ==>
            u.locations == t.locations + [LocationFromRecord(|t.locations|, r)]
            && u.names == t.names + NameEntries(r, |t.locations|))
      && (GetLocationIfExists(same, t, r).Some? ==> |u.locations| == |t.locations| && u.names == t.names)
      && forall i :: 0 <= i < |t.locations| ==>
           u.locations[i] == t.locations[i]
           || (!Truthy(t.locations[i].description) && u.locations[i] == t.locations[i].(description := r.description))
  {
    var u := Merge(same, t, r);
    match GetLocationIfExists(same, t, r)
    case Some(l) =>
      if !Truthy(l.description) && Truthy(r.description) {
        assert t.locations[l.id] == l;
      }
    case None =>
      var t1 := AddLocation(t, r.name, Stored(r.latitude), Stored(r.longitude), Stored(r.elevation), r.locationType);
      assert t1.locations == t.locations + [LocationFromRecord(|t.locations|, r)];
  }

  /** A description, once present, is never replaced. */
  lemma DescriptionNeverReplaced(same: SameTest, t: Tables, r: LocationDto, i: nat)
    requires WellFormed(t) && i < |t.locations| && Truthy(t.locations[i].description)
    ensures i < |Merge(same, t, r).locations| && Merge(same, t, r).locations[i] == t.locations[i]
  {
    MergeEffect(same, t, r);
  }

  /** A stored location stays the same place for a record when only its
      description changes, under either test. */
  lemma SameIgnoresDescription(dist: Distance, l: Location, d: Option<string>, r: LocationDto)
    ensures AreSameLocation(dist, l.(description := d), r) == AreSameLocation(dist, l, r)
    ensures AreSameLocationIntended(dist, l.(description := d), r) == AreSameLocationIntended(dist, l, r)
  {
  }

  /** As written, a record with `undefined` coordinates is always inserted
      as a new location with its names, whatever is stored already. */
  lemma UndefinedRecordAlwaysInsertedAsWritten(dist: Distance, t: Tables, r: LocationDto)
    requires WellFormed(t)
    requires r.latitude.Undefined? && r.longitude.Undefined?
    ensures Merge(AsWritten(dist), t, r).locations == t.locations + [LocationFromRecord(|t.locations|, r)]
    ensures Merge(AsWritten(dist), t, r).names == t.names + NameEntries(r, |t.locations|)
  {
    GetLocationIfExistsFinds(AsWritten(dist), t, r);
    match GetLocationIfExists(AsWritten(dist), t, r)
    case Some(l) =>
      UndefinedCoordinatesNeverMatchAsWritten(dist, l, r);
      assert false;
    case None =>
      MergeEffect(AsWritten(dist), t, r);
  }

  /** The loop over one record, and over the same record twice. */
  lemma TwoRecords(same: SameTest, t: Tables, r: LocationDto)
    requires WellFormed(t)
    ensures MergeAll(same, t, [r]) == Merge(same, t, r)
    ensures MergeAll(same, t, [r, r]) == Merge(same, Merge(same, t, r), r)
  {
    assert [r][..0] == [];
    assert [r, r][..1] == [r];
  }

  /** As written, scraping a record with `undefined` coordinates twice
      inserts two locations for it. */
  lemma ScarpTwiceDuplicatesAsWritten(dist: Distance, t: Tables, r: LocationDto)
    requires WellFormed(t)
    requires r.latitude.Undefined? && r.longitude.Undefined?
    ensures |MergeAll(AsWritten(dist), t, [r, r]).locations| == |t.locations| + 2
  {
    var same := AsWritten(dist);
    var u := Merge(same, t, r);
    TwoRecords(same, t, r);
    UndefinedRecordAlwaysInsertedAsWritten(dist, t, r);
    UndefinedRecordAlwaysInsertedAsWritten(dist, u, r);
  }

  /** Scraping the same record again inserts nothing: the record finds
      either the location it was merged into or the one inserted from it
      (for a record of known type whose coordinates are numbers or missing,
      and a distance that is 0 from a point to itself). */
  lemma MergeTwiceInsertsOnce(dist: Distance, t: Tables, r: LocationDto)
    requires WellFormed(t)
    requires r.locationType.Some?
    requires (r.latitude.Num? && r.longitude.Num?) || !RecordCoordinatesKnown(r)
    requires r.latitude.Num? && r.longitude.Num? ==>
      dist(r.latitude.value, r.longitude.value, r.latitude.value, r.longitude.value) == 0.0
    ensures var u := Merge(Intended(dist), t, r);
      |Merge(Intended(dist), u, r).locations| == |u.locations| && Merge(Intended(dist), u, r).names == u.names
  {
    var same := Intended(dist);
    var u := Merge(same, t, r);
    MergeEffect(same, t, r);
    MergeEffect(same, u, r);
    match GetLocationIfExists(same, t, r)
    case None =>
      var id := |t.locations|;
      var k := |t.names| + |r.alternateNames|;
      assert u.names[k] == NameEntry(r.name, id);
      assert u.locations[id] == LocationFromRecord(id, r);
      RecordMatchesItsLocation(dist, id, r);
      GetLocationIfExistsFinds(same, u, r);
      assert GetLocationIfExists(same, u, r).Some?;
    case Some(l) =>
      var i :| 0 <= i < |t.names| && t.names[i].name == r.name && t.locations[t.names[i].locationId] == l by {
        LocationsNamedWitness(t.names, t.locations, r.name, l);
      }
      var id := t.names[i].locationId;
      assert u.names[i] == t.names[i];
      GetLocationIfExistsFinds(same, t, r);
      SameIgnoresDescription(dist, l, r.description, r);
      assert AreSameLocationIntended(dist, u.locations[id], r);
      GetLocationIfExistsFinds(same, u, r);
      assert GetLocationIfExists(same, u, r).Some?;
  }

  /** With the intended test, scraping a record twice inserts what scraping
      it once does. */
  lemma ScarpTwiceInsertsOnce(dist: Distance, t: Tables, r: LocationDto)
    requires WellFormed(t)
    requires r.locationType.Some?
    requires (r.latitude.Num? && r.longitude.Num?) || !RecordCoordinatesKnown(r)
    requires r.latitude.Num? && r.longitude.Num? ==>
      dist(r.latitude.value, r.longitude.value, r.latitude.value, r.longitude.value) == 0.0
    ensures |MergeAll(Intended(dist), t, [r, r]).locations| == |MergeAll(Intended(dist), t, [r]).locations|
    ensures MergeAll(Intended(dist), t, [r, r]).names == MergeAll(Intended(dist), t, [r]).names
  {
    TwoRecords(Intended(dist), t, r);
    MergeTwiceInsertsOnce(dist, t, r);
  }

  // ---------------------------------------------------------------------
  // The service, writing to the database

  /** addInfoToLocation */
  method AddInfoToLocation(db: Database, l: Location, r: LocationDto)
    requires db.Valid() && l.id < |db.locations|
    modifies db
    ensures db.Contents() == AddInfo(old(db.Contents()), l, r)
    ensures db.Valid()
  {
    if Truthy(l.description) || !Truthy(r.description) {
      return;
    }
    db.UpdateDescription(l.id, r.description.value);
  }

  /** insertLocation */
  method InsertLocation(db: Database, r: LocationDto) returns (l: Location)
    requires db.Valid()
    modifies db
    ensures l == LocationFromRecord(old(|db.locations|), r)
    ensures db.Contents() == AddLocation(old(db.Contents()), r.name, Stored(r.latitude), Stored(r.longitude), Stored(r.elevation), r.locationType)
    ensures db.Valid()
  {
    l := db.CreateLocation(r.name, Stored(r.latitude), Stored(r.longitude), Stored(r.elevation), r.locationType);
  }

  /** insertLocationNames */
  method InsertLocationNames(db: Database, r: LocationDto, l: Location)
    requires db.Valid() && l.id < |db.locations|
    modifies db
    ensures db.Contents() == AddNames(old(db.Contents()), NameEntries(r, l.id))
    ensures db.Valid()
  {
    var entries: seq<NameEntry> := [];
    var i := 0;
    while i < |r.alternateNames|
      invariant 0 <= i <= |r.alternateNames|
      invariant entries == NameEntries(r, l.id)[..i]
    {
      entries := entries + [NameEntry(r.alternateNames[i], l.id)];
      i := i + 1;
    }
    entries := entries + [NameEntry(r.name, l.id)];
    assert entries == NameEntries(r, l.id);
    db.CreateNames(entries);
  }

  /** One iteration of scarp's loop. */
  method ScarpRecord(db: Database, dist: Distance, r: LocationDto)
    requires db.Valid()
    modifies db
    ensures db.Contents() == Merge(AsWritten(dist), old(db.Contents()), r)
    ensures db.Valid()
  {
    var found := GetLocationIfExists(AsWritten(dist), db.Contents(), r);
    if found.Some? {
      AddInfoToLocation(db, found.value, r);
    } else {
      var l := InsertLocation(db, r);
      InsertLocationNames(db, r, l);
    }
  }

  /** scarp's loop: every record, in order, merged or inserted. */
  method ScarpRecords(db: Database, dist: Distance, records: seq<LocationDto>)
    requires db.Valid()
    modifies db
    ensures db.Contents() == MergeAll(AsWritten(dist), old(db.Contents()), records)
    ensures db.Valid()
  {
    ghost var start := db.Contents();
    var i := 0;
    while i < |records|
      invariant 0 <= i <= |records|
      invariant db.Valid()
      invariant db.Contents() == MergeAll(AsWritten(dist), start, records[..i])
    {
      MergeAllStep(AsWritten(dist), start, records, i);
      ScarpRecord(db, dist, records[i]);
      i := i + 1;
    }
    assert records[..i] == records;
  }

  /** scarp: the GeoNames records, then the vpohid ones, then the
      Wikipedia ones. */
  method Scarp(db: Database, dist: Distance, geoNames: seq<LocationDto>, vpohid: seq<LocationDto>, wikipedia: seq<LocationDto>)
    requires db.Valid()
    modifies db
    ensures db.Contents() == MergeAll(AsWritten(dist), old(db.Contents()), geoNames + vpohid + wikipedia)
    ensures db.Valid()
  {
    ScarpRecords(db, dist, geoNames + vpohid + wikipedia);
  }
}
