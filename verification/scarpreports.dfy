/** The report scraper's upload step (`scarp-reports.service.ts`): every
    parsed trip report not yet stored becomes a route of stops, each stop
    tied to a known location (or to a new one made from the stop), a report
    row, and a difficulty row for each graded stop. */
module ScarpReports {
  import opened Wrappers
  import opened JsNumbers
  import opened Domain
  import opened Util
  import opened Store

  /** LOCATIONS_DISTANCE_THRESHOLD: the farthest, in km, a stop's location may
      lie from the last stop located with coordinates. */
  const LocationsDistanceThreshold: real := 100.0

  /** typeMatches: a stop of unknown type matches every location, otherwise
      only a location of that type. */
  predicate TypeMatches(dto: StopLocation, l: Location) {
    dto.locationType.None? || dto.locationType == l.locationType
  }

  /** `.filter(location => typeMatches(locationDto, location))`. */
  function OfStopType(dto: StopLocation, ls: seq<Location>): (r: seq<Location>)
    ensures |r| <= |ls|
  {
    if ls == [] then []
    else (if TypeMatches(dto, ls[0]) then [ls[0]] else []) + OfStopType(dto, ls[1..])
  }

  lemma {:induction false} OfStopTypeMembers(dto: StopLocation, ls: seq<Location>)
    ensures forall l :: l in OfStopType(dto, ls) <==> l in ls && TypeMatches(dto, l)
    decreases |ls|
  {
    if ls != [] {
      OfStopTypeMembers(dto, ls[1..]);
      assert forall l :: l in ls <==> l == ls[0] || l in ls[1..];
    }
  }

  /** The candidates findLocation considers: the locations the stop's parsed
      name finds in the name index whose type matches, in index order. */
  function Candidates(t: Tables, dto: StopLocation): seq<Location>
    requires WellFormed(t)
  {
    OfStopType(dto, LocationsNamed(t.names, t.locations, dto.name))
  }

  /** Every candidate is a stored location the name finds, of a matching
      type, and every stored location the name index gives for the name and
      whose type matches is a candidate. */
  lemma CandidatesAreNamed(t: Tables, dto: StopLocation)
    requires WellFormed(t)
    ensures forall l :: l in Candidates(t, dto) ==>
      l in LocationsNamed(t.names, t.locations, dto.name) && l in t.locations && TypeMatches(dto, l)
    ensures forall i :: 0 <= i < |t.names| && t.names[i].name == dto.name ==>
      (TypeMatches(dto, t.locations[t.names[i].locationId]) ==> t.locations[t.names[i].locationId] in Candidates(t, dto))
  {
    LocationsNamedMembers(t.names, t.locations, dto.name);
    OfStopTypeMembers(dto, LocationsNamed(t.names, t.locations, dto.name));
  }

  /** `.filter(l => hasCoordinates(l))`. */
  function WithCoordinates(ls: seq<Location>): (r: seq<Location>)
    ensures |r| <= |ls|
  {
    if ls == [] then []
    else (if LocationHasCoordinates(ls[0]) then [ls[0]] else []) + WithCoordinates(ls[1..])
  }

  lemma {:induction false} WithCoordinatesMembers(ls: seq<Location>)
    ensures forall l :: l in WithCoordinates(ls) <==> l in ls && LocationHasCoordinates(l)
    decreases |ls|
  {
    if ls != [] {
      WithCoordinatesMembers(ls[1..]);
      assert forall l :: l in ls <==> l == ls[0] || l in ls[1..];
    }
  }

  /** `distance` from one stored location to another, on the numbers in
      their coordinate columns. */
  function DistanceBetween(dist: Distance, from: Location, to: Location): real {
    dist(from.latitude.GetOr(0.0), from.longitude.GetOr(0.0), to.latitude.GetOr(0.0), to.longitude.GetOr(0.0))
  }

  /** The measure minBy is given. */
  function DistanceFrom(dist: Distance, from: Location): Location -> real {
    (to: Location) => DistanceBetween(dist, from, to)
  }

  /** The position minBy finds: the first of the locations nearest to `from`. */
  function NearestIndex(dist: Distance, from: Location, a: seq<Location>): (k: nat)
    requires |a| > 0
    ensures k < |a|
  {
    if |a| == 1 then 0
    else
      var k := NearestIndex(dist, from, a[..|a| - 1]);
      if DistanceBetween(dist, from, a[|a| - 1]) < DistanceBetween(dist, from, a[k]) then |a| - 1 else k
  }

  lemma {:induction false} NearestIsArgMin(dist: Distance, from: Location, a: seq<Location>)
    requires |a| > 0
    ensures NearestIndex(dist, from, a) == ArgMin(a, DistanceFrom(dist, from))
    decreases |a|
  {
    if |a| > 1 {
      NearestIsArgMin(dist, from, a[..|a| - 1]);
    }
  }

  /** chooseNextLocation, as a value. */
  function NextLocation(dist: Distance, candidates: seq<Location>, last: Option<Location>): Option<Location>
    requires last.Some? ==> LocationHasCoordinates(last.value)
  {
    if candidates == [] then None
    else if last.None? then Some(candidates[0])
    else
      var withCoordinates := WithCoordinates(candidates);
      if withCoordinates == [] then Some(candidates[0])
      else
        var l := withCoordinates[NearestIndex(dist, last.value, withCoordinates)];
        if DistanceBetween(dist, last.value, l) > LocationsDistanceThreshold then None else Some(l)
  }

  /** What chooseNextLocation chooses: a candidate or nothing; nothing from
      no candidates; with no last located stop, or no candidate with
      coordinates, the first candidate; otherwise the nearest candidate
      with coordinates when it is within the threshold, and nothing when
      every one is farther. */
  lemma NextLocationChoice(dist: Distance, candidates: seq<Location>, last: Option<Location>)
    requires last.Some? ==> LocationHasCoordinates(last.value)
    ensures var r := NextLocation(dist, candidates, last);
      && (r.Some? ==> r.value in candidates)
      && (candidates == [] ==> r.None?)
      && (candidates != [] && (last.None? || forall c :: c in candidates ==> !LocationHasCoordinates(c)) ==>
            r == Some(candidates[0]))
      && (last.Some? && (exists c :: c in candidates && LocationHasCoordinates(c)) && r.Some? ==>
            && LocationHasCoordinates(r.value)
            && DistanceBetween(dist, last.value, r.value) <= LocationsDistanceThreshold
            && forall c :: c in candidates && LocationHasCoordinates(c) ==>
                 DistanceBetween(dist, last.value, r.value) <= DistanceBetween(dist, last.value, c))
      && (last.Some? && (exists c :: c in candidates && LocationHasCoordinates(c)) && r.None? ==>
            forall c :: c in candidates && LocationHasCoordinates(c) ==>
              DistanceBetween(dist, last.value, c) > LocationsDistanceThreshold)
  {
    WithCoordinatesMembers(candidates);
    if last.Some? && WithCoordinates(candidates) != [] {
      NearestCandidate(dist, last.value, candidates);
    }
  }

  /** The candidate minBy picks among those with coordinates has
      coordinates and is no farther than any candidate that has them. */
  lemma NearestCandidate(dist: Distance, from: Location, candidates: seq<Location>)
    requires WithCoordinates(candidates) != []
    ensures var w := WithCoordinates(candidates);
      var l := w[NearestIndex(dist, from, w)];
      && l in candidates && LocationHasCoordinates(l)
      && forall c :: c in candidates && LocationHasCoordinates(c) ==>
           DistanceBetween(dist, from, l) <= DistanceBetween(dist, from, c)
  {
    var w := WithCoordinates(candidates);
    WithCoordinatesMembers(candidates);
    NearestIsFirstMinimum(dist, from, w);
    var k := NearestIndex(dist, from, w);
    assert w[k] in w;
    assert forall c :: c in w ==> DistanceBetween(dist, from, w[k]) <= DistanceBetween(dist, from, c);
  }

  /** The nearest location is no farther than any other, and strictly nearer
      than every one before it. */
  lemma {:induction false} NearestIsFirstMinimum(dist: Distance, from: Location, a: seq<Location>)
    requires |a| > 0
    ensures var k := NearestIndex(dist, from, a);
      && (forall j :: 0 <= j < |a| ==> DistanceBetween(dist, from, a[k]) <= DistanceBetween(dist, from, a[j]))
      && (forall j :: 0 <= j < k ==> DistanceBetween(dist, from, a[k]) < DistanceBetween(dist, from, a[j]))
    decreases |a|
  {
    if |a| > 1 {
      var b := a[..|a| - 1];
      NearestIsFirstMinimum(dist, from, b);
      assert forall j :: 0 <= j < |b| ==> b[j] == a[j];
    }
  }

  /** findLocation returns a stored location. */
  lemma ChosenIsStored(dist: Distance, t: Tables, dto: StopLocation, last: Option<Location>)
    requires WellFormed(t)
    requires last.Some? ==> LocationHasCoordinates(last.value)
    ensures var found := NextLocation(dist, Candidates(t, dto), last);
      found.Some? ==> found.value in t.locations && found.value.id < |t.locations| && t.locations[found.value.id] == found.value
  {
    NextLocationChoice(dist, Candidates(t, dto), last);
    CandidatesAreNamed(t, dto);
  }

  /** The location createLocationFromStop makes: the stop's whole raw text
      as its name, the parsed elevation and type, no coordinates and no
      description. */
  function LocationFromStop(id: nat, stop: RouteStopDto): (l: Location)
    ensures l.id == id && l.canonicalName == stop.name && l.locationType == stop.location.locationType
    ensures !LocationHasCoordinates(l) && l.description.None?
  {
    Location(id, stop.name, None, None, Stored(stop.location.elevation), stop.location.locationType, None)
  }

  /** The location a stop is tied to: the chosen one, or else the one made
      from the stop, which takes the next id. */
  function StopLocationId(t: Tables, found: Option<Location>): nat {
    if found.Some? then found.value.id else |t.locations|
  }

  /** createRouteStop, once the location is chosen, with the update of the
      last located stop: the stop is tied to the chosen location or to a new
      one made from it; a location with coordinates becomes the last
      located one. */
  function PlaceStopAt(t: Tables, routeId: nat, stop: RouteStopDto, stopNumber: nat,
                       last: Option<Location>, found: Option<Location>): (r: (Tables, Option<Location>))
    requires WellFormed(t) && routeId < t.routeCount
    requires found.Some? ==> found.value.id < |t.locations|
    requires last.Some? ==> LocationHasCoordinates(last.value)
    ensures WellFormed(r.0)
    ensures r.0.names == t.names && r.0.routeCount == t.routeCount
    ensures r.0.reports == t.reports && r.0.difficulties == t.difficulties
    ensures r.0.locations == if found.Some? then t.locations else t.locations + [LocationFromStop(|t.locations|, stop)]
    ensures r.0.routeStops == t.routeStops + [RouteStop(stop.name, routeId, StopLocationId(t, found), stopNumber)]
    ensures r.1.Some? ==> LocationHasCoordinates(r.1.value)
    ensures r.1 == if found.Some? && LocationHasCoordinates(found.value) then found else last
  {
    var l := if found.Some? then found.value else LocationFromStop(|t.locations|, stop);
    var locations := if found.Some? then t.locations else t.locations + [l];
    (t.(locations := locations, routeStops := t.routeStops + [RouteStop(stop.name, routeId, l.id, stopNumber)]),
     if LocationHasCoordinates(l) then Some(l) else last)
  }

  /** createRouteStop: findLocation chooses the location. */
  function PlaceStop(dist: Distance, t: Tables, routeId: nat, stop: RouteStopDto, stopNumber: nat,
                     last: Option<Location>): (r: (Tables, Option<Location>))
    requires WellFormed(t) && routeId < t.routeCount
    requires last.Some? ==> LocationHasCoordinates(last.value)
  {
    ChosenIsStored(dist, t, stop.location, last);
    PlaceStopAt(t, routeId, stop, stopNumber, last, NextLocation(dist, Candidates(t, stop.location), last))
  }

  /** createRoute's loop over the stops of a report, on route `routeId`;
      the result also holds the last located stop. */
  function PlaceStops(dist: Distance, t: Tables, routeId: nat, stops: seq<RouteStopDto>): (r: (Tables, Option<Location>))
    requires WellFormed(t) && routeId < t.routeCount
    ensures WellFormed(r.0)
    ensures r.0.names == t.names && r.0.routeCount == t.routeCount
    ensures r.0.reports == t.reports && r.0.difficulties == t.difficulties
    ensures r.1.Some? ==> LocationHasCoordinates(r.1.value)
    decreases |stops|
  {
    if stops == [] then (t, None)
    else
      var n := |stops| - 1;
      var before := PlaceStops(dist, t, routeId, stops[..n]);
      PlaceStop(dist, before.0, routeId, stops[n], n, before.1)
  }

  /** The fold over a prefix one stop longer. */
  lemma PlaceStopsStep(dist: Distance, t: Tables, routeId: nat, stops: seq<RouteStopDto>, i: nat)
    requires WellFormed(t) && routeId < t.routeCount && i < |stops|
    ensures var before := PlaceStops(dist, t, routeId, stops[..i]);
      PlaceStops(dist, t, routeId, stops[..i + 1]) == PlaceStop(dist, before.0, routeId, stops[i], i, before.1)
  {
    assert stops[..i + 1][..i] == stops[..i];
  }

  /** The last location with coordinates in a sequence, if any. */
  function LastLocated(ls: seq<Location>): (r: Option<Location>)
    ensures r.Some? ==> r.value in ls && LocationHasCoordinates(r.value)
    decreases |ls|
  {
    if ls == [] then None
    else if LocationHasCoordinates(ls[|ls| - 1]) then Some(ls[|ls| - 1])
    else LastLocated(ls[..|ls| - 1])
  }

  /** LastLocated is none exactly when no position has coordinates. */
  lemma {:induction false} LastLocatedNone(ls: seq<Location>)
    ensures LastLocated(ls).None? <==> forall i :: 0 <= i < |ls| ==> !LocationHasCoordinates(ls[i])
    decreases |ls|
  {
    if ls != [] {
      var n := |ls| - 1;
      LastLocatedNone(ls[..n]);
      assert forall i :: 0 <= i < n ==> ls[..n][i] == ls[i];
    }
  }

  /** LastLocated, when some, sits at a position after which no location
      has coordinates. */
  lemma {:induction false} LastLocatedSome(ls: seq<Location>)
    ensures LastLocated(ls).Some? ==> exists i :: (0 <= i < |ls| && ls[i] == LastLocated(ls).value
      && forall j :: i < j < |ls| ==> !LocationHasCoordinates(ls[j]))
    decreases |ls|
  {
    if ls != [] {
      var n := |ls| - 1;
      if LocationHasCoordinates(ls[n]) {
        assert ls[n] == LastLocated(ls).value;
      } else if LastLocated(ls).Some? {
        LastLocatedSome(ls[..n]);
        var i :| 0 <= i < n && ls[..n][i] == LastLocated(ls).value
          && forall j :: i < j < n ==> !LocationHasCoordinates(ls[..n][j]);
        assert ls[i] == LastLocated(ls).value;
        forall j | i < j < |ls|
          ensures !LocationHasCoordinates(ls[j])
        {
          if j < n {
            assert ls[..n][j] == ls[j];
          }
        }
      }
    }
  }

  /** LastLocated is the location at the highest position that has
      coordinates, and none when no position has them. */
  lemma LastLocatedIsLast(ls: seq<Location>)
    ensures LastLocated(ls).None? <==> forall i :: 0 <= i < |ls| ==> !LocationHasCoordinates(ls[i])
    ensures LastLocated(ls).Some? ==> exists i :: (0 <= i < |ls| && ls[i] == LastLocated(ls).value
      && forall j :: i < j < |ls| ==> !LocationHasCoordinates(ls[j]))
  {
    LastLocatedNone(ls);
    LastLocatedSome(ls);
  }

  /** The locations of the stored route stops `k0` to `k0 + n - 1`. */
  function StopLocations(u: Tables, k0: nat, n: nat): (ls: seq<Location>)
    requires WellFormed(u) && k0 + n <= |u.routeStops|
    ensures |ls| == n
  {
    seq(n, i requires 0 <= i < n => u.locations[u.routeStops[k0 + i].locationId])
  }

  /** Appending one route stop, with locations only appended, extends the
      stop locations by that stop's location. */
  lemma StopLocationsStep(t: Tables, u: Tables, k0: nat, n: nat)
    requires WellFormed(t) && WellFormed(u) && k0 + n == |t.routeStops|
    requires |u.routeStops| == |t.routeStops| + 1 && u.routeStops[..|t.routeStops|] == t.routeStops
    requires |u.locations| >= |t.locations| && u.locations[..|t.locations|] == t.locations
    ensures StopLocations(u, k0, n + 1)
      == StopLocations(t, k0, n) + [u.locations[u.routeStops[|t.routeStops|].locationId]]
  {
    forall i | 0 <= i < n
      ensures StopLocations(u, k0, n + 1)[i] == StopLocations(t, k0, n)[i]
    {
      assert u.routeStops[..|t.routeStops|][k0 + i] == t.routeStops[k0 + i];
      var id := t.routeStops[k0 + i].locationId;
      assert u.locations[..|t.locations|][id] == t.locations[id];
    }
  }

  /** One placed stop moves the last located stop to its own location when
      that has coordinates. */
  lemma PlaceStopAtLastLocated(t: Tables, routeId: nat, stop: RouteStopDto, k0: nat, n: nat,
                               last: Option<Location>, found: Option<Location>)
    requires WellFormed(t) && routeId < t.routeCount && k0 + n == |t.routeStops|
    requires found.Some? ==> found.value.id < |t.locations| && t.locations[found.value.id] == found.value
    requires last.Some? ==> LocationHasCoordinates(last.value)
    requires last == LastLocated(StopLocations(t, k0, n))
    ensures var r := PlaceStopAt(t, routeId, stop, n, last, found);
      r.1 == LastLocated(StopLocations(r.0, k0, n + 1))
  {
    var r := PlaceStopAt(t, routeId, stop, n, last, found);
    var u := r.0;
    assert u.routeStops[..|t.routeStops|] == t.routeStops;
    StopLocationsStep(t, u, k0, n);
    var xs := StopLocations(t, k0, n);
    var x := u.locations[u.routeStops[|t.routeStops|].locationId];
    assert x == if found.Some? then found.value else LocationFromStop(|t.locations|, stop);
    assert (xs + [x])[..n] == xs;
  }

  /** createRoute's last located stop: after the loop it is the location of
      the last stop placed whose location has coordinates, and none when no
      placed stop's location has them. */
  lemma {:induction false} PlaceStopsLastLocated(dist: Distance, t: Tables, routeId: nat, stops: seq<RouteStopDto>)
    requires WellFormed(t) && routeId < t.routeCount
    ensures var r := PlaceStops(dist, t, routeId, stops);
      && |r.0.routeStops| == |t.routeStops| + |stops|
      && r.1 == LastLocated(StopLocations(r.0, |t.routeStops|, |stops|))
    decreases |stops|
  {
    if stops != [] {
      var n := |stops| - 1;
      PlaceStopsLastLocated(dist, t, routeId, stops[..n]);
      var before := PlaceStops(dist, t, routeId, stops[..n]);
      ChosenIsStored(dist, before.0, stops[n].location, before.1);
      var found := NextLocation(dist, Candidates(before.0, stops[n].location), before.1);
      PlaceStopAtLastLocated(before.0, routeId, stops[n], |t.routeStops|, n, before.1, found);
    }
  }

  /** `stored` is `before` followed by one route stop per stop of the
      report, in order, on route `routeId`, numbered from 0 and named by
      the raw stop text. */
  predicate StopsRecorded(before: seq<RouteStop>, stored: seq<RouteStop>, routeId: nat, stops: seq<RouteStopDto>) {
    && |stored| == |before| + |stops| && stored[..|before|] == before
    && forall i :: 0 <= i < |stops| ==>
         stored[|before| + i].name == stops[i].name && stored[|before| + i].routeId == routeId
         && stored[|before| + i].stopNumber == i
  }

  lemma StopsRecordedStep(before: seq<RouteStop>, stored: seq<RouteStop>, routeId: nat, stops: seq<RouteStopDto>, s: RouteStop)
    requires stops != [] && StopsRecorded(before, stored, routeId, stops[..|stops| - 1])
    requires s.name == stops[|stops| - 1].name && s.routeId == routeId && s.stopNumber == |stops| - 1
    ensures StopsRecorded(before, stored + [s], routeId, stops)
  {
    var n := |stops| - 1;
    var next := stored + [s];
    assert next[..|stored|] == stored;
    forall i | 0 <= i < n
      ensures next[|before| + i].name == stops[i].name && next[|before| + i].routeId == routeId
        && next[|before| + i].stopNumber == i
    {
      assert stops[..n][i] == stops[i];
    }
  }

  /** The stops of a report become route stops in order, numbered from 0,
      with the raw stop text as their name. */
  lemma {:induction false} PlaceStopsWritesStops(dist: Distance, t: Tables, routeId: nat, stops: seq<RouteStopDto>)
    requires WellFormed(t) && routeId < t.routeCount
    ensures StopsRecorded(t.routeStops, PlaceStops(dist, t, routeId, stops).0.routeStops, routeId, stops)
    decreases |stops|
  {
    if stops != [] {
      var n := |stops| - 1;
      PlaceStopsWritesStops(dist, t, routeId, stops[..n]);
      var before := PlaceStops(dist, t, routeId, stops[..n]);
      var found := NextLocation(dist, Candidates(before.0, stops[n].location), before.1);
      var s := RouteStop(stops[n].name, routeId, StopLocationId(before.0, found), n);
      assert PlaceStops(dist, t, routeId, stops).0.routeStops == before.0.routeStops + [s];
      StopsRecordedStep(t.routeStops, before.0.routeStops, routeId, stops, s);
    }
  }

  /** Placing stops keeps every stored location and adds only locations
      without coordinates. */
  lemma {:induction false} PlaceStopsAddsNoCoordinates(dist: Distance, t: Tables, routeId: nat, stops: seq<RouteStopDto>)
    requires WellFormed(t) && routeId < t.routeCount
    ensures var u := PlaceStops(dist, t, routeId, stops).0;
      && |u.locations| >= |t.locations| && u.locations[..|t.locations|] == t.locations
      && forall i :: |t.locations| <= i < |u.locations| ==> !LocationHasCoordinates(u.locations[i])
    decreases |stops|
  {
    if stops != [] {
      var n := |stops| - 1;
      PlaceStopsAddsNoCoordinates(dist, t, routeId, stops[..n]);
    }
  }

  /** The name index does not grow while a route is placed, so the stop
      lookup never finds a location made from an earlier stop: every
      location it can return existed before the route. */
  lemma NothingNewIsFound(dist: Distance, t: Tables, routeId: nat, stops: seq<RouteStopDto>,
                          dto: StopLocation, last: Option<Location>)
    requires WellFormed(t) && routeId < t.routeCount
    requires last.Some? ==> LocationHasCoordinates(last.value)
    ensures var u := PlaceStops(dist, t, routeId, stops).0;
      var found := NextLocation(dist, Candidates(u, dto), last);
      found.Some? ==> found.value.id < |t.locations| && found.value == t.locations[found.value.id]
  {
    var u := PlaceStops(dist, t, routeId, stops).0;
    PlaceStopsAddsNoCoordinates(dist, t, routeId, stops);
    var found := NextLocation(dist, Candidates(u, dto), last);
    NextLocationChoice(dist, Candidates(u, dto), last);
    CandidatesAreNamed(u, dto);
    if found.Some? {
      var l := found.value;
      LocationsNamedWitness(u.names, u.locations, dto.name, l);
      var i :| 0 <= i < |u.names| && u.names[i].name == dto.name && u.locations[u.names[i].locationId] == l;
      var id := u.names[i].locationId;
      assert id < |t.locations|;
      assert u.locations[..|t.locations|][id] == t.locations[id];
    }
  }

  /** The difficulty row createLocationToDifficulty writes for a graded stop. */
  function DifficultyRow(stop: RouteStopDto, routeStop: RouteStop, report: Report): LocationToDifficulty
    requires stop.location.difficulty.Some?
  {
    LocationToDifficulty(routeStop.locationId, stop.location.difficulty.value, report.season, report.id)
  }

  /** createLocationsDifficulty's rows, for the report's stops paired by
      position with the stored stops of its route. */
  function DifficultyRows(stops: seq<RouteStopDto>, routeStops: seq<RouteStop>, report: Report): (rows: seq<LocationToDifficulty>)
    requires |stops| <= |routeStops|
    ensures |rows| <= |stops|
    decreases |stops|
  {
    if stops == [] then []
    else
      var n := |stops| - 1;
      DifficultyRows(stops[..n], routeStops, report)
      + if stops[n].location.difficulty.Some? then [DifficultyRow(stops[n], routeStops[n], report)] else []
  }

  /** The i-th stop of the report, when graded, grades the location of the
      i-th stored stop, for the report's season; there are no other rows. */
  lemma {:induction false} DifficultyRowsGradeTheirStops(stops: seq<RouteStopDto>, routeStops: seq<RouteStop>, report: Report)
    requires |stops| <= |routeStops|
    ensures forall i :: 0 <= i < |stops| && stops[i].location.difficulty.Some? ==>
      DifficultyRow(stops[i], routeStops[i], report) in DifficultyRows(stops, routeStops, report)
    ensures forall row :: row in DifficultyRows(stops, routeStops, report) ==>
      exists i :: 0 <= i < |stops| && stops[i].location.difficulty.Some? && row == DifficultyRow(stops[i], routeStops[i], report)
    decreases |stops|
  {
    if stops != [] {
      var n := |stops| - 1;
      DifficultyRowsGradeTheirStops(stops[..n], routeStops, report);
      assert forall i :: 0 <= i < n ==> stops[..n][i] == stops[i];
    }
  }

  /** The positions of the graded stops, in order. */
  function GradedIndices(stops: seq<RouteStopDto>): (g: seq<nat>)
    ensures forall j :: 0 <= j < |g| ==> g[j] < |stops|
    decreases |stops|
  {
    if stops == [] then []
    else
      var n := |stops| - 1;
      GradedIndices(stops[..n]) + if stops[n].location.difficulty.Some? then [n] else []
  }

  /** The graded positions increase, and are exactly the stops that carry a
      grade. */
  lemma {:induction false} GradedIndicesAreGraded(stops: seq<RouteStopDto>)
    ensures var g := GradedIndices(stops);
      && (forall j, k :: 0 <= j < k < |g| ==> g[j] < g[k])
      && (forall i :: 0 <= i < |stops| ==> (i in g <==> stops[i].location.difficulty.Some?))
    decreases |stops|
  {
    if stops != [] {
      var n := |stops| - 1;
      GradedIndicesAreGraded(stops[..n]);
      assert forall i :: 0 <= i < n ==> stops[..n][i] == stops[i];
    }
  }

  /** createLocationsDifficulty writes exactly one row per graded stop, in
      stop order: row j grades the location of the stored stop at the j-th
      graded position. */
  lemma {:induction false} DifficultyRowsInStopOrder(stops: seq<RouteStopDto>, routeStops: seq<RouteStop>, report: Report)
    requires |stops| <= |routeStops|
    ensures var g := GradedIndices(stops);
      var rows := DifficultyRows(stops, routeStops, report);
      && |rows| == |g|
      && forall j :: 0 <= j < |g| ==>
           stops[g[j]].location.difficulty.Some?
           && rows[j] == DifficultyRow(stops[g[j]], routeStops[g[j]], report)
    decreases |stops|
  {
    if stops != [] {
      var n := |stops| - 1;
      DifficultyRowsInStopOrder(stops[..n], routeStops, report);
      assert forall i :: 0 <= i < n ==> stops[..n][i] == stops[i];
    }
  }

  /** createLocationsDifficulty's effect on the tables. */
  function AddDifficulties(t: Tables, stops: seq<RouteStopDto>, report: Report): Tables
    requires |stops| <= |RouteStopsOf(t.routeStops, report.routeId)|
  {
    t.(difficulties := t.difficulties + DifficultyRows(stops, RouteStopsOf(t.routeStops, report.routeId), report))
  }

  /** Difficulty rows refer to stored locations and to the stored report. */
  lemma AddDifficultiesWellFormed(t: Tables, stops: seq<RouteStopDto>, report: Report)
    requires WellFormed(t) && report.id < |t.reports|
    requires |stops| <= |RouteStopsOf(t.routeStops, report.routeId)|
    ensures WellFormed(AddDifficulties(t, stops, report))
  {
    var routeStops := RouteStopsOf(t.routeStops, report.routeId);
    RouteStopsOfMembers(t.routeStops, report.routeId);
    DifficultyRowsGradeTheirStops(stops, routeStops, report);
    var rows := DifficultyRows(stops, routeStops, report);
    forall row | row in rows
      ensures row.locationId < |t.locations| && row.sourceReportId < |t.reports|
    {
      var i :| 0 <= i < |stops| && stops[i].location.difficulty.Some? && row == DifficultyRow(stops[i], routeStops[i], report);
      assert routeStops[i] in t.routeStops;
    }
    var u := AddDifficulties(t, stops, report);
    forall j | 0 <= j < |u.difficulties|
      ensures u.difficulties[j].locationId < |u.locations| && u.difficulties[j].sourceReportId < |u.reports|
    {
      if j >= |t.difficulties| {
        assert u.difficulties[j] == rows[j - |t.difficulties|];
      }
    }
  }

  /** The stops stored for a new route are exactly the ones placed for it. */
  lemma NewRouteStops(dist: Distance, t: Tables, stops: seq<RouteStopDto>)
    requires WellFormed(t)
    ensures var u := PlaceStops(dist, AddRoute(t), t.routeCount, stops).0;
      && |u.routeStops| == |t.routeStops| + |stops|
      && RouteStopsOf(u.routeStops, t.routeCount) == u.routeStops[|t.routeStops|..]
  {
    var u := PlaceStops(dist, AddRoute(t), t.routeCount, stops).0;
    assert AddRoute(t).routeStops == t.routeStops;
    PlaceStopsWritesStops(dist, AddRoute(t), t.routeCount, stops);
    forall i | |t.routeStops| <= i < |u.routeStops|
      ensures u.routeStops[i].routeId == t.routeCount
    {
      var k := i - |t.routeStops|;
      assert u.routeStops[|t.routeStops| + k].name == stops[k].name;
    }
    RouteStopsOfNewRoute(t.routeStops, u.routeStops, t.routeCount);
  }

  /** What one report does to the tables: an already stored report (same
      title, author, year and url) changes nothing; otherwise a route, its
      stops, the report and its difficulty rows are added. */
  function ScarpReport(dist: Distance, t: Tables, dto: ReportDto): (u: Tables)
    requires WellFormed(t)
    ensures WellFormed(u)
    ensures ReportExists(u.reports, dto.title, dto.authorName, dto.year, dto.url)
    ensures |u.reports| >= |t.reports| && u.reports[..|t.reports|] == t.reports
    ensures u.names == t.names
  {
    if ReportExists(t.reports, dto.title, dto.authorName, dto.year, dto.url) then t
    else
      var routeId := t.routeCount;
      var t2 := PlaceStops(dist, AddRoute(t), routeId, dto.stops).0;
      var report := Report(|t2.reports|, dto.title, dto.authorName, dto.tripType, dto.difficulty, dto.season,
                           dto.year, routeId, dto.url, dto.fileUrl);
      var t3 := AddReport(t2, report);
      NewRouteStops(dist, t, dto.stops);
      assert t3.routeStops == t2.routeStops && t3.reports[|t.reports|] == report;
      AddDifficultiesWellFormed(t3, dto.stops, report);
      AddDifficulties(t3, dto.stops, report)
  }

  /** scarp's loop over the parsed reports in order. */
  function ScarpAll(dist: Distance, t: Tables, reports: seq<ReportDto>): (u: Tables)
    requires WellFormed(t)
    ensures WellFormed(u)
    decreases |reports|
  {
    if reports == [] then t
    else ScarpReport(dist, ScarpAll(dist, t, reports[..|reports| - 1]), reports[|reports| - 1])
  }

  /** The fold over a prefix one report longer. */
  lemma ScarpAllStep(dist: Distance, t: Tables, reports: seq<ReportDto>, i: nat)
    requires WellFormed(t) && i < |reports|
    ensures ScarpAll(dist, t, reports[..i + 1]) == ScarpReport(dist, ScarpAll(dist, t, reports[..i]), reports[i])
  {
    assert reports[..i + 1][..i] == reports[..i];
  }

  /** Every report of `dtos` is stored in `rs`. */
  predicate AllStored(rs: seq<Report>, dtos: seq<ReportDto>) {
    forall j :: 0 <= j < |dtos| ==> ReportExists(rs, dtos[j].title, dtos[j].authorName, dtos[j].year, dtos[j].url)
  }

  /** A report table that keeps `before` as its prefix keeps every report
      `before` holds. */
  lemma ReportsKept(before: seq<Report>, after: seq<Report>, reports: seq<ReportDto>)
    requires reports != []
    requires |after| >= |before| && after[..|before|] == before
    requires AllStored(before, reports[..|reports| - 1])
    requires var last := reports[|reports| - 1];
      ReportExists(after, last.title, last.authorName, last.year, last.url)
    ensures AllStored(after, reports)
  {
    forall j | 0 <= j < |reports| - 1
      ensures ReportExists(after, reports[j].title, reports[j].authorName, reports[j].year, reports[j].url)
    {
      assert reports[..|reports| - 1][j] == reports[j];
      var k :| 0 <= k < |before| && before[k].title == reports[j].title
        && before[k].authorName == reports[j].authorName
        && before[k].year == reports[j].year && before[k].url == reports[j].url;
      assert after[..|before|][k] == before[k];
    }
  }

  /** After a scrape every scraped report is stored, and nothing stored
      before is lost. */
  lemma {:induction false} ScarpStoresEveryReport(dist: Distance, t: Tables, reports: seq<ReportDto>)
    requires WellFormed(t)
    ensures var u := ScarpAll(dist, t, reports);
      && |u.reports| >= |t.reports| && u.reports[..|t.reports|] == t.reports
      && AllStored(u.reports, reports)
    decreases |reports|
  {
    if reports != [] {
      var n := |reports| - 1;
      var before := ScarpAll(dist, t, reports[..n]);
      ScarpStoresEveryReport(dist, t, reports[..n]);
      var u := ScarpReport(dist, before, reports[n]);
      assert u == ScarpAll(dist, t, reports);
      ReportsKept(before.reports, u.reports, reports);
      assert u.reports[..|t.reports|] == u.reports[..|before.reports|][..|t.reports|];
    }
  }

  /** Reports that are all stored already change nothing. */
  lemma {:induction false} StoredReportsChangeNothing(dist: Distance, t: Tables, reports: seq<ReportDto>)
    requires WellFormed(t)
    requires forall j :: 0 <= j < |reports| ==>
      ReportExists(t.reports, reports[j].title, reports[j].authorName, reports[j].year, reports[j].url)
    ensures ScarpAll(dist, t, reports) == t
    decreases |reports|
  {
    if reports != [] {
      var n := |reports| - 1;
      StoredReportsChangeNothing(dist, t, reports[..n]);
    }
  }

  /** Scraping the same reports twice is the same as scraping them once. */
  lemma ScarpIsIdempotent(dist: Distance, t: Tables, reports: seq<ReportDto>)
    requires WellFormed(t)
    ensures ScarpAll(dist, ScarpAll(dist, t, reports), reports) == ScarpAll(dist, t, reports)
  {
    ScarpStoresEveryReport(dist, t, reports);
    StoredReportsChangeNothing(dist, ScarpAll(dist, t, reports), reports);
  }

  // ---------------------------------------------------------------------
  // The service, writing to the database

  /** chooseNextLocation */
  method ChooseNextLocation(dist: Distance, candidates: seq<Location>, last: Option<Location>) returns (r: Option<Location>)
    requires last.Some? ==> LocationHasCoordinates(last.value)
    ensures r == NextLocation(dist, candidates, last)
  {
    if |candidates| == 0 {
      return None;
    }
    if last.None? {
      return Some(candidates[0]);
    }
    var withCoordinates := WithCoordinates(candidates);
    if withCoordinates == [] {
      return Some(candidates[0]);
    }
    NearestIsArgMin(dist, last.value, withCoordinates);
    var location := MinBy(withCoordinates, DistanceFrom(dist, last.value));
    var d := DistanceBetween(dist, last.value, location.value);
    if d > LocationsDistanceThreshold {
      return None;
    }
    return Some(location.value);
  }

  /** findLocation */
  method FindLocation(db: Database, dist: Distance, dto: StopLocation, last: Option<Location>) returns (r: Option<Location>)
    requires db.Valid()
    requires last.Some? ==> LocationHasCoordinates(last.value)
    ensures r == NextLocation(dist, Candidates(db.Contents(), dto), last)
  {
    var candidates := Candidates(db.Contents(), dto);
    r := ChooseNextLocation(dist, candidates, last);
  }

  /** createLocationFromStop */
  method CreateLocationFromStop(db: Database, stop: RouteStopDto) returns (l: Location)
    requires db.Valid()
    modifies db
    ensures l == LocationFromStop(old(|db.locations|), stop)
    ensures db.Contents() == AddLocation(old(db.Contents()), stop.name, None, None, Stored(stop.location.elevation), stop.location.locationType)
    ensures db.Valid()
  {
    l := db.CreateLocation(stop.name, None, None, Stored(stop.location.elevation), stop.location.locationType);
  }

  /** createRouteStop; returns the stop's location. */
  method CreateRouteStop(db: Database, dist: Distance, routeId: nat, stop: RouteStopDto, stopNumber: nat,
                         last: Option<Location>) returns (location: Location)
    requires db.Valid() && routeId < db.routeCount
    requires last.Some? ==> LocationHasCoordinates(last.value)
    modifies db
    ensures var placed := PlaceStop(dist, old(db.Contents()), routeId, stop, stopNumber, last);
      && db.Contents() == placed.0
      && placed.1 == if LocationHasCoordinates(location) then Some(location) else last
    ensures db.Valid()
  {
    var found := FindLocation(db, dist, stop.location, last);
    ChosenIsStored(dist, db.Contents(), stop.location, last);
    if found.Some? {
      location := found.value;
    } else {
      location := CreateLocationFromStop(db, stop);
    }
    db.CreateRouteStop(RouteStop(stop.name, routeId, location.id, stopNumber));
  }

  /** createRoute: a new route with one stop per stop of the report. */
  method CreateRoute(db: Database, dist: Distance, dto: ReportDto) returns (routeId: nat)
    requires db.Valid()
    modifies db
    ensures routeId == old(db.routeCount)
    ensures db.Contents() == PlaceStops(dist, AddRoute(old(db.Contents())), routeId, dto.stops).0
    ensures db.Valid()
  {
    routeId := db.CreateRoute();
    CreateRouteStops(db, dist, routeId, dto.stops);
  }

  /** createRoute's loop: createRouteStop for each stop in order, numbered
      from 0, carrying the last located stop from one to the next. */
  method CreateRouteStops(db: Database, dist: Distance, routeId: nat, stops: seq<RouteStopDto>)
    requires db.Valid() && routeId < db.routeCount
    modifies db
    ensures db.Contents() == PlaceStops(dist, old(db.Contents()), routeId, stops).0
    ensures db.Valid()
  {
    ghost var start := db.Contents();
    var last: Option<Location> := None;
    var stopNumber := 0;
    while stopNumber < |stops|
      invariant 0 <= stopNumber <= |stops|
      invariant db.Valid() && routeId < db.routeCount
      invariant (db.Contents(), last) == PlaceStops(dist, start, routeId, stops[..stopNumber])
    {
      PlaceStopsStep(dist, start, routeId, stops, stopNumber);
      var location := CreateRouteStop(db, dist, routeId, stops[stopNumber], stopNumber, last);
      if LocationHasCoordinates(location) {
        last := Some(location);
      }
      stopNumber := stopNumber + 1;
    }
    assert stops[..stopNumber] == stops;
  }

  /** createReport */
  method CreateReport(db: Database, dto: ReportDto, routeId: nat) returns (report: Report)
    requires db.Valid() && routeId < db.routeCount
    modifies db
    ensures report == Report(old(|db.reports|), dto.title, dto.authorName, dto.tripType, dto.difficulty, dto.season,
                             dto.year, routeId, dto.url, dto.fileUrl)
    ensures db.Contents() == AddReport(old(db.Contents()), report)
    ensures db.Valid()
  {
    report := db.CreateReport(dto.title, dto.authorName, dto.tripType, dto.difficulty, dto.season,
                              dto.year, routeId, dto.url, dto.fileUrl);
  }

  /** createLocationsDifficulty: the stored stops of the report's route are
      read back and paired with the report's stops by position. */
  method CreateLocationsDifficulty(db: Database, dto: ReportDto, report: Report)
    requires db.Valid() && report.id < |db.reports|
    requires |dto.stops| <= |RouteStopsOf(db.routeStops, report.routeId)|
    modifies db
    ensures db.Contents() == AddDifficulties(old(db.Contents()), dto.stops, report)
    ensures db.Valid()
  {
    var stops := RouteStopsOf(db.routeStops, report.routeId);
    RouteStopsOfMembers(db.routeStops, report.routeId);
    ghost var start := db.Contents();
    var i := 0;
    while i < |dto.stops|
      invariant 0 <= i <= |dto.stops|
      invariant db.Valid() && db.routeStops == start.routeStops && db.reports == start.reports
      invariant db.Contents() == start.(difficulties := start.difficulties + DifficultyRows(dto.stops[..i], stops, report))
    {
      assert dto.stops[..i + 1][..i] == dto.stops[..i];
      ghost var rows := DifficultyRows(dto.stops[..i], stops, report);
      ghost var added := if dto.stops[i].location.difficulty.Some? then [DifficultyRow(dto.stops[i], stops[i], report)] else [];
      assert DifficultyRows(dto.stops[..i + 1], stops, report) == rows + added;
      if dto.stops[i].location.difficulty.Some? {
        assert stops[i] in db.routeStops;
        db.CreateLocationDifficulty(DifficultyRow(dto.stops[i], stops[i], report));
      }
      assert db.difficulties == start.difficulties + rows + added;
      assert start.difficulties + rows + added == start.difficulties + (rows + added);
      i := i + 1;
    }
    assert dto.stops[..i] == dto.stops;
  }

  /** One iteration of scarp's loop. */
  method ScarpOne(db: Database, dist: Distance, dto: ReportDto)
    requires db.Valid()
    modifies db
    ensures db.Contents() == ScarpReport(dist, old(db.Contents()), dto)
    ensures db.Valid()
  {
    if ReportExists(db.reports, dto.title, dto.authorName, dto.year, dto.url) {
      return;
    }
    ghost var t := db.Contents();
    NewRouteStops(dist, t, dto.stops);
    var routeId := CreateRoute(db, dist, dto);
    var report := CreateReport(db, dto, routeId);
    CreateLocationsDifficulty(db, dto, report);
  }

  /** scarp: the reports the site yields, in order, each stored unless it
      is already. */
  method Scarp(db: Database, dist: Distance, reports: seq<ReportDto>)
    requires db.Valid()
    modifies db
    ensures db.Contents() == ScarpAll(dist, old(db.Contents()), reports)
    ensures db.Valid()
  {
    ghost var start := db.Contents();
    var i := 0;
    while i < |reports|
      invariant 0 <= i <= |reports|
      invariant db.Valid()
      invariant db.Contents() == ScarpAll(dist, start, reports[..i])
    {
      ScarpAllStep(dist, start, reports, i);
      ScarpOne(db, dist, reports[i]);
      i := i + 1;
    }
    assert reports[..i] == reports;
  }
}
