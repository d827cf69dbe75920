/** The database tables the scrapers write through the Prisma client, kept
    in memory: each table is a sequence of rows in insertion order, and a
    row's id is its position in its table (ids count from 0 here, not 1).
    Only the queries and writes the scrapers issue are modelled. */
module Store {
  import opened Wrappers
  import opened Domain

  /** All the tables the scrapers touch. */
  datatype Tables = Tables(
    locations: seq<Location>,
    names: seq<NameEntry>,
    routeCount: nat,
    routeStops: seq<RouteStop>,
    reports: seq<Report>,
    difficulties: seq<LocationToDifficulty>)

  /** Ids are positions, and every foreign key refers to an existing row. */
  predicate WellFormed(t: Tables) {
    && (forall i :: 0 <= i < |t.locations| ==> t.locations[i].id == i)
    && (forall i :: 0 <= i < |t.names| ==> t.names[i].locationId < |t.locations|)
    && (forall i :: 0 <= i < |t.routeStops| ==>
          t.routeStops[i].routeId < t.routeCount && t.routeStops[i].locationId < |t.locations|)
    && (forall i :: 0 <= i < |t.reports| ==> t.reports[i].id == i && t.reports[i].routeId < t.routeCount)
    && (forall i :: 0 <= i < |t.difficulties| ==>
          t.difficulties[i].locationId < |t.locations| && t.difficulties[i].sourceReportId < |t.reports|)
  }

  const Empty := Tables([], [], 0, [], [], [])

  lemma EmptyWellFormed()
    ensures WellFormed(Empty)
  {
  }

  // ---------------------------------------------------------------------
  // Writes

  /** `location.create`: a new row with the next id and no description. */
  function AddLocation(t: Tables, canonicalName: string, latitude: Option<real>, longitude: Option<real>,
                       elevation: Option<real>, locationType: Option<LocationType>): (r: Tables)
    ensures |r.locations| == |t.locations| + 1 && r.locations[..|t.locations|] == t.locations
    ensures r.locations[|t.locations|] ==
      Location(|t.locations|, canonicalName, latitude, longitude, elevation, locationType, None)
    ensures r.(locations := t.locations) == t
    ensures WellFormed(t) ==> WellFormed(r)
  {
    t.(locations := t.locations + [Location(|t.locations|, canonicalName, latitude, longitude, elevation, locationType, None)])
  }

  /** `location.update` of the description of an existing row. */
  function SetDescription(t: Tables, id: nat, description: string): (r: Tables)
    requires id < |t.locations|
    ensures |r.locations| == |t.locations|
    ensures forall i :: 0 <= i < |t.locations| && i != id ==> r.locations[i] == t.locations[i]
    ensures r.locations[id] == t.locations[id].(description := Some(description))
    ensures r.(locations := t.locations) == t
    ensures WellFormed(t) ==> WellFormed(r)
  {
    t.(locations := t.locations[id := t.locations[id].(description := Some(description))])
  }

  /** `nameToLocation.createMany`: the entries are appended in order. */
  function AddNames(t: Tables, entries: seq<NameEntry>): (r: Tables)
    ensures r.names == t.names + entries
    ensures r.(names := t.names) == t
    ensures WellFormed(t) && (forall i :: 0 <= i < |entries| ==> entries[i].locationId < |t.locations|)
            ==> WellFormed(r)
  {
    t.(names := t.names + entries)
  }

  /** `route.create`: the new route's id is the number of routes so far. */
  function AddRoute(t: Tables): (r: Tables)
    ensures r.routeCount == t.routeCount + 1
    ensures r.(routeCount := t.routeCount) == t
    ensures WellFormed(t) ==> WellFormed(r)
  {
    t.(routeCount := t.routeCount + 1)
  }

  /** `routeStop.create` */
  function AddRouteStop(t: Tables, stop: RouteStop): (r: Tables)
    ensures r.routeStops == t.routeStops + [stop]
    ensures r.(routeStops := t.routeStops) == t
    ensures WellFormed(t) && stop.routeId < t.routeCount && stop.locationId < |t.locations| ==> WellFormed(r)
  {
    t.(routeStops := t.routeStops + [stop])
  }

  /** `report.create`: the report row with the next id. */
  function AddReport(t: Tables, report: Report): (r: Tables)
    ensures r.reports == t.reports + [report]
    ensures r.(reports := t.reports) == t
    ensures WellFormed(t) && report.id == |t.reports| && report.routeId < t.routeCount ==> WellFormed(r)
  {
    t.(reports := t.reports + [report])
  }

  /** `locationToDifficulty.create` */
  function AddDifficulty(t: Tables, row: LocationToDifficulty): (r: Tables)
    ensures r.difficulties == t.difficulties + [row]
    ensures r.(difficulties := t.difficulties) == t
    ensures WellFormed(t) && row.locationId < |t.locations| && row.sourceReportId < |t.reports| ==> WellFormed(r)
  {
    t.(difficulties := t.difficulties + [row])
  }

  // ---------------------------------------------------------------------
  // Queries

  /** `nameToLocation.findMany({ where: { name }, include: { location } })`
      mapped to the locations: one location per entry with that name, in
      the order of the entries. */
  function LocationsNamed(names: seq<NameEntry>, locations: seq<Location>, name: string): (r: seq<Location>)
    requires forall i :: 0 <= i < |names| ==> names[i].locationId < |locations|
    ensures |r| <= |names|
  {
    if names == [] then []
    else (if names[0].name == name then [locations[names[0].locationId]] else []) + LocationsNamed(names[1..], locations, name)
  }

  /** A name finds only stored locations, nothing when no entry has it, and
      the location of every entry that has it. */
  lemma {:induction false} LocationsNamedMembers(names: seq<NameEntry>, locations: seq<Location>, name: string)
    requires forall i :: 0 <= i < |names| ==> names[i].locationId < |locations|
    ensures forall l :: l in LocationsNamed(names, locations, name) ==> l in locations
    ensures (forall i :: 0 <= i < |names| ==> names[i].name != name) ==> LocationsNamed(names, locations, name) == []
    ensures forall i :: 0 <= i < |names| && names[i].name == name ==>
      locations[names[i].locationId] in LocationsNamed(names, locations, name)
    decreases |names|
  {
    if names != [] {
      LocationsNamedMembers(names[1..], locations, name);
      assert forall i :: 1 <= i < |names| ==> names[i] == names[1..][i - 1];
    }
  }

  /** Entries added for other names do not change what a name finds. */
  lemma {:induction false} LocationsNamedAppend(names: seq<NameEntry>, more: seq<NameEntry>, locations: seq<Location>, name: string)
    requires forall i :: 0 <= i < |names| ==> names[i].locationId < |locations|
    requires forall i :: 0 <= i < |more| ==> more[i].locationId < |locations|
    ensures forall i :: 0 <= i < |names + more| ==> (names + more)[i].locationId < |locations|
    ensures LocationsNamed(names + more, locations, name)
         == LocationsNamed(names, locations, name) + LocationsNamed(more, locations, name)
    decreases |names|
  {
    if names != [] {
      assert (names + more)[0] == names[0];
      assert (names + more)[1..] == names[1..] + more;
      LocationsNamedAppend(names[1..], more, locations, name);
      var head := if names[0].name == name then [locations[names[0].locationId]] else [];
      assert LocationsNamed(names + more, locations, name) == head + LocationsNamed(names[1..] + more, locations, name);
      assert LocationsNamed(names, locations, name) == head + LocationsNamed(names[1..], locations, name);
    } else {
      assert names + more == more;
    }
  }

  /** Every location a name finds comes from an entry with that name. */
  lemma {:induction false} LocationsNamedWitness(names: seq<NameEntry>, locations: seq<Location>, name: string, l: Location)
    requires forall i :: 0 <= i < |names| ==> names[i].locationId < |locations|
    requires l in LocationsNamed(names, locations, name)
    ensures exists i :: 0 <= i < |names| && names[i].name == name && locations[names[i].locationId] == l
    decreases |names|
  {
    if names[0].name == name && locations[names[0].locationId] == l {
      assert names[0].name == name;
    } else {
      LocationsNamedWitness(names[1..], locations, name, l);
      var i :| 0 <= i < |names[1..]| && names[1..][i].name == name && locations[names[1..][i].locationId] == l;
      assert names[i + 1] == names[1..][i];
    }
  }

  /** `report.findFirst` on title, author, year and url, tested for null. */
  predicate ReportExists(reports: seq<Report>, title: string, authorName: string, year: int, url: string) {
    exists i :: 0 <= i < |reports| && reports[i].title == title && reports[i].authorName == authorName
                && reports[i].year == year && reports[i].url == url
  }

  /** `routeStop.findMany({ where: { routeId } })`, in insertion order. */
  function RouteStopsOf(stops: seq<RouteStop>, routeId: nat): (r: seq<RouteStop>)
    ensures |r| <= |stops|
  {
    if stops == [] then []
    else (if stops[0].routeId == routeId then [stops[0]] else []) + RouteStopsOf(stops[1..], routeId)
  }

  /** A route's stops are stored stops on that route, and every stored stop
      on it is one. */
  lemma {:induction false} RouteStopsOfMembers(stops: seq<RouteStop>, routeId: nat)
    ensures forall s :: s in RouteStopsOf(stops, routeId) ==> s in stops && s.routeId == routeId
    ensures forall i :: 0 <= i < |stops| && stops[i].routeId == routeId ==> stops[i] in RouteStopsOf(stops, routeId)
    decreases |stops|
  {
    if stops != [] {
      RouteStopsOfMembers(stops[1..], routeId);
      assert forall i :: 1 <= i < |stops| ==> stops[i] == stops[1..][i - 1];
    }
  }

  lemma {:induction false} RouteStopsOfAppend(stops: seq<RouteStop>, more: seq<RouteStop>, routeId: nat)
    ensures RouteStopsOf(stops + more, routeId) == RouteStopsOf(stops, routeId) + RouteStopsOf(more, routeId)
    decreases |stops|
  {
    if stops != [] {
      assert (stops + more)[0] == stops[0];
      assert (stops + more)[1..] == stops[1..] + more;
      RouteStopsOfAppend(stops[1..], more, routeId);
      var head := if stops[0].routeId == routeId then [stops[0]] else [];
      assert RouteStopsOf(stops + more, routeId) == head + RouteStopsOf(stops[1..] + more, routeId);
      assert RouteStopsOf(stops, routeId) == head + RouteStopsOf(stops[1..], routeId);
    } else {
      assert stops + more == more;
    }
  }

  /** Stops all on one route are all found for it, in order. */
  lemma {:induction false} RouteStopsOfOneRoute(stops: seq<RouteStop>, routeId: nat)
    requires forall i :: 0 <= i < |stops| ==> stops[i].routeId == routeId
    ensures RouteStopsOf(stops, routeId) == stops
    decreases |stops|
  {
    if stops != [] {
      RouteStopsOfOneRoute(stops[1..], routeId);
    }
  }

  /** When the stops after the first |before| are all on a route no earlier
      stop is on, they are that route's stops. */
  lemma RouteStopsOfNewRoute(before: seq<RouteStop>, stops: seq<RouteStop>, routeId: nat)
    requires |before| <= |stops| && stops[..|before|] == before
    requires forall i :: 0 <= i < |before| ==> before[i].routeId < routeId
    requires forall i :: |before| <= i < |stops| ==> stops[i].routeId == routeId
    ensures RouteStopsOf(stops, routeId) == stops[|before|..]
  {
    var added := stops[|before|..];
    assert stops == before + added;
    NewRouteHasNoStops(before, routeId);
    RouteStopsOfOneRoute(added, routeId);
    RouteStopsOfAppend(before, added, routeId);
  }

  /** A route whose id is not yet taken has no stops. */
  lemma {:induction false} NewRouteHasNoStops(stops: seq<RouteStop>, routeId: nat)
    requires forall i :: 0 <= i < |stops| ==> stops[i].routeId < routeId
    ensures RouteStopsOf(stops, routeId) == []
    decreases |stops|
  {
    if stops != [] {
      NewRouteHasNoStops(stops[1..], routeId);
    }
  }

  // ---------------------------------------------------------------------
  // The database the scrapers write to

  class Database {
    var locations: seq<Location>
    var names: seq<NameEntry>
    var routeCount: nat
    var routeStops: seq<RouteStop>
    var reports: seq<Report>
    var difficulties: seq<LocationToDifficulty>

    /** The contents of every table. */
    function Contents(): Tables
      reads this
    {
      Tables(locations, names, routeCount, routeStops, reports, difficulties)
    }

    ghost predicate Valid()
      reads this
    {
      WellFormed(Contents())
    }

    constructor ()
      ensures Contents() == Empty && Valid()
    {
      locations, names, routeCount, routeStops, reports, difficulties := [], [], 0, [], [], [];
    }

    method CreateLocation(canonicalName: string, latitude: Option<real>, longitude: Option<real>,
                          elevation: Option<real>, locationType: Option<LocationType>) returns (l: Location)
      requires Valid()
      modifies this
      ensures Contents() == AddLocation(old(Contents()), canonicalName, latitude, longitude, elevation, locationType)
      ensures l.id == old(|locations|) < |locations| && l == locations[l.id]
      ensures Valid()
    {
      l := Location(|locations|, canonicalName, latitude, longitude, elevation, locationType, None);
      locations := locations + [l];
    }

    method UpdateDescription(id: nat, description: string)
      requires Valid() && id < |locations|
      modifies this
      ensures Contents() == SetDescription(old(Contents()), id, description)
      ensures Valid()
    {
      locations := locations[id := locations[id].(description := Some(description))];
    }

    method CreateNames(entries: seq<NameEntry>)
      requires Valid() && forall i :: 0 <= i < |entries| ==> entries[i].locationId < |locations|
      modifies this
      ensures Contents() == AddNames(old(Contents()), entries)
      ensures Valid()
    {
      names := names + entries;
    }

    method CreateRoute() returns (routeId: nat)
      requires Valid()
      modifies this
      ensures Contents() == AddRoute(old(Contents()))
      ensures routeId == old(routeCount)
      ensures Valid()
    {
      routeId := routeCount;
      routeCount := routeCount + 1;
    }

    method CreateRouteStop(stop: RouteStop)
      requires Valid() && stop.routeId < routeCount && stop.locationId < |locations|
      modifies this
      ensures Contents() == AddRouteStop(old(Contents()), stop)
      ensures Valid()
    {
      routeStops := routeStops + [stop];
    }

    method CreateReport(title: string, authorName: string, tripType: Option<TripType>,
                        difficulty: Option<TripDifficulty>, season: Option<Season>, year: int,
                        routeId: nat, url: string, fileUrl: Option<string>) returns (report: Report)
      requires Valid() && routeId < routeCount
      modifies this
      ensures report == Report(old(|reports|), title, authorName, tripType, difficulty, season, year, routeId, url, fileUrl)
      ensures Contents() == AddReport(old(Contents()), report)
      ensures Valid()
    {
      report := Report(|reports|, title, authorName, tripType, difficulty, season, year, routeId, url, fileUrl);
      reports := reports + [report];
    }

    method CreateLocationDifficulty(row: LocationToDifficulty)
      requires Valid() && row.locationId < |locations| && row.sourceReportId < |reports|
      modifies this
      ensures Contents() == AddDifficulty(old(Contents()), row)
      ensures Valid()
    {
      difficulties := difficulties + [row];
    }
  }
}
