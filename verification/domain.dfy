/** The entities the scraping pipeline reads and writes: the database enums,
    the records the sources emit, and the rows of the database tables. */
module Domain {
  import opened Wrappers
  import opened JsNumbers

  datatype LocationType =
    | Settlement | Height | Walley | MountainPass | Mountain | NatureObject
    | MountainRange | Stream | Polonyna | Lake | ArtificialObject
    | WaterObject | DrinkingWaterSource | Waterfall

  /** Grades of a pass or a summit. */
  datatype LocationDifficulty =
    | NonCategorized
    | FirstA | FirstAStar | FirstB | FirstBStar
    | SecondA | SecondAStar | SecondB | SecondBStar
    | ThirdA | ThirdAStar | ThirdB | ThirdBStar

  datatype Season = Summer | Autumn | Winter | Spring

  datatype TripType = Cycling | Mountaineering | Ski | Hiking

  datatype TripDifficulty = NonCategorical | First | Second | Third | Fourth | Fifth | Sixth

  /** A place record from a location source (`location.dto.ts`). */
  datatype LocationDto = LocationDto(
    name: string,
    alternateNames: seq<string>,
    latitude: JsNum,
    longitude: JsNum,
    elevation: JsNum,
    locationType: Option<LocationType>,
    difficulty: Option<LocationDifficulty>,
    description: Option<string>)

  /** What the route parser extracts from one stop (`LocationDto` of
      `reports/dto.ts`). */
  datatype StopLocation = StopLocation(
    name: string,
    difficulty: Option<LocationDifficulty>,
    elevation: JsNum,
    locationType: Option<LocationType>)

  /** One stop of a parsed route: its raw text, its position and what was
      extracted from it. */
  datatype RouteStopDto = RouteStopDto(name: string, number: nat, location: StopLocation)

  /** A trip report as scraped; the year stands for the report's date. */
  datatype ReportDto = ReportDto(
    title: string,
    authorName: string,
    tripType: Option<TripType>,
    difficulty: Option<TripDifficulty>,
    season: Option<Season>,
    year: int,
    stops: seq<RouteStopDto>,
    url: string,
    fileUrl: Option<string>)

  /** A row of the location table; `id` is its position in the table. */
  datatype Location = Location(
    id: nat,
    canonicalName: string,
    latitude: Option<real>,
    longitude: Option<real>,
    elevation: Option<real>,
    locationType: Option<LocationType>,
    description: Option<string>)

  /** A row of the name index: `name` is an alias of location `locationId`. */
  datatype NameEntry = NameEntry(name: string, locationId: nat)

  datatype RouteStop = RouteStop(name: string, routeId: nat, locationId: nat, stopNumber: nat)

  datatype Report = Report(
    id: nat,
    title: string,
    authorName: string,
    tripType: Option<TripType>,
    difficulty: Option<TripDifficulty>,
    season: Option<Season>,
    year: int,
    routeId: nat,
    url: string,
    fileUrl: Option<string>)

  datatype LocationToDifficulty = LocationToDifficulty(
    locationId: nat,
    difficulty: LocationDifficulty,
    season: Option<Season>,
    sourceReportId: nat)
}
