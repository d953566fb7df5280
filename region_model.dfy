/** The region records of the health map and the five districts it starts
    with (script.js, the `regions` array of the `HealthMapApp` constructor). */
module RegionModel {

  /** A region's health status: a closed set of three values. */
  datatype Status = Secure | Moderate | Danger

  /** The string the application stores for a status. */
  function StatusName(s: Status): string {
    match s
    case Secure => "secure"
    case Moderate => "moderate"
    case Danger => "danger"
  }

  /** Reads a stored status string; any other string is not a status. */
  function ParseStatus(raw: string): (r: Option<Status>)
    ensures r.Some? ==> StatusName(r.value) == raw
  {
    if raw == "secure" then Some(Secure)
    else if raw == "moderate" then Some(Moderate)
    else if raw == "danger" then Some(Danger)
    else None
  }

  /** Every status survives the trip through its stored name, so the names
      of distinct statuses are distinct. */
  lemma ParseStatusName(s: Status)
    ensures ParseStatus(StatusName(s)) == Some(s)
  {
    match s
    case Secure =>
    case Moderate => assert StatusName(s) != "secure";
    case Danger => assert StatusName(s) != "secure" && StatusName(s) != "moderate";
  }

  datatype Option<T> = None | Some(value: T)

  /** Label position on the map; carried along, never interpreted. */
  datatype Point = Point(x: int, y: int)

  datatype HealthData = HealthData(
    clinics: nat,
    hospitals: nat,
    population: nat,
    issues: seq<string>,
    lastUpdate: string)

  datatype Region = Region(
    id: string,
    name: string,
    status: Status,
    healthData: HealthData,
    recentReports: nat,
    coordinates: string,     // SVG path, opaque to the model
    textPosition: Point)

  /** No two regions share an id. */
  predicate UniqueIds(rs: seq<Region>) {
    forall a, b :: 0 <= a < b < |rs| ==> rs[a].id != rs[b].id
  }

  /** The regions in order, by id. */
  function Ids(rs: seq<Region>): (r: seq<string>)
    ensures |r| == |rs| && forall k :: 0 <= k < |rs| ==> r[k] == rs[k].id
  {
    if rs == [] then [] else [rs[0].id] + Ids(rs[1..])
  }

  /** The five districts the application starts with when nothing has been
      saved: distinct ids, and each has at least one facility. */
  function Seed(): (rs: seq<Region>)
    ensures |rs| == 5
    ensures UniqueIds(rs)
    ensures forall k :: 0 <= k < |rs| ==> rs[k].healthData.clinics + rs[k].healthData.hospitals > 0
  {
    [ Region("downtown", "Downtown District", Secure,
        HealthData(8, 2, 45000, ["Air quality monitoring needed"], "2024-01-15"),
        2, "M100,150 L200,120 L280,180 L200,240 L120,220 Z", Point(160, 190)),
      Region("northside", "Northside", Moderate,
        HealthData(4, 1, 32000, ["Limited clinic access", "Water quality concerns"], "2024-01-14"),
        5, "M200,50 L350,40 L380,120 L280,180 L200,120 Z", Point(290, 90)),
      Region("eastward", "Eastward", Danger,
        HealthData(2, 0, 28000, ["No nearby hospitals", "Contaminated water source", "High pollution levels"], "2024-01-13"),
        12, "M380,120 L480,100 L520,180 L450,250 L350,240 L280,180 Z", Point(400, 180)),
      Region("westside", "Westside", Secure,
        HealthData(6, 1, 38000, [], "2024-01-15"),
        1, "M50,180 L100,150 L120,220 L200,240 L150,320 L70,300 Z", Point(110, 240)),
      Region("southend", "South End", Moderate,
        HealthData(3, 1, 25000, ["Elderly care shortage", "Mental health resources needed"], "2024-01-14"),
        7, "M150,320 L200,240 L280,180 L350,240 L450,250 L400,350 L200,360 Z", Point(275, 300))
    ]
  }

  /** The seed's ids, in order. */
  lemma SeedIds()
    ensures Ids(Seed()) == ["downtown", "northside", "eastward", "westside", "southend"]
  {
  }
}
