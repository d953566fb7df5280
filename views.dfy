/** What the dashboard derives from the region collection without changing
    it: the summary counters (`updateStats`), the figures of the detail
    panel (`getHealthcareRatio`, `getStatusMessage`), the admin panel's
    status labels (`getStatusLabel`) and the tooltip's issue line. */
module Views {
  import opened RegionModel
  import opened Transitions
  import Text

  /** How many regions have status `s`: the summary card's counter. */
  function CountStatus(rs: seq<Region>, s: Status): (n: nat)
    ensures n <= |rs|
  {
    if rs == [] then 0
    else (if rs[0].status == s then 1 else 0) + CountStatus(rs[1..], s)
  }

  /** The sum of the regions' populations, added from the first region to
      the last as the source's left fold does. */
  function TotalPopulation(rs: seq<Region>): nat {
    if rs == [] then 0
    else TotalPopulation(rs[..|rs| - 1]) + rs[|rs| - 1].healthData.population
  }

  datatype Stats = Stats(secureCount: nat, moderateCount: nat, dangerCount: nat, totalPopulation: nat)

  /** Every region falls under exactly one of the three counters. */
  lemma {:induction false} StatusCountsSum(rs: seq<Region>)
    ensures CountStatus(rs, Secure) + CountStatus(rs, Moderate) + CountStatus(rs, Danger) == |rs|
  {
    if rs != [] {
      StatusCountsSum(rs[1..]);
    }
  }

  /** The figures `updateStats` writes to the summary cards: each counter
      counts the regions of its status, the three add up to the number of
      regions, and an empty collection gives all zeros. */
  function ComputeStats(rs: seq<Region>): (st: Stats)
    ensures st.secureCount == CountStatus(rs, Secure)
    ensures st.moderateCount == CountStatus(rs, Moderate)
    ensures st.dangerCount == CountStatus(rs, Danger)
    ensures st.secureCount + st.moderateCount + st.dangerCount == |rs|
    ensures st.totalPopulation == TotalPopulation(rs)
    ensures rs == [] ==> st == Stats(0, 0, 0, 0)
  {
    StatusCountsSum(rs);
    Stats(CountStatus(rs, Secure), CountStatus(rs, Moderate), CountStatus(rs, Danger), TotalPopulation(rs))
  }

  /** The population total is additive over concatenation. */
  lemma {:induction false} TotalPopulationAppend(a: seq<Region>, b: seq<Region>)
    ensures TotalPopulation(a + b) == TotalPopulation(a) + TotalPopulation(b)
  {
    if b == [] {
      assert a + b == a;
    } else {
      var b' := b[..|b| - 1];
      assert (a + b)[..|a + b| - 1] == a + b';
      assert (a + b)[|a + b| - 1] == b[|b| - 1];
      TotalPopulationAppend(a, b');
    }
  }

  /** Two collections whose regions have the same populations, position by
      position, have the same total. */
  lemma {:induction false} TotalPopulationPointwise(rs: seq<Region>, rs': seq<Region>)
    requires |rs| == |rs'|
    requires forall k :: 0 <= k < |rs| ==> rs[k].healthData.population == rs'[k].healthData.population
    ensures TotalPopulation(rs) == TotalPopulation(rs')
  {
    if rs != [] {
      TotalPopulationPointwise(rs[..|rs| - 1], rs'[..|rs'| - 1]);
    }
  }

  /** A report leaves the total population as it was. */
  lemma ReportKeepsTotalPopulation(rs: seq<Region>, id: string, issue: string, today: string)
    ensures TotalPopulation(ReportAll(rs, id, issue, today)) == TotalPopulation(rs)
  {
    var rs' := ReportAll(rs, id, issue, today);
    ReportAllFrame(rs, id, issue, today);
    forall k | 0 <= k < |rs| ensures rs[k].healthData.population == rs'[k].healthData.population {
      if rs[k].id == id {
        ReportAllTarget(rs, id, issue, today, k);
      }
    }
    TotalPopulationPointwise(rs, rs');
  }

  /** An override leaves the total population as it was. */
  lemma SetStatusKeepsTotalPopulation(rs: seq<Region>, id: string, s: Status, today: string)
    ensures TotalPopulation(SetStatusAll(rs, id, s, today)) == TotalPopulation(rs)
  {
    var rs' := SetStatusAll(rs, id, s, today);
    SetStatusAllFrame(rs, id, s, today);
    forall k | 0 <= k < |rs| ensures rs[k].healthData.population == rs'[k].healthData.population {
      if rs[k].id == id {
        SetStatusAllTarget(rs, id, s, today, k);
      }
    }
    TotalPopulationPointwise(rs, rs');
  }

  /** 1 when the region has status `s`, else 0. */
  function Indicator(r: Region, s: Status): nat {
    if r.status == s then 1 else 0
  }

  /** Replacing one region moves it from the counter of its old status to
      the counter of its new one. */
  lemma {:induction false} CountStatusUpdate(rs: seq<Region>, k: nat, r: Region, s: Status)
    requires k < |rs|
    ensures CountStatus(rs[k := r], s) + Indicator(rs[k], s) == CountStatus(rs, s) + Indicator(r, s)
  {
    if k > 0 {
      assert rs[k := r][1..] == rs[1..][k - 1 := r];
      CountStatusUpdate(rs[1..], k - 1, r, s);
    } else {
      assert rs[k := r][1..] == rs[1..];
    }
  }

  /** With unique ids, an override of region `k` to status `s` moves exactly
      one region between the counters (none when its status was already `s`). */
  lemma SetStatusCounts(rs: seq<Region>, id: string, s: Status, today: string, k: nat, t: Status)
    requires UniqueIds(rs) && k < |rs| && rs[k].id == id
    ensures CountStatus(SetStatusAll(rs, id, s, today), t) + Indicator(rs[k], t)
         == CountStatus(rs, t) + (if s == t then 1 else 0)
  {
    MapWhereIdUnique(rs, id, r => WithStatus(r, s, today), k);
    CountStatusUpdate(rs, k, WithStatus(rs[k], s, today), t);
  }

  /** The people-per-facility figure: `facilities * r` is within half a
      facility count of the population, so `r` is within 1/2 of the
      quotient, halves rounded up; there is none when there are no
      facilities (the division then gives Infinity or NaN). */
  function HealthcareRatio(population: nat, facilities: nat): (r: Option<nat>)
    ensures r.None? <==> facilities == 0
    ensures r.Some? ==> 2 * (population - facilities * r.value) < facilities
    ensures r.Some? ==> 2 * (facilities * r.value - population) <= facilities
  {
    if facilities == 0 then None
    else
      var q := (2 * population + facilities) / (2 * facilities);
      var m := (2 * population + facilities) % (2 * facilities);
      assert 2 * population + facilities == 2 * facilities * q + m;
      Some(q)
  }

  /** `p / f` lies within half of `r` when `p` lies within half of `f`
      around `f * r`. */
  lemma HalfAround(p: real, f: real, r: real)
    requires f > 0.0
    requires 2.0 * (p - f * r) < f && 2.0 * (f * r - p) <= f
    ensures r - 0.5 <= p / f < r + 0.5
  {
    var x := p / f;
    assert p == f * x;
    var e := x - r;
    assert p - f * r == f * e;
  }

  /** The ratio is the quotient rounded half-up, stated on real numbers as
      `Math.round` defines it: `r - 1/2 <= population / facilities < r + 1/2`. */
  lemma RatioIsRoundedQuotient(population: nat, facilities: nat)
    requires facilities > 0
    ensures var r := HealthcareRatio(population, facilities).value as real;
      var x := population as real / facilities as real;
      r - 0.5 <= x < r + 0.5
  {
    var r := HealthcareRatio(population, facilities).value;
    var d := population - facilities * r;
    assert 2 * d < facilities && -2 * d <= facilities;
    HalfAround(population as real, facilities as real, r as real);
  }

  /** A positive factor keeps a product at least as large as the factor. */
  lemma MulAtLeast(f: int, k: int)
    requires f > 0 && k >= 1
    ensures f * k >= f
  {
    assert f * k == f * (k - 1) + f;
    assert f * (k - 1) >= 0;
  }

  /** The rounded ratio is the only whole number `n` whose multiple
      `facilities * n` is within half a facility count of the population
      (ties going up), that is, within 1/2 of the quotient. */
  lemma RatioUnique(population: nat, facilities: nat, n: nat)
    requires facilities > 0
    requires 2 * (population - facilities * n) < facilities
    requires 2 * (facilities * n - population) <= facilities
    ensures HealthcareRatio(population, facilities) == Some(n)
  {
    var r := HealthcareRatio(population, facilities).value;
    var f := facilities;
    assert 2 * (f * n - f * r) < 2 * f;
    assert 2 * (f * r - f * n) < 2 * f;
    if n > r {
      assert f * n - f * r == f * (n - r);
      MulAtLeast(f, n - r);
    } else if n < r {
      assert f * r - f * n == f * (r - n);
      MulAtLeast(f, r - n);
    }
  }

  /** When the facilities divide the population the ratio is the exact quotient. */
  lemma RatioExact(population: nat, facilities: nat)
    requires facilities > 0 && population % facilities == 0
    ensures HealthcareRatio(population, facilities) == Some(population / facilities)
  {
    var q := population / facilities;
    assert population == facilities * q;
    RatioUnique(population, facilities, q);
  }

  /** "People per facility" on a region's detail panel. */
  function PeoplePerFacility(r: Region): Option<nat> {
    HealthcareRatio(r.healthData.population, r.healthData.clinics + r.healthData.hospitals)
  }

  datatype StatusMessage = StatusMessage(title: string, description: string)

  /** The message shown for a status string that is none of the three. */
  const UnknownStatusMessage: StatusMessage :=
    StatusMessage("Status unknown", "Unable to determine current health status")

  /** The detail panel's headline for a stored status string; the fallback
      appears exactly for a string that is not a status. */
  function GetStatusMessage(raw: string): (m: StatusMessage)
    ensures m == UnknownStatusMessage <==> ParseStatus(raw).None?
  {
    if raw == "secure" then
      StatusMessage("Area is secure and well-serviced", "Good healthcare coverage and low risk factors")
    else if raw == "moderate" then
      StatusMessage("Some health concerns require attention", "Limited resources or emerging health concerns")
    else if raw == "danger" then
      StatusMessage("Immediate attention needed - critical health issues", "Insufficient healthcare access or severe health risks")
    else UnknownStatusMessage
  }

  /** Distinct statuses get distinct messages. */
  lemma StatusMessagesDistinct(s: Status, t: Status)
    ensures GetStatusMessage(StatusName(s)) == GetStatusMessage(StatusName(t)) ==> s == t
  {
    ParseStatusName(s);
    ParseStatusName(t);
  }

  /** The admin panel's label for a stored status string; "Unknown"
      appears exactly for a string that is not a status. */
  function GetStatusLabel(raw: string): (l: string)
    ensures l == "Unknown" <==> ParseStatus(raw).None?
  {
    if raw == "secure" then "Secure"
    else if raw == "moderate" then "Moderate Risk"
    else if raw == "danger" then "High Risk"
    else "Unknown"
  }

  /** Distinct statuses get distinct labels. */
  lemma StatusLabelsDistinct(s: Status, t: Status)
    ensures GetStatusLabel(StatusName(s)) == GetStatusLabel(StatusName(t)) ==> s == t
  {
    ParseStatusName(s);
    ParseStatusName(t);
  }

  function Min(a: int, b: int): int { if a < b then a else b }

  /** The tooltip's issue line: the first two issues separated by ", ",
      followed by "..." when there are more than two. */
  function IssuesSummary(issues: seq<string>): (r: string)
    ensures |issues| == 0 ==> r == ""
    ensures |issues| == 1 ==> r == issues[0]
    ensures |issues| == 2 ==> r == issues[0] + ", " + issues[1]
    ensures |issues| > 2 ==> r == issues[0] + ", " + issues[1] + "..."
  {
    if |issues| > 0 then
      var shown := issues[..Min(2, |issues|)];
      assert |shown| == 2 ==> shown[1..] == [issues[1]] && Text.Join(shown[1..], ", ") == issues[1];
      Text.Join(shown, ", ") + (if |issues| > 2 then "..." else "")
    else ""
  }
}
