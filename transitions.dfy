/** The two ways the region collection changes: a citizen report
    (`submitReport`, script.js:546-564) and an administrator's status
    override (`updateRegionStatus`, script.js:706-718). Both rebuild the
    collection with `map`, replacing each region whose id matches and
    keeping every other region as it is. */
module Transitions {
  import opened RegionModel

  /** Applies `f` to every region whose id is `id` and keeps the others,
      in the same order. */
  function MapWhereId(rs: seq<Region>, id: string, f: Region -> Region): (r: seq<Region>)
    ensures |r| == |rs|
  {
    if rs == [] then []
    else [if rs[0].id == id then f(rs[0]) else rs[0]] + MapWhereId(rs[1..], id, f)
  }

  /** Position by position, the mapped collection holds `f` of each matching
      region and the region itself otherwise. */
  lemma {:induction false} MapWhereIdAt(rs: seq<Region>, id: string, f: Region -> Region)
    ensures forall k :: 0 <= k < |rs| ==>
      MapWhereId(rs, id, f)[k] == if rs[k].id == id then f(rs[k]) else rs[k]
  {
    if rs != [] {
      MapWhereIdAt(rs[1..], id, f);
      var res := MapWhereId(rs, id, f);
      forall k | 0 < k < |rs|
        ensures res[k] == if rs[k].id == id then f(rs[k]) else rs[k]
      {
        assert res[k] == MapWhereId(rs[1..], id, f)[k - 1];
        assert rs[k] == rs[1..][k - 1];
      }
    }
  }

  /** An id that matches no region leaves the collection as it was. */
  lemma MapWhereIdAbsent(rs: seq<Region>, id: string, f: Region -> Region)
    requires forall k :: 0 <= k < |rs| ==> rs[k].id != id
    ensures MapWhereId(rs, id, f) == rs
  {
    MapWhereIdAt(rs, id, f);
  }

  /** With unique ids, the map replaces exactly one element. */
  lemma MapWhereIdUnique(rs: seq<Region>, id: string, f: Region -> Region, k: nat)
    requires UniqueIds(rs) && k < |rs| && rs[k].id == id
    ensures MapWhereId(rs, id, f) == rs[k := f(rs[k])]
  {
    MapWhereIdAt(rs, id, f);
  }

  /** The text a report adds to the issue list: `${reportType}: ${description}`. */
  function FormatIssue(reportType: string, description: string): string {
    reportType + ": " + description
  }

  /** The threshold rule applied to the new report count: more than 10 is
      danger, 6 to 10 is moderate, otherwise the status is kept. */
  function StatusAfterReport(count: nat, current: Status): Status {
    if count > 10 then Danger
    else if count > 5 then Moderate
    else current
  }

  /** One report applied to one region. */
  function AddReport(r: Region, issue: string, today: string): Region {
    var count := r.recentReports + 1;
    r.(recentReports := count,
       healthData := r.healthData.(issues := r.healthData.issues + [issue], lastUpdate := today),
       status := StatusAfterReport(count, r.status))
  }

  /** The administrator's override applied to one region. */
  function WithStatus(r: Region, s: Status, today: string): Region {
    r.(status := s, healthData := r.healthData.(lastUpdate := today))
  }

  /** The collection after `submitReport(id, type, description)` on `today`. */
  function ReportAll(rs: seq<Region>, id: string, issue: string, today: string): seq<Region> {
    MapWhereId(rs, id, r => AddReport(r, issue, today))
  }

  /** The collection after `updateRegionStatus(id, s)` on `today`. */
  function SetStatusAll(rs: seq<Region>, id: string, s: Status, today: string): seq<Region> {
    MapWhereId(rs, id, r => WithStatus(r, s, today))
  }

  /** A report keeps the number, order and ids of the regions, and every
      region with another id is untouched. */
  lemma ReportAllFrame(rs: seq<Region>, id: string, issue: string, today: string)
    ensures Ids(ReportAll(rs, id, issue, today)) == Ids(rs)
    ensures forall k :: 0 <= k < |rs| && rs[k].id != id ==> ReportAll(rs, id, issue, today)[k] == rs[k]
  {
    MapWhereIdAt(rs, id, r => AddReport(r, issue, today));
  }

  /** What a report does to the region it names: one more report, the issue
      appended at the end, today's date, and the threshold rule on the new
      count, which lowers a danger region with 6 to 10 reports to moderate
      and raises any region with more than 10 to danger. */
  lemma ReportAllTarget(rs: seq<Region>, id: string, issue: string, today: string, k: nat)
    requires k < |rs| && rs[k].id == id
    ensures var r, r' := rs[k], ReportAll(rs, id, issue, today)[k];
      && r'.id == r.id && r'.name == r.name
      && r'.coordinates == r.coordinates && r'.textPosition == r.textPosition
      && r'.recentReports == r.recentReports + 1
      && r'.healthData.issues == r.healthData.issues + [issue]
      && r'.healthData.lastUpdate == today
      && r'.healthData.clinics == r.healthData.clinics
      && r'.healthData.hospitals == r.healthData.hospitals
      && r'.healthData.population == r.healthData.population
      && (r'.recentReports > 10 ==> r'.status == Danger)
      && (5 < r'.recentReports <= 10 ==> r'.status == Moderate)
      && (r'.recentReports <= 5 ==> r'.status == r.status)
  {
    MapWhereIdAt(rs, id, r => AddReport(r, issue, today));
  }

  /** A report on an id that matches no region changes nothing. */
  lemma ReportAllAbsent(rs: seq<Region>, id: string, issue: string, today: string)
    requires forall k :: 0 <= k < |rs| ==> rs[k].id != id
    ensures ReportAll(rs, id, issue, today) == rs
  {
    MapWhereIdAbsent(rs, id, r => AddReport(r, issue, today));
  }

  /** An override keeps the number, order and ids of the regions, and every
      region with another id is untouched. */
  lemma SetStatusAllFrame(rs: seq<Region>, id: string, s: Status, today: string)
    ensures Ids(SetStatusAll(rs, id, s, today)) == Ids(rs)
    ensures forall k :: 0 <= k < |rs| && rs[k].id != id ==> SetStatusAll(rs, id, s, today)[k] == rs[k]
  {
    MapWhereIdAt(rs, id, r => WithStatus(r, s, today));
  }

  /** What an override does to the region it names: the new status and
      today's date, with the name, the facilities, the population, the issues
      and the report count unchanged. */
  lemma SetStatusAllTarget(rs: seq<Region>, id: string, s: Status, today: string, k: nat)
    requires k < |rs| && rs[k].id == id
    ensures var r, r' := rs[k], SetStatusAll(rs, id, s, today)[k];
      && r'.status == s && r'.healthData.lastUpdate == today
      && r'.id == r.id && r'.name == r.name
      && r'.coordinates == r.coordinates && r'.textPosition == r.textPosition
      && r'.recentReports == r.recentReports
      && r'.healthData.issues == r.healthData.issues
      && r'.healthData.clinics == r.healthData.clinics
      && r'.healthData.hospitals == r.healthData.hospitals
      && r'.healthData.population == r.healthData.population
  {
    MapWhereIdAt(rs, id, r => WithStatus(r, s, today));
  }

  /** An override on an id that matches no region changes nothing. */
  lemma SetStatusAllAbsent(rs: seq<Region>, id: string, s: Status, today: string)
    requires forall k :: 0 <= k < |rs| ==> rs[k].id != id
    ensures SetStatusAll(rs, id, s, today) == rs
  {
    MapWhereIdAbsent(rs, id, r => WithStatus(r, s, today));
  }

  /** How severe a status is, to compare statuses. */
  function Severity(s: Status): nat {
    match s
    case Secure => 0
    case Moderate => 1
    case Danger => 2
  }

  /** Reports do not only escalate: a danger region with 5 reports (say, one
      an administrator marked) drops to moderate on the next report, and a
      secure region with 10 goes straight to danger. */
  lemma ReportIsNotARatchet(issue: string, today: string)
    ensures exists r: Region :: Severity(AddReport(r, issue, today).status) < Severity(r.status)
    ensures exists r: Region :: r.status == Secure && AddReport(r, issue, today).status == Danger
  {
    var d := Region("r", "R", Danger, HealthData(1, 0, 0, [], ""), 5, "", Point(0, 0));
    assert AddReport(d, issue, today).status == Moderate;
    var s := d.(status := Secure, recentReports := 10);
    assert AddReport(s, issue, today).status == Danger;
  }
}
