/** Worked cases on the five built-in districts: the figures the dashboard
    starts with, and a session that reports, overrides and reloads. */
module Scenarios {
  import opened RegionModel
  import opened Transitions
  import opened Views
  import opened HealthMap
  import Text

  /** The summary cards on first run: two secure, two moderate, one danger
      region and 168,000 people. */
  lemma SeedStats()
    ensures ComputeStats(Seed()) == Stats(2, 2, 1, 168000)
  {
    var rs := Seed();
    // Counted from the back, one region at a time.
    assert rs[4..][1..] == [] && rs[3..][1..] == rs[4..] && rs[2..][1..] == rs[3..] && rs[1..][1..] == rs[2..];
    assert CountStatus(rs[4..], Secure) == 0 && CountStatus(rs[4..], Moderate) == 1 && CountStatus(rs[4..], Danger) == 0;
    assert CountStatus(rs[3..], Secure) == 1 && CountStatus(rs[3..], Moderate) == 1 && CountStatus(rs[3..], Danger) == 0;
    assert CountStatus(rs[2..], Secure) == 1 && CountStatus(rs[2..], Moderate) == 1 && CountStatus(rs[2..], Danger) == 1;
    assert CountStatus(rs[1..], Secure) == 1 && CountStatus(rs[1..], Moderate) == 2 && CountStatus(rs[1..], Danger) == 1;
    // Summed from the front, as reduce does.
    assert rs[..1][..0] == [] && rs[..2][..1] == rs[..1] && rs[..3][..2] == rs[..2] && rs[..4][..3] == rs[..3];
    assert rs[..5] == rs && rs[..5][..4] == rs[..4];
    assert TotalPopulation(rs[..1]) == 45000;
    assert TotalPopulation(rs[..2]) == 77000;
    assert TotalPopulation(rs[..3]) == 105000;
    assert TotalPopulation(rs[..4]) == 143000;
  }

  /** People per facility: Eastward (28,000 people, 2 clinics, no hospital)
      has 14,000 and Downtown (45,000 people, 8 clinics, 2 hospitals) 4,500. */
  lemma SeedRatios()
    ensures Seed()[2].id == "eastward" && PeoplePerFacility(Seed()[2]) == Some(14000)
    ensures Seed()[0].id == "downtown" && PeoplePerFacility(Seed()[0]) == Some(4500)
  {
  }

  /** Northside has 5 reports; a water-quality report makes it 6 and the
      region moderate, with the new issue at the end of its list. */
  lemma NorthsideReport(today: string)
    ensures var r := ReportAll(Seed(), "northside", FormatIssue("Water Quality", "Brown tap water"), today)[1];
      && r.id == "northside" && r.recentReports == 6 && r.status == Moderate
      && r.healthData.issues == ["Limited clinic access", "Water quality concerns", "Water Quality: Brown tap water"]
      && r.healthData.lastUpdate == today
  {
    assert FormatIssue("Water Quality", "Brown tap water") == "Water Quality: Brown tap water";
    ReportAllTarget(Seed(), "northside", FormatIssue("Water Quality", "Brown tap water"), today, 1);
  }

  /** An override of Downtown (2 reports) to danger changes its status and
      date and keeps its two reports. */
  lemma DowntownOverride(today: string)
    ensures var r := SetStatusAll(Seed(), "downtown", Danger, today)[0];
      && r.status == Danger && r.recentReports == 2 && r.healthData.lastUpdate == today
  {
    SetStatusAllTarget(Seed(), "downtown", Danger, today, 0);
  }

  /** Whitespace-only descriptions trim to nothing; padding is cut away. */
  lemma TrimExamples()
    ensures Text.Trim(" \t") == ""
    ensures Text.Trim(" Brown tap water") == "Brown tap water"
  {
    assert " \t"[1..] == "\t" && "\t"[1..] == "";
    var d := "Brown tap water";
    assert " Brown tap water"[1..] == d && !Text.IsWhitespace(d[0]) && !Text.IsWhitespace(d[|d| - 1]);
    assert Text.TrimStart(d) == d && Text.TrimEnd(d) == d;
  }

  /** A whitespace-only description is refused and nothing changes. */
  method BlankReport(app: HealthMapApp, today: string)
    modifies app, app.storage
  {
    var before := app.regions;
    TrimExamples();
    var sent := app.HandleReportSubmit("northside", "Water Quality", " \t", today);
    assert !sent && app.regions == before;
  }

  /** First run against empty storage: a padded description is trimmed and
      applied, and a second start of the application loads the collection
      the report saved. */
  method ReportAndReload(today: string) {
    var storage := new Storage(None);
    var app := new HealthMapApp(storage);
    TrimExamples();
    var sent := app.HandleReportSubmit("northside", "Water Quality", " Brown tap water", today);
    assert sent;
    NorthsideReport(today);
    assert app.regions[1].status == Moderate && app.regions[1].recentReports == 6;

    var reloaded := new HealthMapApp(storage);
    assert reloaded.regions == app.regions;
  }

  /** Only the exact password enters admin mode; logout leaves it. */
  method AdminLogin(app: HealthMapApp)
    modifies app
  {
    var accepted := app.HandleAdminLogin("admin");
    assert !accepted;
    accepted := app.HandleAdminLogin("admin123");
    assert accepted && app.isAdminMode;
    accepted := app.HandleAdminLogin("admin");
    assert app.isAdminMode;
    app.Logout();
    assert !app.isAdminMode;
  }

  /** Eastward has 12 reports: set secure by hand, it is back to danger
      after the next report. */
  method OverrideThenReport(app: HealthMapApp, today: string)
    requires |app.regions| > 2 && app.regions[2].id == "eastward" && app.regions[2].recentReports == 12
    modifies app, app.storage
  {
    var before := app.regions;
    app.UpdateRegionStatus("eastward", Secure, today);
    SetStatusAllTarget(before, "eastward", Secure, today, 2);
    assert app.regions[2].status == Secure && app.regions[2].recentReports == 12;

    before := app.regions;
    app.SubmitReport("eastward", "Air Quality", "Smoke", today);
    ReportAllTarget(before, "eastward", FormatIssue("Air Quality", "Smoke"), today, 2);
    assert app.regions[2].status == Danger && app.regions[2].recentReports == 13;
  }
}
