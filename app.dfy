/** The `HealthMapApp` object (script.js): the region collection it keeps in
    the `regions` field, the `isAdminMode` flag, and the operations that
    change them. The browser's local storage is the `Storage` object the
    application is given; rendering is not part of this model. */
module HealthMap {
  import opened RegionModel
  import opened Transitions
  import Text

  /** The one administrator password the login form accepts. */
  const AdminPassword: string := "admin123"

  /** The local-storage entry "healthMapRegions": absent, or a saved region
      collection (stored as JSON, which keeps these records exactly). */
  class Storage {
    var healthMapRegions: Option<seq<Region>>

    constructor (saved: Option<seq<Region>>)
      ensures healthMapRegions == saved
    {
      healthMapRegions := saved;
    }
  }

  class HealthMapApp {
    var regions: seq<Region>
    var isAdminMode: bool
    const storage: Storage

    /** Starts from the built-in districts and replaces them wholesale by
        the saved collection when there is one; not in admin mode. */
    constructor (storage: Storage)
      ensures this.storage == storage
      ensures regions == if storage.healthMapRegions.Some? then storage.healthMapRegions.value else Seed()
      ensures !isAdminMode
    {
      regions := Seed();
      isAdminMode := false;
      this.storage := storage;
      new;
      LoadFromLocalStorage();
    }

    /** `loadFromLocalStorage`: a saved collection replaces the current one. */
    method LoadFromLocalStorage()
      modifies this`regions
      ensures regions == if storage.healthMapRegions.Some? then storage.healthMapRegions.value else old(regions)
    {
      var saved := storage.healthMapRegions;
      if saved.Some? {
        regions := saved.value;
      }
    }

    /** `saveToLocalStorage`: the whole collection becomes the saved value. */
    method SaveToLocalStorage()
      modifies storage
      ensures storage.healthMapRegions == Some(regions)
    {
      storage.healthMapRegions := Some(regions);
    }

    /** `submitReport`: every region with the given id gets one more report,
        the formatted issue at the end of its issue list, today's date and
        the threshold rule on its new count; the result is saved. */
    method SubmitReport(regionId: string, reportType: string, description: string, today: string)
      modifies this`regions, storage
      ensures regions == ReportAll(old(regions), regionId, FormatIssue(reportType, description), today)
      ensures Ids(regions) == Ids(old(regions))
      ensures storage.healthMapRegions == Some(regions)
    {
      var issue := FormatIssue(reportType, description);
      var updated: seq<Region> := [];
      var i := 0;
      while i < |regions|
        invariant i <= |regions| && |updated| == i
        invariant forall k :: 0 <= k < i ==>
          updated[k] == if regions[k].id == regionId then AddReport(regions[k], issue, today) else regions[k]
      {
        var region := regions[i];
        if region.id == regionId {
          var count := region.recentReports + 1;
          var status := region.status;
          if count > 10 {
            status := Danger;
          } else if count > 5 {
            status := Moderate;
          }
          region := region.(
            recentReports := count,
            healthData := region.healthData.(
              issues := region.healthData.issues + [issue],
              lastUpdate := today),
            status := status);
        }
        updated := updated + [region];
        i := i + 1;
      }
      MapWhereIdAt(regions, regionId, r => AddReport(r, issue, today));
      ReportAllFrame(regions, regionId, issue, today);
      regions := updated;
      SaveToLocalStorage();
    }

    /** `handleReportSubmit`: a report goes through exactly when the region,
        the type and the trimmed description are all non-empty, and then with
        the trimmed description; otherwise nothing changes. */
    method HandleReportSubmit(regionId: string, reportType: string, description: string, today: string)
      returns (submitted: bool)
      modifies this`regions, storage
      ensures submitted == (regionId != "" && reportType != "" && Text.Trim(description) != "")
      ensures submitted ==> regions == ReportAll(old(regions), regionId, FormatIssue(reportType, Text.Trim(description)), today)
      ensures submitted ==> storage.healthMapRegions == Some(regions)
      ensures !submitted ==> regions == old(regions) && storage.healthMapRegions == old(storage.healthMapRegions)
    {
      var trimmed := Text.Trim(description);
      submitted := regionId != "" && reportType != "" && trimmed != "";
      if submitted {
        SubmitReport(regionId, reportType, trimmed, today);
      }
    }

    /** `updateRegionStatus`: every region with the given id gets the new
        status and today's date and keeps all else; the result is saved.
        The method itself does not look at `isAdminMode`. */
    method UpdateRegionStatus(regionId: string, newStatus: Status, today: string)
      modifies this`regions, storage
      ensures regions == SetStatusAll(old(regions), regionId, newStatus, today)
      ensures Ids(regions) == Ids(old(regions))
      ensures storage.healthMapRegions == Some(regions)
    {
      var updated: seq<Region> := [];
      var i := 0;
      while i < |regions|
        invariant i <= |regions| && |updated| == i
        invariant forall k :: 0 <= k < i ==>
          updated[k] == if regions[k].id == regionId then WithStatus(regions[k], newStatus, today) else regions[k]
      {
        var region := regions[i];
        if region.id == regionId {
          region := region.(status := newStatus, healthData := region.healthData.(lastUpdate := today));
        }
        updated := updated + [region];
        i := i + 1;
      }
      MapWhereIdAt(regions, regionId, r => WithStatus(r, newStatus, today));
      SetStatusAllFrame(regions, regionId, newStatus, today);
      regions := updated;
      SaveToLocalStorage();
    }

    /** `handleAdminLogin`: admin mode is switched on by the exact password
        and left as it was by any other. */
    method HandleAdminLogin(password: string) returns (accepted: bool)
      modifies this`isAdminMode
      ensures accepted == (password == AdminPassword)
      ensures isAdminMode == (accepted || old(isAdminMode))
    {
      accepted := password == AdminPassword;
      if accepted {
        isAdminMode := true;
      }
    }

    /** `logout`: leaves admin mode. */
    method Logout()
      modifies this`isAdminMode
      ensures !isAdminMode
    {
      isAdminMode := false;
    }
  }
}
