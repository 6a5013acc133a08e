/**
 * The scheduled job (src/main.py, `job`): for each region in turn, fetch and
 * filter its listings, record the new ones, build both reports and decide
 * which email to send. The region's outcome is specified by `RegionNotice`;
 * a whole run over the configured regions by `Job`.
 */
module MainJob {
  import opened Common
  import opened Ads
  import opened Fetch
  import opened Store
  import opened DedupPass
  import opened MapReport
  import opened ExcelReport

  /** How one region's run ends. */
  datatype Notice =
    | NoListings        // nothing passed the filters: the "no new listings" email
    | NothingNew        // every listing was already known: the same email
    | ReportsReady      // new listings and both reports: the email with the reports
    | ReportsIncomplete // new listings, but no listing could be put on the map: no email

  /** The table and the added listings after a region's dedup pass. With no
      filtered listing there is no pass, which leaves the table as it was. */
  function RegionBatch(rows: seq<Row>, region: RegionConfig, categories: seq<CategoryConfig>,
                       settings: ApiSettings, server: Query -> Exchange, now: string): Batch
  {
    Dedup(rows, RegionResults(region, categories, settings, server).filtered, now)
  }

  /** The notice for one region, given the table before its run. The
      spreadsheet exists for any non-empty batch; the map only when some
      added listing could be located. */
  function RegionNotice(rows: seq<Row>, region: RegionConfig, categories: seq<CategoryConfig>,
                        settings: ApiSettings, server: Query -> Exchange, now: string,
                        geocode: string -> Option<Coords>): Notice
  {
    var results := RegionResults(region, categories, settings, server);
    if results.filtered == [] then NoListings
    else
      var added := Dedup(rows, results.filtered, now).added;
      if added == [] then NothingNew
      else if Markers(added, results.raw, geocode) != [] then ReportsReady
      else ReportsIncomplete
  }

  /** A region with listings reaches the reports exactly when its pass added
      a listing that can be located. */
  lemma ReportsReadyWhen(rows: seq<Row>, region: RegionConfig, categories: seq<CategoryConfig>,
                         settings: ApiSettings, server: Query -> Exchange, now: string,
                         geocode: string -> Option<Coords>)
    ensures var results := RegionResults(region, categories, settings, server);
      var added := RegionBatch(rows, region, categories, settings, server, now).added;
      RegionNotice(rows, region, categories, settings, server, now, geocode) == ReportsReady <==>
        exists i | 0 <= i < |added| :: MarkerFor(added[i], results.raw, geocode).Some?
  {
    var results := RegionResults(region, categories, settings, server);
    var added := RegionBatch(rows, region, categories, settings, server, now).added;
    NoMarkersIffNoneLocated(added, results.raw, geocode);
    if results.filtered == [] {
      assert added == [];
    }
  }

  /** One region's run against a live session. */
  method RunRegion(store: ListingStore, region: RegionConfig, categories: seq<CategoryConfig>,
                   settings: ApiSettings, server: Query -> Exchange, now: string,
                   geocode: string -> Option<Coords>, show: real -> string)
    returns (notice: Notice, added: seq<Listing>, sheet: Option<Sheet>, chart: Option<Map>)
    requires store.Valid() && !store.mustRollback
    modifies store
    ensures store.Valid() && !store.mustRollback
    ensures notice == RegionNotice(old(store.rows), region, categories, settings, server, now, geocode)
    ensures Batch(store.rows, added) == RegionBatch(old(store.rows), region, categories, settings, server, now)
    ensures notice == ReportsReady ==> sheet.Some? && chart.Some?
    ensures chart.Some? ==>
      chart.value.markers == Markers(added, RegionResults(region, categories, settings, server).raw, geocode)
  {
    var filtered, raw := FetchRegion(region, categories, settings, server);
    if filtered == [] {
      return NoListings, [], None, None;
    }
    added := RecordNewListings(store, filtered, now);
    if added == [] {
      return NothingNew, added, None, None;
    }
    sheet := CreateExcelReport(added, region.name, show);
    chart := CreateMapReport(added, raw, geocode);
    NoMarkersIffNoneLocated(added, raw, geocode);
    if sheet.Some? && chart.Some? {
      notice := ReportsReady;
    } else {
      notice := ReportsIncomplete;
    }
  }

  // ---------------------------------------------------------------------------
  // A run over all regions

  /** The email a region's notice sends, if any. */
  datatype Email = NoNewListingsEmail(region: string) | ReportsEmail(region: string)

  /** The table, the emails sent so far, and whether the run was cut short by
      an exception. */
  datatype Run = Run(rows: seq<Row>, emails: seq<Email>, crashed: bool)

  /** A region's notice turned into its email. */
  function Mail(notice: Notice, region: string): (r: seq<Email>)
    ensures |r| <= 1
    ensures r == [] <==> notice == ReportsIncomplete
    ensures forall k | 0 <= k < |r| :: r[k].region == region
  {
    match notice
    case NoListings => [NoNewListingsEmail(region)]
    case NothingNew => [NoNewListingsEmail(region)]
    case ReportsReady => [ReportsEmail(region)]
    case ReportsIncomplete => []
  }

  /** The job as written: the call that sends the reports passes a `city`
      argument that `send_email_with_reports` does not accept, so it raises
      TypeError, which nothing catches. The listings are already committed. */
  function JobAsWritten(rows: seq<Row>, regions: seq<RegionConfig>, categories: seq<CategoryConfig>,
                        settings: ApiSettings, server: Query -> Exchange, now: string,
                        geocode: string -> Option<Coords>): (run: Run)
    decreases |regions|
  {
    if |regions| == 0 then Run(rows, [], false)
    else
      var before := JobAsWritten(rows, regions[..|regions| - 1], categories, settings, server, now, geocode);
      var region := regions[|regions| - 1];
      if before.crashed then before
      else
        var notice := RegionNotice(before.rows, region, categories, settings, server, now, geocode);
        var after := RegionBatch(before.rows, region, categories, settings, server, now).rows;
        if notice == ReportsReady then Run(after, before.emails, true)
        else Run(after, before.emails + Mail(notice, region.name), false)
  }

  /** The job with the reports email sent as `send_email_with_reports` is
      declared: every region is processed and mailed according to its notice. */
  function Job(rows: seq<Row>, regions: seq<RegionConfig>, categories: seq<CategoryConfig>,
               settings: ApiSettings, server: Query -> Exchange, now: string,
               geocode: string -> Option<Coords>): (run: Run)
    ensures !run.crashed
    ensures |run.emails| <= |regions|
    decreases |regions|
  {
    if |regions| == 0 then Run(rows, [], false)
    else
      var before := Job(rows, regions[..|regions| - 1], categories, settings, server, now, geocode);
      var region := regions[|regions| - 1];
      var notice := RegionNotice(before.rows, region, categories, settings, server, now, geocode);
      Run(RegionBatch(before.rows, region, categories, settings, server, now).rows,
          before.emails + Mail(notice, region.name), false)
  }

  /** The defect: a region whose listings are new and mappable ends the job
      with no email, its listings already stored. Once the job is started
      again, the same listings are found old and reported as nothing new:
      they are never sent. */
  lemma NewListingsNeverReported(rows: seq<Row>, region: RegionConfig, categories: seq<CategoryConfig>,
                                 settings: ApiSettings, server: Query -> Exchange, now: string, later: string,
                                 geocode: string -> Option<Coords>)
    requires RegionNotice(rows, region, categories, settings, server, now, geocode) == ReportsReady
    ensures JobAsWritten(rows, [region], categories, settings, server, now, geocode).crashed
    ensures JobAsWritten(rows, [region], categories, settings, server, now, geocode).emails == []
    ensures var stored := JobAsWritten(rows, [region], categories, settings, server, now, geocode).rows;
      JobAsWritten(stored, [region], categories, settings, server, later, geocode).emails
        == [NoNewListingsEmail(region.name)]
  {
    assert [region][..0] == [];
    var filtered := RegionResults(region, categories, settings, server).filtered;
    var stored := Dedup(rows, filtered, now).rows;
    SecondRunAddsNothing(rows, filtered, now, later);
    assert RegionNotice(stored, region, categories, settings, server, later, geocode) == NothingNew;
  }

  /** Corrected, the same region is reported, and the job goes on. */
  lemma NewListingsReported(rows: seq<Row>, regions: seq<RegionConfig>, region: RegionConfig,
                            categories: seq<CategoryConfig>, settings: ApiSettings,
                            server: Query -> Exchange, now: string, geocode: string -> Option<Coords>)
    requires var before := Job(rows, regions, categories, settings, server, now, geocode).rows;
      RegionNotice(before, region, categories, settings, server, now, geocode) == ReportsReady
    ensures var run := Job(rows, regions + [region], categories, settings, server, now, geocode);
      run.emails == Job(rows, regions, categories, settings, server, now, geocode).emails + [ReportsEmail(region.name)]
  {
    assert (regions + [region])[..|regions|] == regions;
  }

  /** Corrected, a region's email depends only on its own notice: what the
      regions before it mailed stays, and the region's mail is appended. */
  lemma {:induction false} JobMailsEveryRegion(rows: seq<Row>, regions: seq<RegionConfig>, region: RegionConfig,
                                               categories: seq<CategoryConfig>, settings: ApiSettings,
                                               server: Query -> Exchange, now: string,
                                               geocode: string -> Option<Coords>)
    ensures var before := Job(rows, regions, categories, settings, server, now, geocode);
      Job(rows, regions + [region], categories, settings, server, now, geocode).emails
        == before.emails + Mail(RegionNotice(before.rows, region, categories, settings, server, now, geocode), region.name)
  {
    assert (regions + [region])[..|regions|] == regions;
  }
}
