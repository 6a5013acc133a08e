/**
 * Fetching one category for one city, and one region's cities x categories
 * (src/main.py, `fetch_and_filter_ads_by_category` and
 * `fetch_and_filter_ads_for_region`). The listings API is an oracle from the
 * query parameters to what the two possible requests return.
 */
module Fetch {
  import opened Common
  import opened Ads
  import opened Filter

  // ---------------------------------------------------------------------------
  // Query parameters

  datatype ParamValue = PText(text: string) | PInt(whole: int) | PReal(number: real)

  /** The query-string parameters a request can carry. */
  datatype ParamKey =
    | User | Token | Limit | CategoryId | Date1 | Date2 | City | NedvigimostType
    | MinArea  // the lower area bound
    | MaxArea  // the upper area bound

  /** The name each parameter is sent under. */
  function KeyName(k: ParamKey): string {
    match k
    case User => "user"
    case Token => "token"
    case Limit => "limit"
    case CategoryId => "category_id"
    case Date1 => "date1"
    case Date2 => "date2"
    case City => "city"
    case NedvigimostType => "nedvigimost_type"
    case MinArea => "param[7446]"
    case MaxArea => "param[7486]"
  }

  /** Distinct parameters are sent under distinct names, so no entry of the
      request dictionary overwrites another. */
  lemma KeyNamesDistinct(k1: ParamKey, k2: ParamKey)
    ensures KeyName(k1) == KeyName(k2) <==> k1 == k2
  {
  }

  type Query = map<ParamKey, ParamValue>

  /** Module-level API settings: credentials, page limit, optional property-type
      flag, and the date range (already formatted) when fetching for yesterday. */
  datatype ApiSettings = ApiSettings(
    user: string,
    token: string,
    limit: int,
    nedvigimostType: Option<int>,
    dateRange: Option<(string, string)>)

  /** The parameters of the request for `config` in `city`. */
  function QueryParams(settings: ApiSettings, city: string, config: CategoryConfig): Query
  {
    var base := map[User := PText(settings.user), Token := PText(settings.token),
                    Limit := PInt(settings.limit), CategoryId := PInt(config.id)];
    var dated := match settings.dateRange
                 case Some((d1, d2)) => base[Date1 := PText(d1)][Date2 := PText(d2)]
                 case None => base;
    var located := if city != "" then dated[City := PText(city)] else dated;
    var typed := match settings.nedvigimostType
                 case Some(t) => located[NedvigimostType := PInt(t)]
                 case None => located;
    var withMin := if config.squareMin.Some? && config.id != LandCategoryId
                   then typed[MinArea := PReal(config.squareMin.value)] else typed;
    if config.squareMax.Some? && config.id != LandCategoryId
    then withMin[MaxArea := PReal(config.squareMax.value)] else withMin
  }

  /** Credentials, page size and category are always sent. */
  lemma QueryRequired(settings: ApiSettings, city: string, config: CategoryConfig)
    ensures var q := QueryParams(settings, city, config);
      && User in q && q[User] == PText(settings.user)
      && Token in q && q[Token] == PText(settings.token)
      && Limit in q && q[Limit] == PInt(settings.limit)
      && CategoryId in q && q[CategoryId] == PInt(config.id)
  {
  }

  /** The date range is sent, both ends, exactly when it is configured. */
  lemma QueryDateRange(settings: ApiSettings, city: string, config: CategoryConfig)
    ensures var q := QueryParams(settings, city, config);
      && (Date1 in q <==> settings.dateRange.Some?)
      && (Date2 in q <==> settings.dateRange.Some?)
      && (settings.dateRange.Some? ==>
            q[Date1] == PText(settings.dateRange.value.0) && q[Date2] == PText(settings.dateRange.value.1))
  {
  }

  /** The city is sent exactly when one is given, and the property type
      exactly when it is configured. */
  lemma QueryCityAndType(settings: ApiSettings, city: string, config: CategoryConfig)
    ensures var q := QueryParams(settings, city, config);
      && (City in q <==> city != "")
      && (city != "" ==> q[City] == PText(city))
      && (NedvigimostType in q <==> settings.nedvigimostType.Some?)
      && (settings.nedvigimostType.Some? ==> q[NedvigimostType] == PInt(settings.nedvigimostType.value))
  {
  }

  /** Each area bound is sent exactly when it is configured and the category is
      not land plots. */
  lemma QueryAreaRange(settings: ApiSettings, city: string, config: CategoryConfig)
    ensures var q := QueryParams(settings, city, config);
      && (MinArea in q <==> config.squareMin.Some? && config.id != LandCategoryId)
      && (MinArea in q ==> q[MinArea] == PReal(config.squareMin.value))
      && (MaxArea in q <==> config.squareMax.Some? && config.id != LandCategoryId)
      && (MaxArea in q ==> q[MaxArea] == PReal(config.squareMax.value))
  {
  }

  /** Land plots never send the area range: it is filtered on their own parameter only. */
  lemma LandSendsNoAreaRange(settings: ApiSettings, city: string, config: CategoryConfig)
    requires config.id == LandCategoryId
    ensures MinArea !in QueryParams(settings, city, config)
    ensures MaxArea !in QueryParams(settings, city, config)
  {
    QueryAreaRange(settings, city, config);
  }

  /** The source's dictionary, built up one assignment at a time. */
  method BuildParams(settings: ApiSettings, city: string, config: CategoryConfig) returns (params: Query)
    ensures params == QueryParams(settings, city, config)
  {
    params := map[User := PText(settings.user), Token := PText(settings.token),
                  Limit := PInt(settings.limit), CategoryId := PInt(config.id)];
    if settings.dateRange.Some? {
      params := params[Date1 := PText(settings.dateRange.value.0)];
      params := params[Date2 := PText(settings.dateRange.value.1)];
    }
    if city != "" {
      params := params[City := PText(city)];
    }
    if settings.nedvigimostType.Some? {
      params := params[NedvigimostType := PInt(settings.nedvigimostType.value)];
    }
    if config.squareMin.Some? {
      if config.id != LandCategoryId {
        params := params[MinArea := PReal(config.squareMin.value)];
      }
    }
    if config.squareMax.Some? {
      if config.id != LandCategoryId {
        params := params[MaxArea := PReal(config.squareMax.value)];
      }
    }
  }

  // ---------------------------------------------------------------------------
  // The HTTP exchange

  /** A decoded response body: not JSON at all, or a JSON object that may carry
      an `error` key and a `data` array (None when absent or null). */
  datatype Body = Malformed | Object(hasError: bool, data: Option<seq<RawAd>>)

  /** One request: it failed at the transport level, or it was answered. */
  datatype Attempt = RequestFailed | Answered(status: int, body: Body)

  /** The reply to the first request, and the reply the one re-request would get. */
  datatype Exchange = Exchange(first: Attempt, retry: Attempt)

  const TooManyRequests: int := 429

  predicate IsTooManyRequests(a: Attempt) {
    a.Answered? && a.status == TooManyRequests
  }

  /** `raise_for_status()` raises for 4xx and 5xx statuses. */
  predicate IsHttpError(status: int) {
    400 <= status < 600
  }

  /** The reply `raise_for_status()` is called on: the re-request's after a 429, else the first. */
  function FinalAttempt(e: Exchange): (a: Attempt)
    ensures a == e.first || a == e.retry
  {
    if IsTooManyRequests(e.first) then e.retry else e.first
  }

  /** The ads a final reply yields, or None on every path the source answers
      with `([], [])`: a transport failure, an HTTP error status, a body that is
      not JSON, an `error` key, or an absent, null or empty `data`. */
  function AttemptAds(a: Attempt): (r: Option<seq<RawAd>>)
    ensures r.Some? <==> a.Answered? && !IsHttpError(a.status) && a.body.Object? && !a.body.hasError
                         && a.body.data.Some? && a.body.data.value != []
    ensures r.Some? ==> r == a.body.data && r.value != []
    ensures IsTooManyRequests(a) ==> r.None?
  {
    match a
    case RequestFailed => None
    case Answered(status, body) =>
      if IsHttpError(status) then None
      else match body
        case Malformed => None
        case Object(hasError, data) =>
          if hasError then None
          else if data.None? || data.value == [] then None
          else data
  }

  function ExchangeAds(e: Exchange): (r: Option<seq<RawAd>>)
    ensures r.Some? ==> r.value != []
  {
    AttemptAds(FinalAttempt(e))
  }

  /** The retry is consulted only after a 429, and at most once: a 429 on the
      re-request is an HTTP error like any other. */
  lemma RetryOnlyAfterTooManyRequests(e: Exchange)
    ensures !IsTooManyRequests(e.first) ==> ExchangeAds(e) == AttemptAds(e.first)
    ensures !IsTooManyRequests(e.first) ==> forall r :: ExchangeAds(Exchange(e.first, r)) == ExchangeAds(e)
    ensures IsTooManyRequests(e.first) ==> ExchangeAds(e) == AttemptAds(e.retry)
    ensures IsTooManyRequests(e.first) && IsTooManyRequests(e.retry) ==> ExchangeAds(e).None?
  {
  }

  /** A 429 followed by a successful answer yields that answer's ads. */
  lemma TooManyRequestsThenOk(body: Body, ads: seq<RawAd>)
    requires ads != []
    ensures ExchangeAds(Exchange(Answered(TooManyRequests, body), Answered(200, Object(false, Some(ads))))) == Some(ads)
  {
  }

  // ---------------------------------------------------------------------------
  // One category

  /** The pair the source returns: the filtered listings and the raw ads. */
  datatype Results = Results(filtered: seq<Listing>, raw: seq<RawAd>)

  function Join(a: Results, b: Results): Results {
    Results(a.filtered + b.filtered, a.raw + b.raw)
  }

  const NoResults: Results := Results([], [])

  /** What fetching one category in one city returns. */
  function CategoryResults(city: string, config: Option<CategoryConfig>, settings: ApiSettings,
                           server: Query -> Exchange): Results
  {
    if config.None? then NoResults
    else match ExchangeAds(server(QueryParams(settings, city, config.value)))
      case None => NoResults
      case Some(ads) => Results(Survivors(ads, config.value, city), ads)
  }

  /** No configuration, or any error path, gives `([], [])`; otherwise the raw
      ads come back unchanged beside their filtered listings. */
  lemma CategoryResultsShape(city: string, config: Option<CategoryConfig>, settings: ApiSettings,
                             server: Query -> Exchange)
    ensures config.None? ==> CategoryResults(city, config, settings, server) == NoResults
    ensures config.Some? ==>
      var e := server(QueryParams(settings, city, config.value));
      && (ExchangeAds(e).None? ==> CategoryResults(city, config, settings, server) == NoResults)
      && (ExchangeAds(e).Some? ==>
            CategoryResults(city, config, settings, server).raw == ExchangeAds(e).value &&
            CategoryResults(city, config, settings, server).filtered ==
              Survivors(ExchangeAds(e).value, config.value, city))
    ensures |CategoryResults(city, config, settings, server).filtered| <=
            |CategoryResults(city, config, settings, server).raw|
  {
    if config.Some? {
      var e := server(QueryParams(settings, city, config.value));
      if ExchangeAds(e).Some? {
        SurvivorsInOrder(ExchangeAds(e).value, config.value, city);
      }
    }
  }

  /** Each error path of the final reply gives `([], [])`: a failed request, an
      HTTP error status, a body that is not JSON, an `error` key, or an absent,
      null or empty `data`. */
  lemma ErrorPathsYieldNothing(city: string, config: CategoryConfig, settings: ApiSettings,
                               server: Query -> Exchange)
    ensures var a := FinalAttempt(server(QueryParams(settings, city, config)));
      (|| a.RequestFailed?
       || IsHttpError(a.status)
       || a.body.Malformed?
       || a.body.hasError
       || a.body.data.None?
       || a.body.data.value == [])
      ==> CategoryResults(city, Some(config), settings, server) == NoResults
  {
  }

  /** The source's function: build the query, send it (again after a 429),
      check the reply, and filter the ads. */
  method FetchByCategory(city: string, config: Option<CategoryConfig>, settings: ApiSettings,
                         server: Query -> Exchange) returns (filtered: seq<Listing>, raw: seq<RawAd>)
    ensures Results(filtered, raw) == CategoryResults(city, config, settings, server)
  {
    if config.None? {
      return [], [];
    }
    var params := BuildParams(settings, city, config.value);
    var exchange := server(params);
    var reply := exchange.first;
    if reply.Answered? && reply.status == TooManyRequests {
      reply := exchange.retry;
    }
    if reply.RequestFailed? || IsHttpError(reply.status) || reply.body.Malformed? || reply.body.hasError {
      return [], [];
    }
    var data := reply.body.data;
    if data.None? || data.value == [] {
      return [], [];
    }
    filtered := FilterAds(data.value, config.value, city);
    raw := data.value;
  }

  // ---------------------------------------------------------------------------
  // One region

  datatype RegionConfig = RegionConfig(name: string, cities: seq<string>)

  /** The (city, category) pairs of one city, in configuration order. */
  function CityPartitions(city: string, categories: seq<CategoryConfig>): (ps: seq<(string, CategoryConfig)>)
    ensures |ps| == |categories|
    ensures forall j :: 0 <= j < |categories| ==> ps[j] == (city, categories[j])
  {
    seq(|categories|, j requires 0 <= j < |categories| => (city, categories[j]))
  }

  /** All (city, category) pairs, city by city. */
  function Partitions(cities: seq<string>, categories: seq<CategoryConfig>): seq<(string, CategoryConfig)>
    decreases |cities|
  {
    if cities == [] then []
    else Partitions(cities[..|cities| - 1], categories) + CityPartitions(cities[|cities| - 1], categories)
  }

  /** The concatenated results of a sequence of partitions. */
  function Gather(ps: seq<(string, CategoryConfig)>, settings: ApiSettings, server: Query -> Exchange): Results
    decreases |ps|
  {
    if ps == [] then NoResults
    else
      var p := ps[|ps| - 1];
      Join(Gather(ps[..|ps| - 1], settings, server), CategoryResults(p.0, Some(p.1), settings, server))
  }

  function RegionResults(region: RegionConfig, categories: seq<CategoryConfig>, settings: ApiSettings,
                         server: Query -> Exchange): Results
  {
    Gather(Partitions(region.cities, categories), settings, server)
  }

  lemma {:induction false} GatherAppend(a: seq<(string, CategoryConfig)>, b: seq<(string, CategoryConfig)>,
                                        settings: ApiSettings, server: Query -> Exchange)
    ensures Gather(a + b, settings, server) == Join(Gather(a, settings, server), Gather(b, settings, server))
    decreases |b|
  {
    if b == [] {
      assert a + b == a;
    } else {
      var b', p := b[..|b| - 1], b[|b| - 1];
      assert (a + b)[..|a + b| - 1] == a + b';
      assert (a + b)[|a + b| - 1] == p;
      var r := CategoryResults(p.0, Some(p.1), settings, server);
      assert Gather(a + b, settings, server) == Join(Gather(a + b', settings, server), r);
      GatherAppend(a, b', settings, server);
      JoinAssociative(Gather(a, settings, server), Gather(b', settings, server), r);
    }
  }

  lemma JoinAssociative(x: Results, y: Results, z: Results)
    ensures Join(Join(x, y), z) == Join(x, Join(y, z))
  {
    assert (x.filtered + y.filtered) + z.filtered == x.filtered + (y.filtered + z.filtered);
    assert (x.raw + y.raw) + z.raw == x.raw + (y.raw + z.raw);
  }

  lemma {:induction false} PartitionsAppend(c1: seq<string>, c2: seq<string>, categories: seq<CategoryConfig>)
    ensures Partitions(c1 + c2, categories) == Partitions(c1, categories) + Partitions(c2, categories)
    decreases |c2|
  {
    if c2 == [] {
      assert c1 + c2 == c1;
    } else {
      var init, last := c2[..|c2| - 1], c2[|c2| - 1];
      assert (c1 + c2)[..|c1 + c2| - 1] == c1 + init;
      assert (c1 + c2)[|c1 + c2| - 1] == last;
      assert Partitions(c1 + c2, categories) ==
             Partitions(c1 + init, categories) + CityPartitions(last, categories);
      assert Partitions(c2, categories) == Partitions(init, categories) + CityPartitions(last, categories);
      PartitionsAppend(c1, init, categories);
    }
  }

  /** Pair number i * |categories| + j is (city i, category j): cities in
      configuration order, and within each city the categories in order. */
  lemma {:induction false} PartitionsOrder(cities: seq<string>, categories: seq<CategoryConfig>, i: nat, j: nat)
    requires i < |cities| && j < |categories|
    ensures |Partitions(cities, categories)| == |cities| * |categories|
    ensures i * |categories| + j < |Partitions(cities, categories)|
    ensures Partitions(cities, categories)[i * |categories| + j] == (cities[i], categories[j])
    decreases |cities|
  {
    var n, m := |cities|, |categories|;
    var init := cities[..n - 1];
    var prev := Partitions(init, categories);
    var last := CityPartitions(cities[n - 1], categories);
    assert Partitions(cities, categories) == prev + last;
    PartitionsLength(init, categories);
    assert |prev| == (n - 1) * m;
    assert (n - 1) * m + m == n * m;
    if i < n - 1 {
      PartitionsOrder(init, categories, i, j);
      assert init[i] == cities[i];
    } else {
      assert i * m == (n - 1) * m;
      assert last[j] == (cities[i], categories[j]);
    }
  }

  lemma {:induction false} PartitionsLength(cities: seq<string>, categories: seq<CategoryConfig>)
    ensures |Partitions(cities, categories)| == |cities| * |categories|
    decreases |cities|
  {
    if cities != [] {
      PartitionsLength(cities[..|cities| - 1], categories);
      assert (|cities| - 1) * |categories| + |categories| == |cities| * |categories|;
    }
  }

  /** A region's results over a split city list are the results of the first
      part followed by those of the second: accumulation follows configuration order. */
  lemma RegionResultsAppend(name: string, c1: seq<string>, c2: seq<string>, categories: seq<CategoryConfig>,
                            settings: ApiSettings, server: Query -> Exchange)
    ensures RegionResults(RegionConfig(name, c1 + c2), categories, settings, server) ==
            Join(RegionResults(RegionConfig(name, c1), categories, settings, server),
                 RegionResults(RegionConfig(name, c2), categories, settings, server))
  {
    PartitionsAppend(c1, c2, categories);
    GatherAppend(Partitions(c1, categories), Partitions(c2, categories), settings, server);
  }

  /** A partition whose fetch fails contributes nothing and disturbs no other:
      the results are those of the partitions before it followed by those after it. */
  lemma FailedPartitionIsolated(ps: seq<(string, CategoryConfig)>, k: nat, settings: ApiSettings,
                                server: Query -> Exchange)
    requires k < |ps|
    requires ExchangeAds(server(QueryParams(settings, ps[k].0, ps[k].1))).None?
    ensures Gather(ps, settings, server) ==
            Join(Gather(ps[..k], settings, server), Gather(ps[k + 1..], settings, server))
  {
    var before, after := ps[..k], ps[k + 1..];
    assert ps == (before + [ps[k]]) + after;
    GatherAppend(before + [ps[k]], after, settings, server);
    GatherSnoc(before, ps[k], settings, server);
    var g := Gather(before, settings, server);
    assert Join(g, NoResults) == g by {
      assert g.filtered + [] == g.filtered && g.raw + [] == g.raw;
    }
  }

  lemma CityPartitionsSnoc(city: string, categories: seq<CategoryConfig>, j: nat)
    requires j < |categories|
    ensures CityPartitions(city, categories[..j + 1]) == CityPartitions(city, categories[..j]) + [(city, categories[j])]
  {
  }

  /** Gathering one more partition appends its results. */
  lemma GatherSnoc(ps: seq<(string, CategoryConfig)>, p: (string, CategoryConfig), settings: ApiSettings,
                   server: Query -> Exchange)
    ensures Gather(ps + [p], settings, server) ==
            Join(Gather(ps, settings, server), CategoryResults(p.0, Some(p.1), settings, server))
  {
    assert (ps + [p])[..|ps|] == ps;
  }

  /** One step of the loops: extending the accumulators by one partition's
      results gathers that partition too. */
  lemma GatherStep(ps: seq<(string, CategoryConfig)>, p: (string, CategoryConfig), settings: ApiSettings,
                   server: Query -> Exchange, filtered: seq<Listing>, raw: seq<RawAd>,
                   f: seq<Listing>, r: seq<RawAd>)
    requires Results(filtered, raw) == Gather(ps, settings, server)
    requires Results(f, r) == CategoryResults(p.0, Some(p.1), settings, server)
    ensures Results(filtered + f, raw + r) == Gather(ps + [p], settings, server)
  {
    GatherSnoc(ps, p, settings, server);
  }

  /** One pass of the inner loop's body: fetch one category of one city and
      extend both accumulators. */
  method FetchPartition(city: string, config: CategoryConfig, settings: ApiSettings,
                        server: Query -> Exchange, filtered0: seq<Listing>, raw0: seq<RawAd>,
                        ghost done: seq<(string, CategoryConfig)>)
    returns (filtered: seq<Listing>, raw: seq<RawAd>)
    requires Results(filtered0, raw0) == Gather(done, settings, server)
    ensures Results(filtered, raw) == Gather(done + [(city, config)], settings, server)
  {
    var f, r := FetchByCategory(city, Some(config), settings, server);
    GatherStep(done, (city, config), settings, server, filtered0, raw0, f, r);
    filtered := filtered0 + f;
    raw := raw0 + r;
  }

  /** The source's inner loop: for each category of one city, fetch and
      extend both accumulators. */
  method FetchCity(city: string, categories: seq<CategoryConfig>, settings: ApiSettings,
                   server: Query -> Exchange, filtered0: seq<Listing>, raw0: seq<RawAd>,
                   ghost done: seq<(string, CategoryConfig)>)
    returns (filtered: seq<Listing>, raw: seq<RawAd>)
    requires Results(filtered0, raw0) == Gather(done, settings, server)
    ensures Results(filtered, raw) == Gather(done + CityPartitions(city, categories), settings, server)
  {
    filtered, raw := filtered0, raw0;
    assert done + CityPartitions(city, categories[..0]) == done;
    var j := 0;
    while j < |categories|
      invariant 0 <= j <= |categories|
      invariant Results(filtered, raw) == Gather(done + CityPartitions(city, categories[..j]), settings, server)
    {
      ghost var ps := done + CityPartitions(city, categories[..j]);
      CityPartitionsSnoc(city, categories, j);
      assert done + CityPartitions(city, categories[..j + 1]) == ps + [(city, categories[j])];
      filtered, raw := FetchPartition(city, categories[j], settings, server, filtered, raw, ps);
      j := j + 1;
    }
    assert categories[..j] == categories;
  }

  /** The source's outer loop: for each city of the region, all its categories. */
  method FetchRegion(region: RegionConfig, categories: seq<CategoryConfig>, settings: ApiSettings,
                     server: Query -> Exchange) returns (filtered: seq<Listing>, raw: seq<RawAd>)
    ensures Results(filtered, raw) == RegionResults(region, categories, settings, server)
  {
    var cities := region.cities;
    filtered, raw := [], [];
    var i := 0;
    while i < |cities|
      invariant 0 <= i <= |cities|
      invariant Results(filtered, raw) == Gather(Partitions(cities[..i], categories), settings, server)
    {
      ghost var done := Partitions(cities[..i], categories);
      filtered, raw := FetchCity(cities[i], categories, settings, server, filtered, raw, done);
      assert cities[..i + 1][..i] == cities[..i];
      assert Partitions(cities[..i + 1], categories) == done + CityPartitions(cities[i], categories);
      i := i + 1;
    }
    assert cities[..i] == cities;
  }
}
