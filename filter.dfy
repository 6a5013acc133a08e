/**
 * The per-ad part of fetching one category (src/main.py, the loop of
 * `fetch_and_filter_ads_by_category`): the two opt-in exclusion rules, then
 * normalisation of a surviving ad into a listing record, or a skip.
 */
module Filter {
  import opened Common
  import opened Text
  import opened Numbers
  import opened Json
  import opened Ads

  /** The category id of land plots, which read their area from a different parameter. */
  const LandCategoryId: int := 5
  const BuildingTypeKey: string := "Вид объекта"
  const LandAreaKey: string := "Площадь"
  const FloorAreaKey: string := "Общая площадь"

  /** The ad parameter that holds the area for a category. */
  function AreaKey(categoryId: int): (k: string)
    ensures k == LandAreaKey <==> categoryId == LandCategoryId
    ensures k == FloorAreaKey <==> categoryId != LandCategoryId
  {
    if categoryId == LandCategoryId then LandAreaKey else FloorAreaKey
  }

  /** Some listed string occurs in `text`. */
  predicate AnyContained(text: string, needles: seq<string>) {
    exists i | 0 <= i < |needles| :: Contains(text, needles[i])
  }

  /** Rule 1: the list is non-empty, the ad's building type is a non-empty
      string, and some listed string is a substring of it. */
  predicate BuildingTypeExcluded(ad: RawAd, types: seq<string>) {
    && |types| > 0
    && match Param(ad, BuildingTypeKey)
       case Some(Str(kind)) => kind != "" && AnyContained(kind, types)
       case _ => false
  }

  /** The text the keyword rule searches: lower-cased title, a space, lower-cased description. */
  function SearchText(ad: RawAd): (t: string)
    ensures |t| == |ad.title| + 1 + |ad.description|
  {
    Lower(ad.title) + " " + Lower(ad.description)
  }

  /** Rule 2: the list is non-empty and some keyword, as written, is a substring of SearchText. */
  predicate KeywordExcluded(ad: RawAd, keywords: seq<string>) {
    |keywords| > 0 && AnyContained(SearchText(ad), keywords)
  }

  /** What happens to one ad. */
  datatype Verdict =
    | Kept(listing: Listing)
    | ExcludedBuildingType
    | ExcludedKeyword
    | MissingAddressOrUrl
    | MissingArea
    | Unconvertible

  /** `float(ad.get('price', 0))`: an absent price is 0; a present one must convert. */
  function Price(ad: RawAd): (r: Option<real>)
    ensures ad.price.None? ==> r == Some(0.0)
    ensures ad.price.Some? ==> r == Float(ad.price.value)
  {
    match ad.price
    case None => Some(0.0)
    case Some(v) => Float(v)
  }

  /** The first image's `imgurl` when there is one and it is non-empty, else "". */
  function ImageUrl(ad: RawAd): (u: string)
    ensures u != "" ==> |ad.images| > 0 && ad.images[0] == Some(u)
    ensures (|ad.images| > 0 && ad.images[0].Some?) ==> u == ad.images[0].value
  {
    if |ad.images| > 0 && ad.images[0].Some? && ad.images[0].value != "" then ad.images[0].value else ""
  }

  /** `round(price / area, 2) if area > 0 else 0`. */
  function PricePerSqm(price: real, area: real): (r: real)
    ensures area <= 0.0 ==> r == 0.0
    ensures area > 0.0 ==> -0.005 <= r - price / area <= 0.005
    ensures area > 0.0 ==> (r * 100.0).Floor as real == r * 100.0
    ensures area > 0.0 && (r - price / area == 0.005 || price / area - r == 0.005) ==> (r * 100.0).Floor % 2 == 0
    ensures area > 0.0 && price >= 0.0 ==> r >= 0.0
  {
    if area > 0.0 then Round2(price / area) else 0.0
  }

  /** The whole per-ad decision, in the source's order: building type, keywords,
      address and url, presence of the area, then the two conversions. */
  function Normalize(ad: RawAd, config: CategoryConfig, city: string): Verdict {
    if BuildingTypeExcluded(ad, config.excludeBuildingTypes) then ExcludedBuildingType
    else if KeywordExcluded(ad, config.excludeKeywords) then ExcludedKeyword
    else if ad.address.None? || ad.address.value == "" || ad.url.None? || ad.url.value == "" then
      MissingAddressOrUrl
    else match Param(ad, AreaKey(config.id))
      case None => MissingArea
      case Some(raw) =>
        match (FloatOfText(raw), Price(ad))
        case (Some(area), Some(price)) =>
          Kept(Listing(
            address := ad.address.value,
            area := area,
            price := price,
            pricePerSqm := PricePerSqm(price, area),
            url := ad.url.value,
            description := Strip(ad.description),
            title := ad.title,
            imageUrl := ImageUrl(ad),
            city := city,
            categoryId := config.id,
            categoryName := config.name,
            categoryColor := config.color))
        case _ => Unconvertible
  }

  // ---------------------------------------------------------------------------
  // Properties of one ad's verdict

  /** Empty exclusion lists never exclude: absence of a rule is not a universal rule. */
  lemma NoRulesNoExclusion(ad: RawAd, config: CategoryConfig, city: string)
    requires config.excludeBuildingTypes == [] && config.excludeKeywords == []
    ensures !Normalize(ad, config, city).ExcludedBuildingType?
    ensures !Normalize(ad, config, city).ExcludedKeyword?
  {
  }

  /** Rule 1 excludes exactly when the list is non-empty, the building type is a
      non-empty string and some listed string is a substring of it. */
  lemma BuildingTypeRule(ad: RawAd, config: CategoryConfig, city: string)
    ensures Normalize(ad, config, city).ExcludedBuildingType? <==>
      && |config.excludeBuildingTypes| > 0
      && BuildingTypeKey in ad.params
      && ad.params[BuildingTypeKey].Str?
      && ad.params[BuildingTypeKey].s != ""
      && exists i | 0 <= i < |config.excludeBuildingTypes| ::
           Contains(ad.params[BuildingTypeKey].s, config.excludeBuildingTypes[i])
  {
  }

  /** Rule 2 applies only to ads rule 1 lets through, and excludes exactly when
      some keyword is a substring of the lower-cased title and description. */
  lemma KeywordRule(ad: RawAd, config: CategoryConfig, city: string)
    ensures Normalize(ad, config, city).ExcludedKeyword? <==>
      && !BuildingTypeExcluded(ad, config.excludeBuildingTypes)
      && |config.excludeKeywords| > 0
      && exists i | 0 <= i < |config.excludeKeywords| ::
           Contains(Lower(ad.title) + " " + Lower(ad.description), config.excludeKeywords[i])
  {
  }

  /** Keywords are not lower-cased: a keyword holding an upper-case letter can
      never match, so a list made only of such keywords excludes nothing. */
  lemma {:induction false} UpperCaseKeywordsNeverMatch(ad: RawAd, config: CategoryConfig, city: string)
    requires forall i :: 0 <= i < |config.excludeKeywords| ==>
      exists j :: 0 <= j < |config.excludeKeywords[i]| && IsUpper(config.excludeKeywords[i][j])
    ensures !Normalize(ad, config, city).ExcludedKeyword?
  {
    var text := SearchText(ad);
    LowerIsLower(ad.title);
    LowerIsLower(ad.description);
    assert forall k :: 0 <= k < |text| ==> !IsUpper(text[k]) by {
      forall k | 0 <= k < |text| ensures !IsUpper(text[k]) {
        if k < |ad.title| {
          assert text[k] == Lower(ad.title)[k];
        } else if k > |ad.title| {
          assert text[k] == Lower(ad.description)[k - |ad.title| - 1];
        }
      }
    }
    forall i | 0 <= i < |config.excludeKeywords|
      ensures !Contains(text, config.excludeKeywords[i])
    {
      var j :| 0 <= j < |config.excludeKeywords[i]| && IsUpper(config.excludeKeywords[i][j]);
      UpperNotContained(text, config.excludeKeywords[i], j);
    }
  }

  /** An empty keyword is a substring of every text, so it excludes every ad
      that rule 1 lets through. */
  lemma EmptyKeywordExcludesAll(ad: RawAd, config: CategoryConfig, city: string)
    requires "" in config.excludeKeywords
    ensures Normalize(ad, config, city) == ExcludedBuildingType
         || Normalize(ad, config, city) == ExcludedKeyword
  {
    var i :| 0 <= i < |config.excludeKeywords| && config.excludeKeywords[i] == "";
    EmptyIsContained(SearchText(ad));
  }

  /** An ad with a missing or empty address or url never yields a listing,
      whatever its other fields hold. */
  lemma MissingAddressOrUrlNeverKept(ad: RawAd, config: CategoryConfig, city: string)
    requires ad.address.None? || ad.address == Some("") || ad.url.None? || ad.url == Some("")
    ensures !Normalize(ad, config, city).Kept?
    ensures Normalize(ad, config, city) in {ExcludedBuildingType, ExcludedKeyword, MissingAddressOrUrl}
  {
  }

  /** The area is read from "Площадь" for land and from "Общая площадь"
      otherwise; an ad that passes the other checks but lacks (or has null in)
      its category's area parameter is skipped as MissingArea. */
  lemma AreaFieldSelection(ad: RawAd, config: CategoryConfig, city: string)
    requires !BuildingTypeExcluded(ad, config.excludeBuildingTypes)
    requires !KeywordExcluded(ad, config.excludeKeywords)
    requires ad.address.Some? && ad.address.value != "" && ad.url.Some? && ad.url.value != ""
    ensures Normalize(ad, config, city).MissingArea? <==>
      (if config.id == LandCategoryId then Param(ad, LandAreaKey) else Param(ad, FloorAreaKey)).None?
    ensures Normalize(ad, config, city).Kept? ==>
      Param(ad, AreaKey(config.id)).Some? &&
      FloatOfText(Param(ad, AreaKey(config.id)).value) == Some(Normalize(ad, config, city).listing.area)
  {
  }

  /** Every field of a kept listing, as the source builds it: address and url
      non-empty and copied, the area converted from the category's parameter
      with a decimal comma accepted, the price converted (0 when absent), the
      price per square metre rounded from price / area (0 for a non-positive
      area), the description stripped, and the tags copied from the city and
      the category configuration. */
  lemma KeptListingFields(ad: RawAd, config: CategoryConfig, city: string)
    requires Normalize(ad, config, city).Kept?
    ensures var l := Normalize(ad, config, city).listing;
      && ad.address == Some(l.address) && l.address != ""
      && ad.url == Some(l.url) && l.url != ""
      && Param(ad, AreaKey(config.id)).Some?
      && FloatOfText(Param(ad, AreaKey(config.id)).value) == Some(l.area)
      && Price(ad) == Some(l.price)
      && (l.area <= 0.0 ==> l.pricePerSqm == 0.0)
      && l.pricePerSqm == PricePerSqm(l.price, l.area)
      && (l.area > 0.0 ==> -0.005 <= l.pricePerSqm - l.price / l.area <= 0.005)
      && l.description == Strip(ad.description)
      && l.title == ad.title
      && l.imageUrl == ImageUrl(ad)
      && l.city == city
      && l.categoryId == config.id && l.categoryName == config.name && l.categoryColor == config.color
  {
  }

  /** A present price that does not convert skips the ad; an absent price never
      does, and then the listing's price (and price per square metre) is 0. */
  lemma PriceConversion(ad: RawAd, config: CategoryConfig, city: string)
    ensures ad.price.Some? && Float(ad.price.value).None? ==> !Normalize(ad, config, city).Kept?
    ensures ad.price.None? && Normalize(ad, config, city).Kept? ==>
      Normalize(ad, config, city).listing.price == 0.0 &&
      Normalize(ad, config, city).listing.pricePerSqm == 0.0
    ensures ad.price.None? && Normalize(ad, config, city).Unconvertible? ==>
      FloatOfText(Param(ad, AreaKey(config.id)).value).None?
  {
    if ad.price.None? && Normalize(ad, config, city).Kept? {
      assert Round2(0.0) == 0.0;
    }
  }

  // ---------------------------------------------------------------------------
  // The filtered list of a batch

  /** What one ad contributes to the filtered list. */
  function Contribution(ad: RawAd, config: CategoryConfig, city: string): (r: seq<Listing>)
    ensures |r| <= 1
    ensures r != [] <==> Normalize(ad, config, city).Kept?
  {
    match Normalize(ad, config, city)
    case Kept(l) => [l]
    case _ => []
  }

  /** The filtered list: the kept listings of `ads`, in order. */
  function Survivors(ads: seq<RawAd>, config: CategoryConfig, city: string): (r: seq<Listing>)
    decreases |ads|
  {
    if ads == [] then []
    else Survivors(ads[..|ads| - 1], config, city) + Contribution(ads[|ads| - 1], config, city)
  }

  /** The filtered list of a concatenation is the concatenation of the filtered
      lists: filtering preserves order and treats every ad on its own. */
  lemma {:induction false} SurvivorsAppend(a: seq<RawAd>, b: seq<RawAd>, config: CategoryConfig, city: string)
    ensures Survivors(a + b, config, city) == Survivors(a, config, city) + Survivors(b, config, city)
    decreases |b|
  {
    if b == [] {
      assert a + b == a;
    } else {
      var b' := b[..|b| - 1];
      assert (a + b)[..|a + b| - 1] == a + b';
      SurvivorsAppend(a, b', config, city);
    }
  }

  /** A skipped ad (excluded, incomplete or unconvertible) drops out alone: the
      ads around it are filtered exactly as if it were not there. */
  lemma SkippedAdDropsAlone(before: seq<RawAd>, ad: RawAd, after: seq<RawAd>, config: CategoryConfig, city: string)
    requires !Normalize(ad, config, city).Kept?
    ensures Survivors(before + [ad] + after, config, city) ==
            Survivors(before, config, city) + Survivors(after, config, city)
  {
    SurvivorsAppend(before + [ad], after, config, city);
    SurvivorsAppend(before, [ad], config, city);
    SurvivorsSingle(ad, config, city);
  }

  /** A single ad's filtered list is its contribution. */
  lemma SurvivorsSingle(ad: RawAd, config: CategoryConfig, city: string)
    ensures Survivors([ad], config, city) == Contribution(ad, config, city)
  {
    assert [ad][..0] == [];
  }

  /** The verdict on every ad of a batch, position by position. */
  function Verdicts(ads: seq<RawAd>, config: CategoryConfig, city: string): (vs: seq<Verdict>)
    ensures |vs| == |ads|
    ensures forall i | 0 <= i < |ads| :: vs[i] == Normalize(ads[i], config, city)
  {
    seq(|ads|, i requires 0 <= i < |ads| => Normalize(ads[i], config, city))
  }

  /** `filtered` is read off the verdicts `vs` at strictly increasing positions
      `picked`, each a kept verdict whose listing it is, and every kept verdict
      is picked. */
  predicate KeptAt(picked: seq<nat>, filtered: seq<Listing>, vs: seq<Verdict>) {
    && |picked| == |filtered|
    && (forall k | 0 <= k < |picked| :: picked[k] < |vs| && vs[picked[k]] == Kept(filtered[k]))
    && (forall k, k' | 0 <= k < k' < |picked| :: picked[k] < picked[k'])
    && (forall i | 0 <= i < |vs| :: vs[i].Kept? ==> i in picked)
  }

  /** One more verdict: a kept one is picked at the end, any other is passed over. */
  lemma KeptAtSnoc(picked: seq<nat>, filtered: seq<Listing>, vs: seq<Verdict>)
    requires |vs| > 0 && KeptAt(picked, filtered, vs[..|vs| - 1])
    ensures vs[|vs| - 1].Kept? ==> KeptAt(picked + [|vs| - 1], filtered + [vs[|vs| - 1].listing], vs)
    ensures !vs[|vs| - 1].Kept? ==> KeptAt(picked, filtered, vs)
  {
    var n := |vs| - 1;
    var init := vs[..n];
    if vs[n].Kept? {
      var more := picked + [n];
      forall i | 0 <= i < |vs| && vs[i].Kept?
        ensures i in more
      {
        if i < n {
          assert vs[i] == init[i];
        } else {
          assert more[|more| - 1] == i;
        }
      }
      forall k | 0 <= k < |more|
        ensures more[k] < |vs| && vs[more[k]] == Kept((filtered + [vs[n].listing])[k])
      {
        if k < |picked| {
          assert vs[more[k]] == init[picked[k]];
        }
      }
    } else {
      forall i | 0 <= i < |vs| && vs[i].Kept?
        ensures i in picked
      {
        assert vs[i] == init[i];
      }
      forall k | 0 <= k < |picked|
        ensures picked[k] < |vs| && vs[picked[k]] == Kept(filtered[k])
      {
        assert vs[picked[k]] == init[picked[k]];
      }
    }
  }

  /** The listings of the kept verdicts, in order. */
  function Kepts(vs: seq<Verdict>): (r: seq<Listing>)
    ensures |r| <= |vs|
    decreases |vs|
  {
    if vs == [] then []
    else Kepts(vs[..|vs| - 1]) + (if vs[|vs| - 1].Kept? then [vs[|vs| - 1].listing] else [])
  }

  /** The filtered list is the listings of the batch's kept verdicts. */
  lemma {:induction false} SurvivorsAreKepts(ads: seq<RawAd>, config: CategoryConfig, city: string)
    ensures Survivors(ads, config, city) == Kepts(Verdicts(ads, config, city))
    decreases |ads|
  {
    if ads != [] {
      var n := |ads| - 1;
      SurvivorsAreKepts(ads[..n], config, city);
      assert Verdicts(ads, config, city)[..n] == Verdicts(ads[..n], config, city);
    }
  }

  /** The kept verdicts' listings are read off at strictly increasing positions,
      and every kept verdict is read. */
  lemma {:induction false} KeptsInOrder(vs: seq<Verdict>)
    ensures exists picked :: KeptAt(picked, Kepts(vs), vs)
    decreases |vs|
  {
    if vs == [] {
      var none: seq<nat> := [];
      assert KeptAt(none, Kepts(vs), vs);
    } else {
      var n := |vs| - 1;
      KeptsInOrder(vs[..n]);
      var prev := Kepts(vs[..n]);
      var picked :| KeptAt(picked, prev, vs[..n]);
      KeptAtSnoc(picked, prev, vs);
      if vs[n].Kept? {
        assert Kepts(vs) == prev + [vs[n].listing];
        assert KeptAt(picked + [n], Kepts(vs), vs);
      } else {
        assert Kepts(vs) == prev;
        assert KeptAt(picked, Kepts(vs), vs);
      }
    }
  }

  /** The filtered list is exactly the kept listings of the batch, in the
      batch's order: an order-preserving subsequence of the raw data, after
      mapping, that leaves no kept ad out. */
  lemma SurvivorsInOrder(ads: seq<RawAd>, config: CategoryConfig, city: string)
    ensures |Survivors(ads, config, city)| <= |ads|
    ensures exists picked :: KeptAt(picked, Survivors(ads, config, city), Verdicts(ads, config, city))
  {
    SurvivorsAreKepts(ads, config, city);
    KeptsInOrder(Verdicts(ads, config, city));
  }

  /** Every listing of the filtered list carries the partition's city and category tags. */
  lemma {:induction false} SurvivorsTagged(ads: seq<RawAd>, config: CategoryConfig, city: string)
    ensures forall l :: l in Survivors(ads, config, city) ==>
      l.city == city && l.categoryId == config.id && l.categoryName == config.name &&
      l.categoryColor == config.color && l.address != "" && l.url != ""
    decreases |ads|
  {
    if ads != [] {
      SurvivorsTagged(ads[..|ads| - 1], config, city);
    }
  }

  /** The loop over the batch: each ad is checked and, when kept, appended. */
  method FilterAds(ads: seq<RawAd>, config: CategoryConfig, city: string) returns (filtered: seq<Listing>)
    ensures filtered == Survivors(ads, config, city)
  {
    filtered := [];
    var i := 0;
    while i < |ads|
      invariant 0 <= i <= |ads|
      invariant filtered == Survivors(ads[..i], config, city)
    {
      assert ads[..i + 1][..i] == ads[..i];
      var verdict := Normalize(ads[i], config, city);
      if verdict.Kept? {
        filtered := filtered + [verdict.listing];
      }
      i := i + 1;
    }
    assert ads[..i] == ads;
  }
}
