/**
 * The map report (src/map_generator.py): each new listing is matched to its
 * raw ad by url, located from the ad's own coordinates or else by the
 * geocoder, and shown as a marker; the map is centred on the first marker.
 * The geocoder is a function parameter; folium's HTML is left out, and the
 * popup is kept as the record of what it shows.
 */
module MapReport {
  import opened Common
  import opened Json
  import opened Ads
  import opened PriceFormat

  /** (latitude, longitude). */
  type Coords = (real, real)

  /** Centre of Saint Petersburg, used when a map has no marker. */
  const DefaultCenter: Coords := (59.9386, 30.3141)

  /** `next(item for item in all_ads_data if item.get('url') == url)`. */
  function FindRawAd(raw: seq<RawAd>, url: string): (r: Option<RawAd>)
    ensures r.None? <==> forall i | 0 <= i < |raw| :: raw[i].url != Some(url)
    ensures r.Some? ==> r.value.url == Some(url) && r.value in raw
    decreases |raw|
  {
    if |raw| == 0 then None
    else if raw[0].url == Some(url) then Some(raw[0])
    else
      var r := FindRawAd(raw[1..], url);
      assert forall i | 1 <= i < |raw| :: raw[i] == raw[1..][i - 1];
      r
  }

  /** It is the FIRST ad with that url: every ad before it has another url. */
  lemma {:induction false} FindRawAdFirst(raw: seq<RawAd>, url: string)
    requires FindRawAd(raw, url).Some?
    ensures exists i | 0 <= i < |raw| ::
      raw[i] == FindRawAd(raw, url).value && forall j | 0 <= j < i :: raw[j].url != Some(url)
    decreases |raw|
  {
    if raw[0].url != Some(url) {
      FindRawAdFirst(raw[1..], url);
      var i :| 0 <= i < |raw[1..]| && raw[1..][i] == FindRawAd(raw[1..], url).value
        && forall j | 0 <= j < i :: raw[1..][j].url != Some(url);
      forall j | 0 <= j < i + 1
        ensures raw[j].url != Some(url)
      {
        if j > 0 {
          assert raw[j] == raw[1..][j - 1];
        }
      }
      assert raw[i + 1] == raw[1..][i];
    }
  }

  /** The ad's own coordinates: both `lat` and `lng` present and both
      converting with `float`. (Two keys present make the object truthy.) */
  function AdCoords(coords: Option<map<string, Scalar>>): (r: Option<Coords>)
  {
    if coords.Some? && "lat" in coords.value && "lng" in coords.value then
      match (Float(coords.value["lat"]), Float(coords.value["lng"]))
      case (Some(lat), Some(lng)) => Some((lat, lng))
      case _ => None
    else None
  }

  /** `_get_coordinates_list`: the ad's coordinates when usable, otherwise the
      geocoder's answer for the address (None when it finds nothing or fails). */
  function Coordinates(address: string, coords: Option<map<string, Scalar>>,
                       geocode: string -> Option<Coords>): Option<Coords>
  {
    match AdCoords(coords)
    case Some(c) => Some(c)
    case None => geocode(address)
  }

  /** The ad's coordinates are used exactly when both keys are present and both
      values convert, and then they are the converted values. */
  lemma AdCoordsUsed(coords: map<string, Scalar>)
    ensures AdCoords(Some(coords)).Some? <==>
      "lat" in coords && "lng" in coords && Float(coords["lat"]).Some? && Float(coords["lng"]).Some?
    ensures AdCoords(Some(coords)).Some? ==>
      AdCoords(Some(coords)).value == (Float(coords["lat"]).value, Float(coords["lng"]).value)
  {
  }

  /** The geocoder is consulted only as a fallback: with usable coordinates of
      its own, an ad is located the same way whatever the geocoder would say;
      without them, the answer is the geocoder's. */
  lemma GeocoderOnlyAsFallback(address: string, coords: Option<map<string, Scalar>>,
                               g1: string -> Option<Coords>, g2: string -> Option<Coords>)
    ensures AdCoords(coords).Some? ==>
      Coordinates(address, coords, g1) == Coordinates(address, coords, g2) == AdCoords(coords)
    ensures AdCoords(coords).None? ==> Coordinates(address, coords, g1) == g1(address)
  {
  }

  /** What a marker's popup shows. */
  datatype Popup = Popup(
    address: string,
    area: real,
    pricePerSqm: string,
    price: string,
    description: string,
    url: string,
    image: Option<string>)

  /** A marker: position, popup, and the address as tooltip. */
  datatype Marker = Marker(coords: Coords, popup: Popup, tooltip: string)

  /** The popup of a listing: both prices formatted, the image only when the
      listing has a non-empty image url. */
  function PopupOf(l: Listing): (p: Popup)
    ensures p.image.Some? <==> l.imageUrl != ""
  {
    Popup(l.address, l.area, FormatPrice(Number(l.pricePerSqm)), FormatPrice(Number(l.price)),
          l.description, l.url, if l.imageUrl != "" then Some(l.imageUrl) else None)
  }

  /** The marker of one listing, when it can be located. */
  function MarkerFor(l: Listing, raw: seq<RawAd>, geocode: string -> Option<Coords>): (m: Option<Marker>)
    ensures m.Some? ==> m.value.popup == PopupOf(l) && m.value.tooltip == l.address
  {
    var full := FindRawAd(raw, l.url);
    var coords := Coordinates(l.address, if full.Some? then full.value.coords else None, geocode);
    if coords.Some? then Some(Marker(coords.value, PopupOf(l), l.address)) else None
  }

  /** The present values of `opts`, in order. */
  function Somes(opts: seq<Option<Marker>>): (ms: seq<Marker>)
    ensures |ms| <= |opts|
    decreases |opts|
  {
    if |opts| == 0 then []
    else
      var n := |opts| - 1;
      Somes(opts[..n]) + match opts[n] case Some(m) => [m] case None => []
  }

  lemma SomesSnoc(opts: seq<Option<Marker>>, o: Option<Marker>)
    ensures Somes(opts + [o]) == Somes(opts) + match o case Some(m) => [m] case None => []
  {
    assert (opts + [o])[..|opts|] == opts;
  }

  /** Each listing's marker, or None where it cannot be located. */
  function Located(listings: seq<Listing>, raw: seq<RawAd>, geocode: string -> Option<Coords>): (r: seq<Option<Marker>>)
    ensures |r| == |listings|
  {
    seq(|listings|, i requires 0 <= i < |listings| => MarkerFor(listings[i], raw, geocode))
  }

  /** The markers of `listings`, in their order, skipping those not located. */
  function Markers(listings: seq<Listing>, raw: seq<RawAd>, geocode: string -> Option<Coords>): (ms: seq<Marker>)
    ensures |ms| <= |listings|
  {
    Somes(Located(listings, raw, geocode))
  }

  lemma MarkersSnoc(listings: seq<Listing>, raw: seq<RawAd>, geocode: string -> Option<Coords>, i: nat)
    requires i < |listings|
    ensures Markers(listings[..i + 1], raw, geocode)
      == Markers(listings[..i], raw, geocode)
         + match MarkerFor(listings[i], raw, geocode) case Some(m) => [m] case None => []
  {
    assert Located(listings[..i + 1], raw, geocode)
      == Located(listings[..i], raw, geocode) + [MarkerFor(listings[i], raw, geocode)];
    SomesSnoc(Located(listings[..i], raw, geocode), MarkerFor(listings[i], raw, geocode));
  }

  /** Nothing is kept exactly when every value is None. */
  lemma {:induction false} SomesEmptyIffAllNone(opts: seq<Option<Marker>>)
    ensures Somes(opts) == [] <==> forall i | 0 <= i < |opts| :: opts[i].None?
    decreases |opts|
  {
    if |opts| > 0 {
      var n := |opts| - 1;
      SomesEmptyIffAllNone(opts[..n]);
      assert forall i | 0 <= i < n :: opts[..n][i] == opts[i];
    }
  }

  /** There are no markers exactly when no listing could be located. */
  lemma NoMarkersIffNoneLocated(listings: seq<Listing>, raw: seq<RawAd>, geocode: string -> Option<Coords>)
    ensures Markers(listings, raw, geocode) == [] <==>
      forall i | 0 <= i < |listings| :: MarkerFor(listings[i], raw, geocode).None?
  {
    var opts := Located(listings, raw, geocode);
    SomesEmptyIffAllNone(opts);
    assert forall i | 0 <= i < |listings| :: opts[i] == MarkerFor(listings[i], raw, geocode);
  }

  /** The positions of the present values of `opts`, in order. */
  function Present(opts: seq<Option<Marker>>): (ps: seq<nat>)
    ensures |ps| == |Somes(opts)|
    ensures forall k | 0 <= k < |ps| :: ps[k] < |opts|
    decreases |opts|
  {
    if |opts| == 0 then []
    else
      var n := |opts| - 1;
      Present(opts[..n]) + if opts[n].Some? then [n] else []
  }

  /** The kept values sit at strictly increasing positions of `opts`. */
  lemma {:induction false} PresentSelects(opts: seq<Option<Marker>>)
    ensures forall k | 0 <= k < |Present(opts)| :: opts[Present(opts)[k]] == Some(Somes(opts)[k])
    ensures forall k, k' | 0 <= k < k' < |Present(opts)| :: Present(opts)[k] < Present(opts)[k']
    decreases |opts|
  {
    if |opts| > 0 {
      var n := |opts| - 1;
      PresentSelects(opts[..n]);
      var prev, prevMs := Present(opts[..n]), Somes(opts[..n]);
      var ps, ms := Present(opts), Somes(opts);
      assert ps == prev + (if opts[n].Some? then [n] else []);
      assert ms == prevMs + (if opts[n].Some? then [opts[n].value] else []);
      forall k | 0 <= k < |ps|
        ensures opts[ps[k]] == Some(ms[k])
      {
        if k < |prev| {
          assert ps[k] == prev[k] && ms[k] == prevMs[k];
          assert opts[..n][prev[k]] == Some(prevMs[k]);
          assert opts[..n][prev[k]] == opts[prev[k]];
        } else {
          assert opts[n].Some? && ps[k] == n && ms[k] == opts[n].value;
        }
      }
      forall k, k' | 0 <= k < k' < |ps|
        ensures ps[k] < ps[k']
      {
        assert ps[k] == prev[k];
        if k' < |prev| {
          assert ps[k'] == prev[k'];
        } else {
          assert ps[k'] == n && prev[k] < n;
        }
      }
    }
  }

  /** Every present value is kept. */
  lemma {:induction false} PresentComplete(opts: seq<Option<Marker>>)
    ensures forall i | 0 <= i < |opts| :: opts[i].Some? ==> i in Present(opts)
    decreases |opts|
  {
    if |opts| > 0 {
      var n := |opts| - 1;
      PresentComplete(opts[..n]);
      var prev := Present(opts[..n]);
      var ps := Present(opts);
      assert ps == prev + (if opts[n].Some? then [n] else []);
      forall i | 0 <= i < |opts| && opts[i].Some?
        ensures i in ps
      {
        if i < n {
          assert opts[..n][i] == opts[i];
          assert i in prev;
        } else {
          assert ps[|ps| - 1] == n;
        }
      }
    }
  }

  /** The markers keep the listings' order: the k-th marker is the marker of
      the listing at the k-th position of `Present`, those positions increase,
      and every listing that can be located is among them. */
  lemma MarkersKeepOrder(listings: seq<Listing>, raw: seq<RawAd>, geocode: string -> Option<Coords>)
    ensures var ms, ps := Markers(listings, raw, geocode), Present(Located(listings, raw, geocode));
      && |ps| == |ms|
      && (forall k | 0 <= k < |ps| :: ps[k] < |listings| && MarkerFor(listings[ps[k]], raw, geocode) == Some(ms[k]))
      && (forall k, k' | 0 <= k < k' < |ps| :: ps[k] < ps[k'])
      && (forall i | 0 <= i < |listings| :: MarkerFor(listings[i], raw, geocode).Some? ==> i in ps)
  {
    var opts := Located(listings, raw, geocode);
    PresentSelects(opts);
    PresentComplete(opts);
    assert forall i | 0 <= i < |listings| :: opts[i] == MarkerFor(listings[i], raw, geocode);
  }

  /** A listing whose raw ad carries usable coordinates is always located, there. */
  lemma AdCoordinatesWin(l: Listing, raw: seq<RawAd>, geocode: string -> Option<Coords>)
    requires FindRawAd(raw, l.url).Some?
    requires AdCoords(FindRawAd(raw, l.url).value.coords).Some?
    ensures MarkerFor(l, raw, geocode).Some?
    ensures MarkerFor(l, raw, geocode).value.coords == AdCoords(FindRawAd(raw, l.url).value.coords).value
    ensures MarkerFor(l, raw, geocode).value.tooltip == l.address
  {
  }

  /** The map: centre and markers, in the order they were added. */
  datatype Map = Map(center: Coords, markers: seq<Marker>)

  /** `create_interactive_map`: centred on the first marker, or on the default
      centre when there is none; every marker added in order. */
  method CreateInteractiveMap(markers: seq<Marker>) returns (m: Map)
    ensures |markers| > 0 ==> m.center == markers[0].coords
    ensures |markers| == 0 ==> m.center == DefaultCenter
    ensures m.markers == markers
  {
    var center := if |markers| > 0 then markers[0].coords else DefaultCenter;
    m := Map(center, []);
    for i := 0 to |markers|
      invariant m == Map(center, markers[..i])
    {
      m := Map(m.center, m.markers + [markers[i]]);
      assert markers[..i + 1] == markers[..i] + [markers[i]];
    }
    assert markers[..|markers|] == markers;
  }

  /** `create_map_report`: None for no listings, or when none could be located;
      otherwise the map of the located listings' markers. */
  method CreateMapReport(listings: seq<Listing>, raw: seq<RawAd>, geocode: string -> Option<Coords>)
    returns (r: Option<Map>)
    ensures |listings| == 0 ==> r.None?
    ensures r.None? <==> forall i | 0 <= i < |listings| :: MarkerFor(listings[i], raw, geocode).None?
    ensures r.Some? ==> r.value.markers == Markers(listings, raw, geocode)
    ensures r.Some? ==> |r.value.markers| > 0 && r.value.center == r.value.markers[0].coords
  {
    if |listings| == 0 {
      return None;
    }
    var markers: seq<Marker> := [];
    var i := 0;
    while i < |listings|
      invariant 0 <= i <= |listings|
      invariant markers == Markers(listings[..i], raw, geocode)
    {
      var l := listings[i];
      var full := FindRawAd(raw, l.url);
      var coords := Coordinates(l.address, if full.Some? then full.value.coords else None, geocode);
      MarkersSnoc(listings, raw, geocode, i);
      if coords.Some? {
        markers := markers + [Marker(coords.value, PopupOf(l), l.address)];
      }
      i := i + 1;
    }
    assert listings[..|listings|] == listings;
    NoMarkersIffNoneLocated(listings, raw, geocode);
    if |markers| == 0 {
      return None;
    }
    var m := CreateInteractiveMap(markers);
    r := Some(m);
  }
}
