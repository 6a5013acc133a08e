/**
 * The records the pipeline passes around: a raw ad as the listings API returns
 * it, a category's configuration, and the normalised listing record built
 * from an ad that survives filtering.
 */
module Ads {
  import opened Common
  import opened Json

  /** One ad object of the API's `data` array, as the pipeline reads it.
      `address` and `url` are None when the key is absent or null; `title` and
      `description` are "" when absent; `price` is None when the key is absent
      (a JSON null is `Some(Null)`); `params` is the nested parameter object
      ({} when absent); `images` holds each image object's `imgurl` entry;
      `coords` is the optional coordinate object. */
  datatype RawAd = RawAd(
    address: Option<string>,
    url: Option<string>,
    title: string,
    description: string,
    price: Option<Scalar>,
    params: map<string, Scalar>,
    images: seq<Option<string>>,
    coords: Option<map<string, Scalar>>)

  /** `ad.get('params', {}).get(key)`: None when the key is absent or null. */
  function Param(ad: RawAd, key: string): (r: Option<Scalar>)
    ensures r.Some? <==> key in ad.params && ad.params[key] != Null
    ensures r.Some? ==> r.value == ad.params[key]
  {
    if key in ad.params && ad.params[key] != Null then Some(ad.params[key]) else None
  }

  /** One entry of the configured category list. Absent exclusion lists are empty. */
  datatype CategoryConfig = CategoryConfig(
    id: int,
    name: string,
    color: string,
    squareMin: Option<real>,
    squareMax: Option<real>,
    excludeBuildingTypes: seq<string>,
    excludeKeywords: seq<string>)

  /** The normalised listing record built for an ad that survives filtering. */
  datatype Listing = Listing(
    address: string,
    area: real,
    price: real,
    pricePerSqm: real,
    url: string,
    description: string,
    title: string,
    imageUrl: string,
    city: string,
    categoryId: int,
    categoryName: string,
    categoryColor: string)
}
