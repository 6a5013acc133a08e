# Realty monitoring bot: a verified model of the ad pipeline

The bot runs a scheduled job over configured regions. For each region, it
asks a classified-ads API for commercial property and land plots in every
city of the region and every configured category. It then:

- filters and normalises the returned ads into listing records;
- stores each listing whose (address, area) pair has not been seen before in
  a SQLite table with two uniqueness constraints;
- builds a spreadsheet report and an interactive map of the new listings;
- sends an email with both reports, or a "no new listings" email.

This project models that pipeline in Dafny and proves properties of the model:

- building the query for one (city, category) pair, with land plots (category 5) special-cased;
- the one retry after HTTP 429, and every error path that yields no ads;
- the two opt-in exclusion rules and the field conversion of each ad;
- gathering a region's results over cities, then categories, in configuration order;
- the listing table, modelled as a class holding a sequence of rows, whose insert can fail;
- the dedup pass that records new listings and rolls the session back on a failed insert;
- price formatting;
- the map report: the raw-ad lookup, the choice of coordinates, and the markers kept in order;
- the spreadsheet report: the area column's name, the column selection, the
  file name's city part, the column widths and the hyperlink rewriting of url cells;
- the per-region decision of which email to send.

The models of outside systems are function parameters:

- the listings API is a function from the query to the two replies a request can get (`Fetch.Exchange`);
- the geocoder is a function from an address to optional coordinates;
- pandas' rendering of an area number is a function from `real` to text;
- the clock, which stamps every stored row, is an input string (`now`).

Modules, in dependency order:

- `Common`: `Option`.
- `Text`: substring search, lower-casing, `.strip()` and `.replace()` on one character.
- `Numbers`: `float()` on text, integer rendering, round-half-even, `int()` truncation.
- `Json`: the JSON scalars the pipeline converts, with their truthiness and the two float conversions.
- `Ads`: raw ads, category configurations and listing records.
- `Filter`: the exclusion rules, the normaliser, and the filter loop over one batch.
- `Fetch`: query parameters, the HTTP exchange, one category's results, and a region's results.
- `Store`: the listing table and the `ListingStore` session class.
- `DedupPass`: the novelty check and insert loop of the job.
- `PriceFormat`: `_format_price`.
- `MapReport`: `create_map_report` and `create_interactive_map`.
- `ExcelReport`: `create_excel_report` and `_is_valid_url`.
- `MainJob`: one region's run, and the job over all regions.

Two behaviours of the code are easy to miss, and the model keeps them:

- a present price that does not convert makes the ad be skipped; it does not default to 0;
- the title is stored as it is, without being trimmed; only the description is trimmed.

## Model

| member | source | states |
|---|---|---|
| Text.EmptyIsContained | src/main.py:103 | the empty string is a substring of every text, so an empty keyword matches every ad |
| Text.LowerChar | src/main.py:100-101 | lower-casing one character leaves no upper-case letter and leaves other characters alone |
| Text.Lower | src/main.py:100-101 | `.lower()` keeps the length and lower-cases every character in place |
| Text.LowerIsLower | src/main.py:100-101 | a lower-cased text has no upper-case letter, and lower-casing it again changes nothing |
| Text.UpperNotContained | src/main.py:98-104 | a needle with an upper-case letter never occurs in a text that has none |
| Text.StripStart | src/main.py:132 | the leading whitespace run ends at the first non-space character |
| Text.StripEnd | src/main.py:132 | the trailing whitespace run starts after the last non-space character |
| Text.StripBounds | src/main.py:132 | the two runs do not cross, and meet only in an all-space text |
| Text.Strip | src/main.py:132 | `.strip()` removes exactly the leading and the trailing whitespace runs (Python's `str.isspace` set): the result is empty exactly for an all-whitespace text, and otherwise is the text between the two runs, which starts and ends with a non-space character |
| Text.StripUnchanged | src/main.py:132 | a text already without surrounding spaces is left unchanged |
| Text.ReplaceChar | src/main.py:121 | `.replace(a, b)` on one character keeps the length and swaps exactly the occurrences of `a` |
| Text.ReplaceCharRemoves | src/main.py:121 | after replacing `a` by a different character, no `a` is left |
| Numbers.UnsignedValue | src/main.py:121-122 | a converted value is never negative; which texts convert, and to what, is stated by the two lemmas below |
| Numbers.DecimalValue | src/main.py:121 | a whole part and a fraction part convert, to a non-negative value, only when both are digit strings and not both empty |
| Numbers.UnsignedAccepts | src/main.py:121-122 | unsigned text converts exactly when it is neither empty nor a lone `.` and every character other than its first `.` is a digit |
| Numbers.DigitsAroundDot | src/main.py:121 | the text on either side of a position is all digits exactly when every other character is a digit |
| Numbers.DecimalDigits | src/main.py:121 | digit strings for the whole and the fraction part, not both empty, give the whole value plus the fraction value |
| Numbers.UnsignedDecimal | src/main.py:121-122 | digits, a point and digits convert to the whole part plus the fraction over a power of ten: `45.5` (from `45,5`) is 45 + 5/10 |
| Numbers.DotAfterDigits | src/main.py:121 | the point after a digit string is the first one of the text |
| Numbers.DigitsHaveNoDot | src/main.py:121 | a digit string has no point |
| Numbers.UnsignedDigits | src/main.py:121-122 | a non-empty digit string converts to its digit value |
| Numbers.ParseReal | src/main.py:121-122 | `float()` on text: surrounding whitespace is stripped and one sign is allowed; it has no contract of its own, and the parse lemmas below state what it returns |
| Numbers.NatToStringValue | src/map_generator.py:27 | the decimal digits of a natural number read back as that number |
| Numbers.IntToString | src/map_generator.py:27 | an integer's decimal text is never empty |
| Numbers.DigitsParse | src/main.py:121-122 | `float()` of a string of digits is their value |
| Numbers.NegativeDigitsParse | src/main.py:121-122 | `float()` of `-` followed by digits is the negated value |
| Numbers.IntToStringParses | src/map_generator.py:27 | `float(str(k))` is `k` for every integer `k`: integer rendering and parsing are inverse |
| Numbers.RoundHalfEven | src/map_generator.py:26 | `round(x)` is within one half of `x`, and even on a tie |
| Numbers.RoundHalfEvenUnique | src/map_generator.py:26 | any integer that is within one half and even on a tie is `round(x)` |
| Numbers.Round2 | src/main.py:130 | `round(x, 2)` is within 0.005 of `x`, is a whole number of hundredths, and on a tie keeps an even last digit |
| Numbers.Truncate | src/map_generator.py:33 | `int(x)` cuts toward zero: the whole part below a non-negative `x`, above a negative one |
| Json.Float | src/main.py:122 | `float()` keeps numbers and refuses null, lists and dicts |
| Json.FloatOfText | src/main.py:121 | `float(str(v).replace(',', '.'))` keeps numbers and refuses every non-number non-string |
| Json.CommaIsDecimalPoint | src/main.py:121 | a decimal comma in an area string converts exactly as a decimal point would |
| Ads.Param | src/main.py:93 | a nested parameter is present exactly when its key exists with a non-null value, and is that value |
| Filter.AreaKey | src/main.py:113-117 | land plots (category 5) read `Площадь`, every other category `Общая площадь` |
| Filter.SearchText | src/main.py:100-102 | the keyword text is the lower-cased title, one space and the lower-cased description |
| Filter.Price | src/main.py:122 | an absent price is 0; a present one is its `float()`, which may fail |
| Filter.ImageUrl | src/main.py:123-124 | the image url is the first image's `imgurl` when there is one, otherwise empty |
| Filter.PricePerSqm | src/main.py:130 | the price per square metre is 0 for a non-positive area; otherwise it is price/area rounded to two places: within 0.005, a whole number of hundredths, with an even last digit on a tie, and not negative for a non-negative price |
| Filter.NoRulesNoExclusion | src/main.py:91-104 | empty exclusion lists never exclude an ad |
| Filter.BuildingTypeRule | src/main.py:91-95 | an ad is excluded by building type exactly when the list is non-empty, the ad's `Вид объекта` is a non-empty string, and some listed string occurs in it |
| Filter.KeywordRule | src/main.py:98-104 | an ad not excluded by building type is excluded by keyword exactly when the list is non-empty and some keyword occurs in the lower-cased title, a space and the lower-cased description |
| Filter.BuildingTypeExcluded | src/main.py:91-95 | rule 1 as a predicate; Filter.BuildingTypeRule states it |
| Filter.KeywordExcluded | src/main.py:98-104 | rule 2 as a predicate; Filter.KeywordRule states it |
| Filter.Normalize | src/main.py:89-142 | the verdict on one ad, in the source's order of checks; the rule, field and conversion lemmas state it |
| Filter.UpperCaseKeywordsNeverMatch | src/main.py:98-104 | keywords are not lower-cased, so keywords that each hold an upper-case letter never exclude |
| Filter.EmptyKeywordExcludesAll | src/main.py:98-104 | an empty keyword in the list excludes every ad not already excluded by building type |
| Filter.MissingAddressOrUrlNeverKept | src/main.py:108-111 | an ad with a missing or empty address or url never yields a listing |
| Filter.AreaFieldSelection | src/main.py:113-121 | past the exclusion and address checks, an ad lacks an area exactly when its category's area parameter is missing, and a kept area is that parameter converted |
| Filter.KeptListingFields | src/main.py:106-139 | a kept listing carries the ad's address, url, converted area and price, the price per square metre computed from that price and area, the stripped description, the title, the image url, the city and the category's id, name and colour |
| Filter.PriceConversion | src/main.py:121-142 | an unconvertible price skips the ad; an absent price gives price 0 and price per square metre 0 |
| Filter.Contribution | src/main.py:106-142 | one ad contributes at most one listing, and one exactly when it is kept |
| Filter.SurvivorsAppend | src/main.py:88-145 | filtering a concatenation is concatenating the filtered parts: every ad is judged on its own |
| Filter.SkippedAdDropsAlone | src/main.py:140-142 | a skipped ad drops out alone, and the ads around it are filtered as if it were not there |
| Filter.SurvivorsSingle | src/main.py:88-145 | a one-ad batch yields that ad's contribution |
| Filter.Survivors | src/main.py:88-145 | the filtered list of a batch; Filter.SurvivorsInOrder and Filter.SurvivorsAppend state it |
| Filter.Verdicts | src/main.py:89-142 | the verdicts of a batch, one per ad and in order |
| Filter.KeptAtSnoc | src/main.py:88-145 | one more verdict keeps the ordered selection: a kept one is selected at the end, any other is passed over |
| Filter.Kepts | src/main.py:88-145 | the listings of the kept verdicts are at most as many as the verdicts |
| Filter.SurvivorsAreKepts | src/main.py:88-145 | the filtered list is the listings of the kept verdicts, in order |
| Filter.KeptsInOrder | src/main.py:88-145 | the listings of the kept verdicts come from strictly increasing positions, and every kept verdict contributes |
| Filter.SurvivorsInOrder | src/main.py:88-145 | the filtered list is exactly the kept ads' listings, taken at strictly increasing positions, with no kept ad left out, and no longer than the batch |
| Filter.SurvivorsTagged | src/main.py:126-139 | every filtered listing carries the partition's city and category and a non-empty address and url |
| Filter.FilterAds | src/main.py:88-145 | the filter loop computes the filtered list |
| Fetch.QueryRequired | src/main.py:26-31 | the query always carries the user, the token, the page size and the category id, with their configured values |
| Fetch.QueryDateRange | src/main.py:33-39 | both ends of the date range are sent exactly when a range is configured, with its two bounds |
| Fetch.QueryCityAndType | src/main.py:41-46 | the city is sent exactly when it is non-empty, and the property type exactly when it is configured, with their values |
| Fetch.QueryAreaRange | src/main.py:48-56 | each area bound is sent, under its own parameter, exactly when it is configured and the category is not land plots |
| Fetch.LandSendsNoAreaRange | src/main.py:49-56 | a land-plot query never carries an area bound |
| Fetch.QueryParams | src/main.py:26-56 | the query dict of one (city, category) pair; the four query lemmas above state it |
| Fetch.KeyName | src/main.py:26-56 | the name each parameter is sent under, `param[7446]` and `param[7486]` for the area bounds; Fetch.KeyNamesDistinct states that no two parameters share a name |
| Fetch.KeyNamesDistinct | src/main.py:26-56 | two parameters are sent under the same name exactly when they are the same parameter, so no entry of the request dict overwrites another |
| Fetch.BuildParams | src/main.py:26-56 | the step-by-step dict building yields the query described by the four query lemmas above |
| Fetch.FinalAttempt | src/main.py:66-72 | the reply checked is either the first one or the re-request's |
| Fetch.AttemptAds | src/main.py:72-84 | a final reply yields ads exactly when it was answered, is not an HTTP error, is a JSON object without an `error` key and has a non-empty `data`, and then the ads are that `data`; a 429 there never yields ads |
| Fetch.ExchangeAds | src/main.py:64-84 | the ads of one exchange, after the one retry: never an empty list |
| Fetch.RetryOnlyAfterTooManyRequests | src/main.py:64-72 | the re-request matters only after a first reply of 429, and a second 429 yields nothing |
| Fetch.TooManyRequestsThenOk | src/main.py:66-80 | a 429 followed by a good reply yields that reply's ads |
| Fetch.CategoryResultsShape | src/main.py:17-154 | no category, or an error path, gives two empty lists; otherwise the raw ads are returned unchanged beside their filtered list, which is no longer |
| Fetch.CategoryResults | src/main.py:17-154 | one category's results; Fetch.CategoryResultsShape and Fetch.ErrorPathsYieldNothing state it |
| Fetch.ErrorPathsYieldNothing | src/main.py:72-154 | a failed request, an HTTP error status, a reply that is not a JSON object, an `error` key, and an absent, null or empty `data` each give two empty lists |
| Fetch.GatherStep | src/main.py:175-181 | extending both accumulators by one partition's results gathers that partition too |
| Fetch.FetchByCategory | src/main.py:17-154 | fetching one category computes those results |
| Fetch.Partitions | src/main.py:170-178 | every (city, category) pair, city by city; Fetch.PartitionsOrder and Fetch.PartitionsLength state it |
| Fetch.Gather | src/main.py:175-181 | the joined results of a sequence of partitions; Fetch.GatherAppend and Fetch.GatherSnoc state it |
| Fetch.RegionResults | src/main.py:157-184 | a region's results over its partitions; Fetch.RegionResultsAppend and Fetch.FetchRegion state it |
| Fetch.CityPartitions | src/main.py:173-178 | one city is paired with every category, in order |
| Fetch.GatherAppend | src/main.py:170-181 | gathering concatenated partitions concatenates their results |
| Fetch.JoinAssociative | src/main.py:180-181 | extending both accumulators is associative |
| Fetch.Join | src/main.py:180-181 | the two `extend` calls: filtered listings after filtered listings, raw ads after raw ads; Fetch.JoinAssociative and Fetch.GatherAppend state it |
| Fetch.PartitionsAppend | src/main.py:170-173 | the partitions of concatenated city lists are the concatenated partitions |
| Fetch.PartitionsOrder | src/main.py:170-178 | the (city i, category j) partition sits at position i * categories + j: cities first, then categories, in configuration order |
| Fetch.PartitionsLength | src/main.py:170-173 | there are cities times categories partitions |
| Fetch.RegionResultsAppend | src/main.py:157-184 | a region's results over concatenated city lists are the concatenated results |
| Fetch.FailedPartitionIsolated | src/main.py:175-181 | a failed partition contributes nothing, and the others are gathered as if it were absent |
| Fetch.CityPartitionsSnoc | src/main.py:173-178 | one more category adds its partition at the end |
| Fetch.GatherSnoc | src/main.py:175-181 | one more partition appends its results |
| Fetch.FetchPartition | src/main.py:175-181 | one step of the category loop extends the accumulators from the partitions done so far to one more |
| Fetch.FetchCity | src/main.py:175-181 | the category loop of one city extends the accumulators by that city's partitions, in order |
| Fetch.FetchRegion | src/main.py:157-184 | the city loop, running the category loop for each city, computes the region's results |
| Store.RowOf | src/database.py:65-73 | an inserted row is keyed by the listing's address, area and url, which it stores unchanged |
| Store.TryInsert | src/database.py:32-38 | an insert succeeds exactly when neither the url nor the (address, area) pair is stored; a rejection names which constraint failed; a success gets the next key and the current time |
| Store.InsertKeepsWellFormed | src/database.py:28-76 | a successful insert keeps keys consecutive and both constraints, with a fresh key, and afterwards the pair and the url are taken |
| Store.DuplicateInsertFails | src/database.py:32-39 | inserting a stored url, or a stored (address, area) pair, fails on that constraint whatever the caller checked |
| Store.ListingStore.constructor | src/database.py:48-51 | a new table is empty and well formed |
| Store.ListingStore.IsListingNew | src/database.py:61-63 | a listing is new exactly when no stored row has exactly its address and exactly its area |
| Store.ListingStore.AddListing | src/database.py:65-77 | a successful insert appends exactly its row; a failed one changes no row and leaves the session needing a rollback |
| Store.ListingStore.Rollback | src/main.py:219-220 | a rollback makes the session usable again and changes no row |
| DedupPass.Dedup | src/main.py:214-221 | the pass only appends rows, one per added listing, and adds no more listings than it was given |
| DedupPass.Step | src/main.py:214-221 | one listing appends at most one row and one added listing, the same number of each, and keeps what was there |
| DedupPass.DedupSnoc | src/main.py:214-221 | the pass over one more listing is one more step |
| DedupPass.DedupLast | src/main.py:214-221 | the last listing is either already known, and changes nothing, or fresh, and is added with its row appended |
| DedupPass.DedupNewRows | src/main.py:216-218 | the k-th added listing's row follows the old rows at position k, with the next key |
| DedupPass.DedupKeepsWellFormed | src/main.py:214-221 | the pass keeps the table well formed |
| DedupPass.DedupAddedSubsequence | src/main.py:214-218 | the added listings appear in the filtered list at strictly increasing positions |
| DedupPass.DedupAddedFresh | src/main.py:216-218 | every added listing was new against the stored rows, and no two added listings share a url or an (address, area) pair: a second ad with the same pair in one batch is not added |
| DedupPass.KeyTakenGrows | src/database.py:61-77 | rows are only appended, so a taken pair stays taken |
| DedupPass.UrlTakenGrows | src/database.py:61-77 | rows are only appended, so a taken url stays taken |
| DedupPass.KnownGrows | src/database.py:61-77 | a known listing stays known |
| DedupPass.DedupCovers | src/main.py:214-221 | after the pass every listing of the batch is known to the table |
| DedupPass.DedupOfKnown | src/main.py:214-221 | a batch of known listings adds nothing and changes no row |
| DedupPass.SecondRunAddsNothing | src/main.py:214-221 | running the pass again over the same listings adds nothing: it is idempotent |
| DedupPass.RecordNewListings | src/main.py:210-223 | the loop's check, insert and rollback leave exactly the rows and the added list of the pass, and the session usable |
| PriceFormat.FormatPrice | src/map_generator.py:17-33 | a formatted price is never empty |
| PriceFormat.FormatAmount | src/map_generator.py:24-33 | the three brackets of a non-zero price; PriceFormat.MillionsBracket, PriceFormat.ThousandsBracket and PriceFormat.RoublesBracket state the text of each |
| PriceFormat.ZeroOrNonNumeric | src/map_generator.py:19-20 | zero, false, null, strings, lists and dicts are shown as `0 руб.` |
| PriceFormat.MillionsBracket | src/map_generator.py:24-27 | from a million up, the text is the nearest whole number of millions (ties to even), at least 1, followed by ` млн. руб.`, and it reads back as that number |
| PriceFormat.ThousandsBracket | src/excel_generator.py:51-53 | from a thousand to a million, the text is the nearest whole number of thousands, between 1 and 1000, followed by ` тыс. руб.` |
| PriceFormat.RoublesBracket | src/map_generator.py:32-33 | below a thousand, zero aside, the text is the whole roubles cut toward zero followed by ` руб.`; a positive price shows at most 999 |
| PriceFormat.TrueIsOneRouble | src/map_generator.py:19-22 | a true flag is formatted as the number 1 |
| MapReport.FindRawAd | src/map_generator.py:91 | the lookup finds nothing exactly when no raw ad has the url, and otherwise finds a raw ad with that url |
| MapReport.FindRawAdFirst | src/map_generator.py:91 | the raw ad found is the first one with the url |
| MapReport.AdCoords | src/map_generator.py:37-40 | the ad's own coordinates; MapReport.AdCoordsUsed states it |
| MapReport.Coordinates | src/map_generator.py:35-48 | `_get_coordinates_list`; MapReport.GeocoderOnlyAsFallback states it |
| MapReport.AdCoordsUsed | src/map_generator.py:37-40 | an ad's own coordinates are used exactly when `lat` and `lng` are both present and both convert, and then they are the converted values |
| MapReport.GeocoderOnlyAsFallback | src/map_generator.py:35-48 | with usable coordinates of its own an ad is located the same whatever the geocoder says; without them the geocoder's answer is taken |
| MapReport.PopupOf | src/map_generator.py:95-125 | a popup shows an image exactly when the listing has a non-empty image url |
| MapReport.MarkerFor | src/map_generator.py:91-130 | a listing's marker, when there is one, shows that listing's popup and has its address as tooltip |
| MapReport.Markers | src/map_generator.py:87-130 | there are no more markers than listings |
| MapReport.Somes | src/map_generator.py:87-130 | the located markers are no more than the listings |
| MapReport.SomesSnoc | src/map_generator.py:90-130 | one more listing appends its marker when it has one |
| MapReport.Located | src/map_generator.py:90-94 | every listing has its optional marker, in order |
| MapReport.MarkersSnoc | src/map_generator.py:90-130 | the loop over one more listing appends that listing's marker when it can be located |
| MapReport.SomesEmptyIffAllNone | src/map_generator.py:132-134 | there is no marker exactly when no listing is located |
| MapReport.NoMarkersIffNoneLocated | src/map_generator.py:132-134 | the map has no marker exactly when no listing can be located |
| MapReport.Present | src/map_generator.py:90-130 | one listing position per marker, each within the listings |
| MapReport.PresentSelects | src/map_generator.py:90-130 | the k-th marker is the one of the listing at the k-th position, and positions increase |
| MapReport.PresentComplete | src/map_generator.py:94 | every listing that can be located has its position selected |
| MapReport.MarkersKeepOrder | src/map_generator.py:90-130 | markers are exactly the located listings' markers, in listing order, with no located listing skipped |
| MapReport.AdCoordinatesWin | src/map_generator.py:91-94 | a listing whose raw ad has usable coordinates is always placed there, with its address as tooltip |
| MapReport.CreateInteractiveMap | src/map_generator.py:50-64 | a map is centred on the first marker, or on Saint Petersburg when there is none, and holds every marker in order |
| MapReport.CreateMapReport | src/map_generator.py:75-138 | no listings, or none located, give no map; otherwise the map holds the located markers in order, centred on the first one |
| ExcelReport.AreaColumnName | src/excel_generator.py:85-95 | the area column is `Площадь, сотки` exactly when some present category name, lower-cased, mentions land; otherwise, and with no category column, `Площадь, кв.м.` |
| ExcelReport.MentionsLand | src/excel_generator.py:90-91 | a lower-cased category name containing `земельные` or `земельный`; ExcelReport.AreaColumnName and ExcelReport.ListingsAreaColumn state that it alone picks `Площадь, сотки` |
| ExcelReport.KeepPresent | src/excel_generator.py:106 | the selection is no longer than the wanted list |
| ExcelReport.Rename | src/excel_generator.py:97-102 | the column renaming, the area key taking the area column's name; ExcelReport.ListingSheetColumns states that it turns the listing keys into all seven wanted columns |
| ExcelReport.WantedColumns | src/excel_generator.py:105 | `columns_to_include` in its order; ExcelReport.ListingSheetColumns and ExcelReport.CreateExcelReport state that a report's header is exactly this list |
| ExcelReport.ReportColumns | src/excel_generator.py:106-107 | the wanted columns present after the rename; ExcelReport.KeepPresentSelects, ExcelReport.KeepPresentInOrder and ExcelReport.ListingSheetColumns state which they are and in what order |
| ExcelReport.KeepPresentSelects | src/excel_generator.py:104-107 | a column is selected exactly when it is wanted and present |
| ExcelReport.SubsequenceExtend | src/excel_generator.py:106 | a subsequence stays one when the list grows |
| ExcelReport.SubsequenceDropLast | src/excel_generator.py:106 | dropping the last element keeps a subsequence |
| ExcelReport.KeepPresentInOrder | src/excel_generator.py:104-107 | the selected columns keep the wanted list's order |
| ExcelReport.KeepAllPresent | src/excel_generator.py:104-107 | when every wanted column is present, the selection is the whole wanted list |
| ExcelReport.ListingSheetColumns | src/excel_generator.py:97-107 | for listing records the sheet has exactly the seven columns of the fixed list, in its order |
| ExcelReport.CityPart | src/excel_generator.py:110 | the city part is empty exactly for an empty city, and otherwise is `_` followed by the lower-cased city with every space turned into `_` |
| ExcelReport.CityPartIsSlug | src/excel_generator.py:110 | the city part holds no space and no upper-case letter |
| ExcelReport.LongestCell | src/excel_generator.py:133 | the longest cell bounds every cell and is attained by one, 0 for no cells |
| ExcelReport.ColumnWidth | src/excel_generator.py:131-134 | a width is at least the header's length plus 2, at least every cell's plus 2, and equal to one of them |
| ExcelReport.ColumnWidths | src/excel_generator.py:130-134 | the width loop sets every column's width |
| ExcelReport.LStripControls | src/excel_generator.py:32-37 | the leading strip keeps a suffix of the url that is empty or starts above space |
| ExcelReport.LStripControlsRemovesOnlyControls | src/excel_generator.py:32-37 | only characters at or below space are stripped |
| ExcelReport.LStripControlsKeeps | src/excel_generator.py:32-37 | a text that starts above space loses nothing to the strip |
| ExcelReport.RemoveUnsafe | src/excel_generator.py:32-37 | the result holds no tab, carriage return or line feed, and is no longer than the text |
| ExcelReport.RemoveUnsafeChar | src/excel_generator.py:32-37 | one character is removed exactly when it is a tab, carriage return or line feed |
| ExcelReport.RemoveUnsafeAppend | src/excel_generator.py:32-37 | removal works piece by piece: it maps a concatenation to the concatenation of the cleaned pieces, so every other character is kept in order |
| ExcelReport.RemoveUnsafeKeepsOnly | src/excel_generator.py:32-37 | every character left was in the text |
| ExcelReport.FindColon | src/excel_generator.py:32-37 | the scheme ends at the first `:` |
| ExcelReport.FindNetlocEnd | src/excel_generator.py:32-37 | the network location ends at the first `/`, `?` or `#` |
| ExcelReport.SchemeLength | src/excel_generator.py:32-37 | a recognised scheme is a non-empty run of scheme characters ending at the first `:` |
| ExcelReport.SchemeRecognised | src/excel_generator.py:32-37 | a non-empty, letter-started run of scheme characters before the first `:` is recognised as the scheme |
| ExcelReport.Netloc | src/excel_generator.py:32-37 | a non-empty network location needs a leading `//` |
| ExcelReport.NetlocSpan | src/excel_generator.py:32-37 | without a leading `//` there is no network location; with one, it is the text after it up to the first `/`, `?` or `#`, or to the end |
| ExcelReport.IsValidUrl | src/excel_generator.py:32-39 | `_is_valid_url`; the url lemmas below state when it holds and when not |
| ExcelReport.ValidUrlHasColon | src/excel_generator.py:32-39 | a valid url has a `:` |
| ExcelReport.RemoveUnsafeKeepsPlain | src/excel_generator.py:32-37 | a url without tabs or line breaks is left alone |
| ExcelReport.LinkTextIsNotUrl | src/excel_generator.py:140-142 | the link text `Перейти` is not a valid url |
| ExcelReport.NoColonIsNotUrl | src/excel_generator.py:32-39 | text without a `:` is not a valid url |
| ExcelReport.OrdinaryUrlIsValid | src/excel_generator.py:32-39 | a letter-started scheme, `://` and a non-empty all-ASCII host free of `/`, `?`, `#`, brackets, tabs and line breaks make a valid url; an ASCII network location skips `urlsplit`'s NFKC check |
| ExcelReport.UrlWithAuthorityIsValid | src/excel_generator.py:32-39 | the same, stated on positions within one text, with an all-ASCII host |
| ExcelReport.SchemeCharsAreSafe | src/excel_generator.py:32-37 | scheme characters are never removed as unsafe |
| ExcelReport.AuthorityUrlClean | src/excel_generator.py:32-37 | such a url loses nothing to the cleaning |
| ExcelReport.OrdinaryUrlClean | src/excel_generator.py:32-37 | a letter-started text without tabs or line breaks loses nothing to the cleaning |
| ExcelReport.SchemeAt | src/excel_generator.py:32-37 | a letter-started run of scheme characters before a `:` is the scheme |
| ExcelReport.NetlocAt | src/excel_generator.py:32-37 | after `://`, a host free of `/`, `?`, `#` and brackets is the whole network location |
| ExcelReport.NetlocOfHost | src/excel_generator.py:32-37 | after `//`, a host free of `/`, `?` and `#` is the network location |
| ExcelReport.ValidFromParts | src/excel_generator.py:32-39 | nothing cleaned away, a scheme, and a non-empty all-ASCII network location without brackets make a url valid |
| ExcelReport.OrdinaryUrlRewritten | src/excel_generator.py:137-143 | a cell holding such an ordinary url, with an all-ASCII host, is rewritten to read `Перейти` and link to the url |
| ExcelReport.RewriteCellIdempotent | src/excel_generator.py:139-143 | rewriting a url cell twice is rewriting it once; a rewritten cell links to its old value and reads `Перейти` |
| ExcelReport.RewriteCell | src/excel_generator.py:140-143 | one url cell of the row loop; ExcelReport.RewriteCellIdempotent states that it is idempotent and that a changed cell reads `Перейти` and links to its old text, ExcelReport.OrdinaryUrlRewritten that an ordinary url is rewritten |
| ExcelReport.RewriteUrlCells | src/excel_generator.py:137-143 | the row loop rewrites every url cell in place, and nothing else |
| ExcelReport.UpdateCells | src/excel_generator.py:137-143 | the row loop replaces every cell of the column by the rewrite of its old value |
| ExcelReport.ColumnTexts | src/excel_generator.py:68-74 | a column holds one text per listing |
| ExcelReport.CellText | src/excel_generator.py:71-74 | a listing's text in one column, prices through `_format_price`; ExcelReport.UrlColumnShowsUrl and ExcelReport.CreateExcelReport state what the columns hold |
| ExcelReport.UrlColumnShowsUrl | src/excel_generator.py:97-102 | the url column shows each listing's url |
| ExcelReport.IndexOf | src/excel_generator.py:123 | the url column's index is absent exactly when the header lacks it, and otherwise is its first position, as `list.index` returns |
| ExcelReport.SheetColumns | src/excel_generator.py:97-114 | the sheet holds every header column's texts |
| ExcelReport.PlainCells | src/excel_generator.py:114 | the written url cells hold the plain texts |
| ExcelReport.StyleSheet | src/excel_generator.py:128-143 | the styling pass sets every width and rewrites every url cell |
| ExcelReport.ListingsAreaColumn | src/excel_generator.py:85-93 | for listing records the area column is `Площадь, сотки` exactly when some category name mentions land |
| ExcelReport.CreateExcelReport | src/excel_generator.py:57-149 | no listings give no report; otherwise the report has the city part, the fixed columns, the right area column, every column's texts, widths at least header plus 2, and every url cell rewritten |
| MainJob.ReportsReadyWhen | src/main.py:225-230 | a region reaches the reports email exactly when its pass added a listing that can be located |
| MainJob.RegionBatch | src/main.py:210-223 | the table and the added listings after a region's pass; MainJob.RunRegion states it |
| MainJob.RegionNotice | src/main.py:200-245 | how a region's run ends; MainJob.ReportsReadyWhen and MainJob.RunRegion state it |
| MainJob.RunRegion | src/main.py:200-239 | one region's run records exactly the pass's rows and listings; reaching the reports means both reports exist; the map shows the added listings' markers |
| MainJob.Mail | src/main.py:202-245 | a notice sends at most one email, for its own region, and none exactly when the reports are incomplete |
| MainJob.JobAsWritten | src/main.py:197-246 | the job as written, ending early at the first region that reaches the reports email |
| MainJob.Job | src/main.py:197-246 | the corrected job never ends early and sends at most one email per region |
| MainJob.NewListingsNeverReported | src/main.py:231-237 | as written, a region with new locatable listings ends the job with no email and the listings stored, and the restarted job reports nothing new for it |
| MainJob.NewListingsReported | src/main.py:225-237 | corrected, such a region sends the reports email |
| MainJob.JobMailsEveryRegion | src/main.py:197-246 | corrected, every region appends exactly its own notice's email to the ones before |

## Left out

- Email sending is not modelled: SMTP, MIME assembly and subjects are out of scope. The model keeps only which email a region would send.
- HTTP transport is not modelled. Each request is a function parameter returning the reply to the first request and to the one re-request.
- The 7-second and 10-second sleeps, the schedule loop and the `RUN_ONCE` switch are timing and process control only.
- The date range taken from `datetime.now()` is an input: it is already-formatted text or absent, because the model has no clock.
- Price and area are exact reals, not IEEE floats: binary rounding of `round()` and of `price / area` is not modelled.
- Numbers.ParseReal: `float()` on text models sign, ASCII digits, an optional decimal point and surrounding whitespace (the whole `str.isspace` set). It does not model exponents, `inf`, `nan`, underscores, or the non-ASCII decimal digits that `float()` also accepts.
- Text.Lower: lower-casing maps ASCII and the Cyrillic capitals U+0400..U+042F only, not the whole of Unicode.
- Text.Strip: the whitespace is Python's `str.isspace` set as it stands for text: tab to carriage return, U+001C to U+001F, space, U+0085, U+00A0, U+1680, U+2000 to U+200A, U+2028, U+2029, U+202F, U+205F and U+3000.
- A non-string title or description is not modelled. In the source the title and description are lowered only when `exclude_keywords` is non-empty (src/main.py:99-101), and there a non-string one raises `AttributeError`, which nothing catches, so the job stops. Otherwise a non-string title is stored as it is (src/main.py:133), while a non-string description still raises at `.strip()` (src/main.py:132).
- A non-string `Вид объекта` is treated as not excluding the ad. In the source a list value makes line 94 a membership test of the listed strings, and a dict value a test of its keys; neither raises, and either can exclude the ad; a number raises `TypeError` there, outside the handler of line 140, so the job stops.
- A non-dict entry in `images` is not modelled (the source raises `AttributeError` there); an entry is its `imgurl` or nothing.
- ExcelReport.IsValidUrl: `urlparse` is modelled only as far as `_is_valid_url` needs:
  - the leading strip and the removal of tabs and line breaks;
  - the scheme as a run of scheme characters up to the first `:`, starting with an ASCII letter;
  - the network location after `//`;
  - the `ValueError` for an unmatched bracket.
  - not modelled: the NFKC check `urlsplit` makes of a network location that is not all ASCII, which raises `ValueError` (so the url is not valid) when normalisation yields `/`, `?`, `#`, `@` or `:`; for example `h://a\u2100` is valid in the model but not in the source;
  - not modelled: the checks of a bracketed host's contents.
  This follows `urlsplit` as Python 3.11.4 and later define it, the first version with the leading strip.
- ExcelReport.OrdinaryUrlIsValid, ExcelReport.UrlWithAuthorityIsValid, ExcelReport.ValidFromParts and ExcelReport.OrdinaryUrlRewritten are stated for all-ASCII hosts only, where the NFKC check does not run; for other hosts the model's answer may differ from the source's.
- Replies that the source does not handle are not modelled: a reply body is either unparsable or a JSON object, and `params` is a map. These cases all stop the whole job, because the handlers at src/main.py:147-154 catch none of them, so one category's failure is not isolated:
  - a JSON list body raises `AttributeError` at `response_json.get` (src/main.py:80);
  - a `null` or numeric body raises `TypeError` at `'error' in` (src/main.py:76);
  - a string body turns line 76 into a substring test, and line 80 then raises `AttributeError`;
  - `"params": null` in an ad raises `AttributeError` at src/main.py:93 and 115-117;
  - an entry of `data` that is not an object raises `AttributeError` at `ad.get`;
  - a `data` that is not a list: a non-empty object or string fails at `ad.get`, and a non-zero number fails at `len()` on src/main.py:86.
- A truthy `address` or `url` that is not a string is not modelled: the model's ad has a string or nothing there, while the source stores such a value as it is.
- The geocoder is a function parameter; Nominatim, its rate limiter and its exceptions are not modelled (an exception is its returning None).
- folium and its popup HTML are not modelled: a marker keeps a record of what its popup shows.
- pandas and openpyxl are not modelled:
  - a sheet keeps its header, each column's shown text, the widths and the url column's cells;
  - how pandas renders an area number is a function parameter;
  - the area column's `dropna().unique()` scan over listing records is a scan over every listing's category name, which finds the same answer.
- ExcelReport.CreateExcelReport does not model openpyxl's `IllegalCharacterError`. `to_excel` (src/excel_generator.py:114) raises it for a cell text holding U+0000 to U+0008, U+000B, U+000C or U+000E to U+001F. Such a character can reach a cell: `.strip()` (src/main.py:132) removes it only at the ends of a description, and an address or a url is not stripped at all. Nothing in `job()` catches the error (src/main.py:225-227), so the job stops after the region's new listings were committed. The model writes such a report, so MainJob.RegionNotice and MainJob.JobAsWritten give `ReportsReady` or `ReportsIncomplete` where the source stops. openpyxl's cut of a cell text to 32,767 characters is not modelled either.
- The url-column-missing branch of `create_excel_report` is not modelled: a sheet built from listing records always has that column.
- The filesystem is not modelled: `_clean_reports_directory`, the `mkdir` calls, the timestamped file names, and `init_db`/`get_db` session setup. The file name's city part is modelled.
- The clock is not modelled. The source stamps each row with the time of its own insert (src/database.py:34); the model gives every row of the whole job the one `now` input.
- The module demo at the end of each file is not modelled.

## Findings

| source | as written | input that shows it | evidently intended | confidence | as-written member | corrected member |
|---|---|---|---|---|---|---|
| src/main.py:231-237 | the reports email is sent with a `city=` argument that `send_email_with_reports` (src/email_sender.py:9) does not accept, so the call raises `TypeError` after the region's new listings are committed; nothing catches it and the job stops | any region whose run adds at least one listing that could be placed on the map | the email with both reports is sent and the job goes on to the next region | not executed | MainJob.NewListingsNeverReported | MainJob.NewListingsReported |
