# Calmf competition dashboards and Naver shopping client: a Dafny model

The repository shows weekly search snapshots of a facial-mask market. Each
row is one product listing with a brand, a product name, a unit price (price
per sheet), a search position (`page_rank`), a segment and a price band.
Two Streamlit dashboards compare the own brand, Calmf ("캄프"), against its
competitors: `dashboard2.py` and `dashboard_v3.py`. A small client,
`naver_api/api_client.py`, pulls product listings from the Naver Shopping
search API.

This project models the decision logic of those three files:

- own-brand detection;
- the price bands around the own brand's unit price, and the competitor
  filters built on them;
- the rules of the competition tables: which rows, in what order, and with
  which highlight, class and rank-difference label;
- the Pareto frontier of price against rank, and the "dominated by" count;
- the Premium threat summary;
- the choice of share-of-voice column;
- the price-bucket search and the price range of each band;
- the sample guard of the elasticity estimate;
- parsing of `P<lo>-<hi>` band labels;
- on the API side: record construction from a search response, the page-size
  clamp, page collection with its early stop, and the price statistics.

Modules:

- `Wrappers`: `Option` and `Result`.
- `PyText`: the Python string built-ins the code relies on. These are:
  - substring `in`;
  - `lower()`;
  - `replace(pat, "")`;
  - `split(sep)` with `join`;
  - `int(s)`;
  - `f"{n}"`.
- `Listings`: the listing row, `is_calmf`, and boolean-mask selection
  `df[mask]`. It also holds `sort_values` followed by `head(n)`, where ties
  may come out in any order, and the guarded percentage.
- `Dashboard2`: `dashboard2.py`.
- `DashboardV3`: `dashboard_v3.py`.
- `NaverApi`: the shopping-search part of `naver_api/api_client.py`.

Conventions:

- A NaN or missing cell is `None`, and every comparison with it is false, as
  in pandas.
- Prices are `real`, ranks `int`. The band factors (0.8, 0.85, 0.9, 1.1,
  1.15, 1.2) are exact.
- `sort_values` is not computed. The caller supplies a sorted frame together
  with the fact that it is a sort of the input (`IsSortOf`: same multiset,
  ascending key, missing keys last). Every property therefore holds for any
  order among ties.
- The own brand's anchor price and rank are parameters. They come from the
  first row of the own-brand CSV. In the dashboard v3 model an anchor is an
  `Anchor`: `NoRow` (no own-brand row, so `None`), `NaN` (the row exists but
  the cell is empty) or `Known(v)`. Python's truthiness test `if calmf_price`
  is `TruthyPrice`: `NaN` is true and `None` and 0 are false. Every comparison
  with a `NaN` anchor is false.
- The HTTP request is a parameter `fetch`. It maps request parameters to
  either the decoded response or the message of the raised request error. A
  raised exception is a `Failure`.

## Model

| member | source | states |
|---|---|---|
| PyText.ContainsExtend | dashboard_v3.py:227-230 | a substring found in `s` is still found once text is added on either side |
| PyText.Lower | dashboard_v3.py:228-229 | `lower()` keeps the length and lower-cases each ASCII letter in place, leaving every other character alone |
| PyText.LowerLaws | dashboard_v3.py:228-229 | lower-casing is idempotent and distributes over concatenation |
| PyText.RemoveAll | naver_api/api_client.py:311 | `replace(pat, "")` never lengthens the text and never introduces a character |
| PyText.RemoveAllAbsent | naver_api/api_client.py:311 | text without the pattern comes back unchanged |
| PyText.RemoveAllShrinks | naver_api/api_client.py:311 | text with an occurrence of the pattern gets strictly shorter |
| PyText.ContainsChar | dashboard_v3.py:1027 | a one-character pattern occurs exactly when that character is in the text |
| PyText.RemoveAllLeading | dashboard_v3.py:1027 | removing the pattern from `pat + t`, where `t` lacks it, leaves `t` |
| PyText.CountCharAbsent | dashboard_v3.py:1027 | a text without the separator has no separator to count |
| PyText.Split | dashboard_v3.py:1027 | `split(sep)` yields one more part than there are separators, and no part holds the separator |
| PyText.JoinSplit | dashboard_v3.py:1027 | joining the parts of a split with the separator restores the text |
| PyText.SplitJoin | dashboard_v3.py:1027 | splitting a join of separator-free parts gives back those parts |
| PyText.SplitNoSep | dashboard_v3.py:1027 | a text without the separator splits into itself alone |
| PyText.SplitAtFirst | dashboard_v3.py:1027 | splitting at the first separator peels off the text before it |
| PyText.ParseInt | naver_api/api_client.py:316-317 | `int(s)` succeeds exactly on a digit string, or a `+` or `-` followed by at least one digit, and otherwise fails with the text as the error; the result is non-negative after a digit or a `+` and non-positive after a `-` |
| PyText.NatToString | dashboard_v3.py:413 | the decimal rendering of a natural number is a non-empty digit string |
| PyText.NatToStringValue | dashboard_v3.py:413 | the rendered digits read back as the number |
| PyText.IntToString | dashboard_v3.py:413 | an integer renders as a non-empty text |
| PyText.ParseIntRoundTrip | dashboard_v3.py:413-416 | `int(f"{n}") == n` for every integer, and also `int("+" + f"{n}") == n` for non-negative `n` |
| PyText.NatToStringPlain | dashboard_v3.py:1027 | a rendered number holds neither `P` nor `-` |
| Listings.Text | dashboard_v3.py:227-229 | `str(row.get(key, ""))`: a missing cell prints as "nan" |
| Listings.IsCalmf | dashboard_v3.py:227-230 | a row is the own brand's when its lower-cased brand or product name contains "캄프" or "calmf"; its properties are `NamesOwnBrandRobust`, `UpperCaseBrandIsOwn` and `EmptyRowIsNotOwn` |
| Listings.NamesOwnBrandRobust | dashboard_v3.py:227-230 | own-brand detection ignores letter case, and surrounding text never hides a match |
| Listings.UpperCaseBrandIsOwn | dashboard_v3.py:227-230 | a row branded `CALMF` is detected as the own brand |
| Listings.EmptyRowIsNotOwn | dashboard_v3.py:227-230 | a row with neither brand nor product name (both print as "nan") is never the own brand |
| Listings.Select | dashboard2.py:1288-1291 | a mask selection holds only rows of the frame that satisfy the mask, and every such row; it is a sub-multiset of the frame; nothing when no row passes, everything when all do |
| Listings.SelectConcat | dashboard2.py:1288-1291 | selecting from two concatenated parts gives the selection of the first part followed by that of the second, so the frame order is kept |
| Listings.SelectOne | dashboard2.py:1288-1291 | a single row is kept exactly when it satisfies the mask |
| Listings.SelectMultiplicity | dashboard2.py:1288-1291 | a row that satisfies the mask occurs in the selection as often as in the frame; any other row never occurs |
| Listings.NoneSelected | dashboard_v3.py:745 | a mask that holds for no row counts 0 |
| Listings.CountDisjointUnion | dashboard2.py:1305-1310 | two masks that never hold together count, added up, the rows of their union |
| Listings.CountMonotone | dashboard_v3.py:745-747 | a mask implied by another selects at most as many rows |
| Listings.Head | dashboard2.py:656 | `head(n)` of a sorted frame has `min(len, n)` rows, is sorted, is drawn from the frame, and no row left out sorts before a row shown |
| Listings.Pct | dashboard_v3.py:748 | the guarded percentage is 0 for an empty total or a part of 0, lies in [0, 100] when the part does not exceed the total, and is 100 for the whole |
| Listings.Trunc | dashboard2.py:1135-1136 | `int(x)` on a float truncates toward zero: it lies within one of `x`, on the side of zero |
| Listings.TruncMonotone | dashboard2.py:1135-1136 | truncation preserves order |
| Listings.MinOf | dashboard2.py:1135 | the minimum is an element and at most every element |
| Listings.MaxOf | dashboard2.py:1136 | the maximum is an element and at least every element |
| Dashboard2.AnalysisRows | dashboard2.py:1273 | exactly the rows with a known unit price, each as often as at most in the frame |
| Dashboard2.Band10 | dashboard2.py:1288-1291 | the ±10% band table is empty for a NaN own price; its membership is stated by `BandMembership` |
| Dashboard2.Ring10To20 | dashboard2.py:1305-1310 | the 10–20% ring table is empty for a NaN own price; its membership is stated by `BandMembership` |
| Dashboard2.NonPriceCompetitors | dashboard2.py:1322-1325 | there are no non-price competitors when either anchor is NaN; their membership is stated by `NonPriceMembership` |
| Dashboard2.BandMembership | dashboard2.py:1288-1310 | the ±10% band holds exactly the known-price rows in [0.9p, 1.1p]; the 10–20% ring holds exactly those in [0.8p, 0.9p) ∪ (1.1p, 1.2p] |
| Dashboard2.BandRingPartitionRow | dashboard2.py:1288-1310 | per row, the band and the ring never overlap, and together they make the ±20% band |
| Dashboard2.BandRingPartition | dashboard2.py:1288-1310 | over a frame, the band and ring tables share no row, and their sizes add up to the number of rows in [0.8p, 1.2p] |
| Dashboard2.NonPriceMembership | dashboard2.py:1322-1325 | non-price competitors are exactly the rows ranked strictly above the own brand and priced at least as high; a missing anchor leaves the table empty |
| Dashboard2.CompetitionTable | dashboard2.py:650-691 | a band table shows `min(len, 20)` rows in ascending rank order, and no hidden row outranks a shown one; own-brand rows get the star style, other rows above `highlight_top` the top style, the rest none; building it raises exactly when a shown row has no product name |
| Dashboard2.StyleAt | dashboard2.py:672-681 | the style of one row: own brand first, then the top positions |
| Dashboard2.PickSovColumn | dashboard2.py:467-480 | the chosen column is the first candidate present; there is no chart when the table is empty or no candidate is present |
| Dashboard2.FindCalmfBucket | dashboard2.py:737-741 | the result is the first bucket, in summary order, whose range holds the own price; none when no bucket does or the price is missing |
| Dashboard2.CoveringBucketUnique | dashboard2.py:737-741 | when the buckets are ordered and disjoint, at most one covers a price |
| Dashboard2.BandPrices | dashboard2.py:1133 | a band's prices are exactly the known unit prices of its rows |
| Dashboard2.UniqueBands | dashboard2.py:1132 | the bands seen, each exactly once |
| Dashboard2.BandPriceRanges | dashboard2.py:1130-1137 | the range dictionary has a key for exactly the bands with a known price, and maps each to the truncated minimum and maximum of its prices |
| Dashboard2.BandRangeBounds | dashboard2.py:1130-1137 | every known price of a band lies inside the band's displayed range |
| Dashboard2.ElasticitySample | dashboard2.py:810 | the sample holds exactly the rows ranked at most `cutoff` with both price and rank known |
| Dashboard2.CalculateElasticity | dashboard2.py:808-814 | `n` is the sample size (rank ≤ cutoff, both values known); there is data exactly when n ≥ 5 and the fit succeeds; without data, b, r², p-value and direction are None; with data, b, r² and p-value are those of the fit, and the direction is up exactly for a positive slope |
| Dashboard2.ElasticitySampleMonotone | dashboard2.py:810-811 | a wider rank cutoff never shrinks the sample |
| DashboardV3.TruthyPrice | dashboard_v3.py:468 | `if calmf_price`: no own-brand row and a price of 0 are false, a NaN price is true |
| DashboardV3.TruthyRank | dashboard_v3.py:469 | `if calmf_rank`: no own-brand row and a rank of 0 are false, a NaN rank is true |
| DashboardV3.ValidPoints | dashboard_v3.py:292 | the valid points are exactly the rows with both price and rank known |
| DashboardV3.DominatedBy | dashboard_v3.py:295-298 | the count of rows priced at or below the own brand and ranked strictly above it never exceeds the frame size and is 0 for an empty frame; `DominatedByPositive` and `DominatedByFrontier` state what a positive count means |
| DashboardV3.DominatedShareBounded | dashboard_v3.py:824-826 | the dominated percentage lies in [0, 100] |
| DashboardV3.RecordLows | dashboard_v3.py:325-333 | the frontier is never longer than the valid rows |
| DashboardV3.Prefix | dashboard_v3.py:331 | `name[:30]` is the prefix of the name of length `min(len, 30)` |
| DashboardV3.ParetoSweep | dashboard_v3.py:325-333 | the running-minimum sweep yields exactly the record lows of the price-sorted rows, with each name cut to 30 characters |
| DashboardV3.RecordLowsFromInput | dashboard_v3.py:325-333 | each frontier point is an input point that ranks strictly better than all earlier ones |
| DashboardV3.FrontierMonotone | dashboard_v3.py:325-333 | along the frontier, unit prices never fall and ranks strictly improve |
| DashboardV3.FrontierCovers | dashboard_v3.py:325-333 | every valid row is weakly dominated (price ≤ and rank ≤) by some frontier point |
| DashboardV3.FrontierOptimal | dashboard_v3.py:325-333 | no row is cheaper than a frontier point without ranking strictly worse |
| DashboardV3.DominatedByPositive | dashboard_v3.py:295-298 | `dominated_by > 0` exactly when some row is priced at or below the own brand and ranked strictly above it |
| DashboardV3.DominatorReachesFrontier | dashboard_v3.py:295-333 | a dominating row implies a dominating frontier point |
| DashboardV3.FrontierReachesDominator | dashboard_v3.py:295-333 | a dominating frontier point comes from a dominating row |
| DashboardV3.DominatedByFrontier | dashboard_v3.py:288-333 | the own brand is dominated by some row exactly when some frontier point dominates it |
| DashboardV3.ParetoChart | dashboard_v3.py:287-333 | an empty frame gives no frontier and a count of 0; otherwise the frontier of the price-sorted rows with each name cut to 30 characters, and the dominated-by count, at most the frame size; a NaN anchor gives a count of 0; the count is positive exactly when some frontier point dominates the own brand |
| DashboardV3.ParetoSection | dashboard_v3.py:814-826 | the chart is drawn exactly when both anchors are truthy; it then holds the frontier with each name cut to 30 characters, the dominated-by count of the whole frame (0 for a NaN anchor) and its share of the frame, in [0, 100], positive exactly when a frontier point dominates the own brand |
| DashboardV3.RankDiffLabel | dashboard_v3.py:378-423 | the rank-difference cell; its meaning is stated by `RankDiffLabelDecodes`, `RankDiffLabelSpecialCases` and `ThreatLabelPointsUp` |
| DashboardV3.RankDiffLabelDecodes | dashboard_v3.py:409-419 | for a non-zero difference, the arrow points up exactly when the row outranks the own brand, and the number before the suffix reads back as the difference |
| DashboardV3.RankDiffLabelSpecialCases | dashboard_v3.py:378-423 | with a falsy own rank (no own-brand row, or 0) every label is "동일"; with a NaN own rank every label is "-"; with a usable one, a row without a rank reads "-" and a row at the own rank "동일" |
| DashboardV3.ThreatLabelPointsUp | dashboard_v3.py:394-419 | a threat row's label ends in ↑; the own brand's own rank reads "동일" |
| DashboardV3.ClassifyRow | dashboard_v3.py:392-423 | one table row with its class, star and label; stated by `ClassifyRowSpec` |
| DashboardV3.ClassifyRowSpec | dashboard_v3.py:392-423 | a table row keeps its listing and its rank-difference label; it has the star and the calmf class exactly when it is an own-brand row, the threat class exactly when it is a non-own row ranked above a usable own rank, and no class otherwise |
| DashboardV3.CompetitionTable | dashboard_v3.py:369-434 | the table has `min(len, max_rows)` rows sorted by rank (when `sort_by == "rank"`) or by unit price, and no hidden row sorts before a shown one; each shown row is classified and labelled as `ClassifyRowSpec` states |
| DashboardV3.Band20Section | dashboard_v3.py:720-722 | section 5 is shown exactly when the own price is truthy and the frame is not empty; it then holds exactly the rows in [0.8p, 1.2p], none for a NaN price |
| DashboardV3.Premium15 | dashboard_v3.py:732-736 | the Premium rows within ±15% of the own price; what they are is stated by `PremiumSection` and `PremiumWithinSovBand` |
| DashboardV3.SovBand | dashboard_v3.py:1058-1063 | the rows within ±15% of the own price, whatever their segment |
| DashboardV3.PremiumWithinSovBand | dashboard_v3.py:731-736 | every Premium ±15% competitor is also in the ±15% share-of-voice band, so the Premium table is never larger; a NaN own price leaves both empty |
| DashboardV3.SummarizePremium | dashboard_v3.py:745-748 | total competitors is the number of non-own rows; threats count the non-own rows ranked above the own brand, cheaper-or-equal the non-own rows priced at or below it, and neither exceeds the total; the threat share is the guarded percentage of threats over the total, in [0, 100] and 0 with no competitor |
| DashboardV3.PremiumThreatsSplit | dashboard_v3.py:745-747 | threats plus the own rows ranked above the own brand are all the rows ranked above it; with a truthy own rank the threats are exactly the table's threat rows |
| DashboardV3.PremiumNaNRank | dashboard_v3.py:745-748 | a NaN own rank gives no threats and a threat share of 0 |
| DashboardV3.PremiumSection | dashboard_v3.py:731-748 | section 6 is shown exactly when both anchors are truthy and the frame is not empty; its table is exactly the Premium rows within ±15% of the own price (`Premium15`), and its summary is `SummarizePremium` of that table, so the threat count never exceeds the competitor count, itself at most the table size |
| DashboardV3.NonPriceSection | dashboard_v3.py:784-792 | section 7 is shown exactly when both anchors are truthy and the frame is not empty; it holds exactly the non-own rows ranked above the own brand and priced at least as high, each a threat row of the table |
| DashboardV3.NonPriceNaNAnchor | dashboard_v3.py:784-789 | with a NaN anchor the section is shown and empty |
| DashboardV3.NonPriceAgainstV2 | dashboard_v3.py:784-789 | this dashboard's non-price competitors are the v2 dashboard's minus the own-brand rows (the counts add up), and each one is a threat row of the table |
| DashboardV3.ParseBandLabel | dashboard_v3.py:1024-1036 | a label that does not parse is kept as its original text; parsed percentiles always lie in [0, 100]; `BandLabelRoundTrip`, `BandLabelWithoutDash` and `BandLabelOneDash` state which labels parse |
| DashboardV3.BandLabelRoundTrip | dashboard_v3.py:1024-1036 | a label `P<lo>-<hi>` parses to the percentiles `(lo, hi)` when both are at most 100, and is kept verbatim otherwise, because `quantile` refuses it |
| DashboardV3.BandLabelParts | dashboard_v3.py:1027 | removing the `P` and splitting on the dash yields the two numbers' texts |
| DashboardV3.BandLabelWithoutDash | dashboard_v3.py:1027-1034 | a label without a dash is kept verbatim |
| DashboardV3.BandLabelOneDash | dashboard_v3.py:1027-1029 | a label parsed into percentiles held exactly one dash once its `P`s are removed |
| NaverApi.ParseItem | naver_api/api_client.py:308-334 | one record from one item; stated by `ParseItemRoundTrip`, `ParseItemDefaults` and `ParseItemRejectsPrice` |
| NaverApi.PriceField | naver_api/api_client.py:314-317 | a missing price reads 0 and an empty one 0; any other text succeeds exactly when `int()` accepts it, with that value, and otherwise fails with that text |
| NaverApi.StripBold | naver_api/api_client.py:311 | the cleaned title is never longer than the raw one and introduces no character |
| NaverApi.ParseEach | naver_api/api_client.py:306-336 | parsing succeeds exactly when every item parses, yielding one record per item in order; otherwise it fails with the error of the first failing item |
| NaverApi.ParseProducts | naver_api/api_client.py:304-336 | the loop yields the items' records in order, or the first item's error; a response without `items` yields no records |
| NaverApi.ParseEachStep | naver_api/api_client.py:308-334 | one iteration over the items: a parsable item appends its record to those so far, an unparsable one ends the parse with its error |
| NaverApi.ParseEachPrefixFails | naver_api/api_client.py:308-317 | a failure among the first items is the failure of the whole list |
| NaverApi.ItemOfTexts | naver_api/api_client.py:319-334 | every text field of a record is read back unchanged from its response item |
| NaverApi.ParseItemRoundTrip | naver_api/api_client.py:308-334 | a record whose title holds no bold tag survives the trip through its response item unchanged |
| NaverApi.ParseItemDefaults | naver_api/api_client.py:311-334 | an item without keys, or with only empty prices, becomes a record of empty texts and zero prices |
| NaverApi.ParseItemRejectsPrice | naver_api/api_client.py:314-316 | a non-numeric `lprice` makes the item, and a page made of it, fail with that text |
| NaverApi.StripBoldSinglePass | naver_api/api_client.py:311 | tag removal is one pass per tag: `"<<b>b>"` becomes `"<b>"` |
| NaverApi.RequestParams | naver_api/api_client.py:280-285 | the requested page size is `min(display, 100)`; query, start and sort are passed through |
| NaverApi.SearchPage | naver_api/api_client.py:257-302 | one search: the request error, or the parse of the response |
| NaverApi.SearchProducts | naver_api/api_client.py:257-302 | a search is the request error, or the parse of the response, with one record per response item |
| NaverApi.Cap | naver_api/api_client.py:356 | the cap is `min(max_results, 1000)` |
| NaverApi.Collect | naver_api/api_client.py:358-371 | the records of the pages from a start in steps of 100 below the cap, up to the first empty page or error; stated by `PageLoop`, `CollectStep` and `CollectBound` |
| NaverApi.PageCountSpec | naver_api/api_client.py:358 | the k-th start `1 + 100k` is below the cap exactly when k is below the page count; a cap of at most 1000 has at most 10 pages |
| NaverApi.SearchAllProducts | naver_api/api_client.py:338-371 | the result is the in-order concatenation of the 100-row searches from start 1 in steps of 100 below the cap, up to the first empty page, or the first error; the starts requested are 1, 101, … below the cap; none is requested when the cap is at most 1; every page before the last requested one was a non-empty success, so the loop stops at the first empty page or error |
| NaverApi.PageLoop | naver_api/api_client.py:358-371 | for any page source, the loop's result is `Collect` of the pages below the cap; it requests the starts 1, 101, … in order, at most the page count of them; every page before the last requested one was a non-empty success, and it stops before the last start only after an empty page, or after the page that failed |
| NaverApi.CollectStep | naver_api/api_client.py:359-371 | one iteration: an error page ends the collection with its error, an empty page ends it with the records so far, and any other page is appended before the rest is collected |
| NaverApi.CollectBound | naver_api/api_client.py:358-367 | when pages hold at most 100 records, the pages from the k-th start on hold at most 100 records per remaining start |
| NaverApi.PagesHonourSize | naver_api/api_client.py:280-306 | when the API returns at most the requested number of items, every 100-row search yields at most 100 records |
| NaverApi.SearchAllBound | naver_api/api_client.py:356-371 | when the API returns at most the requested number of items, a full search returns at most 100 records per start, and so never more than 1000 |
| NaverApi.PositivePrices | naver_api/api_client.py:390 | the kept prices are the positive lowest prices of the products, in frame order and with repeats (see `PositivePricesConcat` and `PositivePricesOne`); there are none exactly when no product has a positive price |
| NaverApi.PositivePricesConcat | naver_api/api_client.py:390 | filtering two frames one after the other gives the first's prices followed by the second's, so the frame order and repeated prices are kept |
| NaverApi.PositivePricesOne | naver_api/api_client.py:390 | one product contributes its lowest price exactly when it is positive |
| NaverApi.PriceBounds | naver_api/api_client.py:398-399 | the minimum and the maximum are both prices of the list, and every price lies between them |
| NaverApi.MeanBetween | naver_api/api_client.py:398-400 | the integer part of the mean lies between the minimum and the maximum price |
| NaverApi.MeanFloor | naver_api/api_client.py:400 | `int(mean())` of the positive prices is the floor of their exact mean (`count * avg ≤ sum < count * (avg + 1)`), which for positive prices truncation and floor agree on, and lies between the least and the greatest price |
| NaverApi.FloorMean | naver_api/api_client.py:400 | integer division of the sum by the count is the floor of the exact mean |
| NaverApi.PriceStatsOf | naver_api/api_client.py:386-402 | the result is the empty dictionary exactly when no product has a positive lowest price, and an error (the NaN standard deviation) exactly when one product has; otherwise the count of positive-price products, at least 2, and 0 < min ≤ avg ≤ max, with min and max such prices, every such price between them, and avg the floor of their exact mean (`IsFloorMean`) |
| NaverApi.GetPriceStats | naver_api/api_client.py:373-402 | the statistics fail with the search's error when the full search fails, and are otherwise the statistics of everything it collected; they fail exactly when the search fails or exactly one collected product has a positive price |

## Left out

- Rendering: Streamlit layout, Plotly figures, HTML string building, the CSS and the KPI cards. These are UI. The models return the data a chart or table is built from: rows, styles, classes and labels.
- CSV loading, `st.cache_data` and the output folder. These are file I/O. The analytics pipeline that writes the CSVs, `build_outputs.py`, is not part of this model.
- The HTTP calls themselves, the DataLab trend endpoints and their `_parse_*_trend` functions, and `naver_api/config.py`. The search request is the parameter `fetch`. The model assumes a request with the same parameters always gets the same answer.
- Floating-point statistics:
  - the OLS slope, R², t-statistic and p-value in `calculate_elasticity`, which are the parameter `fit` (`None` is its exception branch);
  - Spearman correlations and `linregress`;
  - `qcut`;
  - quantiles, medians, means and standard deviations, including the band labels' price ranges and `median_price`, `std_price` and the quartiles of `get_price_stats`;
  - the 1/√rank share-of-voice weights;
  - the `price_diff_pct` and `premium_index` divisions.
- The lookup tables of category codes, and the `value_counts` top-10 malls and brands of `get_price_stats`. The tables carry no behaviour; the top-10 lists are a frequency sort.
- The `nlargest` brand cut in the share-of-voice chart. Only the choice of column is modelled.
- Rounding of `0.9 * p` and similar products: the band factors are exact reals. `get_price_stats`' average is the floor of the exact mean, not of a float mean.
- `PyText.ParseInt`: does not accept the surrounding whitespace, the `_` digit separators or the non-ASCII digits that Python's `int()` also accepts.
- `PyText.Lower`: only ASCII letters are lower-cased. Only "calmf" depends on it; "캄프" has no case.
- DashboardV3.ParetoChart: requires anchors that are not `None`. The dashboard calls it only with truthy anchors; pandas' ordering comparison of a float column with `None` is not modelled.
- DashboardV3.ParetoSweep: a missing product name becomes "nan", as `str` prints it. In the source, slicing a NaN name raises.
- Dashboard2.CompetitionTable and DashboardV3.CompetitionTable: the `df.empty` notice is not modelled. An empty frame gives an empty table.
- Dashboard2.CompetitionTable: the listing has no total `price` field, so `int(row["price"])` raising on a NaN price is not modelled. Only the missing product name is.
- The premium section's `"segment" in df_main.columns` guard. Every listing has the segment field, possibly missing.
- NaverApi.GetPriceStats: `mall_name`/`brand` frequency lists, median, standard deviation and quartiles are not computed (see above). Only `query`, `total_products`, `min_price`, `max_price` and `avg_price` are modelled, plus the one way the standard deviation makes the call raise: a single positive price.
- NaverApi.SearchAllProducts: a page with more items than requested is not rejected. The 1000-record bound needs that assumption.
