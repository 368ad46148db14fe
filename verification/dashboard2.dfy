/** The competition analysis of the v2 dashboard (dashboard2.py): price bands
    around the own brand's unit price, the band tables with their highlight
    rule, the choice of the share-of-voice column, the price bucket the own
    brand falls in, the price range of each price band, and the sample guard
    of the price/rank elasticity. */
module Dashboard2 {
  import opened Wrappers
  import opened Listings

  // ---------------------------------------------------------------------------
  // Competition bands (main, "Competition Analysis")
  // ---------------------------------------------------------------------------

  /** `analysis_df`: the rows whose unit price is known. */
  function AnalysisRows(rows: seq<Listing>): (r: seq<Listing>)
    ensures forall x :: x in r <==> x in rows && x.unitPrice.Some?
    ensures multiset(r) <= multiset(rows)
  {
    Select(rows, (x: Listing) => x.unitPrice.Some?)
  }

  /** Unit price within ±10% of `p`. */
  predicate InBand10(p: real, x: Listing) {
    PriceWithin(x, p * 0.9, p * 1.1)
  }

  /** Unit price 10 to 20% away from `p`: `[0.8p, 0.9p)` or `(1.1p, 1.2p]`. */
  predicate InRing10To20(p: real, x: Listing) {
    x.unitPrice.Some? &&
    ((p * 0.8 <= x.unitPrice.value < p * 0.9) || (p * 1.1 < x.unitPrice.value <= p * 1.2))
  }

  /** Ranked above the own brand yet not cheaper than it. */
  predicate IsNonPriceCompetitor(p: real, rank: int, x: Listing) {
    x.pageRank.Some? && x.pageRank.value < rank &&
    x.unitPrice.Some? && x.unitPrice.value >= p
  }

  /** The anchors are the first own-brand row's unit price and rank; a NaN
      anchor makes every comparison false, so the band comes out empty. */
  function Band10(analysis: seq<Listing>, calmfPrice: Option<real>): (r: seq<Listing>)
    ensures calmfPrice.None? ==> r == []
  {
    Select(analysis, (x: Listing) => calmfPrice.Some? && InBand10(calmfPrice.value, x))
  }

  function Ring10To20(analysis: seq<Listing>, calmfPrice: Option<real>): (r: seq<Listing>)
    ensures calmfPrice.None? ==> r == []
  {
    Select(analysis, (x: Listing) => calmfPrice.Some? && InRing10To20(calmfPrice.value, x))
  }

  function NonPriceCompetitors(analysis: seq<Listing>, calmfPrice: Option<real>, calmfRank: Option<int>): (r: seq<Listing>)
    ensures calmfPrice.None? || calmfRank.None? ==> r == []
  {
    Select(analysis, (x: Listing) => calmfPrice.Some? && calmfRank.Some? &&
                          IsNonPriceCompetitor(calmfPrice.value, calmfRank.value, x))
  }

  /** The ±10% band holds exactly the rows priced in `[0.9p, 1.1p]`, and the
      10–20% ring exactly those in `[0.8p, 0.9p) ∪ (1.1p, 1.2p]`. */
  lemma BandMembership(analysis: seq<Listing>, p: real, x: Listing)
    ensures x in Band10(analysis, Some(p)) <==>
            x in analysis && x.unitPrice.Some? && 0.9 * p <= x.unitPrice.value <= 1.1 * p
    ensures x in Ring10To20(analysis, Some(p)) <==>
            x in analysis && x.unitPrice.Some? &&
            (0.8 * p <= x.unitPrice.value < 0.9 * p || 1.1 * p < x.unitPrice.value <= 1.2 * p)
  {
  }

  /** For a single row: the band and the ring never overlap, and together they
      are the ±20% band. */
  lemma BandRingPartitionRow(p: real, x: Listing)
    ensures !(InBand10(p, x) && InRing10To20(p, x))
    ensures InBand10(p, x) || InRing10To20(p, x) <==> InBand20(p, x)
  {
  }

  /** Counted over a whole frame: the two tables of the section split the ±20%
      band between them, with no row in both and none lost. */
  lemma BandRingPartition(analysis: seq<Listing>, p: real)
    ensures |Band10(analysis, Some(p))| + |Ring10To20(analysis, Some(p))| ==
            |Select(analysis, (x: Listing) => InBand20(p, x))|
    ensures forall x :: !(x in Band10(analysis, Some(p)) && x in Ring10To20(analysis, Some(p)))
  {
    var a := (x: Listing) => Some(p).Some? && InBand10(Some(p).value, x);
    var b := (x: Listing) => Some(p).Some? && InRing10To20(Some(p).value, x);
    var ab := (x: Listing) => InBand20(p, x);
    forall x ensures !(a(x) && b(x)) && (ab(x) <==> a(x) || b(x)) {
      BandRingPartitionRow(p, x);
    }
    CountDisjointUnion(analysis, a, b, ab);
  }

  /** Non-price competitors are exactly the rows ranked strictly above the own
      brand whose unit price is at least the own brand's; a missing anchor
      leaves the table empty. */
  lemma NonPriceMembership(analysis: seq<Listing>, calmfPrice: Option<real>, calmfRank: Option<int>, x: Listing)
    ensures x in NonPriceCompetitors(analysis, calmfPrice, calmfRank) <==>
            x in analysis && calmfPrice.Some? && calmfRank.Some? &&
            x.pageRank.Some? && x.pageRank.value < calmfRank.value &&
            x.unitPrice.Some? && x.unitPrice.value >= calmfPrice.value
    ensures calmfPrice.None? || calmfRank.None? ==> NonPriceCompetitors(analysis, calmfPrice, calmfRank) == []
  {
  }

  // ---------------------------------------------------------------------------
  // render_competition_table
  // ---------------------------------------------------------------------------

  const TABLE_ROWS: nat := 20

  datatype RowStyle =
    | OwnBrandStyle  // yellow background and a star
    | TopStyle       // blue background
    | PlainStyle

  /** The style of the row at position `idx`: the own brand first, then the
      top `highlightTop` positions. */
  function StyleAt(row: Listing, idx: int, highlightTop: int): RowStyle {
    if IsCalmf(row) then OwnBrandStyle
    else if idx < highlightTop then TopStyle
    else PlainStyle
  }

  /** The rows a band table shows and the style of each. `sorted` is the
      band sorted by page rank (any order among equal ranks). `raises` says
      that building the table fails: slicing the name of a shown row whose
      product name is missing (a float NaN) raises. */
  method CompetitionTable(band: seq<Listing>, sorted: seq<Listing>, highlightTop: int)
    returns (shown: seq<Listing>, styles: seq<RowStyle>, raises: bool)
    requires IsSortOf(sorted, band, RankKey)
    ensures |shown| <= TABLE_ROWS && |shown| == if |band| < TABLE_ROWS then |band| else TABLE_ROWS
    ensures SortedBy(shown, RankKey) && multiset(shown) <= multiset(band)
    ensures forall i, j :: 0 <= i < |shown| <= j < |sorted| ==> KeyLe(RankKey(shown[i]), RankKey(sorted[j]))
    ensures |styles| == |shown|
    ensures forall i :: 0 <= i < |shown| && IsCalmf(shown[i]) ==> styles[i] == OwnBrandStyle
    ensures forall i :: 0 <= i < |shown| && !IsCalmf(shown[i]) && i < highlightTop ==> styles[i] == TopStyle
    ensures forall i :: 0 <= i < |shown| && !IsCalmf(shown[i]) && i >= highlightTop ==> styles[i] == PlainStyle
    ensures raises <==> exists i :: 0 <= i < |shown| && shown[i].productName.None?
  {
    shown := Head(sorted, TABLE_ROWS, band, RankKey);
    styles := [];
    raises := false;
    for idx := 0 to |shown|
      invariant |styles| == idx
      invariant raises <==> exists i :: 0 <= i < idx && shown[i].productName.None?
      invariant forall i :: 0 <= i < idx ==> styles[i] == StyleAt(shown[i], i, highlightTop)
    {
      styles := styles + [StyleAt(shown[idx], idx, highlightTop)];
      if shown[idx].productName.None? {
        raises := true;
      }
    }
  }

  // ---------------------------------------------------------------------------
  // create_sov_bar_chart: which share-of-voice column to plot
  // ---------------------------------------------------------------------------

  const SOV_COLUMNS: seq<string> :=
    ["weighted_sov_1_over_rank", "weighted_sov_inv_rank", "weighted_sov_inv_sqrt"]

  /** The first candidate column the brand-share table has; `None` (no chart)
      for an empty table or when no candidate is present. */
  method PickSovColumn(columns: set<string>, rowCount: nat) returns (col: Option<string>)
    ensures rowCount == 0 ==> col.None?
    ensures rowCount > 0 && col.None? ==> forall k :: 0 <= k < |SOV_COLUMNS| ==> SOV_COLUMNS[k] !in columns
    ensures col.Some? ==>
              exists k :: 0 <= k < |SOV_COLUMNS| && col.value == SOV_COLUMNS[k] && col.value in columns &&
                          forall j :: 0 <= j < k ==> SOV_COLUMNS[j] !in columns
  {
    if rowCount == 0 {
      return None;
    }
    col := None;
    var k := 0;
    while k < |SOV_COLUMNS|
      invariant 0 <= k <= |SOV_COLUMNS|
      invariant forall j :: 0 <= j < k ==> SOV_COLUMNS[j] !in columns
      invariant col.None?
    {
      if SOV_COLUMNS[k] in columns {
        col := Some(SOV_COLUMNS[k]);
        break;
      }
      k := k + 1;
    }
  }

  // ---------------------------------------------------------------------------
  // create_price_quintile_chart: the bucket that holds the own brand's price
  // ---------------------------------------------------------------------------

  /** One row of the per-bucket summary: its label and price range. */
  datatype BucketRow = BucketRow(bucket: string, minPrice: real, maxPrice: real)

  predicate Covers(row: BucketRow, p: real) {
    row.minPrice <= p <= row.maxPrice
  }

  /** The first bucket, in summary order, whose range holds the own brand's
      unit price; `None` when no bucket does (or the price is NaN). */
  method FindCalmfBucket(summary: seq<BucketRow>, calmfPrice: Option<real>) returns (found: Option<string>)
    ensures found.None? <==>
            calmfPrice.None? || forall i :: 0 <= i < |summary| ==> !Covers(summary[i], calmfPrice.value)
    ensures found.Some? ==>
              calmfPrice.Some? &&
              exists k :: 0 <= k < |summary| && Covers(summary[k], calmfPrice.value) &&
                          found.value == summary[k].bucket &&
                          forall j :: 0 <= j < k ==> !Covers(summary[j], calmfPrice.value)
  {
    found := None;
    if calmfPrice.None? {
      return;
    }
    var p := calmfPrice.value;
    var k := 0;
    while k < |summary|
      invariant 0 <= k <= |summary|
      invariant forall j :: 0 <= j < k ==> !Covers(summary[j], p)
    {
      if summary[k].minPrice <= p <= summary[k].maxPrice {
        found := Some(summary[k].bucket);
        return;
      }
      k := k + 1;
    }
  }

  /** The buckets of a quantile cut are ordered and do not overlap; then the
      first covering bucket is the only one. */
  predicate OrderedBuckets(summary: seq<BucketRow>) {
    forall i, j :: 0 <= i < j < |summary| ==> summary[i].maxPrice < summary[j].minPrice
  }

  lemma CoveringBucketUnique(summary: seq<BucketRow>, p: real, i: nat, j: nat)
    requires OrderedBuckets(summary)
    requires i < |summary| && j < |summary|
    requires Covers(summary[i], p) && Covers(summary[j], p)
    ensures i == j
  {
  }

  // ---------------------------------------------------------------------------
  // price_ranges: the whole-won price range of each price band
  // ---------------------------------------------------------------------------

  /** The known unit prices of the rows in band `b`. */
  function BandPrices(rows: seq<Listing>, b: string): (prices: seq<real>)
    ensures forall u :: u in prices <==>
            exists x :: x in rows && x.priceBand == Some(b) && x.unitPrice == Some(u)
  {
    if |rows| == 0 then []
    else
      var rest := BandPrices(rows[1..], b);
      assert forall x :: x in rows <==> x == rows[0] || x in rows[1..];
      if rows[0].priceBand == Some(b) && rows[0].unitPrice.Some?
      then [rows[0].unitPrice.value] + rest
      else rest
  }

  /** `df["price_band"].dropna().unique()`: the bands in first-seen order,
      each once. */
  function UniqueBands(rows: seq<Listing>): (bands: seq<string>)
    ensures forall b :: b in bands <==> exists x :: x in rows && x.priceBand == Some(b)
    ensures forall i, j :: 0 <= i < j < |bands| ==> bands[i] != bands[j]
  {
    if |rows| == 0 then []
    else
      var init := UniqueBands(rows[..|rows| - 1]);
      var last := rows[|rows| - 1];
      assert forall x :: x in rows <==> x == last || x in rows[..|rows| - 1];
      if last.priceBand.None? || last.priceBand.value in init then init
      else init + [last.priceBand.value]
  }

  /** The `(int(min), int(max))` unit price of every band that has at least one
      known price; bands without any are left out of the dictionary. */
  method BandPriceRanges(rows: seq<Listing>) returns (ranges: map<string, (int, int)>)
    ensures forall b :: b in ranges <==>
            exists x :: x in rows && x.priceBand == Some(b) && x.unitPrice.Some?
    ensures forall b :: b in ranges ==>
            |BandPrices(rows, b)| > 0 &&
            ranges[b] == (Trunc(MinOf(BandPrices(rows, b))), Trunc(MaxOf(BandPrices(rows, b))))
  {
    var bands := UniqueBands(rows);
    ranges := map[];
    for i := 0 to |bands|
      invariant forall b :: b in ranges <==> b in bands[..i] && |BandPrices(rows, b)| > 0
      invariant forall b :: b in ranges ==>
                |BandPrices(rows, b)| > 0 &&
                ranges[b] == (Trunc(MinOf(BandPrices(rows, b))), Trunc(MaxOf(BandPrices(rows, b))))
    {
      var prices := BandPrices(rows, bands[i]);
      if |prices| > 0 {
        ranges := ranges[bands[i] := (Trunc(MinOf(prices)), Trunc(MaxOf(prices)))];
      }
      assert bands[..i + 1] == bands[..i] + [bands[i]];
    }
    assert bands[..|bands|] == bands;
    forall b ensures |BandPrices(rows, b)| > 0 <==> exists x :: x in rows && x.priceBand == Some(b) && x.unitPrice.Some? {
      if exists x :: x in rows && x.priceBand == Some(b) && x.unitPrice.Some? {
        var x :| x in rows && x.priceBand == Some(b) && x.unitPrice.Some?;
        assert x.unitPrice.value in BandPrices(rows, b);
      }
      var prices := BandPrices(rows, b);
      if |prices| > 0 {
        assert prices[0] in prices;
      }
    }
  }

  /** Every known price of a band lies within the band's displayed range, in
      whole won. */
  lemma BandRangeBounds(rows: seq<Listing>, x: Listing)
    requires x in rows && x.priceBand.Some? && x.unitPrice.Some?
    ensures |BandPrices(rows, x.priceBand.value)| > 0
    ensures var prices := BandPrices(rows, x.priceBand.value);
            Trunc(MinOf(prices)) <= Trunc(x.unitPrice.value) <= Trunc(MaxOf(prices))
  {
    var prices := BandPrices(rows, x.priceBand.value);
    assert x.unitPrice.value in prices;
    TruncMonotone(MinOf(prices), x.unitPrice.value);
    TruncMonotone(x.unitPrice.value, MaxOf(prices));
  }

  // ---------------------------------------------------------------------------
  // calculate_elasticity: the sample guard
  // ---------------------------------------------------------------------------

  const MIN_ELASTICITY_SAMPLE: nat := 5

  datatype Direction = Up | Down

  /** What the log-log least-squares fit yields: slope, R² and p-value (the
      p-value is absent when scipy is missing). */
  datatype Fit = Fit(slope: real, r2: real, pValue: Option<real>)

  datatype Elasticity = Elasticity(
    n: nat,
    b: Option<real>,
    r2: Option<real>,
    pValue: Option<real>,
    direction: Option<Direction>,
    hasData: bool)

  /** The rows with rank at most `cutoff` and both price and rank known. */
  function ElasticitySample(rows: seq<Listing>, cutoff: int): (r: seq<Listing>)
    ensures forall x :: x in r <==>
              x in rows && x.pageRank.Some? && x.pageRank.value <= cutoff && x.unitPrice.Some?
  {
    Select(rows, (x: Listing) => x.pageRank.Some? && x.pageRank.value <= cutoff && x.unitPrice.Some?)
  }

  /** `fit` stands for the floating-point regression; `None` is its exception
      branch. Fewer than five sample rows, or a failed fit, give no estimate. */
  function CalculateElasticity(rows: seq<Listing>, cutoff: int, fit: seq<Listing> -> Option<Fit>): (e: Elasticity)
    ensures e.n == |ElasticitySample(rows, cutoff)|
    ensures e.hasData <==> e.n >= MIN_ELASTICITY_SAMPLE && fit(ElasticitySample(rows, cutoff)).Some?
    ensures !e.hasData ==> e.b.None? && e.r2.None? && e.pValue.None? && e.direction.None?
    ensures e.hasData ==>
              var f := fit(ElasticitySample(rows, cutoff)).value;
              e.b == Some(f.slope) && e.r2 == Some(f.r2) && e.pValue == f.pValue &&
              e.direction == Some(if f.slope > 0.0 then Up else Down)
  {
    var sample := ElasticitySample(rows, cutoff);
    var n := |sample|;
    if n < MIN_ELASTICITY_SAMPLE then Elasticity(n, None, None, None, None, false)
    else match fit(sample)
      case None => Elasticity(n, None, None, None, None, false)
      case Some(f) =>
        Elasticity(n, Some(f.slope), Some(f.r2), f.pValue, Some(if f.slope > 0.0 then Up else Down), true)
  }

  /** A wider cutoff never shrinks the sample: if the Top 20 estimate has
      enough rows, so do Top 50 and Top 100. */
  lemma ElasticitySampleMonotone(rows: seq<Listing>, c1: int, c2: int)
    requires c1 <= c2
    ensures |ElasticitySample(rows, c1)| <= |ElasticitySample(rows, c2)|
  {
    CountMonotone(rows,
      (x: Listing) => x.pageRank.Some? && x.pageRank.value <= c1 && x.unitPrice.Some?,
      (x: Listing) => x.pageRank.Some? && x.pageRank.value <= c2 && x.unitPrice.Some?);
  }
}
