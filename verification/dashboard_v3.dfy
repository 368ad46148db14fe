/** The competitor views of the v3 dashboard (dashboard_v3.py): the Pareto
    frontier of unit price against search rank and the "dominated by" count,
    the competition table's row classes and rank-difference labels, the
    competitor filters with the Premium summary, and the parsing of price-band
    labels such as "P60-80". */
module DashboardV3 {
  import opened Wrappers
  import opened PyText
  import opened Listings
  import Dashboard2

  /** A cell of the own brand's first row, `calmf_products.iloc[0]`: `NoRow`
      when there is no own-brand row (the code then uses `None`), `NaN` for a
      missing value, otherwise the number. */
  datatype Anchor<T> = NoRow | NaN | Known(value: T)

  /** Python's truthiness of an anchor: `None` and zero are false, NaN is
      true. */
  predicate TruthyPrice(a: Anchor<real>) { a.NaN? || (a.Known? && a.value != 0.0) }

  predicate TruthyRank(a: Anchor<int>) { a.NaN? || (a.Known? && a.value != 0) }

  /** `x["page_rank"] < calmf_rank`; false when either side is missing. */
  predicate RanksAbove(x: Listing, calmfRank: Anchor<int>) {
    calmfRank.Known? && x.pageRank.Some? && x.pageRank.value < calmfRank.value
  }

  /** `x["unit_price"] <= calmf_price`; false when either side is missing. */
  predicate PricedAtMost(x: Listing, calmfPrice: Anchor<real>) {
    calmfPrice.Known? && x.unitPrice.Some? && x.unitPrice.value <= calmfPrice.value
  }

  // ---------------------------------------------------------------------------
  // create_pareto_chart
  // ---------------------------------------------------------------------------

  /** A row with both a unit price and a page rank. */
  datatype Point = Point(unitPrice: real, pageRank: int, name: string)

  predicate IsValid(x: Listing) { x.unitPrice.Some? && x.pageRank.Some? }

  /** `df_valid`, as points, in frame order. */
  function ValidPoints(rows: seq<Listing>): (pts: seq<Point>)
    ensures |pts| <= |rows|
    ensures forall p :: p in pts <==>
            exists x :: x in rows && IsValid(x) && p == Point(x.unitPrice.value, x.pageRank.value, Text(x.productName))
  {
    if |rows| == 0 then []
    else
      var rest := ValidPoints(rows[1..]);
      var x := rows[0];
      assert forall y :: y in rows <==> y == x || y in rows[1..];
      if IsValid(x) then [Point(x.unitPrice.value, x.pageRank.value, Text(x.productName))] + rest
      else rest
  }

  /** Priced at or below the own brand and ranked strictly above it. */
  predicate Dominates(x: Listing, calmfPrice: real, calmfRank: int) {
    IsValid(x) && x.unitPrice.value <= calmfPrice && x.pageRank.value < calmfRank
  }

  /** `dominated_by`: how many valid rows dominate the own brand. */
  function DominatedBy(rows: seq<Listing>, calmfPrice: real, calmfRank: int): (r: nat)
    ensures r <= |rows|
    ensures rows == [] ==> r == 0
  {
    CountWhere(rows, (x: Listing) => Dominates(x, calmfPrice, calmfRank))
  }

  /** The share of the market that dominates the own brand, in percent. */
  lemma DominatedShareBounded(rows: seq<Listing>, calmfPrice: real, calmfRank: int)
    ensures 0.0 <= Pct(DominatedBy(rows, calmfPrice, calmfRank), |rows|) <= 100.0
  {
  }

  predicate PriceSorted(s: seq<Point>) {
    forall i, j :: 0 <= i < j < |s| ==> s[i].unitPrice <= s[j].unitPrice
  }

  /** Point `k` ranks strictly better than every point before it. */
  predicate IsRecordLow(s: seq<Point>, k: int)
    requires 0 <= k < |s|
  {
    forall j :: 0 <= j < k ==> s[j].pageRank > s[k].pageRank
  }

  /** The points that rank strictly better than all points before them, in
      order: for a price-sorted sequence, the Pareto frontier. */
  function RecordLows(s: seq<Point>): (f: seq<Point>)
    ensures |f| <= |s|
  {
    if |s| == 0 then []
    else RecordLows(s[..|s| - 1]) + (if IsRecordLow(s, |s| - 1) then [s[|s| - 1]] else [])
  }

  /** Python's `name[:n]`: the first `min(len(name), n)` characters. */
  function Prefix(s: string, n: nat): (r: string)
    ensures |r| == if |s| <= n then |s| else n
    ensures r <= s
  {
    if |s| <= n then s else s[..n]
  }

  /** The sweep over the price-sorted valid rows: a row joins the frontier
      when its rank beats the best rank seen so far (which starts at +inf). */
  method ParetoSweep(sorted: seq<Point>) returns (frontier: seq<Point>, names: seq<string>)
    ensures frontier == RecordLows(sorted)
    ensures |names| == |frontier|
    ensures forall i :: 0 <= i < |frontier| ==> names[i] == Prefix(frontier[i].name, 30)
  {
    frontier, names := [], [];
    var minRank: Option<int> := None;
    for i := 0 to |sorted|
      invariant frontier == RecordLows(sorted[..i])
      invariant |names| == |frontier|
      invariant forall k :: 0 <= k < |frontier| ==> names[k] == Prefix(frontier[k].name, 30)
      invariant minRank.None? <==> i == 0
      invariant minRank.Some? ==> forall j :: 0 <= j < i ==> minRank.value <= sorted[j].pageRank
      invariant minRank.Some? ==> exists j :: 0 <= j < i && sorted[j].pageRank == minRank.value
    {
      var row := sorted[i];
      ghost var s := sorted[..i + 1];
      assert s[..|s| - 1] == sorted[..i];
      assert IsRecordLow(s, i) <==> minRank.None? || row.pageRank < minRank.value;
      if minRank.None? || row.pageRank < minRank.value {
        frontier := frontier + [row];
        names := names + [Prefix(row.name, 30)];
        minRank := Some(row.pageRank);
      }
    }
    assert sorted[..|sorted|] == sorted;
  }

  /** Every frontier point is a record low of the input. */
  lemma {:induction false} RecordLowsFromInput(s: seq<Point>, f: Point)
    requires f in RecordLows(s)
    ensures exists k :: 0 <= k < |s| && s[k] == f && IsRecordLow(s, k)
  {
    var n := |s| - 1;
    var init := s[..n];
    if f in RecordLows(init) {
      RecordLowsFromInput(init, f);
      var k :| 0 <= k < |init| && init[k] == f && IsRecordLow(init, k);
      assert s[k] == f && IsRecordLow(s, k);
    } else {
      assert f == s[n] && IsRecordLow(s, n);
    }
  }

  /** Along the frontier, unit prices never fall and ranks strictly improve. */
  lemma {:induction false} FrontierMonotone(s: seq<Point>)
    requires PriceSorted(s)
    ensures var f := RecordLows(s);
            forall i, j :: 0 <= i < j < |f| ==> f[i].unitPrice <= f[j].unitPrice && f[i].pageRank > f[j].pageRank
  {
    if |s| > 0 {
      var n := |s| - 1;
      var init := s[..n];
      FrontierMonotone(init);
      var fi := RecordLows(init);
      if IsRecordLow(s, n) {
        forall i | 0 <= i < |fi|
          ensures fi[i].unitPrice <= s[n].unitPrice && fi[i].pageRank > s[n].pageRank
        {
          RecordLowsFromInput(init, fi[i]);
        }
      }
    }
  }

  /** Every valid row is weakly dominated (price and rank both no worse) by
      some frontier point. */
  lemma {:induction false} FrontierCovers(s: seq<Point>, q: Point)
    requires PriceSorted(s) && q in s
    ensures exists f :: f in RecordLows(s) && f.unitPrice <= q.unitPrice && f.pageRank <= q.pageRank
  {
    var n := |s| - 1;
    var init := s[..n];
    assert RecordLows(s) == RecordLows(init) + (if IsRecordLow(s, n) then [s[n]] else []);
    if q in init {
      FrontierCovers(init, q);
    } else {
      assert q == s[n];
      if !IsRecordLow(s, n) {
        var j :| 0 <= j < n && s[j].pageRank <= s[n].pageRank;
        assert init[j] == s[j];
        FrontierCovers(init, s[j]);
      } else {
        assert s[n] in RecordLows(s);
      }
    }
  }

  /** No input point is strictly cheaper than a frontier point while ranking
      at least as well: frontier points are Pareto-optimal. */
  lemma FrontierOptimal(s: seq<Point>, f: Point, q: Point)
    requires PriceSorted(s) && f in RecordLows(s) && q in s
    requires q.unitPrice < f.unitPrice
    ensures q.pageRank > f.pageRank
  {
    RecordLowsFromInput(s, f);
    var k :| 0 <= k < |s| && s[k] == f && IsRecordLow(s, k);
    var m :| 0 <= m < |s| && s[m] == q;
    assert m < k;
  }

  /** The dominated-by count is positive exactly when some row dominates. */
  lemma DominatedByPositive(rows: seq<Listing>, calmfPrice: real, calmfRank: int)
    ensures DominatedBy(rows, calmfPrice, calmfRank) > 0 <==>
            exists x :: x in rows && Dominates(x, calmfPrice, calmfRank)
  {
    var sel := Select(rows, (x: Listing) => Dominates(x, calmfPrice, calmfRank));
    if |sel| > 0 {
      assert sel[0] in sel;
    }
  }

  predicate PointDominates(f: Point, calmfPrice: real, calmfRank: int) {
    f.unitPrice <= calmfPrice && f.pageRank < calmfRank
  }

  /** A dominating row has a frontier point that dominates too. */
  lemma DominatorReachesFrontier(rows: seq<Listing>, sorted: seq<Point>, x: Listing, calmfPrice: real, calmfRank: int)
    requires multiset(sorted) == multiset(ValidPoints(rows)) && PriceSorted(sorted)
    requires x in rows && Dominates(x, calmfPrice, calmfRank)
    ensures exists f :: f in RecordLows(sorted) && PointDominates(f, calmfPrice, calmfRank)
  {
    var p := Point(x.unitPrice.value, x.pageRank.value, Text(x.productName));
    assert p in ValidPoints(rows);
    assert p in multiset(ValidPoints(rows));
    assert p in sorted;
    FrontierCovers(sorted, p);
    var f :| f in RecordLows(sorted) && f.unitPrice <= p.unitPrice && f.pageRank <= p.pageRank;
    assert PointDominates(f, calmfPrice, calmfRank);
  }

  /** A dominating frontier point comes from a dominating row. */
  lemma FrontierReachesDominator(rows: seq<Listing>, sorted: seq<Point>, f: Point, calmfPrice: real, calmfRank: int)
    requires multiset(sorted) == multiset(ValidPoints(rows))
    requires f in RecordLows(sorted) && PointDominates(f, calmfPrice, calmfRank)
    ensures exists x :: x in rows && Dominates(x, calmfPrice, calmfRank)
  {
    RecordLowsFromInput(sorted, f);
    assert f in multiset(sorted);
    assert f in ValidPoints(rows);
    var x :| x in rows && IsValid(x) && f == Point(x.unitPrice.value, x.pageRank.value, Text(x.productName));
    assert Dominates(x, calmfPrice, calmfRank);
  }

  /** The own brand is dominated by some row exactly when some frontier point
      dominates it. `sorted` is the valid rows sorted by unit price (any order
      among equal prices). */
  lemma DominatedByFrontier(rows: seq<Listing>, sorted: seq<Point>, calmfPrice: real, calmfRank: int)
    requires multiset(sorted) == multiset(ValidPoints(rows)) && PriceSorted(sorted)
    ensures DominatedBy(rows, calmfPrice, calmfRank) > 0 <==>
            exists f :: f in RecordLows(sorted) && PointDominates(f, calmfPrice, calmfRank)
  {
    DominatedByPositive(rows, calmfPrice, calmfRank);
    if exists x :: x in rows && Dominates(x, calmfPrice, calmfRank) {
      var x :| x in rows && Dominates(x, calmfPrice, calmfRank);
      DominatorReachesFrontier(rows, sorted, x, calmfPrice, calmfRank);
    }
    if exists f :: f in RecordLows(sorted) && PointDominates(f, calmfPrice, calmfRank) {
      var f :| f in RecordLows(sorted) && PointDominates(f, calmfPrice, calmfRank);
      FrontierReachesDominator(rows, sorted, f, calmfPrice, calmfRank);
    }
  }

  /** `create_pareto_chart`: nothing for an empty frame; otherwise the
      dominated-by count and the frontier of the price-sorted valid rows. A
      NaN anchor compares false with every row, so nothing dominates it. */
  method ParetoChart(rows: seq<Listing>, sorted: seq<Point>, calmfPrice: Anchor<real>, calmfRank: Anchor<int>)
    returns (frontier: seq<Point>, names: seq<string>, dominatedBy: nat)
    requires !calmfPrice.NoRow? && !calmfRank.NoRow?
    requires multiset(sorted) == multiset(ValidPoints(rows)) && PriceSorted(sorted)
    ensures rows == [] ==> frontier == [] && dominatedBy == 0
    ensures frontier == RecordLows(sorted)
    ensures |names| == |frontier| && forall i :: 0 <= i < |frontier| ==> names[i] == Prefix(frontier[i].name, 30)
    ensures calmfPrice.Known? && calmfRank.Known? ==>
              dominatedBy == DominatedBy(rows, calmfPrice.value, calmfRank.value)
    ensures calmfPrice.NaN? || calmfRank.NaN? ==> dominatedBy == 0
    ensures dominatedBy <= |rows|
    ensures dominatedBy > 0 <==>
              calmfPrice.Known? && calmfRank.Known? &&
              exists f :: f in frontier && PointDominates(f, calmfPrice.value, calmfRank.value)
  {
    if rows == [] {
      assert |sorted| == |multiset(sorted)| == 0;
      return [], [], 0;
    }
    if calmfPrice.Known? && calmfRank.Known? {
      dominatedBy := DominatedBy(rows, calmfPrice.value, calmfRank.value);
      DominatedByFrontier(rows, sorted, calmfPrice.value, calmfRank.value);
    } else {
      dominatedBy := 0;
    }
    frontier, names := ParetoSweep(sorted);
  }

  /** What section 8 shows: the frontier with its names, the dominated-by
      count and its share of the whole frame. */
  datatype ParetoView = ParetoView(frontier: seq<Point>, names: seq<string>, dominatedBy: nat, dominatedPct: real)

  /** Section 8, drawn when both anchors are truthy. */
  method ParetoSection(rows: seq<Listing>, sorted: seq<Point>, calmfPrice: Anchor<real>, calmfRank: Anchor<int>)
    returns (view: Option<ParetoView>)
    requires multiset(sorted) == multiset(ValidPoints(rows)) && PriceSorted(sorted)
    ensures view.Some? <==> TruthyPrice(calmfPrice) && TruthyRank(calmfRank)
    ensures view.Some? ==>
              var v := view.value;
              v.frontier == RecordLows(sorted) && |v.names| == |v.frontier| &&
              (forall i :: 0 <= i < |v.frontier| ==> v.names[i] == Prefix(v.frontier[i].name, 30)) &&
              (calmfPrice.Known? && calmfRank.Known? ==>
                 v.dominatedBy == DominatedBy(rows, calmfPrice.value, calmfRank.value)) &&
              (!(calmfPrice.Known? && calmfRank.Known?) ==> v.dominatedBy == 0) &&
              v.dominatedPct == Pct(v.dominatedBy, |rows|) && 0.0 <= v.dominatedPct <= 100.0 &&
              (v.dominatedBy > 0 <==>
                 calmfPrice.Known? && calmfRank.Known? &&
                 exists f :: f in v.frontier && PointDominates(f, calmfPrice.value, calmfRank.value))
  {
    if !(TruthyPrice(calmfPrice) && TruthyRank(calmfRank)) {
      return None;
    }
    var frontier, names, dominatedBy := ParetoChart(rows, sorted, calmfPrice, calmfRank);
    view := Some(ParetoView(frontier, names, dominatedBy, Pct(dominatedBy, |rows|)));
  }

  // ---------------------------------------------------------------------------
  // render_competition_table
  // ---------------------------------------------------------------------------

  datatype RowClass = CalmfRow | ThreatRow | NoClass

  /** One table row: the listing, its CSS class, the star icon and the
      rank-difference label. */
  datatype TableRow = TableRow(row: Listing, rowClass: RowClass, star: bool, rankDiff: string)

  /** `sort_by == "rank"` sorts by page rank, anything else by unit price. */
  function SortKey(sortBy: string): Listing -> Option<real> {
    if sortBy == "rank" then RankKey else PriceKey
  }

  /** Ranked above a truthy own rank, and not the own brand itself. */
  predicate IsThreat(x: Listing, calmfRank: Anchor<int>) {
    TruthyRank(calmfRank) && RanksAbove(x, calmfRank) && !IsCalmf(x)
  }

  const UP_SUFFIX: string := "위 ↑"
  const DOWN_SUFFIX: string := "위 ↓"

  /** The rank-difference cell. With a falsy own rank the difference column is
      never built and every row reads as a difference of 0; a NaN own rank or
      a missing row rank makes the difference NaN, shown as "-". */
  function RankDiffLabel(rank: Option<int>, calmfRank: Anchor<int>): string {
    if !TruthyRank(calmfRank) then "동일"
    else if calmfRank.NaN? || rank.None? then "-"
    else
      var d := rank.value - calmfRank.value;
      if d < 0 then IntToString(d) + UP_SUFFIX
      else if d > 0 then "+" + IntToString(d) + DOWN_SUFFIX
      else "동일"
  }

  /** The label's arrow points up exactly for a better rank than the own
      brand's, and the number before the suffix reads back as the difference. */
  lemma RankDiffLabelDecodes(rank: int, calmfRank: int)
    requires calmfRank != 0 && rank != calmfRank
    ensures var cell := RankDiffLabel(Some(rank), Known(calmfRank));
            |cell| > 3 &&
            (cell[|cell| - 1] == '↑' <==> rank < calmfRank) &&
            ParseInt(cell[..|cell| - 3]) == Success(rank - calmfRank)
  {
    var d := rank - calmfRank;
    var cell := RankDiffLabel(Some(rank), Known(calmfRank));
    ParseIntRoundTrip(d);
    if d < 0 {
      assert cell[..|cell| - 3] == IntToString(d);
    } else {
      assert cell[..|cell| - 3] == "+" + IntToString(d);
    }
  }

  /** A threat row's label always shows an upward arrow; the own brand's own
      rank shows "동일". */
  lemma ThreatLabelPointsUp(x: Listing, calmfRank: Anchor<int>)
    requires IsThreat(x, calmfRank)
    ensures var cell := RankDiffLabel(x.pageRank, calmfRank);
            |cell| > 0 && cell[|cell| - 1] == '↑'
    ensures RankDiffLabel(Some(calmfRank.value), calmfRank) == "동일"
  {
  }

  /** With a falsy own rank (no own-brand row, or 0) every row reads "동일";
      with a NaN own rank every row reads "-"; with a usable one, a row without
      a rank reads "-" and a row at the same rank "동일". */
  lemma RankDiffLabelSpecialCases(rank: Option<int>, calmfRank: Anchor<int>)
    ensures !TruthyRank(calmfRank) ==> RankDiffLabel(rank, calmfRank) == "동일"
    ensures calmfRank.NaN? ==> RankDiffLabel(rank, calmfRank) == "-"
    ensures TruthyRank(calmfRank) && rank.None? ==> RankDiffLabel(rank, calmfRank) == "-"
    ensures calmfRank.Known? && calmfRank.value != 0 && rank == Some(calmfRank.value) ==>
              RankDiffLabel(rank, calmfRank) == "동일"
  {
  }

  /** One row of the table with its class, star and rank-difference label. */
  function ClassifyRow(row: Listing, calmfRank: Anchor<int>): TableRow {
    var isCalmfRow := IsCalmf(row);
    var isThreat := TruthyRank(calmfRank) && row.pageRank.Some? && calmfRank.Known? &&
                    row.pageRank.value < calmfRank.value && !isCalmfRow;
    var rowClass := if isCalmfRow then CalmfRow else if isThreat then ThreatRow else NoClass;
    TableRow(row, rowClass, isCalmfRow, RankDiffLabel(row.pageRank, calmfRank))
  }

  /** The own brand's rows get the calmf class and the star; any other row is
      a threat row exactly when it ranks above a usable own rank; every row
      carries its rank-difference label. */
  lemma ClassifyRowSpec(row: Listing, calmfRank: Anchor<int>)
    ensures var t := ClassifyRow(row, calmfRank);
            t.row == row && t.rankDiff == RankDiffLabel(row.pageRank, calmfRank) &&
            (t.star <==> IsCalmf(row)) &&
            (t.rowClass == CalmfRow <==> IsCalmf(row)) &&
            (t.rowClass == ThreatRow <==> IsThreat(row, calmfRank)) &&
            (t.rowClass == NoClass <==> !IsCalmf(row) && !IsThreat(row, calmfRank))
  {
  }

  /** The table: at most `maxRows` rows of the frame sorted by `sortBy`, each
      classified by `ClassifyRow`. */
  method CompetitionTable(df: seq<Listing>, sorted: seq<Listing>, calmfRank: Anchor<int>, maxRows: nat, sortBy: string)
    returns (table: seq<TableRow>)
    requires IsSortOf(sorted, df, SortKey(sortBy))
    ensures |table| == if |df| < maxRows then |df| else maxRows
    ensures |table| <= |sorted|
    ensures forall i :: 0 <= i < |table| ==> table[i] == ClassifyRow(sorted[i], calmfRank)
    ensures forall i, j :: 0 <= i < |table| <= j < |sorted| ==>
              KeyLe(SortKey(sortBy)(table[i].row), SortKey(sortBy)(sorted[j]))
  {
    var shown := Head(sorted, maxRows, df, SortKey(sortBy));
    table := [];
    for i := 0 to |shown|
      invariant |table| == i
      invariant forall k :: 0 <= k < i ==> table[k] == ClassifyRow(shown[k], calmfRank)
    {
      table := table + [ClassifyRow(shown[i], calmfRank)];
    }
  }

  // ---------------------------------------------------------------------------
  // Competitor filters and the Premium summary (main, sections 5 to 7 and 10)
  // ---------------------------------------------------------------------------

  /** Section 5: the ±20% band, shown when the own price is truthy and the
      frame is not empty. A NaN own price selects no row. */
  function Band20Section(rows: seq<Listing>, calmfPrice: Anchor<real>): (r: Option<seq<Listing>>)
    ensures r.Some? <==> TruthyPrice(calmfPrice) && |rows| > 0
    ensures r.Some? ==>
              forall x :: x in r.value <==> x in rows && calmfPrice.Known? && InBand20(calmfPrice.value, x)
    ensures r.Some? && calmfPrice.NaN? ==> r.value == []
  {
    if TruthyPrice(calmfPrice) && |rows| > 0 then
      Some(Select(rows, (x: Listing) => calmfPrice.Known? && InBand20(calmfPrice.value, x)))
    else None
  }

  predicate InPremium15(calmfPrice: Anchor<real>, x: Listing) {
    calmfPrice.Known? && x.segment == Some("Premium") &&
    PriceWithin(x, calmfPrice.value * 0.85, calmfPrice.value * 1.15)
  }

  predicate InSovBand(calmfPrice: Anchor<real>, x: Listing) {
    calmfPrice.Known? && PriceWithin(x, calmfPrice.value * 0.85, calmfPrice.value * 1.15)
  }

  /** `premium_15`: Premium-segment rows within ±15% of the own price. */
  function Premium15(rows: seq<Listing>, calmfPrice: Anchor<real>): seq<Listing> {
    Select(rows, (x: Listing) => InPremium15(calmfPrice, x))
  }

  /** Section 10: the rows within ±15% of the own price whose brand shares are
      charted, whatever their segment. */
  function SovBand(rows: seq<Listing>, calmfPrice: Anchor<real>): seq<Listing> {
    Select(rows, (x: Listing) => InSovBand(calmfPrice, x))
  }

  /** The Premium competitors are among the share-of-voice rows; a NaN own
      price leaves both empty. */
  lemma PremiumWithinSovBand(rows: seq<Listing>, calmfPrice: Anchor<real>)
    ensures forall x :: x in Premium15(rows, calmfPrice) ==> x in SovBand(rows, calmfPrice)
    ensures |Premium15(rows, calmfPrice)| <= |SovBand(rows, calmfPrice)|
    ensures calmfPrice.NaN? ==> Premium15(rows, calmfPrice) == [] && SovBand(rows, calmfPrice) == []
  {
    CountMonotone(rows, (x: Listing) => InPremium15(calmfPrice, x), (x: Listing) => InSovBand(calmfPrice, x));
  }

  datatype PremiumSummary = PremiumSummary(
    threats: nat,          // competitors ranked above the own brand
    cheaperOrEqual: nat,   // competitors priced at or below it
    totalCompetitors: int, // rows that are not the own brand's
    threatPct: real)

  /** A Premium row that is not the own brand's and ranks above it. */
  predicate IsPremiumThreat(calmfRank: Anchor<int>, x: Listing) {
    RanksAbove(x, calmfRank) && !IsCalmf(x)
  }

  /** A Premium row that is not the own brand's and costs no more per sheet. */
  predicate IsCheaperOrEqual(calmfPrice: Anchor<real>, x: Listing) {
    PricedAtMost(x, calmfPrice) && !IsCalmf(x)
  }

  /** The Premium summary: the total is the Premium rows minus the own
      brand's; both counts leave the own brand out and so never exceed it;
      the share is the guarded percentage of threats. */
  function SummarizePremium(premium: seq<Listing>, calmfPrice: Anchor<real>, calmfRank: Anchor<int>): (s: PremiumSummary)
    ensures s.totalCompetitors == CountWhere(premium, (x: Listing) => !IsCalmf(x))
    ensures s.threats == CountWhere(premium, (x: Listing) => IsPremiumThreat(calmfRank, x))
    ensures s.cheaperOrEqual == CountWhere(premium, (x: Listing) => IsCheaperOrEqual(calmfPrice, x))
    ensures s.threatPct == Pct(s.threats, s.totalCompetitors)
    ensures s.threats <= s.totalCompetitors && s.cheaperOrEqual <= s.totalCompetitors
    ensures 0.0 <= s.threatPct <= 100.0
    ensures s.totalCompetitors == 0 ==> s.threatPct == 0.0 && s.threats == 0
  {
    var notOwn := (x: Listing) => !IsCalmf(x);
    var threat := (x: Listing) => IsPremiumThreat(calmfRank, x);
    var cheaper := (x: Listing) => IsCheaperOrEqual(calmfPrice, x);
    var threats := CountWhere(premium, threat);
    var cheaperOrEqual := CountWhere(premium, cheaper);
    var total := |premium| - CountWhere(premium, IsCalmf);
    CountDisjointUnion(premium, IsCalmf, notOwn, (x: Listing) => true);
    CountMonotone(premium, threat, notOwn);
    CountMonotone(premium, cheaper, notOwn);
    PremiumSummary(threats, cheaperOrEqual, total, Pct(threats, total))
  }

  /** The threats and the own brand's rows ranked above it make up every
      Premium row ranked above the own brand; with a truthy own rank the
      threats are exactly the rows the table marks as threats. */
  lemma PremiumThreatsSplit(premium: seq<Listing>, calmfRank: Anchor<int>)
    ensures CountWhere(premium, (x: Listing) => IsPremiumThreat(calmfRank, x)) +
            CountWhere(premium, (x: Listing) => RanksAbove(x, calmfRank) && IsCalmf(x)) ==
            CountWhere(premium, (x: Listing) => RanksAbove(x, calmfRank))
    ensures TruthyRank(calmfRank) ==> forall x :: IsPremiumThreat(calmfRank, x) <==> IsThreat(x, calmfRank)
  {
    CountDisjointUnion(premium,
      (x: Listing) => IsPremiumThreat(calmfRank, x),
      (x: Listing) => RanksAbove(x, calmfRank) && IsCalmf(x),
      (x: Listing) => RanksAbove(x, calmfRank));
  }

  /** A NaN own rank compares false with every row: no threats, a share of 0. */
  lemma PremiumNaNRank(premium: seq<Listing>, calmfPrice: Anchor<real>, calmfRank: Anchor<int>)
    requires calmfRank.NaN?
    ensures var s := SummarizePremium(premium, calmfPrice, calmfRank);
            s.threats == 0 && s.threatPct == 0.0
  {
    var threat := (x: Listing) => IsPremiumThreat(calmfRank, x);
    NoneSelected(premium, threat);
    var s := SummarizePremium(premium, calmfPrice, calmfRank);
    assert s.threats == 0;
  }

  /** Section 6: shown when both anchors are truthy and the frame is not empty. */
  function PremiumSection(rows: seq<Listing>, calmfPrice: Anchor<real>, calmfRank: Anchor<int>)
    : (r: Option<(seq<Listing>, PremiumSummary)>)
    ensures r.Some? <==> TruthyPrice(calmfPrice) && TruthyRank(calmfRank) && |rows| > 0
    ensures r.Some? ==> forall x :: x in r.value.0 <==> x in rows && InPremium15(calmfPrice, x)
    ensures r.Some? ==> r.value.1.threats <= r.value.1.totalCompetitors <= |r.value.0|
    ensures r.Some? ==> r.value.0 == Premium15(rows, calmfPrice) &&
                        r.value.1 == SummarizePremium(r.value.0, calmfPrice, calmfRank)
  {
    if TruthyPrice(calmfPrice) && TruthyRank(calmfRank) && |rows| > 0 then
      var premium := Premium15(rows, calmfPrice);
      Some((premium, SummarizePremium(premium, calmfPrice, calmfRank)))
    else None
  }

  /** Ranked above the own brand, not cheaper, and not the own brand. */
  predicate IsNonPriceThreat(calmfPrice: Anchor<real>, calmfRank: Anchor<int>, x: Listing) {
    calmfPrice.Known? && calmfRank.Known? &&
    Dashboard2.IsNonPriceCompetitor(calmfPrice.value, calmfRank.value, x) && !IsCalmf(x)
  }

  /** Section 7: the competitors for whom price is not the issue. */
  function NonPriceSection(rows: seq<Listing>, calmfPrice: Anchor<real>, calmfRank: Anchor<int>): (r: Option<seq<Listing>>)
    ensures r.Some? <==> TruthyPrice(calmfPrice) && TruthyRank(calmfRank) && |rows| > 0
    ensures r.Some? ==>
              forall x :: x in r.value <==>
                x in rows && !IsCalmf(x) && RanksAbove(x, calmfRank) &&
                calmfPrice.Known? && x.unitPrice.Some? && x.unitPrice.value >= calmfPrice.value
    ensures r.Some? ==> forall x :: x in r.value ==> IsThreat(x, calmfRank)
  {
    if TruthyPrice(calmfPrice) && TruthyRank(calmfRank) && |rows| > 0 then
      Some(Select(rows, (x: Listing) => IsNonPriceThreat(calmfPrice, calmfRank, x)))
    else None
  }

  /** The non-price competitors of this dashboard are those of the v2
      dashboard without the own brand's rows, and every one of them is shown
      as a threat row in the competition table. */
  lemma NonPriceAgainstV2(rows: seq<Listing>, p: real, r: int)
    requires r != 0
    ensures var v3 := Select(rows, (x: Listing) => IsNonPriceThreat(Known(p), Known(r), x));
            var v2 := Dashboard2.NonPriceCompetitors(rows, Some(p), Some(r));
            |v3| + CountWhere(rows, (x: Listing) => Dashboard2.IsNonPriceCompetitor(p, r, x) && IsCalmf(x)) == |v2| &&
            forall x :: x in v3 ==> x in v2 && IsThreat(x, Known(r))
  {
    CountDisjointUnion(rows,
      (x: Listing) => IsNonPriceThreat(Known(p), Known(r), x),
      (x: Listing) => Dashboard2.IsNonPriceCompetitor(p, r, x) && IsCalmf(x),
      (x: Listing) => Some(p).Some? && Some(r).Some? && Dashboard2.IsNonPriceCompetitor(Some(p).value, Some(r).value, x));
  }

  /** A NaN anchor leaves the non-price section shown but empty. */
  lemma NonPriceNaNAnchor(rows: seq<Listing>, calmfPrice: Anchor<real>, calmfRank: Anchor<int>)
    requires calmfPrice.NaN? || calmfRank.NaN?
    requires TruthyPrice(calmfPrice) && TruthyRank(calmfRank) && |rows| > 0
    ensures NonPriceSection(rows, calmfPrice, calmfRank) == Some([])
  {
  }

  // ---------------------------------------------------------------------------
  // Price-band labels ("P60-80") in the market-gap chart
  // ---------------------------------------------------------------------------

  datatype BandRange = Percentiles(low: int, high: int) | Verbatim(text: string)

  /** Drop every "P", split on "-": two integer parts that are valid
      percentiles give the range. Anything else keeps the label as it is: a
      part count other than two, an `int()` failure, or a percentile outside
      [0, 100], which `quantile` rejects with an error the bare `except`
      catches. */
  function ParseBandLabel(band: string): (r: BandRange)
    ensures r.Verbatim? ==> r == Verbatim(band)
    ensures r.Percentiles? ==> 0 <= r.low <= 100 && 0 <= r.high <= 100
  {
    var parts := Split(RemoveAll(band, "P"), '-');
    if |parts| == 2 then
      match (ParseInt(parts[0]), ParseInt(parts[1]))
      case (Success(lo), Success(hi)) =>
        if 0 <= lo <= 100 && 0 <= hi <= 100 then Percentiles(lo, hi) else Verbatim(band)
      case _ => Verbatim(band)
    else Verbatim(band)
  }

  /** A label `P<lo>-<hi>` reads back as its percentiles when both lie in
      [0, 100]; otherwise `quantile` refuses them and the label is kept. */
  lemma BandLabelRoundTrip(lo: nat, hi: nat)
    ensures var band := "P" + NatToString(lo) + "-" + NatToString(hi);
            ParseBandLabel(band) == if lo <= 100 && hi <= 100 then Percentiles(lo, hi) else Verbatim(band)
  {
    var a, b := NatToString(lo), NatToString(hi);
    var band := "P" + a + "-" + b;
    assert band == "P" + (a + "-" + b);
    BandLabelParts(lo, hi);
    var parts := Split(RemoveAll(band, "P"), '-');
    assert parts == [a, b];
    NatToStringValue(lo);
    NatToStringValue(hi);
    ParseUnsigned(a);
    ParseUnsigned(b);
    assert ParseInt(parts[0]) == Success(lo) && ParseInt(parts[1]) == Success(hi);
  }

  /** Removing the `P` from `P<lo>-<hi>` and splitting on the dash gives the
      two numbers' texts. */
  lemma BandLabelParts(lo: nat, hi: nat)
    ensures var a, b := NatToString(lo), NatToString(hi);
            Split(RemoveAll("P" + (a + "-" + b), "P"), '-') == [a, b]
  {
    var a, b := NatToString(lo), NatToString(hi);
    var t := a + "-" + b;
    NatToStringPlain(lo);
    NatToStringPlain(hi);
    assert RemoveAll("P" + t, "P") == t by {
      assert 'P' !in t;
      ContainsChar(t, 'P');
      RemoveAllLeading("P", t);
    }
    assert Split(t, '-') == [a, b] by {
      SplitAtFirst(a, b, '-');
      SplitNoSep(b, '-');
    }
  }

  /** A label without a dash never splits in two and is kept verbatim. */
  lemma BandLabelWithoutDash(band: string)
    requires '-' !in band
    ensures ParseBandLabel(band) == Verbatim(band)
  {
    CountCharAbsent(RemoveAll(band, "P"), '-');
  }

  /** A parsed label held exactly one dash. */
  lemma BandLabelOneDash(band: string)
    requires ParseBandLabel(band).Percentiles?
    ensures CountChar(RemoveAll(band, "P"), '-') == 1
  {
  }
}
