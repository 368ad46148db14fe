/** The cleaned listing rows both dashboards read (one row per product in a
    weekly search snapshot), own-brand detection, boolean-mask selection and
    the ordering that `sort_values` produces. A NaN or missing cell is `None`;
    as in pandas, every comparison with a missing value is false. */
module Listings {
  import opened Wrappers
  import opened PyText

  datatype Listing = Listing(
    brand: Option<string>,
    productName: Option<string>,
    unitPrice: Option<real>,   // price per sheet
    pageRank: Option<int>,     // search position, 1 is the top
    segment: Option<string>,   // Mass / Premium / Luxury
    priceBand: Option<string>) // P0-20 ... P80-100

  // ---------------------------------------------------------------------------
  // Own-brand ("캄프" / Calmf) detection
  // ---------------------------------------------------------------------------

  /** `str(row.get(key, ""))`: a missing (NaN) cell prints as "nan". */
  function Text(cell: Option<string>): string {
    cell.GetOr("nan")
  }

  /** The lower-cased text names the own brand, in Korean or in Latin letters. */
  predicate NamesOwnBrand(s: string) {
    Contains(Lower(s), "캄프") || Contains(Lower(s), "calmf")
  }

  /** A row is the own brand's when its brand or its product name names it. */
  predicate IsCalmf(row: Listing) {
    NamesOwnBrand(Text(row.brand)) || NamesOwnBrand(Text(row.productName))
  }

  /** Detection ignores letter case, and no surrounding text can undo it. */
  lemma NamesOwnBrandRobust(x: string, s: string, y: string)
    ensures NamesOwnBrand(Lower(s)) <==> NamesOwnBrand(s)
    ensures NamesOwnBrand(s) ==> NamesOwnBrand(x + s + y)
  {
    LowerLaws(s, "");
    LowerLaws(x, s);
    LowerLaws(x + s, y);
    if NamesOwnBrand(s) {
      assert Lower(x + s + y) == Lower(x) + Lower(s) + Lower(y);
      if Contains(Lower(s), "캄프") {
        ContainsExtend(Lower(x), Lower(s), Lower(y), "캄프");
      } else {
        ContainsExtend(Lower(x), Lower(s), Lower(y), "calmf");
      }
    }
  }

  /** An upper-case brand such as "CALMF" is recognised. */
  lemma UpperCaseBrandIsOwn(row: Listing)
    requires row.brand == Some("CALMF")
    ensures IsCalmf(row)
  {
    assert Lower("CALMF") == "calmf";
    assert OccursAt(Lower("CALMF"), "calmf", 0);
  }

  /** A row with neither a brand nor a product name ("nan" twice) is never
      the own brand's. */
  lemma EmptyRowIsNotOwn(row: Listing)
    requires row.brand.None? && row.productName.None?
    ensures !IsCalmf(row)
  {
    assert Lower("nan") == "nan";
    assert "nan"[0..2] == "na" && "nan"[1..3] == "an";
  }

  // ---------------------------------------------------------------------------
  // Boolean-mask selection `df[mask]`
  // ---------------------------------------------------------------------------

  /** The rows that satisfy `keep`, in their original order (see
      `SelectConcat`), each as often as it occurs in the frame (see
      `SelectMultiplicity`). */
  function Select(rows: seq<Listing>, keep: Listing -> bool): (r: seq<Listing>)
    ensures |r| <= |rows|
    ensures forall x :: x in r <==> x in rows && keep(x)
    ensures multiset(r) <= multiset(rows)
    ensures (forall i :: 0 <= i < |rows| ==> !keep(rows[i])) ==> r == []
    ensures (forall i :: 0 <= i < |rows| ==> keep(rows[i])) ==> r == rows
  {
    if |rows| == 0 then []
    else
      var rest := Select(rows[1..], keep);
      assert rows == [rows[0]] + rows[1..];
      if keep(rows[0]) then [rows[0]] + rest else rest
  }

  /** Selection works piece by piece: the kept rows of a frame's first part
      come before those of its second part. With `SelectOne` this fixes the
      order of the result. */
  lemma {:induction false} SelectConcat(a: seq<Listing>, b: seq<Listing>, keep: Listing -> bool)
    ensures Select(a + b, keep) == Select(a, keep) + Select(b, keep)
  {
    if |a| == 0 {
      assert a + b == b;
    } else {
      var ab := a + b;
      assert ab[0] == a[0] && ab[1..] == a[1..] + b;
      SelectConcat(a[1..], b, keep);
    }
  }

  /** A single row is kept or dropped. */
  lemma SelectOne(x: Listing, keep: Listing -> bool)
    ensures Select([x], keep) == if keep(x) then [x] else []
  {
    assert [x][1..] == [];
  }

  /** A kept row occurs in the selection as often as in the frame; any other
      row does not occur. */
  lemma {:induction false} SelectMultiplicity(rows: seq<Listing>, keep: Listing -> bool, x: Listing)
    ensures multiset(Select(rows, keep))[x] == if keep(x) then multiset(rows)[x] else 0
  {
    if |rows| > 0 {
      assert rows == [rows[0]] + rows[1..];
      SelectMultiplicity(rows[1..], keep, x);
    }
  }

  /** `len(df[mask])`. */
  function CountWhere(rows: seq<Listing>, keep: Listing -> bool): nat {
    |Select(rows, keep)|
  }

  /** A mask that holds for no row counts nothing. */
  lemma NoneSelected(rows: seq<Listing>, keep: Listing -> bool)
    requires forall x :: !keep(x)
    ensures CountWhere(rows, keep) == 0
  {
  }

  /** Two masks that never hold together split the rows of their union. */
  lemma {:induction false} CountDisjointUnion(rows: seq<Listing>, a: Listing -> bool, b: Listing -> bool, ab: Listing -> bool)
    requires forall x :: !(a(x) && b(x))
    requires forall x :: ab(x) <==> a(x) || b(x)
    ensures CountWhere(rows, a) + CountWhere(rows, b) == CountWhere(rows, ab)
  {
    if |rows| > 0 {
      CountDisjointUnion(rows[1..], a, b, ab);
    }
  }

  /** A mask implied by another selects at most as many rows. */
  lemma {:induction false} CountMonotone(rows: seq<Listing>, a: Listing -> bool, b: Listing -> bool)
    requires forall x :: a(x) ==> b(x)
    ensures CountWhere(rows, a) <= CountWhere(rows, b)
  {
    if |rows| > 0 {
      CountMonotone(rows[1..], a, b);
    }
  }

  /** The unit price is known and lies in `[lo, hi]`
      (`(df["unit_price"] >= lo) & (df["unit_price"] <= hi)`). */
  predicate PriceWithin(x: Listing, lo: real, hi: real) {
    x.unitPrice.Some? && lo <= x.unitPrice.value <= hi
  }

  /** The ±20% band around the own brand's unit price `p`. */
  predicate InBand20(p: real, x: Listing) {
    PriceWithin(x, p * 0.8, p * 1.2)
  }

  // ---------------------------------------------------------------------------
  // `sort_values(key)` followed by `head(n)`
  // ---------------------------------------------------------------------------

  /** Ascending order on an optional key; missing keys sort last (pandas'
      `na_position="last"`). */
  predicate KeyLe(a: Option<real>, b: Option<real>) {
    b.None? || (a.Some? && a.value <= b.value)
  }

  function RankKey(x: Listing): Option<real> {
    if x.pageRank.Some? then Some(x.pageRank.value as real) else None
  }

  function PriceKey(x: Listing): Option<real> {
    x.unitPrice
  }

  predicate SortedBy(s: seq<Listing>, key: Listing -> Option<real>) {
    forall i, j :: 0 <= i < j < |s| ==> KeyLe(key(s[i]), key(s[j]))
  }

  /** `sorted` is one possible result of `df.sort_values(key)`: the same rows,
      in ascending key order, ties in any order. */
  predicate IsSortOf(sorted: seq<Listing>, df: seq<Listing>, key: Listing -> Option<real>) {
    multiset(sorted) == multiset(df) && SortedBy(sorted, key)
  }

  /** `head(n)` of a sorted frame: at most `n` rows, in order, and no row left
      out sorts before a row that is shown. */
  function Head(sorted: seq<Listing>, n: nat, ghost df: seq<Listing>, ghost key: Listing -> Option<real>): (shown: seq<Listing>)
    requires IsSortOf(sorted, df, key)
    ensures |shown| == if |df| < n then |df| else n
    ensures |shown| <= |sorted| && shown == sorted[..|shown|]
    ensures SortedBy(shown, key)
    ensures multiset(shown) <= multiset(df)
    ensures forall i, j :: 0 <= i < |shown| <= j < |sorted| ==> KeyLe(key(shown[i]), key(sorted[j]))
  {
    assert |sorted| == |multiset(sorted)| == |df|;
    var shown := if |sorted| < n then sorted else sorted[..n];
    assert sorted == shown + sorted[|shown|..];
    shown
  }

  // ---------------------------------------------------------------------------
  // Shared arithmetic
  // ---------------------------------------------------------------------------

  /** A guarded percentage: `part / total * 100 if total > 0 else 0`. */
  function Pct(part: nat, total: int): (r: real)
    ensures total <= 0 || part == 0 ==> r == 0.0
    ensures part <= total ==> 0.0 <= r <= 100.0
    ensures total > 0 && part == total ==> r == 100.0
  {
    if total > 0 then part as real / total as real * 100.0 else 0.0
  }

  /** Python's `int(x)` on a float: truncation toward zero. */
  function Trunc(x: real): (r: int)
    ensures x >= 0.0 ==> r as real <= x < r as real + 1.0
    ensures x < 0.0 ==> r as real - 1.0 < x <= r as real
  {
    if x >= 0.0 then x.Floor else -((-x).Floor)
  }

  lemma TruncMonotone(x: real, y: real)
    requires x <= y
    ensures Trunc(x) <= Trunc(y)
  {
  }

  /** Smallest and largest value of a non-empty sequence. */
  function MinOf(s: seq<real>): (m: real)
    requires |s| > 0
    ensures m in s && forall x :: x in s ==> m <= x
  {
    if |s| == 1 then s[0]
    else
      var rest := MinOf(s[1..]);
      assert forall x :: x in s ==> x == s[0] || x in s[1..];
      if s[0] <= rest then s[0] else rest
  }

  function MaxOf(s: seq<real>): (m: real)
    requires |s| > 0
    ensures m in s && forall x :: x in s ==> x <= m
  {
    if |s| == 1 then s[0]
    else
      var rest := MaxOf(s[1..]);
      assert forall x :: x in s ==> x == s[0] || x in s[1..];
      if s[0] >= rest then s[0] else rest
  }
}
