/** The shopping-search part of the Naver DataLab client
    (naver_api/api_client.py): building product records from a search
    response, clamping the page size, collecting pages until the first empty
    one, and the price statistics over the collected products. The HTTP call
    is a parameter `fetch` from request parameters to either the decoded JSON
    response or the message of the raised request error. */
module NaverApi {
  import opened Wrappers
  import opened PyText

  /** One element of the response's "items" list: JSON keys to string values. */
  type Item = map<string, string>

  /** The decoded response; `items` is `None` when the key is absent. */
  datatype SearchResult = SearchResult(items: Option<seq<Item>>)

  /** One row of the product frame. */
  datatype Product = Product(
    title: string,
    link: string,
    image: string,
    lprice: int,
    hprice: int,
    mallName: string,
    productId: string,
    productType: string,
    brand: string,
    maker: string,
    category1: string,
    category2: string,
    category3: string,
    category4: string)

  /** Why a call raised: the request failed, `int()` rejected a price text,
      or `int()` was given a NaN statistic. */
  datatype ApiError = RequestFailed(message: string) | InvalidInt(text: string) | NaNStatistic

  // ---------------------------------------------------------------------------
  // _parse_products
  // ---------------------------------------------------------------------------

  /** `item.get(key, "")`. */
  function Field(item: Item, key: string): string {
    if key in item then item[key] else ""
  }

  /** A price: a missing key reads as "0", an empty string as 0, anything
      else goes through `int()`. */
  function PriceField(item: Item, key: string): (r: Result<int, ApiError>)
    ensures key !in item ==> r == Success(0)
    ensures key in item && item[key] == "" ==> r == Success(0)
    ensures key in item && item[key] != "" ==>
              (r.Success? <==> ParseInt(item[key]).Success?) &&
              (r.Success? ==> ParseInt(item[key]) == Success(r.value)) &&
              (r.Failure? ==> r.error == InvalidInt(item[key]))
  {
    var text := if key in item then item[key] else "0";
    if text == "" then Success(0)
    else match ParseInt(text)
      case Success(v) => Success(v)
      case Failure(t) => Failure(InvalidInt(t))
  }

  /** The title with the search-term highlighting removed: every "<b>", then
      every "</b>", each in one left-to-right pass. */
  function StripBold(title: string): (r: string)
    ensures |r| <= |title|
    ensures forall c :: c in r ==> c in title
  {
    RemoveAll(RemoveAll(title, "<b>"), "</b>")
  }

  /** One record per item; `lprice` is parsed before `hprice`. */
  function ParseItem(item: Item): Result<Product, ApiError> {
    var title := StripBold(Field(item, "title"));
    match PriceField(item, "lprice")
    case Failure(e) => Failure(e)
    case Success(lprice) =>
      match PriceField(item, "hprice")
      case Failure(e) => Failure(e)
      case Success(hprice) =>
        Success(Product(title, Field(item, "link"), Field(item, "image"), lprice, hprice,
          Field(item, "mallName"), Field(item, "productId"), Field(item, "productType"),
          Field(item, "brand"), Field(item, "maker"), Field(item, "category1"),
          Field(item, "category2"), Field(item, "category3"), Field(item, "category4")))
  }

  /** The records of a list of items under the item parser `parse`: all of
      them, in order, or the error of the first item that cannot be parsed. */
  function ParseEach(items: seq<Item>, parse: Item -> Result<Product, ApiError>): (r: Result<seq<Product>, ApiError>)
    ensures r.Success? <==> forall i :: 0 <= i < |items| ==> parse(items[i]).Success?
    ensures r.Success? ==>
              |r.value| == |items| &&
              forall i :: 0 <= i < |items| ==> parse(items[i]) == Success(r.value[i])
    ensures r.Failure? ==>
              exists i :: 0 <= i < |items| && parse(items[i]) == Failure(r.error) &&
                          forall j :: 0 <= j < i ==> parse(items[j]).Success?
  {
    if |items| == 0 then Success([])
    else
      var n := |items| - 1;
      var init := items[..n];
      assert forall i :: 0 <= i < n ==> init[i] == items[i];
      match ParseEach(init, parse)
      case Failure(e) => Failure(e)
      case Success(products) =>
        var last := parse(items[n]);
        if last.Failure? then
          Failure(last.error)
        else
          Success(products + [last.value])
  }

  /** The records of a response's items. */
  function ParseItems(items: seq<Item>): Result<seq<Product>, ApiError> {
    ParseEach(items, ParseItem)
  }

  /** `result.get("items", [])`. */
  function ItemsOf(result: SearchResult): seq<Item> {
    result.items.GetOr([])
  }

  /** `_parse_products`: the items' records appended one by one. */
  method ParseProducts(result: SearchResult) returns (r: Result<seq<Product>, ApiError>)
    ensures r == ParseItems(ItemsOf(result))
    ensures result.items.None? ==> r == Success([])
  {
    var items := ItemsOf(result);
    var products: seq<Product> := [];
    for i := 0 to |items|
      invariant ParseItems(items[..i]) == Success(products)
    {
      var item := ParseItem(items[i]);
      ParseEachStep(items, i, ParseItem, products);
      if item.Failure? {
        ParseEachPrefixFails(items, i + 1, ParseItem);
        return Failure(item.error);
      }
      products := products + [item.value];
    }
    assert items[..|items|] == items;
    return Success(products);
  }

  /** One more item: its record is appended, or its error ends the parse. */
  lemma ParseEachStep(items: seq<Item>, i: nat, parse: Item -> Result<Product, ApiError>, acc: seq<Product>)
    requires i < |items| && ParseEach(items[..i], parse) == Success(acc)
    ensures parse(items[i]).Failure? ==> ParseEach(items[..i + 1], parse) == Failure(parse(items[i]).error)
    ensures parse(items[i]).Success? ==> ParseEach(items[..i + 1], parse) == Success(acc + [parse(items[i]).value])
  {
    assert items[..i + 1][..i] == items[..i];
  }

  /** A failure in a prefix is the failure of the whole list. */
  lemma {:induction false} ParseEachPrefixFails(items: seq<Item>, n: nat, parse: Item -> Result<Product, ApiError>)
    requires n <= |items| && ParseEach(items[..n], parse).Failure?
    ensures ParseEach(items, parse) == ParseEach(items[..n], parse)
    decreases |items| - n
  {
    if n < |items| {
      assert items[..n + 1][..n] == items[..n];
      ParseEachPrefixFails(items, n + 1, parse);
    } else {
      assert items[..n] == items;
    }
  }

  /** The response item the API would send for a record. */
  function ItemOf(p: Product): Item {
    map["title" := p.title, "link" := p.link, "image" := p.image,
        "lprice" := IntToString(p.lprice), "hprice" := IntToString(p.hprice),
        "mallName" := p.mallName, "productId" := p.productId, "productType" := p.productType,
        "brand" := p.brand, "maker" := p.maker, "category1" := p.category1,
        "category2" := p.category2, "category3" := p.category3, "category4" := p.category4]
  }

  /** A record whose title holds no bold tag survives the trip through its
      response item unchanged. */
  lemma ParseItemRoundTrip(p: Product)
    requires !Contains(p.title, "<b>") && !Contains(p.title, "</b>")
    ensures ParseItem(ItemOf(p)) == Success(p)
  {
    var item := ItemOf(p);
    assert StripBold(Field(item, "title")) == p.title by {
      assert Field(item, "title") == p.title;
      RemoveAllAbsent(p.title, "<b>");
      RemoveAllAbsent(p.title, "</b>");
    }
    assert PriceField(item, "lprice") == Success(p.lprice) by {
      assert item["lprice"] == IntToString(p.lprice);
      ParseIntRoundTrip(p.lprice);
    }
    assert PriceField(item, "hprice") == Success(p.hprice) by {
      assert item["hprice"] == IntToString(p.hprice);
      ParseIntRoundTrip(p.hprice);
    }
    ItemOfTexts(p);
  }

  /** The text fields of a record read back from its response item. */
  lemma ItemOfTexts(p: Product)
    ensures var item := ItemOf(p);
            Field(item, "link") == p.link && Field(item, "image") == p.image &&
            Field(item, "mallName") == p.mallName && Field(item, "productId") == p.productId &&
            Field(item, "productType") == p.productType && Field(item, "brand") == p.brand
    ensures var item := ItemOf(p);
            Field(item, "maker") == p.maker && Field(item, "category1") == p.category1 &&
            Field(item, "category2") == p.category2 && Field(item, "category3") == p.category3 &&
            Field(item, "category4") == p.category4
  {
  }

  /** An item with no keys at all becomes a record of empty texts and zero
      prices; so does one whose prices are empty strings. */
  lemma ParseItemDefaults(item: Item)
    requires forall k :: k in item ==> k in {"lprice", "hprice"} && item[k] == ""
    ensures ParseItem(item) == Success(Product("", "", "", 0, 0, "", "", "", "", "", "", "", "", ""))
  {
    assert !Contains("", "<b>");
    RemoveAllAbsent("", "<b>");
    RemoveAllAbsent("", "</b>");
  }

  /** A non-numeric `lprice` makes the item, and so the whole page, fail with
      that text. */
  lemma ParseItemRejectsPrice(item: Item)
    requires "lprice" in item && item["lprice"] != "" && ParseInt(item["lprice"]).Failure?
    ensures ParseItem(item) == Failure(InvalidInt(item["lprice"]))
    ensures ParseItems([item]) == Failure(InvalidInt(item["lprice"]))
  {
    assert [item][..0] == [];
  }

  /** Tag removal is a single pass per tag: text that only forms a tag once
      an inner tag is removed keeps it. */
  lemma StripBoldSinglePass()
    ensures StripBold("<<b>b>") == "<b>"
  {
    assert "<<b>b>"[..3][1] != "<b>"[1];
    assert "<<b>b>"[1..][..3] == "<b>";
    assert "<<b>b>"[1..][3..] == "b>";
    assert RemoveAll("<<b>b>", "<b>") == "<b>";
  }

  // ---------------------------------------------------------------------------
  // search_products
  // ---------------------------------------------------------------------------

  datatype SearchParams = SearchParams(query: string, display: int, start: int, sort: string)

  /** The request parameters; the API serves at most 100 items per page. */
  function RequestParams(query: string, display: int, start: int, sort: string): (p: SearchParams)
    ensures p.display <= 100 && p.display <= display
    ensures p.display == display || p.display == 100
    ensures p.query == query && p.start == start && p.sort == sort
  {
    SearchParams(query, if display < 100 then display else 100, start, sort)
  }

  /** What one search returns: a request error, a parse error, or the page's
      records. */
  function SearchPage(fetch: SearchParams -> Result<SearchResult, string>,
                      query: string, display: int, start: int, sort: string): Result<seq<Product>, ApiError>
  {
    match fetch(RequestParams(query, display, start, sort))
    case Failure(message) => Failure(RequestFailed(message))
    case Success(result) => ParseItems(ItemsOf(result))
  }

  method SearchProducts(fetch: SearchParams -> Result<SearchResult, string>,
                        query: string, display: int, start: int, sort: string)
    returns (r: Result<seq<Product>, ApiError>)
    ensures r == SearchPage(fetch, query, display, start, sort)
  {
    var response := fetch(RequestParams(query, display, start, sort));
    if response.Failure? {
      return Failure(RequestFailed(response.error));
    }
    r := ParseProducts(response.value);
  }

  // ---------------------------------------------------------------------------
  // search_all_products
  // ---------------------------------------------------------------------------

  const PAGE_SIZE: int := 100
  const MAX_RESULTS_CAP: int := 1000

  /** `min(max_results, 1000)`. */
  function Cap(maxResults: int): (cap: int)
    ensures cap <= MAX_RESULTS_CAP && cap <= maxResults
    ensures cap == maxResults || cap == MAX_RESULTS_CAP
  {
    if maxResults < MAX_RESULTS_CAP then maxResults else MAX_RESULTS_CAP
  }

  /** The result of the search at each page start. */
  function Pages(fetch: SearchParams -> Result<SearchResult, string>, query: string, sort: string)
    : int -> Result<seq<Product>, ApiError>
  {
    (start: int) => SearchPage(fetch, query, PAGE_SIZE, start, sort)
  }

  /** The pages from `start` on, in steps of 100 while below `cap`, up to the
      first empty page; the first error ends the search. */
  function Collect(page: int -> Result<seq<Product>, ApiError>, start: int, cap: int): Result<seq<Product>, ApiError>
    decreases cap - start
  {
    if start >= cap then Success([])
    else
      match page(start)
      case Failure(e) => Failure(e)
      case Success(products) =>
        if |products| == 0 then Success([])
        else Then(products, Collect(page, start + PAGE_SIZE, cap))
  }

  /** `acc` followed by the records of `r`, or the error of `r`. */
  function Then(acc: seq<Product>, r: Result<seq<Product>, ApiError>): Result<seq<Product>, ApiError> {
    match r
    case Failure(e) => Failure(e)
    case Success(rest) => Success(acc + rest)
  }

  /** How many page starts `range(1, cap, 100)` yields. */
  function PageCount(cap: int): nat
    decreases cap
  {
    if cap <= 1 then 0 else 1 + PageCount(cap - PAGE_SIZE)
  }

  /** The `k`-th page start lies below `cap` exactly when `k` is below the
      page count; with the cap of 1000 there are at most 10 pages. */
  lemma {:induction false} PageCountSpec(cap: int, k: nat)
    ensures 1 + PAGE_SIZE * k < cap <==> k < PageCount(cap)
    ensures cap <= MAX_RESULTS_CAP ==> PageCount(cap) <= 10
    decreases cap
  {
    if cap > 1 {
      if k > 0 {
        PageCountSpec(cap - PAGE_SIZE, k - 1);
      }
      PageCountSpec(cap - PAGE_SIZE, 9);
    }
  }

  /** `search_all_products`: the records of every page in order. `starts`
      are the page starts actually requested: 1, 101, 201, ... below the cap,
      cut short only by an empty page or an error. Each page is the result of
      `search_products` with 100 rows per page (see `SearchProducts`). */
  method SearchAllProducts(fetch: SearchParams -> Result<SearchResult, string>,
                           query: string, maxResults: int, sort: string)
    returns (r: Result<seq<Product>, ApiError>, starts: seq<int>)
    ensures r == Collect(Pages(fetch, query, sort), 1, Cap(maxResults))
    ensures forall i :: 0 <= i < |starts| ==> starts[i] == 1 + PAGE_SIZE * i && starts[i] < Cap(maxResults)
    ensures |starts| <= PageCount(Cap(maxResults))
    ensures Cap(maxResults) <= 1 ==> starts == [] && r == Success([])
    ensures Cap(maxResults) > 1 ==> |starts| > 0
    ensures r.Failure? ==> Pages(fetch, query, sort)(starts[|starts| - 1]).Failure?
    ensures r.Success? && |starts| < PageCount(Cap(maxResults)) ==>
              Pages(fetch, query, sort)(starts[|starts| - 1]) == Success([])
    ensures forall i :: 0 <= i < |starts| - 1 ==>
              Pages(fetch, query, sort)(starts[i]).Success? && |Pages(fetch, query, sort)(starts[i]).value| > 0
  {
    r, starts := PageLoop(Pages(fetch, query, sort), Cap(maxResults));
  }

  /** The loop of `search_all_products` over the pages `page`, for any page
      source: request 1, 101, 201, ... while below `cap`, stop at the first
      error or empty page. */
  method PageLoop(page: int -> Result<seq<Product>, ApiError>, cap: int)
    returns (r: Result<seq<Product>, ApiError>, starts: seq<int>)
    ensures r == Collect(page, 1, cap)
    ensures forall i :: 0 <= i < |starts| ==> starts[i] == 1 + PAGE_SIZE * i && starts[i] < cap
    ensures |starts| <= PageCount(cap)
    ensures cap <= 1 ==> starts == [] && r == Success([])
    ensures cap > 1 ==> |starts| > 0
    ensures r.Failure? ==> page(starts[|starts| - 1]).Failure?
    ensures r.Success? && |starts| < PageCount(cap) ==> page(starts[|starts| - 1]) == Success([])
    ensures forall i :: 0 <= i < |starts| - 1 ==> page(starts[i]).Success? && |page(starts[i]).value| > 0
  {
    var products: seq<Product> := [];
    starts := [];
    var start := 1;
    ThenEmpty(Collect(page, 1, cap));
    while start < cap
      invariant start == 1 + PAGE_SIZE * |starts|
      invariant forall i :: 0 <= i < |starts| ==> starts[i] == 1 + PAGE_SIZE * i && starts[i] < cap
      invariant |starts| <= PageCount(cap)
      invariant forall i :: 0 <= i < |starts| ==> page(starts[i]).Success? && |page(starts[i]).value| > 0
      invariant Collect(page, 1, cap) == Then(products, Collect(page, start, cap))
      decreases cap - start
    {
      PageCountSpec(cap, |starts|);
      starts := starts + [start];
      var result := page(start);
      CollectStep(page, start, cap, products);
      if result.Failure? {
        return Failure(result.error), starts;
      }
      if |result.value| == 0 {
        return Success(products), starts;
      }
      products := products + result.value;
      start := start + PAGE_SIZE;
    }
    PageCountSpec(cap, |starts|);
    assert products + [] == products;
    r := Success(products);
  }

  /** One step of the page loop, seen from the records gathered so far. */
  lemma CollectStep(page: int -> Result<seq<Product>, ApiError>, start: int, cap: int, acc: seq<Product>)
    requires start < cap
    ensures page(start).Failure? ==> Then(acc, Collect(page, start, cap)) == Failure(page(start).error)
    ensures page(start).Success? && |page(start).value| == 0 ==>
              Then(acc, Collect(page, start, cap)) == Success(acc)
    ensures page(start).Success? && |page(start).value| > 0 ==>
              Then(acc, Collect(page, start, cap)) == Then(acc + page(start).value, Collect(page, start + PAGE_SIZE, cap))
  {
    if page(start).Success? {
      assert acc + [] == acc;
      ThenAssociative(acc, page(start).value, Collect(page, start + PAGE_SIZE, cap));
    }
  }

  lemma ThenEmpty(r: Result<seq<Product>, ApiError>)
    ensures Then([], r) == r
  {
    if r.Success? {
      assert [] + r.value == r.value;
    }
  }

  lemma ThenAssociative(a: seq<Product>, b: seq<Product>, r: Result<seq<Product>, ApiError>)
    ensures Then(a, Then(b, r)) == Then(a + b, r)
  {
    if r.Success? {
      assert a + (b + r.value) == (a + b) + r.value;
    }
  }

  /** When no page holds more than 100 records, the pages from the `k`-th
      start on hold at most 100 records per remaining page start. */
  lemma {:induction false} CollectBound(page: int -> Result<seq<Product>, ApiError>, k: nat, cap: int)
    requires k <= PageCount(cap)
    requires forall start :: page(start).Success? ==> |page(start).value| <= PAGE_SIZE
    ensures var r := Collect(page, 1 + PAGE_SIZE * k, cap);
            r.Success? ==> |r.value| <= PAGE_SIZE * (PageCount(cap) - k)
    decreases PageCount(cap) - k
  {
    var start := 1 + PAGE_SIZE * k;
    PageCountSpec(cap, k);
    if start < cap && page(start).Success? && |page(start).value| > 0 {
      assert start + PAGE_SIZE == 1 + PAGE_SIZE * (k + 1);
      CollectBound(page, k + 1, cap);
    }
  }

  /** A response that honours the requested page size gives a page of at most
      100 records. */
  lemma PagesHonourSize(fetch: SearchParams -> Result<SearchResult, string>, query: string, sort: string)
    requires forall p :: fetch(p).Success? ==> |ItemsOf(fetch(p).value)| <= p.display
    ensures forall start :: Pages(fetch, query, sort)(start).Success? ==>
              |Pages(fetch, query, sort)(start).value| <= PAGE_SIZE
  {
    forall start | Pages(fetch, query, sort)(start).Success?
      ensures |Pages(fetch, query, sort)(start).value| <= PAGE_SIZE
    {
      var params := RequestParams(query, PAGE_SIZE, start, sort);
      assert fetch(params).Success?;
    }
  }

  /** When every response honours the requested size, a search returns at
      most 100 records per page start below the cap, hence never more than
      1000; this may exceed `max_results` (up to the next multiple of 100 at
      or above `max_results - 1`). */
  lemma SearchAllBound(fetch: SearchParams -> Result<SearchResult, string>, query: string, maxResults: int, sort: string)
    requires forall p :: fetch(p).Success? ==> |ItemsOf(fetch(p).value)| <= p.display
    ensures var r := Collect(Pages(fetch, query, sort), 1, Cap(maxResults));
            r.Success? ==> |r.value| <= PAGE_SIZE * PageCount(Cap(maxResults)) <= MAX_RESULTS_CAP
  {
    PagesHonourSize(fetch, query, sort);
    CollectBound(Pages(fetch, query, sort), 0, Cap(maxResults));
    PageCountSpec(Cap(maxResults), 0);
  }

  // ---------------------------------------------------------------------------
  // get_price_stats
  // ---------------------------------------------------------------------------

  datatype PriceStats = PriceStats(query: string, totalProducts: nat, minPrice: int, maxPrice: int, avgPrice: int)

  /** The lowest prices that are positive, in frame order. */
  function PositivePrices(products: seq<Product>): (prices: seq<int>)
    ensures |prices| <= |products|
    ensures forall x :: x in prices <==> x > 0 && exists p :: p in products && p.lprice == x
    ensures |prices| == 0 <==> forall p :: p in products ==> p.lprice <= 0
  {
    if |products| == 0 then []
    else
      var rest := PositivePrices(products[1..]);
      assert forall p :: p in products <==> p == products[0] || p in products[1..];
      if products[0].lprice > 0 then [products[0].lprice] + rest else rest
  }

  /** The positive prices of two frames one after the other are those of the
      first followed by those of the second: order and repeats are kept. */
  lemma {:induction false} PositivePricesConcat(a: seq<Product>, b: seq<Product>)
    ensures PositivePrices(a + b) == PositivePrices(a) + PositivePrices(b)
  {
    if |a| == 0 {
      assert a + b == b;
    } else {
      var ab := a + b;
      assert ab[0] == a[0] && ab[1..] == a[1..] + b;
      PositivePricesConcat(a[1..], b);
    }
  }

  /** One product contributes its price exactly when that price is positive. */
  lemma PositivePricesOne(p: Product)
    ensures PositivePrices([p]) == if p.lprice > 0 then [p.lprice] else []
  {
    assert [p][1..] == [];
  }

  function Sum(s: seq<int>): int {
    if |s| == 0 then 0 else s[0] + Sum(s[1..])
  }

  /** The least and the greatest lowest price, `(min(), max())`, found in
      one pass. */
  function PriceBounds(s: seq<int>): (b: (int, int))
    requires |s| > 0
    ensures b.0 in s && b.1 in s
    ensures forall x :: x in s ==> b.0 <= x <= b.1
  {
    if |s| == 1 then (s[0], s[0])
    else
      var rest := PriceBounds(s[1..]);
      assert forall x :: x in s ==> x == s[0] || x in s[1..];
      (if s[0] < rest.0 then s[0] else rest.0, if s[0] > rest.1 then s[0] else rest.1)
  }

  /** A sum lies between the length times any lower and any upper bound. */
  lemma {:induction false} SumBetween(s: seq<int>, lo: int, hi: int)
    requires forall i :: 0 <= i < |s| ==> lo <= s[i] <= hi
    ensures |s| * lo <= Sum(s) <= |s| * hi
  {
    if |s| > 0 {
      var rest := s[1..];
      assert forall i :: 0 <= i < |rest| ==> rest[i] == s[i + 1];
      SumBetween(rest, lo, hi);
      var n := |rest|;
      assert Sum(s) == s[0] + Sum(rest);
      assert (n + 1) * lo == n * lo + lo;
      assert (n + 1) * hi == n * hi + hi;
    }
  }

  /** The integer part of the mean lies between the least and the greatest
      element. */
  lemma MeanBetween(s: seq<int>)
    requires |s| > 0
    ensures PriceBounds(s).0 <= Sum(s) / |s| <= PriceBounds(s).1
  {
    var (lo, hi) := PriceBounds(s);
    assert forall i :: 0 <= i < |s| ==> s[i] in s;
    SumBetween(s, lo, hi);
    DivBetween(Sum(s), |s|, lo, hi);
  }

  /** `avg` is the floor of the exact mean of `s`: the largest integer whose
      `|s|` copies sum to no more than `s` does. */
  predicate IsFloorMean(avg: int, s: seq<int>) {
    |s| * avg <= Sum(s) < |s| * (avg + 1)
  }

  /** `int(mean())` of positive prices: the floor of the exact mean, between
      the least and the greatest price. */
  function MeanFloor(s: seq<int>): (avg: int)
    requires |s| > 0
    ensures IsFloorMean(avg, s)
    ensures PriceBounds(s).0 <= avg <= PriceBounds(s).1
  {
    MeanBetween(s);
    FloorMean(s);
    Sum(s) / |s|
  }

  /** `total / n` is the floor of the exact quotient. */
  lemma FloorMean(s: seq<int>)
    requires |s| > 0
    ensures IsFloorMean(Sum(s) / |s|, s)
  {
    var total, n := Sum(s), |s|;
    var q := total / n;
    assert total == n * q + total % n;
    assert n * (q + 1) == n * q + n;
  }

  lemma DivBetween(total: int, n: int, lo: int, hi: int)
    requires n > 0 && n * lo <= total <= n * hi
    ensures lo <= total / n <= hi
  {
    var q := total / n;
    assert total == n * q + total % n;
    assert n * lo < n * (q + 1) by {
      assert n * (q + 1) == n * q + n;
    }
    assert n * q < n * (hi + 1) by {
      assert n * (hi + 1) == n * hi + n;
    }
    MulLess(n, lo, q + 1);
    MulLess(n, q, hi + 1);
  }

  lemma MulLess(n: int, a: int, b: int)
    requires n > 0 && n * a < n * b
    ensures a < b
  {
    if a >= b {
      MulMono(n, b, a);
    }
  }

  lemma MulMono(n: int, a: int, b: int)
    requires n >= 0 && a <= b
    ensures n * a <= n * b
  {
    assert n * b - n * a == n * (b - a);
  }

  /** The statistics of the products with a positive lowest price;
      `Success(None)` stands for the empty dictionary. The average is the
      integer part of the mean. With exactly one such product the sample
      standard deviation (`std()`, one degree of freedom) is NaN, and `int()`
      of it raises. */
  function PriceStatsOf(query: string, products: seq<Product>): (r: Result<Option<PriceStats>, ApiError>)
    ensures r == Success(None) <==> forall p :: p in products ==> p.lprice <= 0
    ensures r.Failure? <==> |PositivePrices(products)| == 1
    ensures r.Failure? ==> r.error == NaNStatistic
    ensures r.Success? && r.value.Some? ==>
              var s, prices := r.value.value, PositivePrices(products);
              s.query == query &&
              s.totalProducts == |prices| >= 2 &&
              0 < s.minPrice <= s.avgPrice <= s.maxPrice &&
              IsFloorMean(s.avgPrice, prices) &&
              s.minPrice in prices && s.maxPrice in prices &&
              forall x :: x in prices ==> s.minPrice <= x <= s.maxPrice
  {
    var prices := PositivePrices(products);
    if |prices| == 0 then Success(None)
    else if |prices| == 1 then Failure(NaNStatistic)
    else
      var (lo, hi) := PriceBounds(prices);
      assert lo > 0;
      Success(Some(PriceStats(query, |prices|, lo, hi, MeanFloor(prices))))
  }

  /** `get_price_stats`: the statistics of a full search, or the error the
      search or the statistics raised. */
  method GetPriceStats(fetch: SearchParams -> Result<SearchResult, string>, query: string, maxResults: int)
    returns (r: Result<Option<PriceStats>, ApiError>)
    ensures var all := Collect(Pages(fetch, query, "sim"), 1, Cap(maxResults));
            (all.Failure? ==> r == Failure(all.error)) &&
            (all.Success? ==> r == PriceStatsOf(query, all.value))
    ensures var all := Collect(Pages(fetch, query, "sim"), 1, Cap(maxResults));
            r.Failure? <==> all.Failure? || |PositivePrices(all.value)| == 1
  {
    var all, _ := SearchAllProducts(fetch, query, maxResults, "sim");
    if all.Failure? {
      return Failure(all.error);
    }
    return PriceStatsOf(query, all.value);
  }
}
