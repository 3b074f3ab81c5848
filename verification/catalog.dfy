/**
  The product service's request handling (product-service/index.js): the
  `/search` filter and ordering, the `/featured` selection, the product read,
  and the defaults of `POST /products`. The database query is modelled by its
  meaning: a filter over the catalogue followed by an ordering.
*/
module Catalog {
  import opened Wrappers
  import opened Builtins
  import Bearer

  /** The product columns the handlers read or write. */
  datatype Product = Product(
    id: int,
    name: string,
    description: Option<string>,
    price: real,
    category: string,
    brand: string,
    rating: real,
    soldCount: int)

  /** The query string of `/search`; `None` for an absent parameter. */
  datatype SearchQuery = SearchQuery(
    q: Option<string>,
    category: Option<string>,
    minPrice: Option<string>,
    maxPrice: Option<string>,
    sort: Option<string>)

  /** A number the handler computed: a finite value, or NaN. */
  datatype Num = Finite(value: real) | NaN

  datatype PriceBounds = PriceBounds(gte: Option<Num>, lte: Option<Num>)

  /**
    The `where` object: the text of the OR of `contains` over name,
    description and brand, the exact category, and the price bounds.
  */
  datatype Where = Where(text: Option<string>, category: Option<string>, price: Option<PriceBounds>)

  /** The four `orderBy` objects the handler can build. */
  datatype Order = SoldCountDesc | PriceAsc | PriceDesc | RatingDesc

  const FeaturedCount: nat := 12

  /** A truthy query parameter: present and not empty. */
  predicate Present(v: Option<string>) {
    v.Some? && v.value != ""
  }

  /** `price >= bound`, as IEEE 754 compares: false against NaN. */
  predicate AtLeast(price: real, bound: Num) {
    bound.Finite? && price >= bound.value
  }

  /** `price <= bound`, as IEEE 754 compares: false against NaN. */
  predicate AtMost(price: real, bound: Num) {
    bound.Finite? && price <= bound.value
  }

  /** `parseFloat(s)`, given as a parameter that yields `None` for NaN. */
  function ToNum(parsed: Option<real>): Num {
    if parsed.Some? then Finite(parsed.value) else NaN
  }

  /** What a `where` object lets through, as the database evaluates it. */
  predicate Admits(w: Where, p: Product) {
    && (w.text.None?
        || Includes(p.name, w.text.value)
        || (p.description.Some? && Includes(p.description.value, w.text.value))
        || Includes(p.brand, w.text.value))
    && (w.category.None? || p.category == w.category.value)
    && (w.price.None?
        || ((w.price.value.gte.None? || AtLeast(p.price, w.price.value.gte.value))
            && (w.price.value.lte.None? || AtMost(p.price, w.price.value.lte.value))))
  }

  /**
    The search as a shopper reads it: a non-empty `q` must occur in the name,
    the description or the brand; a category other than "all" must match; and
    each price bound given must be a number the price meets. `parseFloat` is
    a parameter that yields `None` where JavaScript's yields NaN.
  */
  predicate Matches(query: SearchQuery, parseFloat: string -> Option<real>, p: Product) {
    && (Present(query.q) ==>
          Includes(p.name, query.q.value)
          || (p.description.Some? && Includes(p.description.value, query.q.value))
          || Includes(p.brand, query.q.value))
    && (Present(query.category) && query.category.value != "all" ==> p.category == query.category.value)
    && (Present(query.minPrice) ==>
          parseFloat(query.minPrice.value).Some? && p.price >= parseFloat(query.minPrice.value).value)
    && (Present(query.maxPrice) ==>
          parseFloat(query.maxPrice.value).Some? && p.price <= parseFloat(query.maxPrice.value).value)
  }

  /** The `where` object `/search` builds. */
  function BuildWhere(query: SearchQuery, parseFloat: string -> Option<real>): (w: Where)
    ensures w.text.Some? <==> Present(query.q)
    ensures w.category.Some? <==> Present(query.category) && query.category.value != "all"
    ensures w.price.Some? <==> Present(query.minPrice) || Present(query.maxPrice)
    ensures w.price.Some? ==>
              && (w.price.value.gte.Some? <==> Present(query.minPrice))
              && (w.price.value.lte.Some? <==> Present(query.maxPrice))
              && (Present(query.minPrice) ==> (w.price.value.gte.value.NaN? <==> parseFloat(query.minPrice.value).None?))
              && (Present(query.maxPrice) ==> (w.price.value.lte.value.NaN? <==> parseFloat(query.maxPrice.value).None?))
    ensures forall p :: Admits(w, p) <==> Matches(query, parseFloat, p)
  {
    var text := if Present(query.q) then query.q else None;
    var category := if Present(query.category) && query.category.value != "all" then query.category else None;
    var price :=
      if Present(query.minPrice) || Present(query.maxPrice) then
        Some(PriceBounds(if Present(query.minPrice) then Some(ToNum(parseFloat(query.minPrice.value))) else None,
                         if Present(query.maxPrice) then Some(ToNum(parseFloat(query.maxPrice.value))) else None))
      else None;
    Where(text, category, price)
  }

  /** The `orderBy` object `/search` builds: three known values, else best sellers first. */
  function BuildOrder(sort: Option<string>): (o: Order)
    ensures o == PriceAsc <==> sort == Some("price-asc")
    ensures o == PriceDesc <==> sort == Some("price-desc")
    ensures o == RatingDesc <==> sort == Some("rating")
    ensures o == SoldCountDesc <==> sort !in {Some("price-asc"), Some("price-desc"), Some("rating")}
  {
    var o := SoldCountDesc;
    var o := if sort == Some("price-asc") then PriceAsc else o;
    var o := if sort == Some("price-desc") then PriceDesc else o;
    if sort == Some("rating") then RatingDesc else o
  }

  /** A key that grows along the order: descending orders negate their column. */
  function Rank(o: Order, p: Product): real {
    match o
    case SoldCountDesc => -(p.soldCount as real)
    case PriceAsc => p.price
    case PriceDesc => -p.price
    case RatingDesc => -p.rating
  }

  predicate SortedBy(xs: seq<Product>, o: Order) {
    forall i, j | 0 <= i < j < |xs| :: Rank(o, xs[i]) <= Rank(o, xs[j])
  }

  /** Insert `x` before the first element it precedes in the order. */
  function Insert(x: Product, xs: seq<Product>, o: Order): (r: seq<Product>)
    ensures multiset(r) == multiset(xs) + multiset{x}
    ensures |r| == |xs| + 1
    ensures forall k | 0 <= k < |r| :: r[k] == x || r[k] in xs
  {
    if |xs| == 0 then [x]
    else if Rank(o, x) <= Rank(o, xs[0]) then [x] + xs
    else
      assert xs == [xs[0]] + xs[1..];
      [xs[0]] + Insert(x, xs[1..], o)
  }

  /** Inserting into a sorted sequence keeps it sorted. */
  lemma {:induction false} InsertSorted(x: Product, xs: seq<Product>, o: Order)
    requires SortedBy(xs, o)
    ensures SortedBy(Insert(x, xs, o), o)
  {
    if |xs| > 0 && Rank(o, x) > Rank(o, xs[0]) {
      var rest := Insert(x, xs[1..], o);
      InsertSorted(x, xs[1..], o);
      forall k | 0 <= k < |rest|
        ensures Rank(o, xs[0]) <= Rank(o, rest[k])
      {
        if rest[k] != x {
          var j :| 0 <= j < |xs[1..]| && xs[1..][j] == rest[k];
          assert xs[j + 1] == rest[k];
        }
      }
      assert Insert(x, xs, o) == [xs[0]] + rest;
      ConsSorted(xs[0], rest, o);
    }
  }

  /** An element no later than every element of a sorted sequence can lead it. */
  lemma ConsSorted(a: Product, rest: seq<Product>, o: Order)
    requires SortedBy(rest, o) && forall k | 0 <= k < |rest| :: Rank(o, a) <= Rank(o, rest[k])
    ensures SortedBy([a] + rest, o)
  {
    var s := [a] + rest;
    forall i, j | 0 <= i < j < |s|
      ensures Rank(o, s[i]) <= Rank(o, s[j])
    {
      assert s[j] == rest[j - 1];
      if i > 0 { assert s[i] == rest[i - 1]; }
    }
  }

  /** The products in the order `o`; ties keep their catalogue order. */
  function SortBy(xs: seq<Product>, o: Order): (r: seq<Product>)
    ensures SortedBy(r, o)
    ensures multiset(r) == multiset(xs)
    ensures |r| == |xs|
  {
    if |xs| == 0 then []
    else
      assert xs == [xs[0]] + xs[1..];
      var rest := SortBy(xs[1..], o);
      InsertSorted(xs[0], rest, o);
      Insert(xs[0], rest, o)
  }

  /** The exact-filter criterion, as a function value. */
  function AdmittedBy(w: Where): Product -> bool {
    (p: Product) => Admits(w, p)
  }

  /** Two sequences with the same multiset hold the same elements. */
  lemma SameElements(a: seq<Product>, b: seq<Product>)
    requires multiset(a) == multiset(b)
    ensures forall k | 0 <= k < |a| :: a[k] in b
    ensures forall k | 0 <= k < |b| :: b[k] in a
  {
    assert forall k | 0 <= k < |a| :: a[k] in multiset(b);
    assert forall k | 0 <= k < |b| :: b[k] in multiset(a);
  }

  /** The catalogue's products the `where` object admits, in catalogue order. */
  function Matching(products: seq<Product>, query: SearchQuery, parseFloat: string -> Option<real>): (found: seq<Product>)
    ensures forall k | 0 <= k < |found| :: found[k] in products && Matches(query, parseFloat, found[k])
    ensures forall k | 0 <= k < |products| && Matches(query, parseFloat, products[k]) :: products[k] in found
    ensures multiset(found) <= multiset(products)
  {
    var w := BuildWhere(query, parseFloat);
    Filter(products, AdmittedBy(w))
  }

  /**
    `GET /search`: exactly the catalogue's products that match the query, in
    the requested order.
  */
  function Search(products: seq<Product>, query: SearchQuery, parseFloat: string -> Option<real>): (r: seq<Product>)
    ensures SortedBy(r, BuildOrder(query.sort))
    ensures forall k | 0 <= k < |r| :: r[k] in products && Matches(query, parseFloat, r[k])
    ensures forall k | 0 <= k < |products| && Matches(query, parseFloat, products[k]) :: products[k] in r
    ensures multiset(r) <= multiset(products)
  {
    var found := Matching(products, query, parseFloat);
    var r := SortBy(found, BuildOrder(query.sort));
    SameElements(r, found);
    r
  }

  /** A price bound that does not parse is NaN; read IEEE-style, no price meets it, so the search finds nothing. */
  lemma UnreadableBoundFindsNothing(products: seq<Product>, query: SearchQuery, parseFloat: string -> Option<real>)
    requires || (Present(query.minPrice) && parseFloat(query.minPrice.value).None?)
             || (Present(query.maxPrice) && parseFloat(query.maxPrice.value).None?)
    ensures Search(products, query, parseFloat) == []
  {
  }

  /** In a sorted sequence, nothing after position `n` ranks before the element at `n - 1`. */
  lemma TailRanksAfter(s: seq<Product>, o: Order, n: nat)
    requires SortedBy(s, o) && 0 < n <= |s|
    ensures forall p | p in multiset(s[n..]) :: Rank(o, s[n - 1]) <= Rank(o, p)
  {
    forall p | p in multiset(s[n..])
      ensures Rank(o, s[n - 1]) <= Rank(o, p)
    {
      var k :| 0 <= k < |s[n..]| && s[n..][k] == p;
      assert s[n + k] == p;
    }
  }

  /** The first `n` of the catalogue sorted by sales are its `n` best sellers, best first. */
  lemma BestSellersFirst(products: seq<Product>, s: seq<Product>, n: nat)
    requires SortedBy(s, SoldCountDesc) && multiset(s) == multiset(products) && n <= |s|
    ensures forall i, j | 0 <= i < j < n :: s[..n][i].soldCount >= s[..n][j].soldCount
    ensures multiset(s[..n]) <= multiset(products)
    ensures 0 < n ==> forall p | p in multiset(products) - multiset(s[..n]) :: p.soldCount <= s[..n][n - 1].soldCount
  {
    var r := s[..n];
    assert s == r + s[n..];
    assert multiset(products) - multiset(r) == multiset(s[n..]);
    assert forall i, j | 0 <= i < j < n :: Rank(SoldCountDesc, r[i]) <= Rank(SoldCountDesc, r[j]);
    if n > 0 {
      TailRanksAfter(s, SoldCountDesc, n);
    }
  }

  /**
    `GET /featured`: the twelve best sellers (fewer when the catalogue is
    smaller), best first; every product left out sold no more than the last
    one shown.
  */
  function Featured(products: seq<Product>): (r: seq<Product>)
    ensures |r| == if |products| < FeaturedCount then |products| else FeaturedCount
    ensures forall i, j | 0 <= i < j < |r| :: r[i].soldCount >= r[j].soldCount
    ensures multiset(r) <= multiset(products)
    ensures forall p | p in multiset(products) - multiset(r) :: p.soldCount <= r[|r| - 1].soldCount
  {
    var s := SortBy(products, SoldCountDesc);
    var n := if |s| < FeaturedCount then |s| else FeaturedCount;
    BestSellersFirst(products, s, n);
    assert n == 0 ==> multiset(products) == multiset{};
    s[..n]
  }

  /** The read route's answer. */
  datatype Lookup = Found(product: Product) | Missing | Failed

  /** The id criterion, as a function value. */
  function HasId(id: int): Product -> bool {
    (p: Product) => p.id == id
  }

  /** `GET /products/:id`: `id` is `parseInt` of the path, `None` when that is NaN (the store rejects it). */
  function GetProduct(products: seq<Product>, id: Option<int>): (r: Lookup)
    ensures id.None? <==> r == Failed
    ensures r == Missing <==> id.Some? && forall k | 0 <= k < |products| :: products[k].id != id.value
    ensures r.Found? ==> r.product in products && r.product.id == id.value
  {
    if id.None? then Failed
    else
      match Find(products, HasId(id.value))
      case None => Missing
      case Some(p) => Found(p)
  }

  // ---------------------------------------------------------------------------
  // POST /products

  /**
    The JSON body of `POST /products`. Prices and stock are JSON numbers
    (`None` when absent or null); lists are `None` when absent.
  */
  datatype ProductBody = ProductBody(
    name: Option<string>,
    description: Option<string>,
    price: Option<real>,
    originalPrice: Option<real>,
    discountPrice: Option<real>,
    category: Option<string>,
    brand: Option<string>,
    stock: Option<real>,
    images: Option<seq<string>>,
    colors: Option<seq<string>>,
    sizes: Option<seq<string>>,
    tags: Option<seq<string>>)

  /** The `data` the handler hands to the store. */
  datatype ProductData = ProductData(
    name: string,
    description: Option<string>,
    price: real,
    originalPrice: Option<real>,
    discountPrice: Option<real>,
    category: string,
    brand: string,
    stock: int,
    images: seq<string>,
    colors: seq<string>,
    sizes: seq<string>,
    tags: seq<string>)

  /** 201 with the data written, or 500. */
  datatype CreateReply = Created(data: ProductData) | CreateFailed

  /** A truthy number: present and not zero. */
  predicate Nonzero(v: Option<real>) {
    v.Some? && v.value != 0.0
  }

  /** The integer part of a number, truncated toward zero. */
  function Truncate(x: real): (n: int)
    ensures 0.0 <= x ==> n as real <= x < n as real + 1.0
    ensures x < 0.0 ==> n as real - 1.0 < x <= n as real
  {
    if x >= 0.0 then x.Floor else -((-x).Floor)
  }

  function Pow10(k: nat): (p: nat)
    ensures p >= 1
  {
    if k == 0 then 1 else 10 * Pow10(k - 1)
  }

  /** The smallest magnitude JavaScript prints without an exponent, 1e-6. */
  const PlainLow: real := 0.000001

  /** The magnitude from which JavaScript prints with an exponent, 1e21. */
  const PlainHigh: real := 1_000_000_000_000_000_000_000.0

  /** The first decimal digit of a positive integer. */
  function LeadingDigit(n: nat): (d: nat)
    requires n >= 1
    ensures 1 <= d <= 9
  {
    if n < 10 then n else LeadingDigit(n / 10)
  }

  /** The place of that digit: one less than the number of digits. */
  function Place(n: nat): nat
    requires n >= 1
  {
    if n < 10 then 0 else Place(n / 10) + 1
  }

  /** The leading digit `d` at place `k` brackets the number: `d * 10^k <= n < (d + 1) * 10^k`. */
  lemma {:induction false} LeadingDigitBrackets(n: nat)
    requires n >= 1
    ensures LeadingDigit(n) * Pow10(Place(n)) <= n < (LeadingDigit(n) + 1) * Pow10(Place(n))
  {
    if n >= 10 {
      LeadingDigitBrackets(n / 10);
      var d, p := LeadingDigit(n / 10), Pow10(Place(n / 10));
      assert LeadingDigit(n) == d && Pow10(Place(n)) == 10 * p;
      BracketTimesTen(n, n / 10, d, p);
    }
  }

  /** A bracket of `n / 10` at scale `p` is a bracket of `n` at scale `10 * p`. */
  lemma BracketTimesTen(n: nat, q: nat, d: nat, p: nat)
    requires 10 * q <= n < 10 * q + 10
    requires d * p <= q < (d + 1) * p
    ensures d * (10 * p) <= n < (d + 1) * (10 * p)
  {
    assert d * (10 * p) == 10 * (d * p);
    assert (d + 1) * (10 * p) == 10 * ((d + 1) * p);
  }

  /** Appending zeros keeps the leading digit. */
  lemma {:induction false} LeadingDigitScaled(m: nat, k: nat)
    requires m >= 1
    ensures m * Pow10(k) >= 1
    ensures LeadingDigit(m * Pow10(k)) == LeadingDigit(m)
  {
    if k > 0 {
      LeadingDigitScaled(m, k - 1);
      var n := m * Pow10(k - 1);
      assert m * Pow10(k) == n * 10;
      assert (n * 10) / 10 == n;
    }
  }

  /** The leading digit of a number below one, and how many places it is shifted: `d <= x * 10^k < d + 1`. */
  function LeadingDigitBelow(x: real): (r: (int, nat))
    requires 0.0 < x < 1.0
    ensures 1 <= r.0 <= 9
    ensures r.0 as real <= x * Pow10(r.1) as real < (r.0 + 1) as real
    decreases (1.0 / x).Floor
  {
    if x * 10.0 >= 1.0 then ((x * 10.0).Floor, 1)
    else
      assert 1.0 / (x * 10.0) == (1.0 / x) / 10.0;
      var (d, k) := LeadingDigitBelow(x * 10.0);
      assert Pow10(k + 1) as real == 10.0 * Pow10(k) as real;
      assert x * Pow10(k + 1) as real == (x * 10.0) * Pow10(k) as real;
      (d, k + 1)
  }

  /**
    `parseInt(x)` for a number x: JavaScript first turns x into a string,
    which has an exponent below 1e-6 and from 1e21 on, and the parse stops at
    the first character that is not a digit. So a number printed plainly
    loses its fraction, and one printed with an exponent keeps only its
    leading digit.
  */
  function NumberParseInt(x: real): (n: int)
    ensures x == 0.0 ==> n == 0
    ensures x > 0.0 ==> n == NumberParseIntPositive(x)
    ensures x < 0.0 ==> n == -NumberParseIntPositive(-x)
    ensures PlainLow <= x < PlainHigh || -PlainHigh < x <= -PlainLow ==> n == Truncate(x)
  {
    if x == 0.0 then 0
    else if x < 0.0 then -NumberParseIntPositive(-x)
    else NumberParseIntPositive(x)
  }

  /** `NumberParseInt` of a positive number. */
  function NumberParseIntPositive(x: real): (n: int)
    requires x > 0.0
    ensures x < PlainLow ==> 1 <= n <= 9 && exists k: nat :: n as real <= x * Pow10(k) as real < (n + 1) as real
    ensures PlainLow <= x < PlainHigh ==> n == x.Floor
    ensures x >= PlainHigh ==> 1 <= n <= 9 && n == LeadingDigit(x.Floor)
  {
    if x < PlainLow then LeadingDigitBelow(x).0
    else if x < PlainHigh then x.Floor
    else LeadingDigit(x.Floor)
  }

  /** `parseInt(5e-7)` is 5, `parseInt(1e21)` is 1 and `parseInt(-2.5e22)` is -2, while `parseInt(12.7)` is 12. */
  lemma NumberParseIntExamples()
    ensures NumberParseInt(0.0000005) == 5
    ensures NumberParseInt(PlainHigh) == 1
    ensures NumberParseInt(-25_000_000_000_000_000_000_000.0) == -2
    ensures NumberParseInt(12.7) == 12
  {
    assert Pow10(7) == 10_000_000;
    LeadingDigitScaled(1, 7);
    LeadingDigitScaled(10_000_000, 7);
    LeadingDigitScaled(100_000_000_000_000, 7);
    LeadingDigitScaled(25, 7);
    LeadingDigitScaled(250_000_000, 7);
    LeadingDigitScaled(2_500_000_000_000_000, 7);
  }

  /** The defaults of the create: falsy category, brand, stock, prices and lists are replaced. */
  function Defaults(body: ProductBody): (d: ProductData)
    requires body.name.Some? && body.price.Some?
    ensures d.name == body.name.value && d.description == body.description && d.price == body.price.value
    ensures d.category == (if body.category.Some? && body.category.value != "" then body.category.value else "Other")
    ensures d.brand == (if body.brand.Some? && body.brand.value != "" then body.brand.value else "")
    ensures d.stock == (if Nonzero(body.stock) then NumberParseInt(body.stock.value) else 100)
    ensures Nonzero(body.stock) && PlainLow <= body.stock.value < PlainHigh ==> d.stock == body.stock.value.Floor
    ensures body.stock.Some? && 0.0 < body.stock.value < PlainLow ==> 1 <= d.stock <= 9
    ensures d.originalPrice == (if Nonzero(body.originalPrice) then body.originalPrice else None)
    ensures d.discountPrice == (if Nonzero(body.discountPrice) then body.discountPrice else None)
    ensures d.images == body.images.GetOr([]) && d.colors == body.colors.GetOr([])
    ensures d.sizes == body.sizes.GetOr([]) && d.tags == body.tags.GetOr([])
  {
    ProductData(
      body.name.value, body.description, body.price.value,
      if Nonzero(body.originalPrice) then body.originalPrice else None,
      if Nonzero(body.discountPrice) then body.discountPrice else None,
      Bearer.OrDefault(body.category, "Other"),
      Bearer.OrDefault(body.brand, ""),
      if Nonzero(body.stock) then NumberParseInt(body.stock.value) else 100,
      body.images.GetOr([]), body.colors.GetOr([]), body.sizes.GetOr([]), body.tags.GetOr([]))
  }

  /**
    `POST /products`. A missing price is NaN and a missing name leaves a
    required column empty; the store is taken to refuse both. The "product-created"
    event is sent only when the broker is up, and whether it is sent does
    not change the reply.
  */
  function CreateProduct(body: ProductBody, brokerUp: bool): (r: (CreateReply, seq<ProductData>))
    ensures r.0 == CreateFailed <==> body.price.None? || body.name.None?
    ensures r.0.Created? ==> r.0.data == Defaults(body)
    ensures r.0.Created? && brokerUp ==> r.1 == [r.0.data]
    ensures !brokerUp || r.0 == CreateFailed ==> r.1 == []
  {
    if body.price.None? || body.name.None? then (CreateFailed, [])
    else
      var data := Defaults(body);
      (Created(data), if brokerUp then [data] else [])
  }

  /** The reply is the same whether the event reaches the broker or not. */
  lemma CreateIgnoresBroker(body: ProductBody)
    ensures CreateProduct(body, true).0 == CreateProduct(body, false).0
    ensures CreateProduct(body, false).1 == []
  {
  }

  /** A stock of zero is falsy, so the product is stocked with 100. */
  lemma ZeroStockBecomesHundred(body: ProductBody)
    requires body.name.Some? && body.price.Some? && body.stock == Some(0.0)
    ensures CreateProduct(body, false).0 == Created(Defaults(body)) && Defaults(body).stock == 100
  {
  }
}
