/**
 * The product catalogue queries of src/lib/data.ts: getProducts assembles a
 * list of WHERE conditions from an optional-field filter record, an ORDER BY
 * choice from a sort key, and LIMIT/OFFSET from the page; getProductBySlug
 * looks one product up and attaches its images and variants.
 *
 * Conditions and orderings are datatypes rather than SQL text, and the
 * database is an in-memory snapshot of three tables with an abstract query
 * semantics: a row is selected iff it satisfies every condition, ORDER BY
 * returns a sorted permutation, LIMIT/OFFSET cut out a window.
 */
module Catalog {
  import opened Wrappers
  import opened Sequences
  import Utils

  // ---------------------------------------------------------------------
  // Rows and parameters (src/lib/definitions.ts)
  // ---------------------------------------------------------------------

  /** The columns of a product row that the queries read. `createdAt` is the timestamp as a number. */
  datatype Product = Product(
    id: string,
    artisanId: string,
    categoryId: string,
    name: string,
    slug: string,
    price: real,
    isActive: bool,
    isFeatured: bool,
    createdAt: int)

  datatype ProductImage = ProductImage(id: string, productId: string, url: string, altText: string, sortOrder: int)

  datatype ProductVariant = ProductVariant(id: string, productId: string, name: string)

  /** `{ ...products[0], images, variants }` */
  datatype ProductDetail = ProductDetail(product: Product, images: seq<ProductImage>, variants: seq<ProductVariant>)

  /** The three tables the queries read. */
  datatype Database = Database(products: seq<Product>, images: seq<ProductImage>, variants: seq<ProductVariant>)

  /** Every field optional; getProducts reads only the first four and `isFeatured`. */
  datatype ProductFilters = ProductFilters(
    categoryId: Option<string>,
    artisanId: Option<string>,
    minPrice: Option<real>,
    maxPrice: Option<real>,
    materials: Option<seq<string>>,
    colors: Option<seq<string>>,
    sizes: Option<seq<string>>,
    tags: Option<seq<string>>,
    isFeatured: Option<bool>,
    ratingMin: Option<real>)

  datatype ProductSort = Newest | Oldest | PriceLow | PriceHigh | Rating | Popularity

  datatype PaginationMeta = PaginationMeta(currentPage: int, perPage: int, totalCount: nat, totalPages: nat)

  datatype PaginatedResult = PaginatedResult(data: seq<Product>, meta: PaginationMeta)

  /** A call either returns its value or throws an Error carrying `message`. */
  datatype Fetch<T> = Fetched(value: T) | Failed(message: string)

  const FetchProductsError := "Failed to fetch products."

  // ---------------------------------------------------------------------
  // Filter semantics
  // ---------------------------------------------------------------------

  /** An element of `whereConditions`. */
  datatype Condition =
    | ActiveOnly                 // p.is_active = true
    | CategoryIs(categoryId: string)
    | ArtisanIs(artisanId: string)
    | PriceAtLeast(minPrice: real)
    | PriceAtMost(maxPrice: real)
    | FeaturedIs(featured: bool)

  predicate Holds(p: Product, c: Condition) {
    match c
    case ActiveOnly => p.isActive
    case CategoryIs(id) => p.categoryId == id
    case ArtisanIs(id) => p.artisanId == id
    case PriceAtLeast(m) => p.price >= m
    case PriceAtMost(m) => p.price <= m
    case FeaturedIs(b) => p.isFeatured == b
  }

  /** `WHERE c1 AND c2 AND ...` */
  predicate SatisfiesAll(p: Product, conds: seq<Condition>) {
    forall i | 0 <= i < |conds| :: Holds(p, conds[i])
  }

  /** A string filter is applied when it is truthy: present and non-empty. */
  predicate Supplied(s: Option<string>) {
    s.Some? && s.value != ""
  }

  /**
   * What a filter record asks of a product, field by field: an id filter
   * when it is truthy, a price or featured filter whenever it is defined
   * (so 0 and false still filter).
   */
  predicate MatchesFilters(p: Product, f: ProductFilters) {
    && (Supplied(f.categoryId) ==> p.categoryId == f.categoryId.value)
    && (Supplied(f.artisanId) ==> p.artisanId == f.artisanId.value)
    && (f.minPrice.Some? ==> p.price >= f.minPrice.value)
    && (f.maxPrice.Some? ==> p.price <= f.maxPrice.value)
    && (f.isFeatured.Some? ==> p.isFeatured == f.isFeatured.value)
  }

  /** A product the listing may show: active and matching the filters. */
  predicate Listed(p: Product, f: ProductFilters) {
    p.isActive && MatchesFilters(p, f)
  }

  function Count(b: bool): nat {
    if b then 1 else 0
  }

  /** How many of the five read filter fields are applied. */
  function SuppliedCount(f: ProductFilters): nat {
    Count(Supplied(f.categoryId)) + Count(Supplied(f.artisanId)) + Count(f.minPrice.Some?)
      + Count(f.maxPrice.Some?) + Count(f.isFeatured.Some?)
  }

  /** The position of each kind of condition in the fixed push order. */
  function Rank(c: Condition): nat {
    match c
    case ActiveOnly => 0
    case CategoryIs(_) => 1
    case ArtisanIs(_) => 2
    case PriceAtLeast(_) => 3
    case PriceAtMost(_) => 4
    case FeaturedIs(_) => 5
  }

  /** The condition a supplied filter field contributes. */
  predicate Contributes(f: ProductFilters, c: Condition) {
    match c
    case ActiveOnly => false
    case CategoryIs(id) => Supplied(f.categoryId) && f.categoryId.value == id
    case ArtisanIs(id) => Supplied(f.artisanId) && f.artisanId.value == id
    case PriceAtLeast(m) => f.minPrice == Some(m)
    case PriceAtMost(m) => f.maxPrice == Some(m)
    case FeaturedIs(b) => f.isFeatured == Some(b)
  }

  /** The condition that filter field k (1 to 5, in push order) contributes when it is supplied. */
  function FieldCondition(f: ProductFilters, k: nat): (o: Option<Condition>)
    ensures o.Some? ==> Rank(o.value) == k && Contributes(f, o.value)
  {
    if k == 1 then (if Supplied(f.categoryId) then Some(CategoryIs(f.categoryId.value)) else None)
    else if k == 2 then (if Supplied(f.artisanId) then Some(ArtisanIs(f.artisanId.value)) else None)
    else if k == 3 then (if f.minPrice.Some? then Some(PriceAtLeast(f.minPrice.value)) else None)
    else if k == 4 then (if f.maxPrice.Some? then Some(PriceAtMost(f.maxPrice.value)) else None)
    else if k == 5 then (if f.isFeatured.Some? then Some(FeaturedIs(f.isFeatured.value)) else None)
    else None
  }

  lemma ContributesIsFieldCondition(f: ProductFilters, c: Condition)
    ensures Contributes(f, c) <==> FieldCondition(f, Rank(c)) == Some(c)
  {
  }

  /** How many of the first k filter fields are supplied. */
  function SuppliedUpTo(f: ProductFilters, k: nat): nat {
    if k == 0 then 0 else SuppliedUpTo(f, k - 1) + Count(FieldCondition(f, k).Some?)
  }

  /** `conds` is the condition list after the pushes for the first k filter fields. */
  ghost predicate Built(conds: seq<Condition>, f: ProductFilters, k: nat) {
    && |conds| == 1 + SuppliedUpTo(f, k)
    && conds[0] == ActiveOnly
    && (forall i, j | 0 <= i < j < |conds| :: Rank(conds[i]) < Rank(conds[j]))
    && (forall i | 0 <= i < |conds| :: Rank(conds[i]) <= k)
    && (forall c :: c in conds <==> c == ActiveOnly || (1 <= Rank(c) <= k && FieldCondition(f, Rank(c)) == Some(c)))
  }

  function Pushed(conds: seq<Condition>, o: Option<Condition>): seq<Condition> {
    if o.Some? then conds + [o.value] else conds
  }

  lemma PushKeepsBuilt(conds: seq<Condition>, f: ProductFilters, k: nat)
    requires 1 <= k && Built(conds, f, k - 1)
    ensures Built(Pushed(conds, FieldCondition(f, k)), f, k)
  {
    var o := FieldCondition(f, k);
    var r := Pushed(conds, o);
    forall c ensures c in r <==> c == ActiveOnly || (1 <= Rank(c) <= k && FieldCondition(f, Rank(c)) == Some(c)) {
      if c in r && c !in conds {
        assert c == o.value;
      }
      if FieldCondition(f, Rank(c)) == Some(c) && Rank(c) == k {
        assert c == o.value;
      }
    }
  }

  /** The condition list after the pushes for the first k filter fields. */
  function ConditionsUpTo(f: ProductFilters, k: nat): seq<Condition> {
    if k == 0 then [ActiveOnly] else Pushed(ConditionsUpTo(f, k - 1), FieldCondition(f, k))
  }

  lemma {:induction false} BuiltUpTo(f: ProductFilters, k: nat)
    ensures Built(ConditionsUpTo(f, k), f, k)
  {
    if k > 0 {
      BuiltUpTo(f, k - 1);
      PushKeepsBuilt(ConditionsUpTo(f, k - 1), f, k);
    }
  }

  /**
   * The `whereConditions` list: `is_active` first, then one condition per
   * supplied field in the order category, artisan, min price, max price,
   * featured; a product passes them all iff it is listed.
   */
  method BuildWhereConditions(filters: ProductFilters) returns (conds: seq<Condition>)
    ensures |conds| == 1 + SuppliedCount(filters)
    ensures conds[0] == ActiveOnly
    ensures forall i, j | 0 <= i < j < |conds| :: Rank(conds[i]) < Rank(conds[j])
    ensures forall c :: c in conds <==> c == ActiveOnly || Contributes(filters, c)
    ensures forall p :: SatisfiesAll(p, conds) <==> Listed(p, filters)
  {
    conds := [ActiveOnly];
    assert conds == ConditionsUpTo(filters, 0);
    if Supplied(filters.categoryId) {
      conds := conds + [CategoryIs(filters.categoryId.value)];
    }
    assert conds == ConditionsUpTo(filters, 1);
    if Supplied(filters.artisanId) {
      conds := conds + [ArtisanIs(filters.artisanId.value)];
    }
    assert conds == ConditionsUpTo(filters, 2);
    if filters.minPrice.Some? {
      conds := conds + [PriceAtLeast(filters.minPrice.value)];
    }
    assert conds == ConditionsUpTo(filters, 3);
    if filters.maxPrice.Some? {
      conds := conds + [PriceAtMost(filters.maxPrice.value)];
    }
    assert conds == ConditionsUpTo(filters, 4);
    if filters.isFeatured.Some? {
      conds := conds + [FeaturedIs(filters.isFeatured.value)];
    }
    assert conds == ConditionsUpTo(filters, 5);
    BuiltUpTo(filters, 5);
    BuiltListMeansFilters(conds, filters);
  }

  /** Once all five fields are pushed, the list has the promised shape and meaning. */
  lemma BuiltListMeansFilters(conds: seq<Condition>, f: ProductFilters)
    requires Built(conds, f, 5)
    ensures |conds| == 1 + SuppliedCount(f)
    ensures conds[0] == ActiveOnly
    ensures forall i, j | 0 <= i < j < |conds| :: Rank(conds[i]) < Rank(conds[j])
    ensures forall c :: c in conds <==> c == ActiveOnly || Contributes(f, c)
    ensures forall p :: SatisfiesAll(p, conds) <==> Listed(p, f)
  {
    assert SuppliedUpTo(f, 5) == SuppliedCount(f) by {
      assert SuppliedUpTo(f, 1) == Count(Supplied(f.categoryId));
      assert SuppliedUpTo(f, 2) == SuppliedUpTo(f, 1) + Count(Supplied(f.artisanId));
      assert SuppliedUpTo(f, 3) == SuppliedUpTo(f, 2) + Count(f.minPrice.Some?);
      assert SuppliedUpTo(f, 4) == SuppliedUpTo(f, 3) + Count(f.maxPrice.Some?);
    }
    forall c ensures c in conds <==> c == ActiveOnly || Contributes(f, c) {
      ContributesIsFieldCondition(f, c);
    }
    forall p ensures SatisfiesAll(p, conds) <==> Listed(p, f) {
      ConditionsMeanFilters(p, f, conds);
    }
  }

  /** A list holding exactly `is_active` and the contributed conditions selects exactly the listed products. */
  lemma ConditionsMeanFilters(p: Product, f: ProductFilters, conds: seq<Condition>)
    requires forall c :: c in conds <==> c == ActiveOnly || Contributes(f, c)
    ensures SatisfiesAll(p, conds) <==> Listed(p, f)
  {
    if SatisfiesAll(p, conds) {
      forall c | c in conds ensures Holds(p, c) {
        var i :| 0 <= i < |conds| && conds[i] == c;
      }
      assert Holds(p, ActiveOnly);
      if Supplied(f.categoryId) {
        assert Holds(p, CategoryIs(f.categoryId.value));
      }
      if Supplied(f.artisanId) {
        assert Holds(p, ArtisanIs(f.artisanId.value));
      }
      if f.minPrice.Some? {
        assert Holds(p, PriceAtLeast(f.minPrice.value));
      }
      if f.maxPrice.Some? {
        assert Holds(p, PriceAtMost(f.maxPrice.value));
      }
      if f.isFeatured.Some? {
        assert Holds(p, FeaturedIs(f.isFeatured.value));
      }
    }
    if Listed(p, f) {
      forall i | 0 <= i < |conds| ensures Holds(p, conds[i]) {
        assert conds[i] in conds;
      }
    }
  }

  // ---------------------------------------------------------------------
  // Ordering
  // ---------------------------------------------------------------------

  datatype Column = CreatedAt | Price
  datatype Direction = Asc | Desc
  datatype OrderBy = OrderBy(column: Column, direction: Direction)

  /**
   * The sort table: oldest is created_at ASC, price_low price ASC,
   * price_high price DESC, and every other key (newest, rating, popularity)
   * the default created_at DESC.
   */
  function OrderByFor(sort: ProductSort): (o: OrderBy)
    ensures o.column == Price <==> sort == PriceLow || sort == PriceHigh
    ensures o.direction == Asc <==> sort == Oldest || sort == PriceLow
  {
    match sort
    case Oldest => OrderBy(CreatedAt, Asc)
    case PriceLow => OrderBy(Price, Asc)
    case PriceHigh => OrderBy(Price, Desc)
    case _ => OrderBy(CreatedAt, Desc)
  }

  /** The `let orderBy` if-chain. */
  method BuildOrderBy(sort: ProductSort) returns (orderBy: OrderBy)
    ensures orderBy == OrderByFor(sort)
  {
    orderBy := OrderBy(CreatedAt, Desc);
    if sort == Oldest {
      orderBy := OrderBy(CreatedAt, Asc);
    } else if sort == PriceLow {
      orderBy := OrderBy(Price, Asc);
    } else if sort == PriceHigh {
      orderBy := OrderBy(Price, Desc);
    }
  }

  /** `a` may come before `b` under ORDER BY `o`. */
  predicate KeyLe(o: OrderBy, a: Product, b: Product) {
    match (o.column, o.direction)
    case (CreatedAt, Asc) => a.createdAt <= b.createdAt
    case (CreatedAt, Desc) => a.createdAt >= b.createdAt
    case (Price, Asc) => a.price <= b.price
    case (Price, Desc) => a.price >= b.price
  }

  function RowLe(o: OrderBy): (Product, Product) -> bool {
    (a: Product, b: Product) => KeyLe(o, a, b)
  }

  lemma RowLeIsTotalPreorder(o: OrderBy)
    ensures TotalPreorder(RowLe(o))
  {
  }

  /** What each sort key promises about two products shown in that order, in the key's own words. */
  predicate InSortOrder(sort: ProductSort, a: Product, b: Product) {
    match sort
    case Oldest => a.createdAt <= b.createdAt
    case PriceLow => a.price <= b.price
    case PriceHigh => a.price >= b.price
    case Newest => a.createdAt >= b.createdAt
    case Rating => a.createdAt >= b.createdAt
    case Popularity => a.createdAt >= b.createdAt
  }

  /** Rows sorted under the chosen ORDER BY are in the order the sort key names. */
  lemma SortedFollowsSortKey(sort: ProductSort, rows: seq<Product>)
    requires Sorted(rows, RowLe(OrderByFor(sort)))
    ensures forall i, j | 0 <= i < j < |rows| :: InSortOrder(sort, rows[i], rows[j])
  {
    forall i, j | 0 <= i < j < |rows| ensures InSortOrder(sort, rows[i], rows[j]) {
      assert RowLe(OrderByFor(sort))(rows[i], rows[j]);
    }
  }

  // ---------------------------------------------------------------------
  // Query execution
  // ---------------------------------------------------------------------

  /** `SELECT ... WHERE <where> ORDER BY <orderBy> LIMIT <limit> OFFSET <offset>` */
  datatype RowQuery = RowQuery(where: seq<Condition>, orderBy: OrderBy, limit: int, offset: int)

  /** `SELECT COUNT(*) ... WHERE <where>` */
  datatype CountQuery = CountQuery(where: seq<Condition>)

  /** The rows of `table` that satisfy every condition of `where`, in table order. */
  function Select(table: seq<Product>, where: seq<Condition>): (r: seq<Product>)
    ensures forall p :: p in r <==> p in table && SatisfiesAll(p, where)
    ensures multiset(r) <= multiset(table)
  {
    Keep(table, (p: Product) => SatisfiesAll(p, where))
  }

  /** The rows of `table` in the order ORDER BY `o` returns them. */
  function Ordered(rows: seq<Product>, o: OrderBy): (r: seq<Product>)
    ensures Sorted(r, RowLe(o))
    ensures multiset(r) == multiset(rows)
  {
    RowLeIsTotalPreorder(o);
    SortBy(rows, RowLe(o))
  }

  /**
   * The row query; the database rejects a negative LIMIT or OFFSET, and
   * otherwise returns the requested window of the selected, ordered rows.
   */
  function ExecuteRows(table: seq<Product>, q: RowQuery): (r: Option<seq<Product>>)
    ensures r.Some? <==> q.limit >= 0 && q.offset >= 0
    ensures r.Some? ==> Sorted(r.value, RowLe(q.orderBy))
    ensures r.Some? ==> multiset(r.value) <= multiset(Select(table, q.where))
  {
    if q.limit < 0 || q.offset < 0 then None
    else
      var all := Ordered(Select(table, q.where), q.orderBy);
      WindowSorted(all, q.offset, q.limit, RowLe(q.orderBy));
      Some(Window(all, q.offset, q.limit))
  }

  /** `SELECT COUNT(*)`: at most the table's size, and 0 exactly when no row satisfies the WHERE. */
  function ExecuteCount(table: seq<Product>, q: CountQuery): (n: nat)
    ensures n <= |table|
    ensures n == 0 <==> forall p | p in table :: !SatisfiesAll(p, q.where)
  {
    var r := Select(table, q.where);
    assert |multiset(r)| <= |multiset(table)|;
    assert r != [] ==> r[0] in r;
    |r|
  }

  /** The reference listing: the listed products, in table order. */
  function Listing(table: seq<Product>, f: ProductFilters): (r: seq<Product>)
    ensures forall p :: p in r <==> p in table && Listed(p, f)
  {
    Keep(table, (p: Product) => Listed(p, f))
  }

  /** The listing in the order the sort key asks for. */
  function SortedListing(table: seq<Product>, f: ProductFilters, sort: ProductSort): (r: seq<Product>)
    ensures multiset(r) == multiset(Listing(table, f))
    ensures forall i, j | 0 <= i < j < |r| :: InSortOrder(sort, r[i], r[j])
  {
    var r := Ordered(Listing(table, f), OrderByFor(sort));
    SortedFollowsSortKey(sort, r);
    r
  }

  /** A condition list that selects exactly the listed products selects the listing. */
  lemma SelectIsListing(table: seq<Product>, conds: seq<Condition>, f: ProductFilters)
    requires forall p :: SatisfiesAll(p, conds) <==> Listed(p, f)
    ensures Select(table, conds) == Listing(table, f)
  {
    KeepCongruent(table, (p: Product) => SatisfiesAll(p, conds), (p: Product) => Listed(p, f));
  }

  // ---------------------------------------------------------------------
  // getProducts
  // ---------------------------------------------------------------------

  /** The page size LIMIT/OFFSET gives for a listing of `total` rows. */
  function PageLength(total: nat, offset: int, perPage: nat): nat {
    if offset < 0 || offset >= total then 0 else Min(perPage, total - offset)
  }

  /**
   * getProducts: page `page` of the listed products, `perPage` at a time, in
   * the order of `sort`, with the pagination metadata of the whole listing.
   * A page below 1 makes the OFFSET negative and a negative page size makes
   * the LIMIT negative; the database rejects the query and the function
   * throws.
   */
  method GetProducts(db: Database, page: int, perPage: int, filters: ProductFilters, sort: ProductSort)
    returns (r: Fetch<PaginatedResult>)
    requires perPage != 0
    ensures r.Failed? <==> page < 1 || perPage < 0
    ensures r.Failed? ==> r.message == FetchProductsError
    ensures r.Fetched? ==>
      r.value.data == Window(SortedListing(db.products, filters, sort), PageOffset(page, perPage), perPage)
    ensures r.Fetched? ==>
      |r.value.data| == PageLength(|Listing(db.products, filters)|, PageOffset(page, perPage), perPage)
    ensures r.Fetched? ==> multiset(r.value.data) <= multiset(Listing(db.products, filters))
    ensures r.Fetched? ==>
      forall i, j | 0 <= i < j < |r.value.data| :: InSortOrder(sort, r.value.data[i], r.value.data[j])
    ensures r.Fetched? ==>
      var info := Utils.GetPaginationInfo(|Listing(db.products, filters)|, page, perPage);
      r.value.meta == PaginationMeta(info.currentPage, info.perPage, info.totalCount, info.totalPages)
    ensures r.Fetched? ==> |r.value.data| <= r.value.meta.totalCount
  {
    var offset := PageOffset(page, perPage);
    var whereConditions := BuildWhereConditions(filters);
    var orderBy := BuildOrderBy(sort);
    var products := ExecuteRows(db.products, RowQuery(whereConditions, orderBy, perPage, offset));
    if products.None? {
      return Failed(FetchProductsError);
    }
    assert perPage >= 1 && offset >= 0;
    var totalCount := ExecuteCount(db.products, CountQuery(whereConditions));
    var info := Utils.GetPaginationInfo(totalCount, page, perPage);
    var data := products.value;
    RowQueryReturnsPage(db.products, whereConditions, filters, sort, perPage, offset);
    r := Fetched(PaginatedResult(data, PaginationMeta(info.currentPage, info.perPage, info.totalCount, info.totalPages)));
  }

  /**
   * `const offset = (page - 1) * perPage`: for a positive page size the
   * offset is non-negative exactly for pages from 1 on; for a negative one,
   * exactly for pages up to 1.
   */
  function PageOffset(page: int, perPage: int): (offset: int)
    ensures perPage > 0 ==> (offset >= 0 <==> page >= 1)
    ensures perPage < 0 ==> (offset >= 0 <==> page <= 1)
  {
    OffsetSign(page, perPage);
    (page - 1) * perPage
  }

  /** The sign of (page - 1) * perPage follows the signs of its two factors. */
  lemma OffsetSign(page: int, perPage: int)
    ensures perPage > 0 ==> ((page - 1) * perPage >= 0 <==> page >= 1)
    ensures perPage < 0 ==> ((page - 1) * perPage >= 0 <==> page <= 1)
  {
    var x := page - 1;
    if x >= 0 && perPage >= 0 {
      ProductSign(x, perPage);
    } else if x >= 0 {
      ProductSign(x, -perPage);
      assert x * perPage == -(x * -perPage);
    } else if perPage >= 0 {
      ProductSign(-x, perPage);
      assert x * perPage == -(-x * perPage);
    } else {
      ProductSign(-x, -perPage);
      assert x * perPage == -x * -perPage;
    }
  }

  /** The product of two non-negative numbers is non-negative, and positive when both are. */
  lemma ProductSign(a: int, b: int)
    requires a >= 0 && b >= 0
    ensures a * b >= 0
    ensures a > 0 && b > 0 ==> a * b > 0
  {
  }

  /**
   * With the conditions of the filters and the ORDER BY of the sort key, the
   * row query returns a window of the sorted listing and the count query
   * counts the listing: both queries use the same predicate.
   */
  lemma RowQueryReturnsPage(table: seq<Product>, conds: seq<Condition>, f: ProductFilters, sort: ProductSort,
                            perPage: nat, offset: nat)
    requires forall p :: SatisfiesAll(p, conds) <==> Listed(p, f)
    ensures var s := SortedListing(table, f, sort);
      var w := Window(s, offset, perPage);
      && ExecuteRows(table, RowQuery(conds, OrderByFor(sort), perPage, offset)) == Some(w)
      && ExecuteCount(table, CountQuery(conds)) == |Listing(table, f)| == |s|
      && |w| == PageLength(|s|, offset, perPage)
      && multiset(w) <= multiset(Listing(table, f))
      && forall i, j | 0 <= i < j < |w| :: InSortOrder(sort, w[i], w[j])
  {
    SelectIsListing(table, conds, f);
    var s := SortedListing(table, f, sort);
    var q := RowQuery(conds, OrderByFor(sort), perPage, offset);
    assert Ordered(Select(table, q.where), q.orderBy) == s;
    assert ExecuteRows(table, q) == Some(Window(s, offset, perPage));
    assert ExecuteCount(table, CountQuery(conds)) == |Listing(table, f)|;
    assert |s| == |Listing(table, f)| by {
      assert |multiset(s)| == |multiset(Listing(table, f))|;
    }
    WindowInSortOrder(s, offset, perPage, sort);
  }

  lemma WindowInSortOrder(s: seq<Product>, offset: nat, limit: nat, sort: ProductSort)
    requires forall i, j | 0 <= i < j < |s| :: InSortOrder(sort, s[i], s[j])
    ensures var w := Window(s, offset, limit);
      forall i, j | 0 <= i < j < |w| :: InSortOrder(sort, w[i], w[j])
  {
    var w := Window(s, offset, limit);
    forall i, j | 0 <= i < j < |w| ensures InSortOrder(sort, w[i], w[j]) {
      assert w[i] == s[offset + i] && w[j] == s[offset + j];
    }
  }

  /**
   * Paging through the listing shows every listed product: the row at
   * position `i` of the sorted listing is on the page that PageOfRow names,
   * at position i minus that page's offset, and that page is between 1 and
   * totalPages.
   */
  lemma EveryRowOnOnePage(table: seq<Product>, f: ProductFilters, sort: ProductSort, perPage: int, i: nat)
    requires perPage >= 1 && i < |Listing(table, f)|
    ensures var s := SortedListing(table, f, sort);
      var page := Utils.PageOfRow(i, perPage);
      var w := Window(s, PageOffset(page, perPage), perPage);
      && page <= Utils.GetPaginationInfo(|s|, page, perPage).totalPages
      && i - PageOffset(page, perPage) < |w| && w[i - PageOffset(page, perPage)] == s[i]
  {
    var s := SortedListing(table, f, sort);
    assert |s| == |Listing(table, f)| by {
      assert |multiset(s)| == |multiset(Listing(table, f))|;
    }
    var page := Utils.PageOfRow(i, perPage);
    Utils.RowOnSomePage(|s|, perPage, i);
    assert Utils.GetPaginationInfo(|s|, page, perPage).totalPages
        == Utils.GetPaginationInfo(|s|, 1, perPage).totalPages;
    RowInWindow(s, PageOffset(page, perPage), perPage, i);
  }

  /** Row `i` of `s` sits at position i - offset of a window that spans it. */
  lemma RowInWindow<T>(s: seq<T>, offset: nat, limit: nat, i: nat)
    requires offset <= i < offset + limit && i < |s|
    ensures i - offset < |Window(s, offset, limit)| && Window(s, offset, limit)[i - offset] == s[i]
  {
  }

  /** A minimum price above the maximum price lists nothing. */
  lemma MinAboveMaxListsNothing(table: seq<Product>, f: ProductFilters)
    requires f.minPrice.Some? && f.maxPrice.Some? && f.minPrice.value > f.maxPrice.value
    ensures Listing(table, f) == []
  {
    KeepNothing(table, (p: Product) => Listed(p, f));
  }

  // ---------------------------------------------------------------------
  // getProductBySlug
  // ---------------------------------------------------------------------

  predicate HasActiveSlug(table: seq<Product>, slug: string) {
    exists p | p in table :: p.slug == slug && p.isActive
  }

  function ImagesOf(images: seq<ProductImage>, productId: string): seq<ProductImage> {
    Keep(images, (im: ProductImage) => im.productId == productId)
  }

  function VariantsOf(variants: seq<ProductVariant>, productId: string): seq<ProductVariant> {
    Keep(variants, (v: ProductVariant) => v.productId == productId)
  }

  function ImageLe(): (ProductImage, ProductImage) -> bool {
    (a: ProductImage, b: ProductImage) => a.sortOrder <= b.sortOrder
  }

  function VariantLe(): (ProductVariant, ProductVariant) -> bool {
    (a: ProductVariant, b: ProductVariant) => LexLe(a.name, b.name)
  }

  lemma VariantLeIsTotalPreorder()
    ensures TotalPreorder(VariantLe())
  {
    forall a: ProductVariant, b: ProductVariant ensures VariantLe()(a, b) || VariantLe()(b, a) {
      LexLeTotal(a.name, b.name);
    }
    forall a: ProductVariant, b: ProductVariant, c: ProductVariant | VariantLe()(a, b) && VariantLe()(b, c)
      ensures VariantLe()(a, c)
    {
      LexLeTransitive(a.name, b.name, c.name);
    }
  }

  /** `... WHERE p.slug = <slug> AND p.is_active = true LIMIT 1`: at most one row, and one exactly when an active product has the slug. */
  function SlugQuery(table: seq<Product>, slug: string): (r: seq<Product>)
    ensures |r| <= 1
    ensures r != [] <==> HasActiveSlug(table, slug)
    ensures r != [] ==> r[0] in table && r[0].slug == slug && r[0].isActive
  {
    var matching := Keep(table, (p: Product) => p.slug == slug && p.isActive);
    assert matching != [] ==> matching[0] in matching;
    assert HasActiveSlug(table, slug) ==> matching != [] by {
      if HasActiveSlug(table, slug) {
        var p :| p in table && p.slug == slug && p.isActive;
        assert p in matching;
      }
    }
    Window(matching, 0, 1)
  }

  /** `SELECT * FROM product_images WHERE product_id = <productId> ORDER BY sort_order ASC` */
  function ImageQuery(images: seq<ProductImage>, productId: string): (r: seq<ProductImage>)
    ensures multiset(r) == multiset(ImagesOf(images, productId))
    ensures forall im :: im in r <==> im in images && im.productId == productId
    ensures Sorted(r, ImageLe())
  {
    var r := SortBy(ImagesOf(images, productId), ImageLe());
    SameMembers(r, ImagesOf(images, productId));
    r
  }

  /** `SELECT * FROM product_variants WHERE product_id = <productId> ORDER BY name ASC` */
  function VariantQuery(variants: seq<ProductVariant>, productId: string): (r: seq<ProductVariant>)
    ensures multiset(r) == multiset(VariantsOf(variants, productId))
    ensures forall v :: v in r <==> v in variants && v.productId == productId
    ensures Sorted(r, VariantLe())
  {
    VariantLeIsTotalPreorder();
    var r := SortBy(VariantsOf(variants, productId), VariantLe());
    SameMembers(r, VariantsOf(variants, productId));
    r
  }

  /**
   * getProductBySlug: nothing when no active product has the slug; otherwise
   * such a product with all of its images ordered by sort order and all of
   * its variants ordered by name.
   */
  method GetProductBySlug(db: Database, slug: string) returns (r: Option<ProductDetail>)
    ensures r.None? <==> !HasActiveSlug(db.products, slug)
    ensures r.Some? ==> r.value.product in db.products
    ensures r.Some? ==> r.value.product.slug == slug && r.value.product.isActive
    ensures r.Some? ==> multiset(r.value.images) == multiset(ImagesOf(db.images, r.value.product.id))
    ensures r.Some? ==> forall im :: im in r.value.images <==> im in db.images && im.productId == r.value.product.id
    ensures r.Some? ==> Sorted(r.value.images, ImageLe())
    ensures r.Some? ==> multiset(r.value.variants) == multiset(VariantsOf(db.variants, r.value.product.id))
    ensures r.Some? ==> forall v :: v in r.value.variants <==> v in db.variants && v.productId == r.value.product.id
    ensures r.Some? ==> Sorted(r.value.variants, VariantLe())
  {
    var products := SlugQuery(db.products, slug);
    if |products| == 0 {
      return None;
    }
    var images := ImageQuery(db.images, products[0].id);
    var variants := VariantQuery(db.variants, products[0].id);
    r := Some(ProductDetail(products[0], images, variants));
  }

}
