/** The generic data hook `useEnhancedSupabaseData`: how a table name and the
    caller's filter, sort and limit options become a query description, how
    the hook's observable state changes when a fetch settles, the preset
    hooks built on it, and the query `searchProducts` composes. */
module DataHook {
  import opened JsValues
  import opened Query

  const ProductsTable: string := "enhanced_products"
  const CategoriesTable: string := "enhanced_categories"
  const BrandsTable: string := "enhanced_brands"
  const GenderTable: string := "gender_categories"
  const OrdersTable: string := "enhanced_orders"

  /** `priceRange: [number, number]`. */
  datatype PriceRange = PriceRange(lo: int, hi: int)

  /** The recognised filter keys; each one may be absent. */
  datatype FilterOptions = FilterOptions(
    category: Option<string>,
    brand: Option<string>,
    gender: Option<string>,
    priceRange: Option<PriceRange>,
    featured: Option<bool>,
    status: Option<string>,
    search: Option<string>)

  /** A filter object with none of the recognised keys set. */
  const NoFilter := FilterOptions(None, None, None, None, None, None, None)

  datatype SortOptions = SortOptions(column: string, ascending: Option<bool>)

  datatype HookOptions = HookOptions(
    filter: Option<FilterOptions>,
    sort: Option<SortOptions>,
    limit: Option<int>,
    realtime: Option<bool>)

  /** The tables whose rows carry an `active` flag instead of a status. */
  predicate IsCatalogTable(table: string) {
    table == CategoriesTable || table == BrandsTable || table == GenderTable
  }

  /** `name.ilike.%s%,description.ilike.%s%` as one `.or(...)` predicate. */
  function NameOrDescription(s: string): Predicate {
    AnyOf([ILike("name", s), ILike("description", s)])
  }

  function Ind(b: bool): nat {
    if b then 1 else 0
  }

  /** What the products table's filter translation promises, independently of
      the order in which the predicates are chained: each key contributes its
      predicate exactly when it is set (truthy, for the string keys), and
      nothing else is added. */
  predicate HonoursProductFilter(f: FilterOptions, ps: seq<Predicate>) {
    && (if TruthyStr(f.category) then Eq("category_id", Text(f.category.value)) in ps
        else !Constrains(ps, "category_id"))
    && (if TruthyStr(f.brand) then Eq("brand_id", Text(f.brand.value)) in ps
        else !Constrains(ps, "brand_id"))
    && (if TruthyStr(f.gender) then Eq("gender_category", Text(f.gender.value)) in ps
        else !Constrains(ps, "gender_category"))
    && (if f.priceRange.Some?
        then Gte("price", f.priceRange.value.lo) in ps && Lte("price", f.priceRange.value.hi) in ps
        else !Constrains(ps, "price"))
    && (if f.featured.Some? then Eq("featured", Flag(f.featured.value)) in ps
        else !Constrains(ps, "featured"))
    && (if TruthyStr(f.status) then Eq("status", Text(f.status.value)) in ps
        else !Constrains(ps, "status"))
    && (if TruthyStr(f.search) then NameOrDescription(f.search.value) in ps
        else !HasPatternSearch(ps))
    && |ps| == Ind(TruthyStr(f.category)) + Ind(TruthyStr(f.brand)) + Ind(TruthyStr(f.gender))
              + 2 * Ind(f.priceRange.Some?) + Ind(f.featured.Some?) + Ind(TruthyStr(f.status))
              + Ind(TruthyStr(f.search))
  }

  /** What the catalog tables' filter translation promises: a defined status
      selects on `active`, true only for the exact string "active"; a truthy
      search adds the name/description pattern; every other key is ignored. */
  predicate HonoursCatalogFilter(f: FilterOptions, ps: seq<Predicate>) {
    && (if f.status.Some? then Eq("active", Flag(f.status.value == "active")) in ps
        else !Constrains(ps, "active"))
    && (if TruthyStr(f.search) then NameOrDescription(f.search.value) in ps
        else !HasPatternSearch(ps))
    && |ps| == Ind(f.status.Some?) + Ind(TruthyStr(f.search))
  }

  // What each filter key contributes on the products table, on its own.

  function CategoryPart(f: FilterOptions): seq<Predicate> {
    if TruthyStr(f.category) then [Eq("category_id", Text(f.category.value))] else []
  }

  function BrandPart(f: FilterOptions): seq<Predicate> {
    if TruthyStr(f.brand) then [Eq("brand_id", Text(f.brand.value))] else []
  }

  function GenderPart(f: FilterOptions): seq<Predicate> {
    if TruthyStr(f.gender) then [Eq("gender_category", Text(f.gender.value))] else []
  }

  function PricePart(f: FilterOptions): seq<Predicate> {
    if f.priceRange.Some? then [Gte("price", f.priceRange.value.lo), Lte("price", f.priceRange.value.hi)] else []
  }

  function FeaturedPart(f: FilterOptions): seq<Predicate> {
    if f.featured.Some? then [Eq("featured", Flag(f.featured.value))] else []
  }

  function StatusPart(f: FilterOptions): seq<Predicate> {
    if TruthyStr(f.status) then [Eq("status", Text(f.status.value))] else []
  }

  function SearchPart(f: FilterOptions): seq<Predicate> {
    if TruthyStr(f.search) then [NameOrDescription(f.search.value)] else []
  }

  // One step per `if (key) query = query...` of the products branch; each
  // appends its key's part and changes nothing else.

  function CategoryStep(q: QueryDesc, f: FilterOptions): (r: QueryDesc)
    ensures r == q.(predicates := q.predicates + CategoryPart(f))
  {
    if TruthyStr(f.category) then Where(q, Eq("category_id", Text(f.category.value))) else q
  }

  function BrandStep(q: QueryDesc, f: FilterOptions): (r: QueryDesc)
    ensures r == q.(predicates := q.predicates + BrandPart(f))
  {
    if TruthyStr(f.brand) then Where(q, Eq("brand_id", Text(f.brand.value))) else q
  }

  function GenderStep(q: QueryDesc, f: FilterOptions): (r: QueryDesc)
    ensures r == q.(predicates := q.predicates + GenderPart(f))
  {
    if TruthyStr(f.gender) then Where(q, Eq("gender_category", Text(f.gender.value))) else q
  }

  function PriceStep(q: QueryDesc, f: FilterOptions): (r: QueryDesc)
    ensures r == q.(predicates := q.predicates + PricePart(f))
  {
    if f.priceRange.Some?
    then Where(Where(q, Gte("price", f.priceRange.value.lo)), Lte("price", f.priceRange.value.hi))
    else q
  }

  function FeaturedStep(q: QueryDesc, f: FilterOptions): (r: QueryDesc)
    ensures r == q.(predicates := q.predicates + FeaturedPart(f))
  {
    if f.featured.Some? then Where(q, Eq("featured", Flag(f.featured.value))) else q
  }

  function StatusStep(q: QueryDesc, f: FilterOptions): (r: QueryDesc)
    ensures r == q.(predicates := q.predicates + StatusPart(f))
  {
    if TruthyStr(f.status) then Where(q, Eq("status", Text(f.status.value))) else q
  }

  function SearchStep(q: QueryDesc, f: FilterOptions): (r: QueryDesc)
    ensures r == q.(predicates := q.predicates + SearchPart(f))
  {
    if TruthyStr(f.search) then Where(q, NameOrDescription(f.search.value)) else q
  }

  /** The products branch of the filter translation, keys in source order. */
  function ProductFilter(q: QueryDesc, f: FilterOptions): QueryDesc {
    SearchStep(StatusStep(FeaturedStep(PriceStep(GenderStep(BrandStep(CategoryStep(q, f), f), f), f), f), f), f)
  }

  /** The products table's predicates: each key's part, in the order the source chains them. */
  function ProductPredicates(f: FilterOptions): seq<Predicate> {
    CategoryPart(f) + BrandPart(f) + GenderPart(f) + PricePart(f) + FeaturedPart(f) + StatusPart(f) + SearchPart(f)
  }

  /** Chaining the product filter calls on a fresh select yields exactly the keys' parts. */
  lemma ProductFilterChains(table: string, f: FilterOptions)
    ensures ProductFilter(Select(table), f) == Select(table).(predicates := ProductPredicates(f))
  {
    var q1 := CategoryStep(Select(table), f);
    assert q1.predicates == CategoryPart(f);
  }

  lemma ConstrainsAppend(a: seq<Predicate>, b: seq<Predicate>, c: string)
    ensures Constrains(a + b, c) <==> Constrains(a, c) || Constrains(b, c)
    ensures HasPatternSearch(a + b) <==> HasPatternSearch(a) || HasPatternSearch(b)
  {
    if Constrains(a, c) {
      var i :| 0 <= i < |a| && !a[i].AnyOf? && a[i].column == c;
      assert (a + b)[i] == a[i];
    }
    if Constrains(b, c) {
      var i :| 0 <= i < |b| && !b[i].AnyOf? && b[i].column == c;
      assert (a + b)[|a| + i] == b[i];
    }
    if HasPatternSearch(a) {
      var i :| 0 <= i < |a| && a[i].AnyOf?;
      assert (a + b)[i] == a[i];
    }
    if HasPatternSearch(b) {
      var i :| 0 <= i < |b| && b[i].AnyOf?;
      assert (a + b)[|a| + i] == b[i];
    }
  }

  /** Which parts constrain a column, or hold a pattern search. */
  lemma ProductPartsSplit(f: FilterOptions, c: string)
    ensures Constrains(ProductPredicates(f), c) <==>
              || Constrains(CategoryPart(f), c) || Constrains(BrandPart(f), c) || Constrains(GenderPart(f), c)
              || Constrains(PricePart(f), c) || Constrains(FeaturedPart(f), c) || Constrains(StatusPart(f), c)
              || Constrains(SearchPart(f), c)
    ensures HasPatternSearch(ProductPredicates(f)) <==> HasPatternSearch(SearchPart(f))
  {
    var a1 := CategoryPart(f);
    var a2 := a1 + BrandPart(f);
    var a3 := a2 + GenderPart(f);
    var a4 := a3 + PricePart(f);
    var a5 := a4 + FeaturedPart(f);
    var a6 := a5 + StatusPart(f);
    ConstrainsAppend(a1, BrandPart(f), c);
    ConstrainsAppend(a2, GenderPart(f), c);
    ConstrainsAppend(a3, PricePart(f), c);
    ConstrainsAppend(a4, FeaturedPart(f), c);
    ConstrainsAppend(a5, StatusPart(f), c);
    ConstrainsAppend(a6, SearchPart(f), c);
  }

  /** A key's part: empty when the key is unset, otherwise one or two
      predicates on the key's column, none of them a pattern search. */
  lemma ColumnPart(p: seq<Predicate>, column: string, isSet: bool, c: string)
    requires isSet ==> 1 <= |p| <= 2 && forall i :: 0 <= i < |p| ==> !p[i].AnyOf? && p[i].column == column
    requires !isSet ==> p == []
    ensures Constrains(p, c) <==> isSet && c == column
    ensures !HasPatternSearch(p)
  {
    if isSet && c == column {
      assert !p[0].AnyOf? && p[0].column == c;
    }
  }

  /** Each part constrains its own column only, and only the search part holds a pattern search. */
  lemma PartColumns(f: FilterOptions, c: string)
    ensures Constrains(CategoryPart(f), c) <==> TruthyStr(f.category) && c == "category_id"
    ensures Constrains(BrandPart(f), c) <==> TruthyStr(f.brand) && c == "brand_id"
    ensures Constrains(GenderPart(f), c) <==> TruthyStr(f.gender) && c == "gender_category"
    ensures Constrains(PricePart(f), c) <==> f.priceRange.Some? && c == "price"
    ensures Constrains(FeaturedPart(f), c) <==> f.featured.Some? && c == "featured"
    ensures Constrains(StatusPart(f), c) <==> TruthyStr(f.status) && c == "status"
    ensures !Constrains(SearchPart(f), c)
    ensures HasPatternSearch(SearchPart(f)) <==> TruthyStr(f.search)
  {
    ColumnPart(CategoryPart(f), "category_id", TruthyStr(f.category), c);
    ColumnPart(BrandPart(f), "brand_id", TruthyStr(f.brand), c);
    ColumnPart(GenderPart(f), "gender_category", TruthyStr(f.gender), c);
    ColumnPart(PricePart(f), "price", f.priceRange.Some?, c);
    ColumnPart(FeaturedPart(f), "featured", f.featured.Some?, c);
    ColumnPart(StatusPart(f), "status", TruthyStr(f.status), c);
    if TruthyStr(f.search) {
      assert SearchPart(f)[0].AnyOf?;
    }
  }

  /** Each set key's predicates occur in the products predicates, and the
      predicates number exactly the set keys, the price range counting twice. */
  lemma ProductPredicatesContents(f: FilterOptions)
    ensures TruthyStr(f.category) ==> Eq("category_id", Text(f.category.value)) in ProductPredicates(f)
    ensures TruthyStr(f.brand) ==> Eq("brand_id", Text(f.brand.value)) in ProductPredicates(f)
    ensures TruthyStr(f.gender) ==> Eq("gender_category", Text(f.gender.value)) in ProductPredicates(f)
    ensures f.priceRange.Some? ==>
              && Gte("price", f.priceRange.value.lo) in ProductPredicates(f)
              && Lte("price", f.priceRange.value.hi) in ProductPredicates(f)
    ensures f.featured.Some? ==> Eq("featured", Flag(f.featured.value)) in ProductPredicates(f)
    ensures TruthyStr(f.status) ==> Eq("status", Text(f.status.value)) in ProductPredicates(f)
    ensures TruthyStr(f.search) ==> NameOrDescription(f.search.value) in ProductPredicates(f)
    ensures |ProductPredicates(f)| == Ind(TruthyStr(f.category)) + Ind(TruthyStr(f.brand)) + Ind(TruthyStr(f.gender))
              + 2 * Ind(f.priceRange.Some?) + Ind(f.featured.Some?) + Ind(TruthyStr(f.status))
              + Ind(TruthyStr(f.search))
  {
    ProductPredicatesMembers(f);
    ProductPredicatesLength(f);
  }

  lemma ProductPredicatesLength(f: FilterOptions)
    ensures |ProductPredicates(f)| == Ind(TruthyStr(f.category)) + Ind(TruthyStr(f.brand)) + Ind(TruthyStr(f.gender))
              + 2 * Ind(f.priceRange.Some?) + Ind(f.featured.Some?) + Ind(TruthyStr(f.status))
              + Ind(TruthyStr(f.search))
  {
    assert |CategoryPart(f)| == Ind(TruthyStr(f.category));
    assert |BrandPart(f)| == Ind(TruthyStr(f.brand));
    assert |GenderPart(f)| == Ind(TruthyStr(f.gender));
    assert |PricePart(f)| == 2 * Ind(f.priceRange.Some?);
    assert |FeaturedPart(f)| == Ind(f.featured.Some?);
    assert |StatusPart(f)| == Ind(TruthyStr(f.status));
    assert |SearchPart(f)| == Ind(TruthyStr(f.search));
  }

  lemma ProductPredicatesMembers(f: FilterOptions)
    ensures forall x :: x in CategoryPart(f) || x in BrandPart(f) || x in GenderPart(f) || x in PricePart(f)
                        || x in FeaturedPart(f) || x in StatusPart(f) || x in SearchPart(f)
                        ==> x in ProductPredicates(f)
  {
    forall x | x in CategoryPart(f) || x in BrandPart(f) || x in GenderPart(f) || x in PricePart(f)
               || x in FeaturedPart(f) || x in StatusPart(f) || x in SearchPart(f)
      ensures x in ProductPredicates(f)
    {
      InConcat7(CategoryPart(f), BrandPart(f), GenderPart(f), PricePart(f), FeaturedPart(f), StatusPart(f), SearchPart(f), x);
    }
  }

  lemma InConcat7<T>(a1: seq<T>, a2: seq<T>, a3: seq<T>, a4: seq<T>, a5: seq<T>, a6: seq<T>, a7: seq<T>, x: T)
    ensures x in a1 + a2 + a3 + a4 + a5 + a6 + a7 <==>
              x in a1 || x in a2 || x in a3 || x in a4 || x in a5 || x in a6 || x in a7
  {
  }

  lemma ColumnHonoured(f: FilterOptions, c: string)
    ensures Constrains(ProductPredicates(f), c) <==>
              || (TruthyStr(f.category) && c == "category_id")
              || (TruthyStr(f.brand) && c == "brand_id")
              || (TruthyStr(f.gender) && c == "gender_category")
              || (f.priceRange.Some? && c == "price")
              || (f.featured.Some? && c == "featured")
              || (TruthyStr(f.status) && c == "status")
    ensures HasPatternSearch(ProductPredicates(f)) <==> TruthyStr(f.search)
  {
    ProductPartsSplit(f, c);
    PartColumns(f, c);
  }

  lemma ProductPredicatesHonoured(f: FilterOptions)
    ensures HonoursProductFilter(f, ProductPredicates(f))
  {
    ProductPredicatesContents(f);
    ColumnHonoured(f, "category_id");
    ColumnHonoured(f, "brand_id");
    ColumnHonoured(f, "gender_category");
    ColumnHonoured(f, "price");
    ColumnHonoured(f, "featured");
    ColumnHonoured(f, "status");
  }

  function CatalogFilter(q: QueryDesc, f: FilterOptions): QueryDesc {
    var q1 := if f.status.Some? then Where(q, Eq("active", Flag(f.status.value == "active"))) else q;
    if TruthyStr(f.search) then Where(q1, NameOrDescription(f.search.value)) else q1
  }

  function ApplyFilter(q: QueryDesc, table: string, filter: Option<FilterOptions>): (r: QueryDesc)
    ensures r.table == q.table && r.orders == q.orders && r.limit == q.limit
    ensures filter.None? || (table != ProductsTable && !IsCatalogTable(table)) ==> r == q
  {
    if filter.None? then q
    else
      var q1 := if table == ProductsTable then ProductFilter(q, filter.value) else q;
      if IsCatalogTable(table) then CatalogFilter(q1, filter.value) else q1
  }

  function ApplySort(q: QueryDesc, table: string, sort: Option<SortOptions>): (r: QueryDesc)
    ensures r.table == q.table && r.predicates == q.predicates && r.limit == q.limit
  {
    if sort.Some? then Order(q, sort.value.column, sort.value.ascending.GetOr(true))
    else if table == ProductsTable then Order(Order(q, "featured", false), "created_at", false)
    else Order(Order(q, "sort_order", true), "name", true)
  }

  function ApplyLimit(q: QueryDesc, limit: Option<int>): (r: QueryDesc)
    ensures r.table == q.table && r.predicates == q.predicates && r.orders == q.orders
  {
    if TruthyNum(limit) then Limit(q, limit.value) else q
  }

  /** The query `fetchData` builds for `table` and `options`. */
  function ComposeQuery(table: string, o: HookOptions): (q: QueryDesc)
    ensures q.table == table
    ensures o.filter.None? || (table != ProductsTable && !IsCatalogTable(table)) ==> q.predicates == []
    ensures o.sort.Some? ==>
              && |q.orders| == 1
              && q.orders[0].column == o.sort.value.column
              && (q.orders[0].ascending <==> o.sort.value.ascending != Some(false))
    ensures o.sort.None? && table == ProductsTable ==>
              q.orders == [OrderBy("featured", false), OrderBy("created_at", false)]
    ensures o.sort.None? && table != ProductsTable ==>
              q.orders == [OrderBy("sort_order", true), OrderBy("name", true)]
    ensures q.limit.Some? <==> TruthyNum(o.limit)
    ensures q.limit.Some? ==> q.limit == o.limit
  {
    ApplyLimit(ApplySort(ApplyFilter(Select(table), table, o.filter), table, o.sort), o.limit)
  }

  /** On the products table every filter key is honoured as described. */
  lemma ProductsQueryHonoursFilter(f: FilterOptions, sort: Option<SortOptions>, limit: Option<int>, realtime: Option<bool>)
    ensures HonoursProductFilter(f, ComposeQuery(ProductsTable, HookOptions(Some(f), sort, limit, realtime)).predicates)
  {
    ProductFilterChains(ProductsTable, f);
    ProductPredicatesHonoured(f);
  }

  /** On the catalog tables only status and search are honoured, as described. */
  lemma CatalogQueryHonoursFilter(table: string, f: FilterOptions, sort: Option<SortOptions>, limit: Option<int>, realtime: Option<bool>)
    requires IsCatalogTable(table)
    ensures HonoursCatalogFilter(f, ComposeQuery(table, HookOptions(Some(f), sort, limit, realtime)).predicates)
  {
    CatalogFilterHonoured(f);
  }

  lemma CatalogFilterHonoured(f: FilterOptions)
    ensures forall t :: IsCatalogTable(t) ==> HonoursCatalogFilter(f, CatalogFilter(Select(t), f).predicates)
  {
  }

  /** The limit never changes the predicates or the ordering of the query. */
  lemma LimitLeavesFilterAndOrder(table: string, o: HookOptions, limit: Option<int>)
    ensures ComposeQuery(table, o.(limit := limit)).predicates == ComposeQuery(table, o).predicates
    ensures ComposeQuery(table, o.(limit := limit)).orders == ComposeQuery(table, o).orders
  {
  }

  /** Under the reference evaluator, the exact count reported for a
      configuration does not depend on its limit. */
  lemma LimitNeverChangesTotal(table: string, o: HookOptions, limit: Option<int>, rows: seq<Row>)
    ensures ExactCount(ComposeQuery(table, o.(limit := limit)), rows) == ExactCount(ComposeQuery(table, o), rows)
  {
    LimitLeavesFilterAndOrder(table, o, limit);
  }

  /** Under the reference evaluator, a products query whose only filter key
      is a non-empty search term selects exactly the rows whose name or
      description contains the term, ignoring case. */
  lemma ProductSearchSelects(s: string, sort: Option<SortOptions>, limit: Option<int>, row: Row)
    requires s != ""
    ensures var q := ComposeQuery(ProductsTable, HookOptions(Some(NoFilter.(search := Some(s))), sort, limit, Some(true)));
            Selects(q.predicates, row) <==>
              PatternHolds(row, ILike("name", s)) || PatternHolds(row, ILike("description", s))
  {
    var q := ComposeQuery(ProductsTable, HookOptions(Some(NoFilter.(search := Some(s))), sort, limit, Some(true)));
    assert q.predicates == [NameOrDescription(s)];
    var pats := NameOrDescription(s).patterns;
    if PatternHolds(row, ILike("name", s)) {
      assert PatternHolds(row, pats[0]);
    }
    if PatternHolds(row, ILike("description", s)) {
      assert PatternHolds(row, pats[1]);
    }
    assert pats == [ILike("name", s), ILike("description", s)];
    if Selects(q.predicates, row) {
      assert Holds(row, q.predicates[0]);
      var j :| 0 <= j < |pats| && PatternHolds(row, pats[j]);
      assert j == 0 || j == 1;
    }
  }

  // ---------------------------------------------------------------------
  // Settled-fetch state
  // ---------------------------------------------------------------------

  /** A value thrown in `fetchData`: an `Error` instance with its message, or anything else. */
  datatype Thrown = ErrorObject(message: string) | OtherValue

  /** How the awaited query settled: a response (rows, exact count, error),
      or a rejection. */
  datatype FetchOutcome =
    | Responded(rows: Option<seq<Row>>, count: Option<int>, error: Option<Thrown>)
    | Rejected(thrown: Thrown)

  /** The hook's observable state. */
  datatype FetchState = FetchState(data: seq<Row>, total: int, error: Option<string>, loading: bool)

  /** The state before the first fetch settles. */
  const InitialState := FetchState([], 0, None, true)

  predicate Failed(o: FetchOutcome) {
    o.Rejected? || o.error.Some?
  }

  function ThrownBy(o: FetchOutcome): Thrown
    requires Failed(o)
  {
    if o.Rejected? then o.thrown else o.error.value
  }

  /** `err instanceof Error ? err.message : 'An error occurred'`. */
  function ErrorMessage(t: Thrown): string {
    match t
    case ErrorObject(m) => m
    case OtherValue => "An error occurred"
  }

  /** `setLoading(true)` at the start of a fetch. */
  function BeginFetch(s: FetchState): (r: FetchState)
    ensures r.loading
    ensures r.data == s.data && r.total == s.total && r.error == s.error
  {
    s.(loading := true)
  }

  /** The state once a fetch settles: the try block's updates on success, the
      catch block's on failure, and `finally` clears the loading flag. */
  function SettleFetch(s: FetchState, o: FetchOutcome): (r: FetchState)
    ensures !r.loading
    ensures !Failed(o) ==> r.error.None? && r.data == o.rows.GetOr([]) && r.total == o.count.GetOr(0)
    ensures Failed(o) ==> r.data == [] && r.total == 0 && r.error == Some(ErrorMessage(ThrownBy(o)))
  {
    var s1 :=
      if Failed(o) then s.(error := Some(ErrorMessage(ThrownBy(o)))).(data := []).(total := 0)
      else s.(data := o.rows.GetOr([])).(total := NumOr(o.count, 0)).(error := None);
    s1.(loading := false)
  }

  /** After a settled fetch the state is never loading, and an error comes
      only with no rows and a zero total. */
  lemma SettledIsConsistent(s: FetchState, o: FetchOutcome)
    ensures var r := SettleFetch(s, o);
            !r.loading && (r.error.Some? ==> r.data == [] && r.total == 0)
  {
  }

  /** A settled fetch replaces the state wholesale: what was there before
      (including an earlier settled fetch) does not show through. */
  lemma SettleForgetsPrior(s1: FetchState, s2: FetchState, o: FetchOutcome)
    ensures SettleFetch(s1, o) == SettleFetch(s2, o)
    ensures SettleFetch(SettleFetch(s1, o), o) == SettleFetch(s1, o)
  {
  }

  // ---------------------------------------------------------------------
  // Preset hooks
  // ---------------------------------------------------------------------

  /** A call of the generic hook: the table and the options passed to it. */
  datatype HookCall = HookCall(table: string, options: HookOptions)

  /** `useProducts`: the caller's options on the products table, kept fresh. */
  function UseProducts(filters: Option<FilterOptions>, sort: Option<SortOptions>, limit: Option<int>): (c: HookCall)
    ensures c.table == ProductsTable && c.options.realtime == Some(true)
    ensures c.options.filter == filters && c.options.sort == sort && c.options.limit == limit
  {
    HookCall(ProductsTable, HookOptions(filters, sort, limit, Some(true)))
  }

  /** `{ status: activeOnly ? 'active' : undefined }` with realtime on. */
  function ActiveOnlyOptions(activeOnly: bool): HookOptions {
    HookOptions(Some(NoFilter.(status := if activeOnly then Some("active") else None)), None, None, Some(true))
  }

  /** The query a catalog preset composes: `active = true` when only active
      rows are asked for, no predicate otherwise, and the default catalog
      ordering. */
  lemma ActiveOnlyQuery(table: string, activeOnly: bool)
    requires IsCatalogTable(table)
    ensures ComposeQuery(table, ActiveOnlyOptions(activeOnly)) ==
            QueryDesc(table, if activeOnly then [Eq("active", Flag(true))] else [],
                      [OrderBy("sort_order", true), OrderBy("name", true)], None)
  {
  }

  /* The three catalog presets take `activeOnly` as an optional argument:
     `None` is a call that leaves it out, which JavaScript fills with the
     default `true`. */

  function UseCategories(activeOnly: Option<bool>): (c: HookCall)
    ensures c.table == CategoriesTable && c.options.realtime == Some(true)
    ensures ComposeQuery(c.table, c.options).predicates ==
            (if activeOnly != Some(false) then [Eq("active", Flag(true))] else [])
    ensures ComposeQuery(c.table, c.options).orders == [OrderBy("sort_order", true), OrderBy("name", true)]
  {
    ActiveOnlyQuery(CategoriesTable, activeOnly.GetOr(true));
    HookCall(CategoriesTable, ActiveOnlyOptions(activeOnly.GetOr(true)))
  }

  function UseBrands(activeOnly: Option<bool>): (c: HookCall)
    ensures c.table == BrandsTable && c.options.realtime == Some(true)
    ensures ComposeQuery(c.table, c.options).predicates ==
            (if activeOnly != Some(false) then [Eq("active", Flag(true))] else [])
    ensures ComposeQuery(c.table, c.options).orders == [OrderBy("sort_order", true), OrderBy("name", true)]
  {
    ActiveOnlyQuery(BrandsTable, activeOnly.GetOr(true));
    HookCall(BrandsTable, ActiveOnlyOptions(activeOnly.GetOr(true)))
  }

  function UseGenderCategories(activeOnly: Option<bool>): (c: HookCall)
    ensures c.table == GenderTable && c.options.realtime == Some(true)
    ensures ComposeQuery(c.table, c.options).predicates ==
            (if activeOnly != Some(false) then [Eq("active", Flag(true))] else [])
    ensures ComposeQuery(c.table, c.options).orders == [OrderBy("sort_order", true), OrderBy("name", true)]
  {
    ActiveOnlyQuery(GenderTable, activeOnly.GetOr(true));
    HookCall(GenderTable, ActiveOnlyOptions(activeOnly.GetOr(true)))
  }

  /** Leaving `activeOnly` out is the same call as passing `true`, for every
      catalog preset; only an explicit `false` lifts the restriction. */
  lemma CatalogPresetsDefaultToActiveOnly()
    ensures UseCategories(None) == UseCategories(Some(true))
    ensures UseBrands(None) == UseBrands(Some(true))
    ensures UseGenderCategories(None) == UseGenderCategories(Some(true))
    ensures UseCategories(None) != UseCategories(Some(false))
    ensures UseBrands(None) != UseBrands(Some(false))
    ensures UseGenderCategories(None) != UseGenderCategories(Some(false))
  {
  }

  /** Under the reference evaluator, the active-only preset returns a subset
      of what the unrestricted preset returns, on the same stored rows. */
  lemma {:induction false} ActiveOnlyNarrows(table: string, rows: seq<Row>)
    requires IsCatalogTable(table)
    ensures var narrow := ComposeQuery(table, ActiveOnlyOptions(true)).predicates;
            var wide := ComposeQuery(table, ActiveOnlyOptions(false)).predicates;
            |Matching(narrow, rows)| <= |Matching(wide, rows)|
            && forall row :: row in Matching(narrow, rows) ==> row in Matching(wide, rows)
  {
    ActiveOnlyQuery(table, true);
    ActiveOnlyQuery(table, false);
    MatchingNarrows(ComposeQuery(table, ActiveOnlyOptions(true)).predicates,
                    ComposeQuery(table, ActiveOnlyOptions(false)).predicates, rows);
  }

  /** `useOrders`: a `customer` key is passed when the id is truthy, but no
      branch of the filter translation reads it, so it is a filter object
      with none of the recognised keys. */
  function UseOrders(customerId: Option<string>): (c: HookCall)
    ensures c.table == OrdersTable && c.options.realtime == Some(true)
    ensures ComposeQuery(c.table, c.options) == QueryDesc(OrdersTable, [], [OrderBy("created_at", false)], None)
  {
    HookCall(OrdersTable, HookOptions(if TruthyStr(customerId) then Some(NoFilter) else None,
                                      Some(SortOptions("created_at", Some(false))), None, Some(true)))
  }

  // ---------------------------------------------------------------------
  // searchProducts
  // ---------------------------------------------------------------------

  /** The three-way `.or(...)` of `searchProducts`. */
  function NameDescriptionOrIngredients(s: string): Predicate {
    AnyOf([ILike("name", s), ILike("description", s), ILike("ingredients", s)])
  }

  /** The chained calls of `searchProducts`, in source order. */
  function SearchChain(term: string, f: FilterOptions): QueryDesc {
    var q0 := Where(Select(ProductsTable), Eq("status", Text("active")));
    var q1 := if term != "" then Where(q0, NameDescriptionOrIngredients(term)) else q0;
    var q2 := FeaturedStep(PriceStep(GenderStep(BrandStep(CategoryStep(q1, f), f), f), f), f);
    Order(Order(q2, "featured", false), "created_at", false)
  }

  /** The predicates of `searchProducts` are its fixed status predicate, the
      optional three-way pattern search, then the same parts the generic hook
      chains for category, brand, gender, price range and featured. */
  lemma SearchChainParts(term: string, f: FilterOptions)
    ensures SearchChain(term, f).predicates ==
              [Eq("status", Text("active"))]
              + (if term != "" then [NameDescriptionOrIngredients(term)] else [])
              + CategoryPart(f) + BrandPart(f) + GenderPart(f) + PricePart(f) + FeaturedPart(f)
    ensures SearchChain(term, f).orders == [OrderBy("featured", false), OrderBy("created_at", false)]
    ensures SearchChain(term, f).table == ProductsTable && SearchChain(term, f).limit.None?
  {
    var q0 := Where(Select(ProductsTable), Eq("status", Text("active")));
    var q1 := if term != "" then Where(q0, NameDescriptionOrIngredients(term)) else q0;
    assert q1.predicates == [Eq("status", Text("active"))]
                            + (if term != "" then [NameDescriptionOrIngredients(term)] else []);
    assert q1.orders == [] && q1.table == ProductsTable && q1.limit.None?;
  }

  /** The query `searchProducts` sends (its join select is not modelled). */
  function SearchProducts(term: string, filters: Option<FilterOptions>): (q: QueryDesc)
    ensures q.table == ProductsTable && q.limit.None?
    ensures |q.predicates| >= 1 && q.predicates[0] == Eq("status", Text("active"))
    ensures term != "" ==> |q.predicates| >= 2 && q.predicates[1] == NameDescriptionOrIngredients(term)
    ensures term == "" ==> !HasPatternSearch(q.predicates)
    ensures q.orders == [OrderBy("featured", false), OrderBy("created_at", false)]
  {
    var f := filters.GetOr(NoFilter);
    SearchChainParts(term, f);
    SharedPartsHaveNoPattern(f);
    var tail := CategoryPart(f) + BrandPart(f) + GenderPart(f) + PricePart(f) + FeaturedPart(f);
    var head := [Eq("status", Text("active"))] + (if term != "" then [NameDescriptionOrIngredients(term)] else []);
    AppendAssoc5(head, CategoryPart(f), BrandPart(f), GenderPart(f), PricePart(f), FeaturedPart(f));
    ConstrainsAppend(head, tail, "");
    SearchChain(term, f)
  }

  /** `searchProducts` translates category, brand, gender, price range and
      featured exactly as the generic hook does for products, after its
      fixed status predicate and optional pattern search; the filter's own
      status and search keys are ignored. */
  lemma SearchAgreesWithHook(term: string, f: FilterOptions)
    ensures var shared := ComposeQuery(ProductsTable,
                            HookOptions(Some(f.(status := None, search := None)), None, None, None)).predicates;
            SearchProducts(term, Some(f)).predicates ==
              [Eq("status", Text("active"))]
              + (if term != "" then [NameDescriptionOrIngredients(term)] else [])
              + shared
  {
    var g := f.(status := None, search := None);
    SearchChainParts(term, f);
    ProductFilterChains(ProductsTable, g);
    var tail := CategoryPart(f) + BrandPart(f) + GenderPart(f) + PricePart(f) + FeaturedPart(f);
    assert ProductPredicates(g) == tail + [] + [];
    assert tail + [] + [] == tail;
    var head := [Eq("status", Text("active"))] + (if term != "" then [NameDescriptionOrIngredients(term)] else []);
    AppendAssoc5(head, CategoryPart(f), BrandPart(f), GenderPart(f), PricePart(f), FeaturedPart(f));
  }

  /** The parts searchProducts shares with the hook hold no pattern search. */
  lemma SharedPartsHaveNoPattern(f: FilterOptions)
    ensures !HasPatternSearch(CategoryPart(f) + BrandPart(f) + GenderPart(f) + PricePart(f) + FeaturedPart(f))
  {
    var a1 := CategoryPart(f);
    var a2 := a1 + BrandPart(f);
    var a3 := a2 + GenderPart(f);
    var a4 := a3 + PricePart(f);
    PartColumns(f, "");
    assert !HasPatternSearch(PricePart(f)) by {
      if f.priceRange.Some? {
        assert forall i :: 0 <= i < |PricePart(f)| ==> !PricePart(f)[i].AnyOf?;
      }
    }
    ConstrainsAppend(a1, BrandPart(f), "");
    ConstrainsAppend(a2, GenderPart(f), "");
    ConstrainsAppend(a3, PricePart(f), "");
    ConstrainsAppend(a4, FeaturedPart(f), "");
  }

  lemma AppendAssoc5<T>(h: seq<T>, a: seq<T>, b: seq<T>, c: seq<T>, d: seq<T>, e: seq<T>)
    ensures h + (a + b + c + d + e) == h + a + b + c + d + e
  {
    calc {
      h + (a + b + c + d + e);
      (h + (a + b + c + d)) + e;
      (h + (a + b + c)) + d + e;
      (h + (a + b)) + c + d + e;
    }
  }

  /** Omitting the filters is the same as passing an empty filter object. */
  lemma SearchWithoutFilters(term: string)
    ensures SearchProducts(term, None) == SearchProducts(term, Some(NoFilter))
  {
  }
}
