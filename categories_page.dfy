/**
 * The categories summary page of `src/routes/categories/+page.server.ts`:
 * the date filters read from the URL become conditions on the query; each
 * category and subcategory gets the total and count of its allocations; the
 * subcategories are ranked by magnitude, the categories income first and
 * then expenses, each largest first; the first page of 20 is returned.
 */
module CategoriesPage {
  import opened Js
  import opened Seqs

  const PageSize: nat := 20

  datatype CategoryFilters = CategoryFilters(from: string, to: string)

  /** `parseFilters`: a missing or empty `dateFrom` / `dateTo` parameter becomes `''`. */
  function ParseFilters(fromParam: Option<string>, toParam: Option<string>): (f: CategoryFilters)
    ensures f.from == (if fromParam.Some? then fromParam.value else "")
    ensures f.to == (if toParam.Some? then toParam.value else "")
  {
    CategoryFilters(if fromParam.Some? && fromParam.value != "" then fromParam.value else "",
                    if toParam.Some? && toParam.value != "" then toParam.value else "")
  }

  // ---------------------------------------------------------------- the query

  datatype Condition = Gte(column: string, value: string) | Lte(column: string, value: string)

  const CategoryDateColumn: string := "transactions.transaction.operation_date"
  const SubcategoryDateColumn: string := "subcategories.transactions.transaction.operation_date"

  /** The filter conditions accumulated on a query builder, which each call extends in place. */
  class QueryBuilder {
    var conditions: seq<Condition>

    constructor ()
      ensures conditions == []
    {
      conditions := [];
    }

    method AddGte(column: string, value: string)
      modifies this
      ensures conditions == old(conditions) + [Gte(column, value)]
    {
      conditions := conditions + [Gte(column, value)];
    }

    method AddLte(column: string, value: string)
      modifies this
      ensures conditions == old(conditions) + [Lte(column, value)]
    {
      conditions := conditions + [Lte(column, value)];
    }
  }

  /** The date conditions of the query: a lower bound always, an upper bound only for a non-empty `to`. */
  function DateConditions(f: CategoryFilters): seq<Condition> {
    [Gte(CategoryDateColumn, f.from)]
    + (if f.to != "" then [Lte(CategoryDateColumn, f.to)] else [])
    + [Gte(SubcategoryDateColumn, f.from)]
    + (if f.to != "" then [Lte(SubcategoryDateColumn, f.to)] else [])
  }

  method ApplyDateRange(query: QueryBuilder, f: CategoryFilters)
    modifies query
    ensures query.conditions == old(query.conditions) + DateConditions(f)
  {
    query.AddGte(CategoryDateColumn, f.from);
    if f.to != "" {
      query.AddLte(CategoryDateColumn, f.to);
    }
    query.AddGte(SubcategoryDateColumn, f.from);
    if f.to != "" {
      query.AddLte(SubcategoryDateColumn, f.to);
    }
  }

  /**
   * Both allocation paths get the same bounds: the lower bound on each, even
   * when `from` is empty, and an upper bound on each exactly when `to` is not
   * empty.
   */
  lemma DateConditionsShape(f: CategoryFilters)
    ensures var cs := DateConditions(f);
      && Gte(CategoryDateColumn, f.from) in cs && Gte(SubcategoryDateColumn, f.from) in cs
      && (f.to != "" <==> Lte(CategoryDateColumn, f.to) in cs)
      && (f.to != "" <==> Lte(SubcategoryDateColumn, f.to) in cs)
      && (forall c :: c in cs && c.Lte? ==> c.value == f.to && f.to != "")
      && |cs| == if f.to == "" then 2 else 4
  {
  }

  // ---------------------------------------------------------------- aggregation

  /** An allocation row; its amount may be null. */
  datatype Allocation = Allocation(id: int, amount: Option<int>)

  datatype RawSubcategory = RawSubcategory(id: int, name: string, transactions: Option<seq<Allocation>>)

  datatype RawCategory = RawCategory(id: int, name: string, transactions: Option<seq<Allocation>>,
                                     subcategories: Option<seq<RawSubcategory>>)

  datatype SubcategorySummary = SubcategorySummary(id: int, name: string, total: int, transactionCount: nat)

  datatype CategorySummary = CategorySummary(id: int, name: string, total: int, transactionCount: nat,
                                             subcategories: seq<SubcategorySummary>)

  /** `tc.amount || 0`. */
  function AmountOrZero(a: Allocation): int {
    if a.amount.Some? then a.amount.value else 0
  }

  function OrEmpty<T>(s: Option<seq<T>>): seq<T> {
    if s.Some? then s.value else []
  }

  function Abs(x: int): nat {
    if x < 0 then -x else x
  }

  function SummarizeSubcategory(sub: RawSubcategory): (r: SubcategorySummary)
    ensures r.id == sub.id && r.name == sub.name
    ensures r.total == SumOf(OrEmpty(sub.transactions), AmountOrZero)
    ensures r.transactionCount == |OrEmpty(sub.transactions)|
  {
    var txs := OrEmpty(sub.transactions);
    SubcategorySummary(sub.id, sub.name, SumOf(txs, AmountOrZero), |txs|)
  }

  /** `(a, b) => Math.abs(b.total) - Math.abs(a.total)` does not put `b` before `a`. */
  predicate SubcategoryLe(a: SubcategorySummary, b: SubcategorySummary) {
    Abs(b.total) - Abs(a.total) <= 0
  }

  function SummarizeSubcategories(subs: seq<RawSubcategory>): (r: seq<SubcategorySummary>)
    ensures |r| == |subs|
    ensures forall i :: 0 <= i < |subs| ==> r[i] == SummarizeSubcategory(subs[i])
  {
    seq(|subs|, i requires 0 <= i < |subs| => SummarizeSubcategory(subs[i]))
  }

  function SummarizeCategory(c: RawCategory): CategorySummary {
    var txs := OrEmpty(c.transactions);
    CategorySummary(c.id, c.name, SumOf(txs, AmountOrZero), |txs|,
                    Sort(SummarizeSubcategories(OrEmpty(c.subcategories)), SubcategoryLe))
  }

  /**
   * A category's total is the sum of its allocation amounts with null read as
   * 0, its count the number of its allocations; its subcategories are the
   * summaries of its own subcategories, ordered by magnitude, largest first.
   */
  lemma SummarizeCategorySpec(c: RawCategory)
    ensures var r := SummarizeCategory(c);
      && r.id == c.id && r.name == c.name
      && r.total == SumOf(OrEmpty(c.transactions), AmountOrZero)
      && r.transactionCount == |OrEmpty(c.transactions)|
      && multiset(r.subcategories) == multiset(SummarizeSubcategories(OrEmpty(c.subcategories)))
      && forall i, j :: 0 <= i < j < |r.subcategories| ==> Abs(r.subcategories[i].total) >= Abs(r.subcategories[j].total)
  {
    var subs := SummarizeSubcategories(OrEmpty(c.subcategories));
    assert TotalPreorder(SubcategoryLe);
    SortSorted(subs, SubcategoryLe);
  }

  /** A total read with null amounts as 0 is the sum of the amounts that are present. */
  lemma {:induction false} NullAmountsCountAsZero(txs: seq<Allocation>)
    requires forall i :: 0 <= i < |txs| ==> txs[i].amount.None?
    ensures SumOf(txs, AmountOrZero) == 0
  {
    if txs != [] {
      NullAmountsCountAsZero(txs[..|txs| - 1]);
    }
  }

  /**
   * A subcategory's summary grows with its allocations: one more allocation
   * adds one to the count and its amount (null read as 0) to the total, and
   * leaves id and name alone.
   */
  lemma SummarizeSubcategoryAddsAllocation(sub: RawSubcategory, a: Allocation)
    ensures var before := SummarizeSubcategory(sub);
      var after := SummarizeSubcategory(sub.(transactions := Some(OrEmpty(sub.transactions) + [a])));
      && after.id == before.id && after.name == before.name
      && after.total == before.total + AmountOrZero(a)
      && after.transactionCount == before.transactionCount + 1
  {
    var txs := OrEmpty(sub.transactions);
    assert (txs + [a])[..|txs|] == txs;
  }

  /** A subcategory with null transactions, or whose amounts are all null, totals 0. */
  lemma SubcategoryNullAmountsTotalZero(sub: RawSubcategory)
    requires forall i :: 0 <= i < |OrEmpty(sub.transactions)| ==> OrEmpty(sub.transactions)[i].amount.None?
    ensures SummarizeSubcategory(sub).total == 0
    ensures SummarizeSubcategory(sub).transactionCount == |OrEmpty(sub.transactions)|
  {
    NullAmountsCountAsZero(OrEmpty(sub.transactions));
  }

  // ---------------------------------------------------------------- ranking

  /**
   * The category comparator does not put `b` before `a`: within one sign
   * group by magnitude, largest first; across groups `b.total - a.total`.
   */
  predicate CategoryLe(a: CategorySummary, b: CategorySummary) {
    if (a.total >= 0 && b.total >= 0) || (a.total < 0 && b.total < 0) then Abs(b.total) - Abs(a.total) <= 0
    else b.total - a.total <= 0
  }

  /** The rank the comparator orders by: income before expenses, then larger magnitude first. */
  predicate RankLe(a: CategorySummary, b: CategorySummary) {
    if a.total >= 0 then b.total < 0 || a.total >= b.total
    else b.total < 0 && a.total <= b.total
  }

  lemma CategoryLeIsRank(a: CategorySummary, b: CategorySummary)
    ensures CategoryLe(a, b) <==> RankLe(a, b)
  {
  }

  lemma CategoryLeTotalPreorder()
    ensures TotalPreorder(CategoryLe)
  {
    forall a, b, c | CategoryLe(a, b) && CategoryLe(b, c)
      ensures CategoryLe(a, c)
    {
      CategoryLeIsRank(a, b);
      CategoryLeIsRank(b, c);
      CategoryLeIsRank(a, c);
    }
  }

  /**
   * In the sorted list every total >= 0 precedes every negative total; the
   * non-negative totals descend and the negative ones ascend, so the largest
   * expense comes first among the expenses.
   */
  lemma RankedCategories(cs: seq<CategorySummary>)
    ensures var s := Sort(cs, CategoryLe);
      && multiset(s) == multiset(cs)
      && forall i, j :: 0 <= i < j < |s| ==>
           && (s[j].total >= 0 ==> s[i].total >= 0)
           && (s[i].total >= 0 && s[j].total >= 0 ==> s[i].total >= s[j].total)
           && (s[i].total < 0 && s[j].total < 0 ==> s[i].total <= s[j].total)
  {
    CategoryLeTotalPreorder();
    var s := Sort(cs, CategoryLe);
    SortSorted(cs, CategoryLe);
    forall i, j | 0 <= i < j < |s|
      ensures RankLe(s[i], s[j])
    {
      CategoryLeIsRank(s[i], s[j]);
    }
  }

  // ---------------------------------------------------------------- the page

  datatype QueryResult = QueryError | QueryData(rows: Option<seq<RawCategory>>)

  datatype PageData = PageData(
    error: Option<string>,
    categoriesData: seq<CategorySummary>,
    totalPages: int,
    currentPage: int,
    categories: seq<RawCategory>,
    filters: CategoryFilters)

  function SummarizeAll(rows: seq<RawCategory>): (r: seq<CategorySummary>)
    ensures |r| == |rows|
    ensures forall i :: 0 <= i < |rows| ==> r[i] == SummarizeCategory(rows[i])
  {
    seq(|rows|, i requires 0 <= i < |rows| => SummarizeCategory(rows[i]))
  }

  /** `load` once the query has answered with `result`. */
  function Load(f: CategoryFilters, result: QueryResult): PageData {
    if result.QueryError? then
      PageData(Some("Failed to fetch categories data"), [], 0, 1, [], f)
    else
      var rows := OrEmpty(result.rows);
      var sorted := Sort(SummarizeAll(rows), CategoryLe);
      PageData(None, Take(sorted, PageSize), CeilDiv(|sorted|, PageSize), 1, rows, f)
  }

  /**
   * On a query error the page has empty lists, no pages and page 1, with the
   * filters echoed back. Otherwise it holds the first `min(20, n)` ranked
   * summaries of the `n` categories, `ceil(n / 20)` pages, page 1, and the raw
   * rows.
   */
  lemma LoadSpec(f: CategoryFilters, result: QueryResult)
    ensures var p := Load(f, result);
      && p.filters == f && p.currentPage == 1
      && (result.QueryError? ==>
            p.error.Some? && p.categoriesData == [] && p.categories == [] && p.totalPages == 0)
      && (result.QueryData? ==>
            var n := |OrEmpty(result.rows)|;
            var sorted := Sort(SummarizeAll(OrEmpty(result.rows)), CategoryLe);
            && p.error.None?
            && p.categories == OrEmpty(result.rows)
            && |p.categoriesData| == (if n < 20 then n else 20)
            && p.categoriesData == sorted[..|p.categoriesData|]
            && (p.totalPages - 1) * 20 < n <= p.totalPages * 20
            && (n == 0 ==> p.totalPages == 0))
  {
    if result.QueryData? {
      var n := |OrEmpty(result.rows)|;
      var q := CeilDiv(n, PageSize);
      if n == 0 {
        assert q == 0;
      }
    }
  }
}
