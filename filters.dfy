/**
 * The filter states of the transactions and analytics pages
 * (`src/lib/types/filters.ts`): their shapes, the values each field admits
 * and the two default records.
 */
module Filters {
  import opened Js

  /** `'all' | 'income' | 'expense'`. */
  datatype TypeValue = All | Income | Expense

  /** `'date' | 'amount' | 'description'`; the column may also be null. */
  datatype SortColumn = DateColumn | AmountColumn | DescriptionColumn

  /** `'asc' | 'desc'`. */
  datatype Direction = Asc | Desc

  /** `'month' | 'week'`. */
  datatype Period = Month | Week

  datatype DateRange = DateRange(from: string, to: string)
  datatype CategorySelection = CategorySelection(selected: seq<string>, isNegative: bool)
  datatype SearchFilter = SearchFilter(value: string, isNegative: bool)
  datatype SortOrder = SortOrder(column: Option<SortColumn>, direction: Direction)

  /** `TransactionFilterState`; `period` is optional. */
  datatype TransactionFilterState = TransactionFilterState(
    kind: TypeValue,
    dateRange: DateRange,
    categories: CategorySelection,
    subcategories: seq<string>,
    search: SearchFilter,
    sort: SortOrder,
    period: Option<Period>)

  /** `AnalyticsFilterState`: no sort, and a period that is always there. */
  datatype AnalyticsFilterState = AnalyticsFilterState(
    kind: TypeValue,
    dateRange: DateRange,
    categories: CategorySelection,
    subcategories: seq<string>,
    search: SearchFilter,
    period: Period)

  /** `DEFAULT_FILTER_STATE`. */
  const DefaultFilterState := TransactionFilterState(
    All, DateRange("", ""), CategorySelection([], false), [], SearchFilter("", false),
    SortOrder(Some(DateColumn), Desc), None)

  /** `DEFAULT_ANALYTICS_FILTER_STATE`. */
  const DefaultAnalyticsFilterState := AnalyticsFilterState(
    All, DateRange("", ""), CategorySelection([], false), [], SearchFilter("", false), Month)

  // ---------------------------------------------------------------- admitted values

  function TypeName(t: TypeValue): (s: string)
    ensures s in {"all", "income", "expense"}
  {
    match t
    case All => "all"
    case Income => "income"
    case Expense => "expense"
  }

  /** The type a string names, if it is one of the admitted values. */
  function TypeNamed(s: string): (t: Option<TypeValue>)
    ensures t.Some? <==> s in {"all", "income", "expense"}
  {
    if s == "all" then Some(All) else if s == "income" then Some(Income) else if s == "expense" then Some(Expense) else None
  }

  function ColumnName(c: SortColumn): (s: string)
    ensures s in {"date", "amount", "description"}
  {
    match c
    case DateColumn => "date"
    case AmountColumn => "amount"
    case DescriptionColumn => "description"
  }

  function ColumnNamed(s: string): (c: Option<SortColumn>)
    ensures c.Some? <==> s in {"date", "amount", "description"}
  {
    if s == "date" then Some(DateColumn) else if s == "amount" then Some(AmountColumn) else if s == "description" then Some(DescriptionColumn) else None
  }

  function DirectionName(d: Direction): (s: string)
    ensures s in {"asc", "desc"}
  {
    if d == Asc then "asc" else "desc"
  }

  function DirectionNamed(s: string): (d: Option<Direction>)
    ensures d.Some? <==> s in {"asc", "desc"}
  {
    if s == "asc" then Some(Asc) else if s == "desc" then Some(Desc) else None
  }

  function PeriodName(p: Period): (s: string)
    ensures s in {"month", "week"}
  {
    if p == Month then "month" else "week"
  }

  function PeriodNamed(s: string): (p: Option<Period>)
    ensures p.Some? <==> s in {"month", "week"}
  {
    if s == "month" then Some(Month) else if s == "week" then Some(Week) else None
  }

  /**
   * Each field admits exactly its listed strings: a value's name reads back
   * as that value, and a string that reads as a value is that value's name.
   */
  lemma NamesRoundTrip(t: TypeValue, c: SortColumn, d: Direction, p: Period, s: string)
    ensures TypeNamed(TypeName(t)) == Some(t) && (TypeNamed(s).Some? ==> TypeName(TypeNamed(s).value) == s)
    ensures ColumnNamed(ColumnName(c)) == Some(c) && (ColumnNamed(s).Some? ==> ColumnName(ColumnNamed(s).value) == s)
    ensures DirectionNamed(DirectionName(d)) == Some(d) && (DirectionNamed(s).Some? ==> DirectionName(DirectionNamed(s).value) == s)
    ensures PeriodNamed(PeriodName(p)) == Some(p) && (PeriodNamed(s).Some? ==> PeriodName(PeriodNamed(s).value) == s)
  {
  }

  // ---------------------------------------------------------------- the two states

  /** The analytics state that shares a transaction state's filters, with the given period. */
  function ForAnalytics(f: TransactionFilterState, p: Period): (a: AnalyticsFilterState)
    ensures a.period == p
  {
    AnalyticsFilterState(f.kind, f.dateRange, f.categories, f.subcategories, f.search, p)
  }

  /** The transaction state that shares an analytics state's filters, with the given sort. */
  function ForTransactions(a: AnalyticsFilterState, sort: SortOrder): (f: TransactionFilterState)
    ensures f.sort == sort && f.period == Some(a.period)
  {
    TransactionFilterState(a.kind, a.dateRange, a.categories, a.subcategories, a.search, sort, Some(a.period))
  }

  /** Moving the shared filters to the other state and back loses nothing. */
  lemma SharedFiltersRoundTrip(a: AnalyticsFilterState, sort: SortOrder)
    ensures ForAnalytics(ForTransactions(a, sort), a.period) == a
  {
  }

  /**
   * The defaults: every type, no date bound, no category, subcategory or
   * search selection and no negation, sorted by date newest first; the
   * analytics default shares all these filters, has no sort and groups by
   * month.
   */
  lemma DefaultsAgree()
    ensures DefaultFilterState.kind == All && TypeName(DefaultFilterState.kind) == "all"
    ensures DefaultFilterState.dateRange == DateRange("", "")
    ensures DefaultFilterState.categories.selected == [] && !DefaultFilterState.categories.isNegative
    ensures DefaultFilterState.subcategories == []
    ensures DefaultFilterState.search.value == "" && !DefaultFilterState.search.isNegative
    ensures DefaultFilterState.sort == SortOrder(Some(DateColumn), Desc)
    ensures ColumnName(DefaultFilterState.sort.column.value) == "date" && DirectionName(DefaultFilterState.sort.direction) == "desc"
    ensures DefaultAnalyticsFilterState == ForAnalytics(DefaultFilterState, Month)
    ensures PeriodName(DefaultAnalyticsFilterState.period) == "month"
  {
  }
}
