/**
 * The analytics page of `src/routes/analytics/+page.server.ts`: the filter
 * action turns its filter options into a query over transaction allocation
 * rows, and `groupTransactionsByPeriod` folds the surviving rows into one
 * chart point per period, with income and expenses summed separately, sorted
 * by period key.
 *
 * Amounts are integers (cents) and operation dates are calendar dates. The
 * period key is a parameter of the grouping: `MonthKey` is the month branch;
 * the week numbering, which reads local time, is supplied by the caller.
 */
module Analytics {
  import opened Js
  import opened Seqs
  import opened Dates
  import opened Forms

  const DefaultFromDate: string := "2024-01-01"
  const DefaultToDate: string := "2024-12-31"
  const TransfersCategoryName: string := "transfers \U{267B}\U{FE0F}"

  /** A row handed to the chart: an operation date and a signed amount in cents. */
  datatype TransactionData = TransactionData(date: Date, amount: int)

  datatype ChartDataPoint = ChartDataPoint(period: string, income: int, expenses: int)

  /** The month key `${getFullYear()}-${padStart(getMonth() + 1, 2, '0')}`. */
  function MonthKey(d: Date): string {
    IntString(d.year) + "-" + PadStart(IntString(d.month), 2, '0')
  }

  function Abs(x: int): nat {
    if x < 0 then -x else x
  }

  // ---------------------------------------------------------------- reference definitions

  /** The income of period `k`: the sum of the amounts >= 0 among the rows of that period. */
  function Income(rows: seq<TransactionData>, keyOf: Date -> string, k: string): (r: int)
    ensures r >= 0
  {
    if rows == [] then 0
    else
      var last := rows[|rows| - 1];
      Income(rows[..|rows| - 1], keyOf, k) + (if keyOf(last.date) == k && last.amount >= 0 then last.amount else 0)
  }

  /** The expenses of period `k`: the sum of `|amount|` over the negative amounts among the rows of that period. */
  function Expenses(rows: seq<TransactionData>, keyOf: Date -> string, k: string): (r: int)
    ensures r >= 0
  {
    if rows == [] then 0
    else
      var last := rows[|rows| - 1];
      Expenses(rows[..|rows| - 1], keyOf, k) + (if keyOf(last.date) == k && last.amount < 0 then -last.amount else 0)
  }

  function Bucket(rows: seq<TransactionData>, keyOf: Date -> string, k: string): ChartDataPoint {
    ChartDataPoint(k, Income(rows, keyOf, k), Expenses(rows, keyOf, k))
  }

  /** The period keys of the rows, each once, in order of first appearance. */
  function PeriodKeys(rows: seq<TransactionData>, keyOf: Date -> string): (ks: seq<string>)
    ensures Distinct(ks)
    ensures forall i :: 0 <= i < |rows| ==> keyOf(rows[i].date) in ks
    ensures forall k :: k in ks ==> exists i :: 0 <= i < |rows| && keyOf(rows[i].date) == k
  {
    if rows == [] then []
    else
      var init := rows[..|rows| - 1];
      var ks := PeriodKeys(init, keyOf);
      var k := keyOf(rows[|rows| - 1].date);
      assert forall i :: 0 <= i < |init| ==> init[i] == rows[i];
      if k in ks then ks else ks + [k]
  }

  /** One bucket per key of `ks`, in that order. */
  function Buckets(ks: seq<string>, rows: seq<TransactionData>, keyOf: Date -> string): (bs: seq<ChartDataPoint>)
    ensures |bs| == |ks|
    ensures forall i :: 0 <= i < |ks| ==> bs[i] == Bucket(rows, keyOf, ks[i])
  {
    if ks == [] then [] else Buckets(ks[..|ks| - 1], rows, keyOf) + [Bucket(rows, keyOf, ks[|ks| - 1])]
  }

  /** Buckets are ordered by `period.localeCompare`, which on these keys is string order. */
  predicate PeriodLe(a: ChartDataPoint, b: ChartDataPoint) {
    LexLe(a.period, b.period)
  }

  function PointTotal(p: ChartDataPoint): int {
    p.income + p.expenses
  }

  function RowMagnitude(r: TransactionData): int {
    Abs(r.amount)
  }

  // ---------------------------------------------------------------- grouping

  /**
   * `groupTransactionsByPeriod(data, period)`: a map from period key to chart
   * point is filled row by row, creating a zero point at a key's first row;
   * then the points, in insertion order, are sorted by key.
   */
  method GroupTransactionsByPeriod(data: seq<TransactionData>, keyOf: Date -> string) returns (points: seq<ChartDataPoint>)
    ensures multiset(points) == multiset(Buckets(PeriodKeys(data, keyOf), data, keyOf))
    ensures Sorted(points, PeriodLe)
    ensures forall i, j :: 0 <= i < j < |points| ==> points[i].period != points[j].period
    ensures forall p :: p in points ==> p == Bucket(data, keyOf, p.period) && p.income >= 0 && p.expenses >= 0
    ensures forall i :: 0 <= i < |data| ==> exists p :: p in points && p.period == keyOf(data[i].date)
    ensures forall p :: p in points ==> exists i :: 0 <= i < |data| && keyOf(data[i].date) == p.period
    ensures SumOf(points, PointTotal) == SumOf(data, RowMagnitude)
    ensures data == [] <==> points == []
  {
    var keys: seq<string> := [];
    var groups: map<string, ChartDataPoint> := map[];
    for i := 0 to |data|
      invariant Grouped(groups, keys, data[..i], keyOf)
    {
      var row := data[i];
      var key := keyOf(row.date);
      ghost var before, beforeKeys := groups, keys;
      if key !in groups {
        groups := groups[key := ChartDataPoint(key, 0, 0)];
        keys := keys + [key];
      }
      var group := groups[key];
      if row.amount >= 0 {
        group := group.(income := group.income + row.amount);
      } else {
        group := group.(expenses := group.expenses + Abs(row.amount));
      }
      groups := groups[key := group];
      assert data[..i + 1] == data[..i] + [row];
      GroupStep(before, beforeKeys, data[..i], keyOf, row, groups, keys);
    }
    assert data[..|data|] == data;
    var values := seq(|keys|, j requires 0 <= j < |keys| => groups[keys[j]]);
    assert values == Buckets(keys, data, keyOf);
    points := Sort(values, PeriodLe);
    GroupedPoints(data, keyOf, values, points);
  }

  /** The grouping so far: the keys of `rows` in order of first appearance, each mapped to its bucket. */
  ghost predicate Grouped(groups: map<string, ChartDataPoint>, keys: seq<string>, rows: seq<TransactionData>, keyOf: Date -> string) {
    && keys == PeriodKeys(rows, keyOf)
    && (forall k :: k in groups <==> k in keys)
    && (forall k :: k in groups ==> groups[k] == Bucket(rows, keyOf, k))
  }

  /** One row of the loop: its key's point, created at zero if new, takes the row's amount. */
  lemma GroupStep(groups: map<string, ChartDataPoint>, keys: seq<string>, rows: seq<TransactionData>, keyOf: Date -> string,
                  row: TransactionData, groups': map<string, ChartDataPoint>, keys': seq<string>)
    requires Grouped(groups, keys, rows, keyOf)
    requires var key := keyOf(row.date);
      var base := if key in groups then groups[key] else ChartDataPoint(key, 0, 0);
      && keys' == (if key in groups then keys else keys + [key])
      && groups'.Keys == groups.Keys + {key}
      && groups'[key] == (if row.amount >= 0 then base.(income := base.income + row.amount) else base.(expenses := base.expenses + Abs(row.amount)))
      && (forall k :: k in groups && k != key ==> groups'[k] == groups[k])
    ensures Grouped(groups', keys', rows + [row], keyOf)
  {
    var key := keyOf(row.date);
    AddRowKeys(rows, keyOf, row);
    assert groups'[key] == Bucket(rows + [row], keyOf, key) by {
      if key !in groups {
        FreshKeyEmpty(rows, keyOf, key);
      }
      AddRow(rows, keyOf, row, key);
    }
    forall k | k in groups' && k != key
      ensures groups'[k] == Bucket(rows + [row], keyOf, k)
    {
      AddRow(rows, keyOf, row, k);
    }
  }

  /** A key no row has collects nothing. */
  lemma {:induction false} FreshKeyEmpty(rows: seq<TransactionData>, keyOf: Date -> string, k: string)
    requires k !in PeriodKeys(rows, keyOf)
    ensures Income(rows, keyOf, k) == 0 && Expenses(rows, keyOf, k) == 0
  {
    if rows != [] {
      var init := rows[..|rows| - 1];
      assert k !in PeriodKeys(init, keyOf);
      FreshKeyEmpty(init, keyOf, k);
    }
  }

  /** Adding one row to the input changes only the bucket of its key, by the row's amount. */
  lemma AddRow(rows: seq<TransactionData>, keyOf: Date -> string, r: TransactionData, k: string)
    ensures var before, after := Bucket(rows, keyOf, k), Bucket(rows + [r], keyOf, k);
      && after.period == k
      && (keyOf(r.date) != k ==> after == before)
      && (keyOf(r.date) == k && r.amount >= 0 ==> after == before.(income := before.income + r.amount))
      && (keyOf(r.date) == k && r.amount < 0 ==> after == before.(expenses := before.expenses - r.amount))
  {
    assert (rows + [r])[..|rows|] == rows;
  }

  /** Adding one row appends its key unless the key was already there. */
  lemma AddRowKeys(rows: seq<TransactionData>, keyOf: Date -> string, r: TransactionData)
    ensures var ks := PeriodKeys(rows, keyOf);
      PeriodKeys(rows + [r], keyOf) == if keyOf(r.date) in ks then ks else ks + [keyOf(r.date)]
  {
    assert (rows + [r])[..|rows|] == rows;
  }

  /** What the sort leaves of the insertion-ordered buckets. */
  lemma GroupedPoints(data: seq<TransactionData>, keyOf: Date -> string, values: seq<ChartDataPoint>, points: seq<ChartDataPoint>)
    requires values == Buckets(PeriodKeys(data, keyOf), data, keyOf)
    requires points == Sort(values, PeriodLe)
    ensures Sorted(points, PeriodLe)
    ensures forall i, j :: 0 <= i < j < |points| ==> points[i].period != points[j].period
    ensures forall p :: p in points ==> p == Bucket(data, keyOf, p.period)
    ensures forall i :: 0 <= i < |data| ==> exists p :: p in points && p.period == keyOf(data[i].date)
    ensures forall p :: p in points ==> exists i :: 0 <= i < |data| && keyOf(data[i].date) == p.period
    ensures SumOf(points, PointTotal) == SumOf(data, RowMagnitude)
    ensures data == [] <==> points == []
  {
    PeriodLeTotalPreorder();
    SortSorted(values, PeriodLe);
    PointsAreBuckets(data, keyOf, values, points);
    PointsDistinct(data, keyOf, values, points);
    PointsCover(data, keyOf, values, points);
    SortSum(values, PeriodLe, PointTotal);
    Conservation(data, keyOf);
    if data != [] {
      assert keyOf(data[0].date) in PeriodKeys(data, keyOf);
    }
  }

  lemma PointsAreBuckets(data: seq<TransactionData>, keyOf: Date -> string, values: seq<ChartDataPoint>, points: seq<ChartDataPoint>)
    requires values == Buckets(PeriodKeys(data, keyOf), data, keyOf)
    requires multiset(points) == multiset(values)
    ensures forall p :: p in points ==> p == Bucket(data, keyOf, p.period) && p.period in PeriodKeys(data, keyOf)
  {
    forall p | p in points
      ensures p == Bucket(data, keyOf, p.period) && p.period in PeriodKeys(data, keyOf)
    {
      assert p in multiset(values);
    }
  }

  lemma PointsDistinct(data: seq<TransactionData>, keyOf: Date -> string, values: seq<ChartDataPoint>, points: seq<ChartDataPoint>)
    requires values == Buckets(PeriodKeys(data, keyOf), data, keyOf)
    requires multiset(points) == multiset(values)
    ensures forall i, j :: 0 <= i < j < |points| ==> points[i].period != points[j].period
  {
    var ks := PeriodKeys(data, keyOf);
    assert Distinct(values) by {
      forall i, j | 0 <= i < j < |values|
        ensures values[i] != values[j]
      {
        assert values[i].period == ks[i] && values[j].period == ks[j];
      }
    }
    DistinctByMultiset(values, points);
    PointsAreBuckets(data, keyOf, values, points);
    forall i, j | 0 <= i < j < |points|
      ensures points[i].period != points[j].period
    {
      assert points[i] in points && points[j] in points;
    }
  }

  lemma PointsCover(data: seq<TransactionData>, keyOf: Date -> string, values: seq<ChartDataPoint>, points: seq<ChartDataPoint>)
    requires values == Buckets(PeriodKeys(data, keyOf), data, keyOf)
    requires multiset(points) == multiset(values)
    ensures forall i :: 0 <= i < |data| ==> exists p :: p in points && p.period == keyOf(data[i].date)
    ensures forall p :: p in points ==> exists i :: 0 <= i < |data| && keyOf(data[i].date) == p.period
  {
    forall k | k in PeriodKeys(data, keyOf) {
      KeyHasPoint(data, keyOf, values, points, k);
    }
    PointsAreBuckets(data, keyOf, values, points);
  }

  lemma KeyHasPoint(data: seq<TransactionData>, keyOf: Date -> string, values: seq<ChartDataPoint>, points: seq<ChartDataPoint>, k: string)
    requires values == Buckets(PeriodKeys(data, keyOf), data, keyOf)
    requires multiset(points) == multiset(values)
    requires k in PeriodKeys(data, keyOf)
    ensures Bucket(data, keyOf, k) in points
  {
    BucketOfKey(PeriodKeys(data, keyOf), data, keyOf, k);
    assert Bucket(data, keyOf, k) in multiset(values);
  }

  lemma {:induction false} BucketOfKey(ks: seq<string>, rows: seq<TransactionData>, keyOf: Date -> string, k: string)
    requires k in ks
    ensures Bucket(rows, keyOf, k) in Buckets(ks, rows, keyOf)
  {
    var bs := Buckets(ks, rows, keyOf);
    if ks[|ks| - 1] != k {
      var init := ks[..|ks| - 1];
      assert ks == init + [ks[|ks| - 1]];
      BucketOfKey(init, rows, keyOf, k);
      assert bs == Buckets(init, rows, keyOf) + [bs[|bs| - 1]];
    }
  }

  lemma PeriodLeTotalPreorder()
    ensures TotalPreorder(PeriodLe)
  {
    forall a, b
      ensures PeriodLe(a, b) || PeriodLe(b, a)
    {
      LexLeTotal(a.period, b.period);
    }
    forall a, b, c | PeriodLe(a, b) && PeriodLe(b, c)
      ensures PeriodLe(a, c)
    {
      LexLeTransitive(a.period, b.period, c.period);
    }
  }

  // ---------------------------------------------------------------- conservation

  /** What one row adds to the buckets of the keys `ks`. */
  function Spread(ks: seq<string>, keyOf: Date -> string, r: TransactionData): int {
    if ks == [] then 0
    else Spread(ks[..|ks| - 1], keyOf, r) + (if keyOf(r.date) == ks[|ks| - 1] then Abs(r.amount) else 0)
  }

  lemma {:induction false} SpreadDistinct(ks: seq<string>, keyOf: Date -> string, r: TransactionData)
    requires Distinct(ks)
    ensures Spread(ks, keyOf, r) == if keyOf(r.date) in ks then Abs(r.amount) else 0
  {
    if ks != [] {
      var init := ks[..|ks| - 1];
      assert ks == init + [ks[|ks| - 1]];
      assert Distinct(init);
      SpreadDistinct(init, keyOf, r);
    }
  }

  lemma {:induction false} BucketsStep(ks: seq<string>, rows: seq<TransactionData>, keyOf: Date -> string, r: TransactionData)
    ensures SumOf(Buckets(ks, rows + [r], keyOf), PointTotal)
         == SumOf(Buckets(ks, rows, keyOf), PointTotal) + Spread(ks, keyOf, r)
  {
    if ks != [] {
      var init := ks[..|ks| - 1];
      BucketsStep(init, rows, keyOf, r);
      assert (rows + [r])[..|rows|] == rows;
      var after, before := Buckets(ks, rows + [r], keyOf), Buckets(ks, rows, keyOf);
      assert after[..|after| - 1] == Buckets(init, rows + [r], keyOf);
      assert before[..|before| - 1] == Buckets(init, rows, keyOf);
    }
  }

  /** The bucket a row opens holds that row's magnitude and nothing else. */
  lemma FreshBucket(rows: seq<TransactionData>, keyOf: Date -> string, r: TransactionData)
    requires keyOf(r.date) !in PeriodKeys(rows, keyOf)
    ensures PointTotal(Bucket(rows + [r], keyOf, keyOf(r.date))) == Abs(r.amount)
  {
    FreshKeyEmpty(rows, keyOf, keyOf(r.date));
    AddRow(rows, keyOf, r, keyOf(r.date));
  }

  /**
   * Every row lands in exactly one bucket, so across all buckets income plus
   * expenses is the sum of `|amount|` over the input.
   */
  lemma {:induction false} Conservation(rows: seq<TransactionData>, keyOf: Date -> string)
    ensures SumOf(Buckets(PeriodKeys(rows, keyOf), rows, keyOf), PointTotal) == SumOf(rows, RowMagnitude)
  {
    if rows != [] {
      var init, r := rows[..|rows| - 1], rows[|rows| - 1];
      var ks := PeriodKeys(init, keyOf);
      var k := keyOf(r.date);
      SplitLast(rows);
      Conservation(init, keyOf);
      assert SumOf(rows, RowMagnitude) == SumOf(init, RowMagnitude) + Abs(r.amount);
      assert SumOf(Buckets(ks, rows, keyOf), PointTotal) == SumOf(Buckets(ks, init, keyOf), PointTotal) + (if k in ks then Abs(r.amount) else 0) by {
        BucketsStep(ks, init, keyOf, r);
        SpreadDistinct(ks, keyOf, r);
      }
      if k in ks {
        assert PeriodKeys(rows, keyOf) == ks;
      } else {
        assert PeriodKeys(rows, keyOf) == ks + [k];
        var bs := Buckets(ks + [k], rows, keyOf);
        assert bs[..|bs| - 1] == Buckets(ks, rows, keyOf);
        FreshBucket(init, keyOf, r);
      }
    }
  }

  // ---------------------------------------------------------------- month keys

  /** For years 1000 to 9999 the month key is `YYYY-MM`, and reads back as the year and the month. */
  lemma MonthKeyFormat(d: Date)
    requires 1000 <= d.year <= 9999 && 1 <= d.month <= 12
    ensures var key := MonthKey(d);
      && |key| == 7 && key[4] == '-'
      && AllDigits(key[..4]) && RadixValue(key[..4], 10) == d.year
      && AllDigits(key[5..]) && RadixValue(key[5..], 10) == d.month
  {
    YearDigits(d.year);
    MonthDigits(d.month);
    KeyFields(IntString(d.year), PadStart(IntString(d.month), 2, '0'));
  }

  lemma MonthDigits(month: int)
    requires 1 <= month <= 12
    ensures var m := PadStart(IntString(month), 2, '0');
      |m| == 2 && AllDigits(m) && RadixValue(m, 10) == month
  {
    PaddedValue(month, 2);
    if month >= 10 {
      assert NatString(month) == NatString(month / 10) + [DigitChar(month % 10)];
    }
  }

  lemma KeyFields(y: string, m: string)
    requires |y| == 4 && |m| == 2
    ensures var key := y + "-" + m;
      |key| == 7 && key[4] == '-' && key[..4] == y && key[4..] == "-" + m && key[5..] == m
  {
  }

  /** For years 1000 to 9999, string order on month keys is chronological order of the months. */
  lemma MonthKeyChronological(a: Date, b: Date)
    requires 1000 <= a.year <= 9999 && 1 <= a.month <= 12
    requires 1000 <= b.year <= 9999 && 1 <= b.month <= 12
    ensures LexLe(MonthKey(a), MonthKey(b)) <==> (a.year < b.year || (a.year == b.year && a.month <= b.month))
  {
    var ya, ma := IntString(a.year), PadStart(IntString(a.month), 2, '0');
    var yb, mb := IntString(b.year), PadStart(IntString(b.month), 2, '0');
    YearDigits(a.year);
    YearDigits(b.year);
    MonthDigits(a.month);
    MonthDigits(b.month);
    KeyOrder(ya, ma, yb, mb);
  }

  lemma YearDigits(year: int)
    requires 1000 <= year <= 9999
    ensures var y := IntString(year);
      |y| == 4 && AllDigits(y) && RadixValue(y, 10) == year
  {
    FourDigits(year);
    NatStringValue(year);
  }

  /** `YYYY-MM` strings compare by year first, then by month. */
  lemma KeyOrder(ya: string, ma: string, yb: string, mb: string)
    requires |ya| == 4 && |yb| == 4 && |ma| == 2 && |mb| == 2
    requires AllDigits(ya) && AllDigits(yb) && AllDigits(ma) && AllDigits(mb)
    ensures var va, vb := RadixValue(ya, 10), RadixValue(yb, 10);
      LexLe(ya + "-" + ma, yb + "-" + mb)
      <==> (va < vb || (va == vb && RadixValue(ma, 10) <= RadixValue(mb, 10)))
  {
    assert ya + "-" + ma == ya + ("-" + ma) && yb + "-" + mb == yb + ("-" + mb);
    DigitsOrder(ya, yb);
    if ya == yb {
      LexLeCommonPrefix(ya, "-" + ma, "-" + mb);
      LexLeCommonPrefix("-", ma, mb);
      DigitsOrder(ma, mb);
    } else {
      LexLeFirstDifference(ya, yb, "-" + ma, "-" + mb);
      DigitsOrder(yb, ya);
      if RadixValue(ya, 10) == RadixValue(yb, 10) {
        LexLeAntisymmetric(ya, yb);
      }
    }
  }

  // ---------------------------------------------------------------- the filter action

  datatype TransactionType = AllTypes | IncomeType | ExpenseType

  datatype Period = Month | Week

  /**
   * The `filters` form field: a missing date bound is the empty string, and a
   * missing period is `None`.
   */
  datatype FilterOptions = FilterOptions(
    transactionType: TransactionType,
    selectedCategories: seq<string>, categoriesNegative: bool,
    selectedSubcategories: seq<string>,
    dateFrom: string, dateTo: string,
    searchValue: string, searchNegative: bool,
    period: Option<Period>)

  datatype CategoryRef = CategoryRef(id: int, name: string)

  /** A `transaction_categories` row with the operation date of its transaction. */
  datatype AllocationRow = AllocationRow(operationDate: Date, amount: int, categoryId: int, subcategoryId: Option<int>)

  /** `categories.find(c => c.name === name)?.id`: the id of the first category with that exact name. */
  function FindByName(categories: seq<CategoryRef>, name: string): (r: Option<int>)
    ensures r.None? <==> forall i :: 0 <= i < |categories| ==> categories[i].name != name
    ensures r.Some? ==> exists i :: 0 <= i < |categories| && categories[i].name == name && categories[i].id == r.value
                                   && forall j :: 0 <= j < i ==> categories[j].name != name
  {
    if categories == [] then None
    else if categories[0].name == name then Some(categories[0].id)
    else
      var r := FindByName(categories[1..], name);
      assert r.Some? ==> exists i :: 1 <= i < |categories| && categories[i].name == name && categories[i].id == r.value
                                    && forall j :: 0 <= j < i ==> categories[j].name != name by {
        if r.Some? {
          var i :| 0 <= i < |categories| - 1 && categories[1..][i].name == name && categories[1..][i].id == r.value
                   && forall j :: 0 <= j < i ==> categories[1..][j].name != name;
          assert forall j :: 0 <= j < i + 1 ==> categories[j].name != name by {
            forall j | 0 <= j < i + 1
              ensures categories[j].name != name
            {
              if j > 0 {
                assert categories[j] == categories[1..][j - 1];
              }
            }
          }
        }
      }
      r
  }

  /** The category the query leaves out: `if (transfersCategoryId)` is false for a missing id and for id 0. */
  function TransfersExclusion(categories: seq<CategoryRef>): Option<int> {
    match FindByName(categories, TransfersCategoryName)
    case Some(id) => if id != 0 then Some(id) else None
    case None => None
  }

  /** `selected.map(Number)`. */
  function Readings(selected: seq<string>): (r: seq<Option<int>>)
    ensures |r| == |selected|
    ensures forall i :: 0 <= i < |selected| ==> r[i] == NumberOf(selected[i])
  {
    seq(|selected|, i requires 0 <= i < |selected| => NumberOf(selected[i]))
  }

  /** `selected.map(Number).filter(id => !isNaN(id))`. */
  function ValidIds(selected: seq<string>): (ids: seq<int>)
    ensures |ids| <= |selected|
  {
    Defined(Readings(selected))
  }

  /** The conditions the action puts on the query; an empty id list puts none. */
  datatype Query = Query(
    from: Date, to: Date,
    excludeCategory: Option<int>,
    transactionType: TransactionType,
    categoryIds: seq<int>, categoriesNegative: bool,
    subcategoryIds: seq<int>)

  /**
   * The query the action builds; `None` when a date bound is not a
   * `YYYY-MM-DD` date, which the database rejects.
   */
  function BuildQuery(f: FilterOptions, categories: seq<CategoryRef>): Option<Query> {
    var from := ParseIsoDate(OrElse(Some(f.dateFrom), DefaultFromDate));
    var to := ParseIsoDate(OrElse(Some(f.dateTo), DefaultToDate));
    if from.None? || to.None? then None
    else Some(Query(from.value, to.value, TransfersExclusion(categories), f.transactionType,
                    ValidIds(f.selectedCategories), f.categoriesNegative, ValidIds(f.selectedSubcategories)))
  }

  /** `gte('amount', 0.01)` for income, `lt('amount', 0)` for expense, nothing for all. */
  predicate TypeMatches(t: TransactionType, amount: int) {
    match t
    case AllTypes => true
    case IncomeType => amount >= 1
    case ExpenseType => amount < 0
  }

  /** Whether the database returns `row` for query `q`. */
  predicate Matches(q: Query, row: AllocationRow) {
    && DateLe(q.from, row.operationDate) && DateLe(row.operationDate, q.to)
    && (q.excludeCategory.Some? ==> row.categoryId != q.excludeCategory.value)
    && TypeMatches(q.transactionType, row.amount)
    && (q.categoryIds == [] || (row.categoryId in q.categoryIds) != q.categoriesNegative)
    && (q.subcategoryIds == [] || (row.subcategoryId.Some? && row.subcategoryId.value in q.subcategoryIds))
  }

  /** `transactionData.map(t => ({ date: t.transaction.operation_date, amount: t.amount }))`. */
  function ChartRows(rows: seq<AllocationRow>): (data: seq<TransactionData>)
    ensures |data| == |rows|
    ensures forall i :: 0 <= i < |rows| ==> data[i] == TransactionData(rows[i].operationDate, rows[i].amount)
  {
    seq(|rows|, i requires 0 <= i < |rows| => TransactionData(rows[i].operationDate, rows[i].amount))
  }

  /** `filters.period.value || 'month'`; the week key is computed by the caller. */
  function PeriodKey(period: Option<Period>, weekKey: Date -> string): Date -> string {
    if period == Some(Week) then weekKey else MonthKey
  }

  datatype ActionResult = ActionFailure(error: string) | ActionSuccess(chartData: seq<ChartDataPoint>)

  /**
   * `actions.default`: the rows of `table` the query selects are grouped by
   * period. `queryFails` stands for an error reported by the database.
   */
  method FilterAction(f: FilterOptions, categories: seq<CategoryRef>, table: seq<AllocationRow>,
                      queryFails: bool, weekKey: Date -> string) returns (result: ActionResult)
    ensures result.ActionFailure? <==> queryFails || BuildQuery(f, categories).None?
    ensures result.ActionFailure? ==> result.error == "Failed to fetch analytics data"
    ensures result.ActionSuccess? ==>
      var q := BuildQuery(f, categories).value;
      var data := ChartRows(Filter(table, row => Matches(q, row)));
      var keyOf := PeriodKey(f.period, weekKey);
      && multiset(result.chartData) == multiset(Buckets(PeriodKeys(data, keyOf), data, keyOf))
      && Sorted(result.chartData, PeriodLe)
      && SumOf(result.chartData, PointTotal) == SumOf(data, RowMagnitude)
  {
    var query := BuildQuery(f, categories);
    if queryFails || query.None? {
      return ActionFailure("Failed to fetch analytics data");
    }
    var q := query.value;
    var data := ChartRows(Filter(table, row => Matches(q, row)));
    var chartData := GroupTransactionsByPeriod(data, PeriodKey(f.period, weekKey));
    return ActionSuccess(chartData);
  }

  // ---------------------------------------------------------------- properties of the row filter

  /** With both bounds blank the window is the whole of 2024. */
  lemma DefaultWindow(f: FilterOptions, categories: seq<CategoryRef>)
    requires f.dateFrom == "" && f.dateTo == ""
    ensures BuildQuery(f, categories).Some?
    ensures BuildQuery(f, categories).value.from == Date(2024, 1, 1)
    ensures BuildQuery(f, categories).value.to == Date(2024, 12, 31)
  {
    DefaultDates();
  }

  lemma DefaultDates()
    ensures ParseIsoDate(DefaultFromDate) == Some(Date(2024, 1, 1))
    ensures ParseIsoDate(DefaultToDate) == Some(Date(2024, 12, 31))
  {
    var from, to := DefaultFromDate, DefaultToDate;
    assert from[..4] == "2024" && from[5..7] == "01" && from[8..] == "01";
    assert to[..4] == "2024" && to[5..7] == "12" && to[8..] == "31";
    assert RadixValue("2024", 10) == 2024 by {
      assert "2024"[..3] == "202" && "202"[..2] == "20" && "20"[..1] == "2" && "2"[..0] == "";
    }
    assert RadixValue("01", 10) == 1 by {
      assert "01"[..1] == "0" && "0"[..0] == "";
    }
    assert RadixValue("12", 10) == 12 by {
      assert "12"[..1] == "1" && "1"[..0] == "";
    }
    assert RadixValue("31", 10) == 31 by {
      assert "31"[..1] == "3" && "3"[..0] == "";
    }
  }

  /**
   * When a category is named exactly `transfers ♻️` and the first such has a
   * non-zero id, no row of that category is ever charted; when no category has
   * that name, nothing is excluded on that account.
   */
  lemma TransfersExcluded(f: FilterOptions, categories: seq<CategoryRef>, row: AllocationRow)
    requires BuildQuery(f, categories).Some?
    ensures var q := BuildQuery(f, categories).value;
      && (FindByName(categories, TransfersCategoryName) == Some(row.categoryId) && row.categoryId != 0 ==> !Matches(q, row))
      && ((forall i :: 0 <= i < |categories| ==> categories[i].name != TransfersCategoryName) ==> q.excludeCategory == None)
  {
  }

  /**
   * A zero amount is charted (as income) under the `all` type but under
   * neither `income` nor `expense`; any other amount is kept under `all`
   * exactly when it is kept under one of the two.
   */
  lemma TypeFilterPartition(q: Query, row: AllocationRow)
    ensures var all, inc, exp := q.(transactionType := AllTypes), q.(transactionType := IncomeType), q.(transactionType := ExpenseType);
      && !(Matches(inc, row) && Matches(exp, row))
      && (row.amount == 0 ==> !Matches(inc, row) && !Matches(exp, row))
      && (row.amount != 0 ==> (Matches(all, row) <==> Matches(inc, row) || Matches(exp, row)))
  {
  }

  /** Text that `Number` reads as `NaN` is dropped from a selection. */
  lemma ValidIdsDropNaN(selected: seq<string>)
    requires forall i :: 0 <= i < |selected| ==> NumberOf(selected[i]).None?
    ensures ValidIds(selected) == []
  {
    DefinedNonePresent(Readings(selected));
  }

  /** The ids as the page sends them: `String(id)` each. */
  function IdStrings(ids: seq<int>): (texts: seq<string>)
    ensures |texts| == |ids|
    ensures forall i :: 0 <= i < |ids| ==> texts[i] == IntString(ids[i])
  {
    seq(|ids|, i requires 0 <= i < |ids| => IntString(ids[i]))
  }

  /** Ids sent as their decimal strings come back unchanged, in order. */
  lemma ValidIdsOfIntStrings(ids: seq<int>)
    ensures ValidIds(IdStrings(ids)) == ids
  {
    var readings := Readings(IdStrings(ids));
    forall i | 0 <= i < |ids|
      ensures readings[i] == Some(ids[i])
    {
      NumberOfIntString(ids[i]);
    }
    DefinedAllPresent(readings, ids);
  }

  /** A selection holding no valid id filters nothing, whatever its negation flag. */
  lemma InvalidSelectionIgnored(f: FilterOptions, categories: seq<CategoryRef>, row: AllocationRow)
    requires forall i :: 0 <= i < |f.selectedCategories| ==> NumberOf(f.selectedCategories[i]).None?
    requires BuildQuery(f, categories).Some?
    ensures BuildQuery(f, categories).value.categoryIds == []
    ensures Matches(BuildQuery(f, categories).value, row)
        <==> Matches(BuildQuery(f.(selectedCategories := []), categories).value, row)
  {
    ValidIdsDropNaN(f.selectedCategories);
  }

  /**
   * With valid ids selected, a row that passes every other condition is kept
   * by the `in` form exactly when the `not in` form drops it.
   */
  lemma NegationComplements(q: Query, row: AllocationRow)
    requires q.categoryIds != []
    requires Matches(q.(categoryIds := []), row)
    ensures Matches(q.(categoriesNegative := false), row) <==> !Matches(q.(categoriesNegative := true), row)
    ensures Matches(q.(categoriesNegative := false), row) <==> row.categoryId in q.categoryIds
  {
  }

  /** The search filter is carried in the form but never applied. */
  lemma SearchIgnored(f: FilterOptions, categories: seq<CategoryRef>, value: string, negative: bool)
    ensures BuildQuery(f.(searchValue := value, searchNegative := negative), categories) == BuildQuery(f, categories)
  {
  }

  /** Rows without a subcategory are dropped as soon as a valid subcategory id is selected. */
  lemma SubcategoryOnlyIncludes(q: Query, row: AllocationRow)
    requires q.subcategoryIds != [] && row.subcategoryId.None?
    ensures !Matches(q, row)
  {
  }
}
