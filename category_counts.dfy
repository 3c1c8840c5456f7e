/**
 * `GET /api/category-transaction-counts`
 * (`src/routes/api/category-transaction-counts/+server.ts`): the rows the
 * backend answers, one per category and subcategory, are folded into a map
 * of categories, each holding a map of its subcategories, and the maps are
 * returned as arrays.
 */
module CategoryCounts {
  import opened Js
  import opened Seqs
  import opened OrderedMaps

  /** A row of `get_category_transaction_counts`; counts may be null, `subcategory_id` null or 0. */
  datatype CountRow = CountRow(
    categoryId: int, categoryName: string, categoryCount: Option<int>,
    subcategoryId: Option<int>, subcategoryName: string, subcategoryCount: Option<int>)

  datatype SubcategoryCount = SubcategoryCount(id: int, name: string, transactionCount: int)

  /** A value of `categoryMap`, with its own `subcategories` map. */
  datatype CategoryEntry = CategoryEntry(id: int, name: string, transactionCount: int, subcategories: seq<Entry<int, SubcategoryCount>>)

  /** An element of the answer's `categories`. */
  datatype CategoryCount = CategoryCount(id: int, name: string, transactionCount: int, subcategories: seq<SubcategoryCount>)

  /** `count || 0`: null and 0 both give 0. */
  function OrZero(n: Option<int>): (r: int)
    ensures n.Some? && n.value != 0 ==> r == n.value
    ensures n.None? || n.value == 0 ==> r == 0
  {
    if n.Some? then n.value else 0
  }

  /** `if (item.subcategory_id)`: a subcategory is recorded only for a truthy id. */
  predicate HasSubcategory(r: CountRow) {
    r.subcategoryId.Some? && r.subcategoryId.value != 0
  }

  function SubcategoryOf(r: CountRow): SubcategoryCount
    requires HasSubcategory(r)
  {
    SubcategoryCount(r.subcategoryId.value, r.subcategoryName, OrZero(r.subcategoryCount))
  }

  function NewEntry(r: CountRow): CategoryEntry {
    CategoryEntry(r.categoryId, r.categoryName, OrZero(r.categoryCount), [])
  }

  /** The body of `data.forEach`. */
  function Step(m: seq<Entry<int, CategoryEntry>>, r: CountRow): seq<Entry<int, CategoryEntry>> {
    var m1 := if r.categoryId in Keys(m) then m else Put(m, r.categoryId, NewEntry(r));
    if HasSubcategory(r) then
      PutGet(m, r.categoryId, NewEntry(r), r.categoryId);
      var c := Get(m1, r.categoryId).value;
      Put(m1, r.categoryId, c.(subcategories := Put(c.subcategories, r.subcategoryId.value, SubcategoryOf(r))))
    else m1
  }

  /** The map after every row, one after another. */
  function Grouped(rows: seq<CountRow>): seq<Entry<int, CategoryEntry>> {
    if rows == [] then [] else Step(Grouped(rows[..|rows| - 1]), rows[|rows| - 1])
  }

  /** `{ ...category, subcategories: Array.from(category.subcategories.values()) }`. */
  function Converted(c: CategoryEntry): CategoryCount {
    CategoryCount(c.id, c.name, c.transactionCount, Values(c.subcategories))
  }

  function ConvertAll(cs: seq<CategoryEntry>): (r: seq<CategoryCount>)
    ensures |r| == |cs| && forall i :: 0 <= i < |cs| ==> r[i] == Converted(cs[i])
  {
    seq(|cs|, i requires 0 <= i < |cs| => Converted(cs[i]))
  }

  // ---------------------------------------------------------------- the reference definition

  function CategoryIds(rows: seq<CountRow>): (r: seq<int>)
    ensures |r| == |rows| && forall i :: 0 <= i < |rows| ==> r[i] == rows[i].categoryId
  {
    seq(|rows|, i requires 0 <= i < |rows| => rows[i].categoryId)
  }

  /** The rows of one category, in order. */
  function RowsOf(rows: seq<CountRow>, id: int): seq<CountRow> {
    Filter(rows, (r: CountRow) => r.categoryId == id)
  }

  /** The truthy subcategory ids of `rows`, in order, repeats included. */
  function SubcategoryIds(rows: seq<CountRow>): seq<int> {
    if rows == [] then []
    else SubcategoryIds(rows[..|rows| - 1]) + (if HasSubcategory(rows[|rows| - 1]) then [rows[|rows| - 1].subcategoryId.value] else [])
  }

  /** The last row carrying subcategory `s`. */
  function LastRowWith(rows: seq<CountRow>, s: int): (r: Option<CountRow>)
    ensures r.Some? <==> s in SubcategoryIds(rows)
    ensures r.Some? ==> HasSubcategory(r.value) && r.value.subcategoryId.value == s
  {
    if rows == [] then None
    else
      var last := rows[|rows| - 1];
      if HasSubcategory(last) && last.subcategoryId.value == s then Some(last)
      else LastRowWith(rows[..|rows| - 1], s)
  }

  /** One subcategory per truthy id, in order of first occurrence, with name and count of its last row. */
  function ExpectedSubcategories(rows: seq<CountRow>): seq<SubcategoryCount> {
    var ids := Dedup(SubcategoryIds(rows));
    seq(|ids|, i requires 0 <= i < |ids| => SubcategoryOf(LastRowWith(rows, ids[i]).value))
  }

  /** Category `id` with the name and count of its first row and the subcategories of all its rows. */
  function ExpectedCategory(rows: seq<CountRow>, id: int): CategoryCount
    requires id in CategoryIds(rows)
  {
    var first := rows[IndexOf(CategoryIds(rows), id)];
    CategoryCount(id, first.categoryName, OrZero(first.categoryCount), ExpectedSubcategories(RowsOf(rows, id)))
  }

  /** One category per distinct `category_id`, in order of first occurrence. */
  function Expected(rows: seq<CountRow>): (r: seq<CategoryCount>)
    ensures |r| == |Dedup(CategoryIds(rows))|
  {
    var ids := Dedup(CategoryIds(rows));
    seq(|ids|, i requires 0 <= i < |ids| => ExpectedCategory(rows, ids[i]))
  }

  /**
   * One category per distinct `category_id`: no id twice, every row's id
   * present, nothing else, in order of first occurrence.
   */
  lemma OneCategoryPerId(rows: seq<CountRow>)
    ensures var r := Expected(rows);
      && (forall i, j :: 0 <= i < j < |r| ==> r[i].id != r[j].id)
      && (forall k :: 0 <= k < |rows| ==> exists i :: 0 <= i < |r| && r[i].id == rows[k].categoryId)
      && (forall i :: 0 <= i < |r| ==> r[i].id in CategoryIds(rows))
      && (forall i, j :: 0 <= i < j < |r| ==> IndexOf(CategoryIds(rows), r[i].id) < IndexOf(CategoryIds(rows), r[j].id))
  {
    var r := Expected(rows);
    var ids := Dedup(CategoryIds(rows));
    ExpectedIds(rows);
    forall k | 0 <= k < |rows|
      ensures exists i :: 0 <= i < |r| && r[i].id == rows[k].categoryId
    {
      assert CategoryIds(rows)[k] in ids;
    }
    forall i, j | 0 <= i < j < |r|
      ensures IndexOf(CategoryIds(rows), r[i].id) < IndexOf(CategoryIds(rows), r[j].id)
    {
      DedupFirstOccurrenceOrder(CategoryIds(rows), i, j);
    }
  }

  lemma ExpectedIds(rows: seq<CountRow>)
    ensures forall i :: 0 <= i < |Expected(rows)| ==> Expected(rows)[i].id == Dedup(CategoryIds(rows))[i]
  {
  }

  /** Rows that come later never change a category's name or count: the first row's stay. */
  lemma LaterRowsKeepFirst(rows: seq<CountRow>, more: seq<CountRow>, id: int)
    requires id in CategoryIds(rows)
    ensures id in CategoryIds(rows + more)
    ensures ExpectedCategory(rows + more, id).name == ExpectedCategory(rows, id).name
    ensures ExpectedCategory(rows + more, id).transactionCount == ExpectedCategory(rows, id).transactionCount
  {
    assert CategoryIds(rows + more) == CategoryIds(rows) + CategoryIds(more);
    IndexOfAppend(CategoryIds(rows), CategoryIds(more), id);
  }

  /** A row without a truthy subcategory id adds no subcategory and changes none. */
  lemma FalsySubcategoryIgnored(rows: seq<CountRow>, r: CountRow)
    requires !HasSubcategory(r)
    ensures ExpectedSubcategories(rows + [r]) == ExpectedSubcategories(rows)
  {
    var rs := rows + [r];
    assert rs[..|rows|] == rows;
    assert SubcategoryIds(rs) == SubcategoryIds(rows);
    forall s | s in SubcategoryIds(rows)
      ensures LastRowWith(rs, s) == LastRowWith(rows, s)
    {
    }
  }

  /**
   * A repeated subcategory id keeps its first position and takes the name
   * and count of the later row; the other subcategories stay as they were.
   */
  lemma RepeatedSubcategoryOverwrites(rows: seq<CountRow>, r: CountRow)
    requires HasSubcategory(r) && r.subcategoryId.value in SubcategoryIds(rows)
    ensures var before, after := ExpectedSubcategories(rows), ExpectedSubcategories(rows + [r]);
      |after| == |before| &&
      forall i :: 0 <= i < |before| ==>
        after[i] == if before[i].id == r.subcategoryId.value then SubcategoryOf(r) else before[i]
  {
    var rs := rows + [r];
    var sid := r.subcategoryId.value;
    assert rs[..|rows|] == rows;
    var ids := SubcategoryIds(rows);
    assert SubcategoryIds(rs) == ids + [sid];
    assert (ids + [sid])[..|ids|] == ids;
    assert Dedup(SubcategoryIds(rs)) == Dedup(ids);
  }

  /** Recorded subcategories have truthy ids that never repeat. */
  lemma SubcategoriesTruthyAndDistinct(rows: seq<CountRow>)
    ensures var subs := ExpectedSubcategories(rows);
      forall i, j :: 0 <= i < |subs| && 0 <= j < |subs| ==> subs[i].id != 0 && (i != j ==> subs[i].id != subs[j].id)
  {
    var ids := Dedup(SubcategoryIds(rows));
    assert forall i :: 0 <= i < |ids| ==> ExpectedSubcategories(rows)[i].id == ids[i];
    TruthyIds(rows);
  }

  lemma {:induction false} TruthyIds(rows: seq<CountRow>)
    ensures forall s :: s in SubcategoryIds(rows) ==> s != 0
  {
    if rows != [] {
      TruthyIds(rows[..|rows| - 1]);
    }
  }

  // ---------------------------------------------------------------- the fold meets the reference

  /** The subcategory map built from the rows of one category. */
  function SubcategoryMap(rows: seq<CountRow>): seq<Entry<int, SubcategoryCount>> {
    if rows == [] then []
    else
      var m := SubcategoryMap(rows[..|rows| - 1]);
      var last := rows[|rows| - 1];
      if HasSubcategory(last) then Put(m, last.subcategoryId.value, SubcategoryOf(last)) else m
  }

  lemma {:induction false} SubcategoryMapSpec(rows: seq<CountRow>)
    ensures Keys(SubcategoryMap(rows)) == Dedup(SubcategoryIds(rows))
    ensures forall s :: s in SubcategoryIds(rows) ==> Get(SubcategoryMap(rows), s) == Some(SubcategoryOf(LastRowWith(rows, s).value))
  {
    if rows != [] {
      var init, last := rows[..|rows| - 1], rows[|rows| - 1];
      SubcategoryMapSpec(init);
      var ids := SubcategoryIds(init);
      if HasSubcategory(last) {
        assert SubcategoryIds(rows) == ids + [last.subcategoryId.value];
        assert (ids + [last.subcategoryId.value])[..|ids|] == ids;
        forall s | s in SubcategoryIds(rows)
          ensures Get(SubcategoryMap(rows), s) == Some(SubcategoryOf(LastRowWith(rows, s).value))
        {
          PutGet(SubcategoryMap(init), last.subcategoryId.value, SubcategoryOf(last), s);
        }
      } else {
        assert SubcategoryIds(rows) == ids;
      }
    }
  }

  lemma SubcategoryValues(rows: seq<CountRow>)
    ensures Values(SubcategoryMap(rows)) == ExpectedSubcategories(rows)
  {
    SubcategoryMapSpec(rows);
    var ids := Dedup(SubcategoryIds(rows));
    var f := (s: int) => if s in SubcategoryIds(rows) then SubcategoryOf(LastRowWith(rows, s).value) else SubcategoryCount(s, "", 0);
    ValuesByKeys(SubcategoryMap(rows), ids, f);
  }

  /** A category entry after one row of its own: the row's subcategory, if any, is set. */
  function Updated(c: CategoryEntry, r: CountRow): CategoryEntry {
    if HasSubcategory(r) then c.(subcategories := Put(c.subcategories, r.subcategoryId.value, SubcategoryOf(r))) else c
  }

  lemma StepKeys(g: seq<Entry<int, CategoryEntry>>, r: CountRow)
    ensures Keys(Step(g, r)) == if r.categoryId in Keys(g) then Keys(g) else Keys(g) + [r.categoryId]
  {
  }

  lemma StepGetSelf(g: seq<Entry<int, CategoryEntry>>, r: CountRow)
    ensures Get(Step(g, r), r.categoryId) == Some(Updated(if r.categoryId in Keys(g) then Get(g, r.categoryId).value else NewEntry(r), r))
  {
    var x := r.categoryId;
    var m1 := if x in Keys(g) then g else Put(g, x, NewEntry(r));
    PutGet(g, x, NewEntry(r), x);
    if HasSubcategory(r) {
      var c := Get(m1, x).value;
      PutGet(m1, x, c.(subcategories := Put(c.subcategories, r.subcategoryId.value, SubcategoryOf(r))), x);
    }
  }

  lemma StepGetOther(g: seq<Entry<int, CategoryEntry>>, r: CountRow, id: int)
    requires id != r.categoryId
    ensures Get(Step(g, r), id) == Get(g, id)
  {
    var x := r.categoryId;
    var m1 := if x in Keys(g) then g else Put(g, x, NewEntry(r));
    PutGet(g, x, NewEntry(r), id);
    if HasSubcategory(r) {
      PutGet(g, x, NewEntry(r), x);
      var c := Get(m1, x).value;
      PutGet(m1, x, c.(subcategories := Put(c.subcategories, r.subcategoryId.value, SubcategoryOf(r))), id);
    }
  }

  /** The entry the fold holds for category `id`. */
  function EntryFor(rows: seq<CountRow>, id: int): CategoryEntry
    requires id in CategoryIds(rows)
  {
    var first := rows[IndexOf(CategoryIds(rows), id)];
    CategoryEntry(id, first.categoryName, OrZero(first.categoryCount), SubcategoryMap(RowsOf(rows, id)))
  }

  lemma EntryForOther(rows: seq<CountRow>, id: int)
    requires rows != [] && id in CategoryIds(rows) && id != rows[|rows| - 1].categoryId
    ensures id in CategoryIds(rows[..|rows| - 1])
    ensures EntryFor(rows, id) == EntryFor(rows[..|rows| - 1], id)
  {
    var init := rows[..|rows| - 1];
    assert CategoryIds(init) == CategoryIds(rows)[..|rows| - 1];
    PrefixIndex(CategoryIds(rows), id);
    assert RowsOf(rows, id) == RowsOf(init, id);
  }

  lemma EntryForSelf(rows: seq<CountRow>)
    requires rows != []
    ensures var init, r := rows[..|rows| - 1], rows[|rows| - 1];
      r.categoryId in CategoryIds(rows) &&
      EntryFor(rows, r.categoryId) == Updated(if r.categoryId in CategoryIds(init) then EntryFor(init, r.categoryId) else NewEntry(r), r)
  {
    var init, r := rows[..|rows| - 1], rows[|rows| - 1];
    var x := r.categoryId;
    assert CategoryIds(rows)[|rows| - 1] == x;
    assert CategoryIds(init) == CategoryIds(rows)[..|rows| - 1];
    var own := RowsOf(init, x);
    assert RowsOf(rows, x) == own + [r];
    assert (own + [r])[..|own|] == own;
    if x in CategoryIds(init) {
      PrefixIndex(CategoryIds(rows), x);
    } else {
      assert IndexOf(CategoryIds(rows), x) == |rows| - 1;
      assert own == [] by {
        FilterNone(init, (r: CountRow) => r.categoryId == x);
      }
      assert RowsOf(rows, x) == [r];
      assert [r][..0] == [];
      assert SubcategoryMap([r]) == Updated(NewEntry(r), r).subcategories;
    }
  }

  lemma {:induction false} GroupedKeys(rows: seq<CountRow>)
    ensures Keys(Grouped(rows)) == Dedup(CategoryIds(rows))
  {
    if rows != [] {
      var init := rows[..|rows| - 1];
      GroupedKeys(init);
      StepKeys(Grouped(init), rows[|rows| - 1]);
      assert CategoryIds(init) == CategoryIds(rows)[..|rows| - 1];
    }
  }

  lemma {:induction false} GroupedSpec(rows: seq<CountRow>)
    ensures forall id :: id in CategoryIds(rows) ==> Get(Grouped(rows), id) == Some(EntryFor(rows, id))
  {
    if rows != [] {
      var init, r := rows[..|rows| - 1], rows[|rows| - 1];
      GroupedSpec(init);
      GroupedKeys(init);
      forall id | id in CategoryIds(rows)
        ensures Get(Grouped(rows), id) == Some(EntryFor(rows, id))
      {
        if id == r.categoryId {
          StepGetSelf(Grouped(init), r);
          EntryForSelf(rows);
        } else {
          StepGetOther(Grouped(init), r, id);
          EntryForOther(rows, id);
        }
      }
    }
  }

  /** The answer's categories are exactly the reference categories. */
  lemma GroupedIsExpected(rows: seq<CountRow>)
    ensures ConvertAll(Values(Grouped(rows))) == Expected(rows)
  {
    var ids := Dedup(CategoryIds(rows));
    var vs := Values(Grouped(rows));
    GroupedValues(rows);
    forall i | 0 <= i < |ids|
      ensures Converted(vs[i]) == Expected(rows)[i]
    {
      ConvertedEntry(rows, ids[i]);
    }
  }

  lemma GroupedValues(rows: seq<CountRow>)
    ensures var ids := Dedup(CategoryIds(rows));
      |Values(Grouped(rows))| == |ids| &&
      forall i :: 0 <= i < |ids| ==> Values(Grouped(rows))[i] == EntryFor(rows, ids[i])
  {
    var ids := Dedup(CategoryIds(rows));
    var f := (id: int) => if id in CategoryIds(rows) then EntryFor(rows, id) else NewEntry(CountRow(id, "", None, None, "", None));
    GroupedKeys(rows);
    GroupedSpec(rows);
    ValuesByKeys(Grouped(rows), ids, f);
  }

  lemma ConvertedEntry(rows: seq<CountRow>, id: int)
    requires id in CategoryIds(rows)
    ensures Converted(EntryFor(rows, id)) == ExpectedCategory(rows, id)
  {
    SubcategoryValues(RowsOf(rows, id));
  }

  // ---------------------------------------------------------------- the handler

  /** What the RPC answers: an error, or data that may be null. */
  datatype RpcResult = RpcError | RpcData(rows: Option<seq<CountRow>>)

  /** The JSON answer; a failure also carries `counts: []`. */
  datatype CountsResponse = CountsFailure(status: int, error: string) | CountsSuccess(categories: seq<CategoryCount>)

  method CategoryTransactionCounts(rpc: RpcResult) returns (response: CountsResponse)
    ensures rpc.RpcError? ==> response == CountsFailure(500, "Failed to fetch category transaction counts")
    ensures rpc == RpcData(None) ==> response == CountsFailure(500, "Internal server error")
    ensures rpc.RpcData? && rpc.rows.Some? ==> response == CountsSuccess(Expected(rpc.rows.value))
  {
    if rpc.RpcError? {
      return CountsFailure(500, "Failed to fetch category transaction counts");
    }
    if rpc.rows.None? {
      return CountsFailure(500, "Internal server error");
    }
    var data := rpc.rows.value;
    var categoryMap: seq<Entry<int, CategoryEntry>> := [];
    for i := 0 to |data|
      invariant categoryMap == Grouped(data[..i])
    {
      assert data[..i + 1][..i] == data[..i];
      categoryMap := Step(categoryMap, data[i]);
    }
    assert data[..|data|] == data;
    GroupedIsExpected(data);
    return CountsSuccess(ConvertAll(Values(categoryMap)));
  }
}
