/**
 * `src/routes/transactions/+server.ts`: `GET` answers one page of 20
 * transactions, newest operation date first, with the page count; `PATCH`
 * rewrites the `user_description` of one row of the `transactions` table.
 */
module TransactionsPage {
  import opened Js
  import opened Seqs
  import opened Forms

  /** A row of `transactions` with the columns the handlers read or write; dates are `YYYY-MM-DD`. */
  datatype Transaction = Transaction(id: int, operationDate: string, description: string, userDescription: Option<string>)

  const PageSize: nat := 20

  /** `.order('operation_date', { ascending: false })`: `a` may come before `b` when its date is not earlier. */
  predicate ByDateDesc(a: Transaction, b: Transaction) {
    LexLe(b.operationDate, a.operationDate)
  }

  lemma ByDateDescTotalPreorder()
    ensures TotalPreorder(ByDateDesc)
  {
    forall a, b
      ensures ByDateDesc(a, b) || ByDateDesc(b, a)
    {
      LexLeTotal(a.operationDate, b.operationDate);
    }
    forall a, b, c | ByDateDesc(a, b) && ByDateDesc(b, c)
      ensures ByDateDesc(a, c)
    {
      LexLeTransitive(c.operationDate, b.operationDate, a.operationDate);
    }
  }

  /** The table in the order the query asks for. */
  function Ordered(rows: seq<Transaction>): seq<Transaction> {
    Sort(rows, ByDateDesc)
  }

  /** `.range(offset, offset + pageSize - 1)`: at most 20 rows from `offset` on; none past the end. */
  function Window(ordered: seq<Transaction>, offset: nat): (r: seq<Transaction>)
    ensures |r| <= PageSize
    ensures offset >= |ordered| ==> r == []
    ensures offset < |ordered| ==> |r| == if offset + PageSize <= |ordered| then PageSize else |ordered| - offset
    ensures forall i :: 0 <= i < |r| ==> offset + i < |ordered| && r[i] == ordered[offset + i]
  {
    if offset >= |ordered| then []
    else
      var r := Take(ordered[offset..], PageSize);
      assert forall i :: 0 <= i < |r| ==> r[i] == ordered[offset..][i];
      r
  }

  /** `count ? Math.ceil(count / pageSize) : 0`. */
  function PageCount(count: nat): (n: nat)
    ensures count == 0 ==> n == 0
    ensures count > 0 ==> (n - 1) * PageSize < count <= n * PageSize
  {
    if count == 0 then 0 else CeilDiv(count, PageSize)
  }

  datatype PageResponse = PageResponse(status: int, transactions: seq<Transaction>, totalPages: int, currentPage: Option<int>)

  /** What a failed count or a failed fetch answers. */
  const ErrorPage := PageResponse(500, [], 0, Some(1))

  /**
   * `GET`: the page asked for (`'1'` when missing or empty, read by
   * `parseInt`) of the rows ordered by date, newest first. A page that is
   * NaN or below 1 makes a range the database refuses, which is answered
   * like a failed fetch.
   */
  function ListPage(rows: seq<Transaction>, pageParam: Option<string>, countFails: bool, fetchFails: bool): PageResponse {
    PageOf(rows, ParseInt(OrElse(pageParam, "1")), countFails, fetchFails)
  }

  /** The answer for a page number already read by `parseInt`. */
  function PageOf(rows: seq<Transaction>, page: Option<int>, countFails: bool, fetchFails: bool): PageResponse {
    if countFails then ErrorPage
    else if fetchFails || page.None? || page.value < 1 then ErrorPage
    else PageResponse(200, Window(Ordered(rows), (page.value - 1) * PageSize), PageCount(|rows|), page)
  }

  /**
   * A page that is answered holds at most 20 rows, the ones at positions
   * `(page - 1) * 20` on of the date-ordered table, themselves newest first
   * and all from the table; the page count covers the table; the requested
   * page is echoed without clamping. A page that is NaN or below 1 is
   * answered as an error.
   */
  lemma PageSpec(rows: seq<Transaction>, page: Option<int>)
    ensures var r := PageOf(rows, page, false, false);
      && (r.status == 200 <==> page.Some? && page.value >= 1)
      && (r.status == 200 ==>
            var offset := (page.value - 1) * PageSize;
            && |r.transactions| <= PageSize
            && (forall i :: 0 <= i < |r.transactions| ==> offset + i < |rows| && r.transactions[i] == Ordered(rows)[offset + i])
            && Sorted(r.transactions, ByDateDesc)
            && (forall t :: t in r.transactions ==> t in rows)
            && (|rows| > 0 ==> (r.totalPages - 1) * PageSize < |rows| <= r.totalPages * PageSize)
            && (|rows| == 0 ==> r.totalPages == 0)
            && r.currentPage == page)
      && (r.status != 200 ==> r == ErrorPage)
  {
    if page.Some? && page.value >= 1 {
      WindowSpec(rows, (page.value - 1) * PageSize);
    }
  }

  /** A missing or empty `page` parameter asks for page 1. */
  lemma DefaultPageIsFirst(rows: seq<Transaction>, pageParam: Option<string>, countFails: bool, fetchFails: bool)
    requires pageParam == None || pageParam == Some("")
    ensures ListPage(rows, pageParam, countFails, fetchFails) == PageOf(rows, Some(1), countFails, fetchFails)
  {
    ParseIntOfOne();
  }

  /** A window of the date order is that order from `offset` on, newest first, and holds only rows of the table. */
  lemma WindowSpec(rows: seq<Transaction>, offset: nat)
    ensures var w := Window(Ordered(rows), offset);
      forall i :: 0 <= i < |w| ==> offset + i < |rows| && w[i] == Ordered(rows)[offset + i]
    ensures Sorted(Window(Ordered(rows), offset), ByDateDesc)
    ensures forall t :: t in Window(Ordered(rows), offset) ==> t in rows
  {
    var ordered := Ordered(rows);
    var w := Window(ordered, offset);
    ByDateDescTotalPreorder();
    SortSorted(rows, ByDateDesc);
    forall i, j | 0 <= i < j < |w|
      ensures ByDateDesc(w[i], w[j])
    {
      assert w[i] == ordered[offset + i] && w[j] == ordered[offset + j];
    }
    forall t | t in w
      ensures t in rows
    {
      var i :| 0 <= i < |w| && w[i] == t;
      assert ordered[offset + i] == t;
      assert t in multiset(ordered);
    }
  }

  /** A failed count or a failed fetch answers no rows, no pages and page 1, with status 500. */
  lemma FailuresAnswerFirstPage(rows: seq<Transaction>, pageParam: Option<string>, countFails: bool, fetchFails: bool)
    requires countFails || fetchFails
    ensures ListPage(rows, pageParam, countFails, fetchFails) == PageResponse(500, [], 0, Some(1))
  {
  }

  /**
   * Every row is on exactly the page its rank gives: the row at position
   * `k` of the date order is row `k % 20` of page `k / 20 + 1`, and that
   * page is within the page count.
   */
  lemma EveryRowOnItsPage(rows: seq<Transaction>, k: nat)
    requires k < |rows|
    ensures var r := PageOf(rows, Some(k / PageSize + 1), false, false);
      && r.status == 200
      && k % PageSize < |r.transactions|
      && r.transactions[k % PageSize] == Ordered(rows)[k]
      && k / PageSize + 1 <= r.totalPages
  {
    RankOnPage(k, |rows|);
    WindowAt(rows, (k / PageSize) * PageSize, k % PageSize);
  }

  /** The page number written in decimal, as the page links write it, is read back as that page. */
  lemma DecimalPageParam(rows: seq<Transaction>, p: int)
    requires p >= 1
    ensures ListPage(rows, Some(IntString(p)), false, false) == PageOf(rows, Some(p), false, false)
  {
    ParseIntOfIntString(p);
    assert IntString(p) != "";
  }

  /** Place `i` of the window at `offset` holds rank `offset + i` of the date order. */
  lemma WindowAt(rows: seq<Transaction>, offset: nat, i: nat)
    requires offset + i < |rows| && i < PageSize
    ensures var w := Window(Ordered(rows), offset);
      i < |w| && w[i] == Ordered(rows)[offset + i]
  {
  }

  /** In particular the page number written in decimal, as the page links write it, shows row `k`. */
  lemma EveryRowOnItsDecimalPage(rows: seq<Transaction>, k: nat)
    requires k < |rows|
    ensures var r := ListPage(rows, Some(IntString(k / PageSize + 1)), false, false);
      && r.status == 200
      && k % PageSize < |r.transactions|
      && r.transactions[k % PageSize] == Ordered(rows)[k]
  {
    DecimalPageParam(rows, k / PageSize + 1);
    EveryRowOnItsPage(rows, k);
  }

  /** Rank `k` sits at place `k % 20` of page `k / 20 + 1`, which the page count covers when `k` is below it. */
  lemma RankOnPage(k: nat, count: nat)
    requires k < count
    ensures var p := k / PageSize + 1;
      && 0 <= (p - 1) * PageSize
      && (p - 1) * PageSize + k % PageSize == k
      && k % PageSize < PageSize
      && p <= PageCount(count)
  {
    var p := k / PageSize + 1;
    var n := PageCount(count);
    assert (p - 1) * PageSize + k % PageSize == k;
    assert (p - 1) * PageSize < n * PageSize;
  }

  // ---------------------------------------------------------------- PATCH

  /** The table after `.update({ user_description }).eq('id', id)`. */
  function WithDescription(rows: seq<Transaction>, id: int, d: Option<string>): (r: seq<Transaction>)
    ensures |r| == |rows|
  {
    seq(|rows|, i requires 0 <= i < |rows| => if rows[i].id == id then rows[i].(userDescription := d) else rows[i])
  }

  /**
   * The update writes `user_description` of the row with that id and
   * nothing else: every other column of that row and every other row stay
   * as they were. Writing the same value twice is writing it once.
   */
  lemma WithDescriptionSpec(rows: seq<Transaction>, id: int, d: Option<string>)
    ensures var r := WithDescription(rows, id, d);
      && (forall i :: 0 <= i < |rows| && rows[i].id != id ==> r[i] == rows[i])
      && (forall i :: 0 <= i < |rows| && rows[i].id == id ==>
            r[i].userDescription == d && r[i].(userDescription := rows[i].userDescription) == rows[i])
      && WithDescription(r, id, d) == r
  {
    var r := WithDescription(rows, id, d);
    assert forall i :: 0 <= i < |r| ==> r[i].id == rows[i].id;
  }

  datatype PatchResponse = PatchFailed(status: int, error: string) | PatchDone

  /** `transactions`, whose ids are distinct. */
  class TransactionTable {
    var rows: seq<Transaction>

    ghost predicate Valid()
      reads this
    {
      forall i, j :: 0 <= i < j < |rows| ==> rows[i].id != rows[j].id
    }

    constructor (initial: seq<Transaction>)
      requires forall i, j :: 0 <= i < j < |initial| ==> initial[i].id != initial[j].id
      ensures Valid() && rows == initial
    {
      rows := initial;
    }

    /**
     * `PATCH`: the id comes from the route and is read by the database as
     * a number; one it cannot read fails the statement, and so does a
     * backend error. A failure is a 500 and the table is unchanged.
     */
    method UpdateDescription(id: Option<string>, description: Option<string>, fails: bool) returns (r: PatchResponse)
      requires Valid()
      modifies this
      ensures Valid()
      ensures fails || RowId(id).None? ==> r == PatchFailed(500, "Failed to update transaction") && rows == old(rows)
      ensures !fails && RowId(id).Some? ==> r == PatchDone && rows == WithDescription(old(rows), RowId(id).value, description)
    {
      var target := RowId(id);
      if fails || target.None? {
        return PatchFailed(500, "Failed to update transaction");
      }
      var updated := WithDescription(rows, target.value, description);
      assert forall i :: 0 <= i < |rows| ==> updated[i].id == rows[i].id;
      rows := updated;
      r := PatchDone;
    }
  }
}
