/**
 * `GET /api/transactions/filtered` (`src/routes/api/transactions/filtered/+server.ts`):
 * query parameters read with their defaults, the argument record of the
 * `get_filtered_transactions` RPC, and the page arithmetic over its answer.
 * A JavaScript number that is NaN is `None` here; so is a `totalPages` that
 * `Math.ceil` makes NaN or infinite, which JSON writes as `null`.
 */
module FilteredTransactions {
  import opened Js
  import opened Seqs
  import opened Forms

  /** The query string: `get` answers the first value or null, `getAll` every value. */
  datatype Query = Query(
    dateFrom: Option<string>,
    dateTo: Option<string>,
    typeValue: Option<string>,
    sortColumn: Option<string>,
    sortDirection: Option<string>,
    page: Option<string>,
    pageSize: Option<string>,
    searchTerm: Option<string>,
    selectedCategories: seq<string>,
    isNegative: Option<string>)

  /** The arguments of `get_filtered_transactions`; `None` is `null`. */
  datatype RpcArguments = RpcArguments(
    dateFrom: Option<string>,
    dateTo: Option<string>,
    typeFilter: string,
    categoryIds: Option<seq<Option<int>>>,
    isNegative: bool,
    sortColumn: string,
    sortDirection: string,
    pageNumber: Option<int>,
    pageSize: Option<int>,
    searchTerm: Option<string>)

  datatype TransactionRow = TransactionRow(id: int, description: string, amount: int, operationDate: string)

  /** A result row of the RPC; `transactions` is `None` when it is null. */
  datatype PageRow = PageRow(totalCount: int, transactions: Option<seq<TransactionRow>>)

  datatype RpcReply = RpcFails | RpcData(data: Option<seq<PageRow>>)

  datatype FilteredResponse =
    | Failure(status: int, error: string)
    | Page(transactions: seq<TransactionRow>, totalCount: int, currentPage: Option<int>, totalPages: Option<int>)

  /** `value || null`: the empty string and a missing value both become null. */
  function OrNull(value: Option<string>): (r: Option<string>)
    ensures r.Some? <==> Truthy(value)
    ensures r.Some? ==> r == value
  {
    if Truthy(value) then value else None
  }

  /** `searchParams.getAll('categories.selected[]').map(id => parseInt(id))`. */
  function CategoryIds(selected: seq<string>): (r: seq<Option<int>>)
    ensures |r| == |selected|
    ensures forall i :: 0 <= i < |selected| ==> r[i] == ParseInt(selected[i])
  {
    seq(|selected|, i requires 0 <= i < |selected| => ParseInt(selected[i]))
  }

  function Arguments(q: Query): RpcArguments {
    var ids := CategoryIds(q.selectedCategories);
    RpcArguments(
      OrNull(q.dateFrom),
      OrNull(q.dateTo),
      OrElse(q.typeValue, "all"),
      if |ids| > 0 then Some(ids) else None,
      q.isNegative == Some("true"),
      OrElse(q.sortColumn, "operation_date"),
      OrElse(q.sortDirection, "desc"),
      ParseInt(OrElse(q.page, "1")),
      ParseInt(OrElse(q.pageSize, "30")),
      OrNull(Some(OrElse(q.searchTerm, ""))))
  }

  /**
   * `Math.ceil(total / pageSize)` as JSON writes it: `None` when the page size
   * is NaN or 0 (the quotient is NaN or infinite), else the least integer
   * not below the quotient, for either sign of the page size.
   */
  function TotalPages(total: int, pageSize: Option<int>): (r: Option<int>)
    ensures r.None? <==> pageSize.None? || pageSize.value == 0
    ensures r.Some? && pageSize.value > 0 ==> (r.value - 1) * pageSize.value < total <= r.value * pageSize.value
    ensures r.Some? && pageSize.value < 0 ==> r.value * pageSize.value <= total < (r.value - 1) * pageSize.value
  {
    if pageSize.None? || pageSize.value == 0 then None
    else if pageSize.value > 0 then Some(CeilDiv(total, pageSize.value))
    else Some(CeilDiv(-total, -pageSize.value))
  }

  /** `data?.[0] || { total_count: 0, transactions: [] }`. */
  function FirstRow(data: Option<seq<PageRow>>): PageRow {
    if data.Some? && |data.value| > 0 then data.value[0] else PageRow(0, Some([]))
  }

  /** The RPC arguments and the response. */
  datatype Handled = Handled(arguments: RpcArguments, response: FilteredResponse)

  function GetFilteredTransactions(q: Query, reply: RpcReply): Handled {
    var args := Arguments(q);
    if reply.RpcFails? then Handled(args, Failure(500, "Failed to fetch transactions"))
    else
      var row := FirstRow(reply.data);
      Handled(args, Page(
        if row.transactions.Some? then row.transactions.value else [],
        row.totalCount,
        args.pageNumber,
        TotalPages(row.totalCount, args.pageSize)))
  }

  /** The query with no parameter at all. */
  const EmptyQuery := Query(None, None, None, None, None, None, None, None, [], None)

  /**
   * Without parameters the RPC is asked for all types, sorted by
   * `operation_date` descending, page 1 of 30, with no date bound, no
   * category filter and no search.
   */
  lemma DefaultArguments()
    ensures Arguments(EmptyQuery) == RpcArguments(None, None, "all", None, false, "operation_date", "desc", Some(1), Some(30), None)
  {
    ParseIntOfOne();
    ParseThirty();
  }

  lemma ParseThirty()
    ensures ParseInt("30") == Some(30)
  {
    var d30 := ['3', '0'];
    assert RadixValue(d30, 10) == 30 by {
      assert d30[..1] == ['3'] && ['3'][..0] == [];
    }
    ParseIntPrefix(d30, []);
    assert d30 + [] == "30";
  }

  /**
   * The arguments carry every parameter: a given non-empty value is passed
   * as it is, an empty or missing one becomes its default (or null for the
   * dates and the search); `isNegative` holds exactly for the value `'true'`;
   * the category ids are every selected value through `parseInt`, in order
   * and NaN included, and null when none is selected.
   */
  lemma ArgumentsSpec(q: Query)
    ensures var a := Arguments(q);
      && (a.dateFrom.Some? <==> Truthy(q.dateFrom)) && (a.dateFrom.Some? ==> a.dateFrom == q.dateFrom)
      && (a.dateTo.Some? <==> Truthy(q.dateTo)) && (a.dateTo.Some? ==> a.dateTo == q.dateTo)
      && (a.searchTerm.Some? <==> Truthy(q.searchTerm)) && (a.searchTerm.Some? ==> a.searchTerm == q.searchTerm)
      && a.typeFilter == (if Truthy(q.typeValue) then q.typeValue.value else "all")
      && a.sortColumn == (if Truthy(q.sortColumn) then q.sortColumn.value else "operation_date")
      && a.sortDirection == (if Truthy(q.sortDirection) then q.sortDirection.value else "desc")
      && (a.isNegative <==> q.isNegative == Some("true"))
      && (a.categoryIds.None? <==> q.selectedCategories == [])
      && (a.categoryIds.Some? ==>
            && |a.categoryIds.value| == |q.selectedCategories|
            && forall i :: 0 <= i < |q.selectedCategories| ==> a.categoryIds.value[i] == ParseInt(q.selectedCategories[i]))
      && (Truthy(q.page) ==> a.pageNumber == ParseInt(q.page.value))
      && (!Truthy(q.page) ==> a.pageNumber == Some(1))
      && (Truthy(q.pageSize) ==> a.pageSize == ParseInt(q.pageSize.value))
      && (!Truthy(q.pageSize) ==> a.pageSize == Some(30))
  {
    ParseIntOfOne();
    ParseThirty();
  }

  /**
   * A selected value that starts with neither white space, a sign nor a
   * digit reaches the RPC as NaN in its own place: the list is neither
   * shortened nor reordered around it.
   */
  lemma CategoryIdsKeepNaN(selected: seq<string>, i: int)
    requires 0 <= i < |selected|
    requires selected[i] != [] && !IsWhitespace(selected[i][0]) && selected[i][0] != '-' && selected[i][0] != '+'
    requires DigitOf(selected[i][0]) >= 10
    ensures |CategoryIds(selected)| == |selected| && CategoryIds(selected)[i] == None
    ensures Arguments(Query(None, None, None, None, None, None, None, None, selected, None)).categoryIds.value[i] == None
  {
    ParseIntNoDigit(selected[i]);
  }

  /**
   * The response: an RPC error is a 500; otherwise the first result row
   * gives the page, a missing row counting as no transactions and total 0,
   * the requested page echoed unclamped, and the page count that covers the
   * total.
   */
  lemma ResponseSpec(q: Query, reply: RpcReply)
    ensures var h := GetFilteredTransactions(q, reply);
      && h.arguments == Arguments(q)
      && (reply.RpcFails? <==> h.response == Failure(500, "Failed to fetch transactions"))
      && (reply.RpcData? && (reply.data.None? || reply.data.value == []) ==>
            h.response == Page([], 0, Arguments(q).pageNumber, TotalPages(0, Arguments(q).pageSize)))
      && (reply.RpcData? && reply.data.Some? && reply.data.value != [] ==>
            var row := reply.data.value[0];
            && h.response.Page?
            && h.response.totalCount == row.totalCount
            && h.response.transactions == (if row.transactions.Some? then row.transactions.value else [])
            && h.response.currentPage == Arguments(q).pageNumber
            && h.response.totalPages == TotalPages(row.totalCount, Arguments(q).pageSize))
  {
  }
}
