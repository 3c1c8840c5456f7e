/**
 * `GET /api/financial-data` (`src/routes/api/financial-data/+server.ts`):
 * three query parameters with defaults, checked in order, then the
 * `get_financial_summary` call and a pass over its rows that makes every
 * row's `categories` an array.
 */
module FinancialData {
  import opened Js
  import opened Forms

  /** The arguments of `get_financial_summary`. */
  datatype SummaryCall = SummaryCall(periodType: string, numPeriods: int, periodOffset: int)

  /** One category share of a period; the backend decides what it holds. */
  datatype CategoryShare = CategoryShare(name: string, amount: int)

  /** A row of the summary; `categories` is `None` when the backend did not answer an array. */
  datatype SummaryRow = SummaryRow(period: string, income: int, expenses: int, categories: Option<seq<CategoryShare>>)

  /** A row of `chartData`. */
  datatype ChartRow = ChartRow(period: string, income: int, expenses: int, categories: seq<CategoryShare>)

  /** What the RPC answers: an error, or data that may be null. */
  datatype RpcReply = RpcFails | RpcRows(data: Option<seq<SummaryRow>>)

  datatype FinancialResponse = ErrorResponse(status: int, error: string) | ChartData(chartData: seq<ChartRow>)

  /** The RPC call made, if any, and the response. */
  datatype Handled = Handled(call: Option<SummaryCall>, response: FinancialResponse)

  /** `{ ...item, categories: Array.isArray(item.categories) ? item.categories : [] }`. */
  function Normalized(row: SummaryRow): ChartRow {
    ChartRow(row.period, row.income, row.expenses, if row.categories.Some? then row.categories.value else [])
  }

  /** `data?.map(Normalized) || []`. */
  function Transformed(data: Option<seq<SummaryRow>>): seq<ChartRow> {
    if data.None? then []
    else seq(|data.value|, i requires 0 <= i < |data.value| => Normalized(data.value[i]))
  }

  function GetFinancialData(period: Option<string>, offset: Option<string>, count: Option<string>, reply: RpcReply): Handled {
    var p := OrElse(period, "month");
    var o := ParseInt(OrElse(offset, "0"));
    var c := ParseInt(OrElse(count, "5"));
    if p != "month" && p != "year" then Handled(None, ErrorResponse(400, "Invalid period. Must be month or year."))
    else if o.None? || o.value < 0 then Handled(None, ErrorResponse(400, "Invalid offset. Must be a non-negative number."))
    else if c.None? || c.value <= 0 then Handled(None, ErrorResponse(400, "Invalid count. Must be a positive number."))
    else
      var call := Some(SummaryCall(p, c.value, o.value));
      if reply.RpcFails? then Handled(call, ErrorResponse(500, "Failed to fetch financial data"))
      else Handled(call, ChartData(Transformed(reply.data)))
  }

  /** The parameters pass every check. */
  predicate ValidParameters(period: Option<string>, offset: Option<string>, count: Option<string>) {
    && OrElse(period, "month") in {"month", "year"}
    && ParseInt(OrElse(offset, "0")).Some? && ParseInt(OrElse(offset, "0")).value >= 0
    && ParseInt(OrElse(count, "5")).Some? && ParseInt(OrElse(count, "5")).value > 0
  }

  /**
   * The summary is asked for exactly when all three parameters pass, and
   * then with their values; otherwise the answer is a 400 naming the first
   * check that failed, in the order period, offset, count.
   */
  lemma ChecksInOrder(period: Option<string>, offset: Option<string>, count: Option<string>, reply: RpcReply)
    ensures var h := GetFinancialData(period, offset, count, reply);
      && (h.call.Some? <==> ValidParameters(period, offset, count))
      && (h.call.Some? ==> h.call.value == SummaryCall(OrElse(period, "month"), ParseInt(OrElse(count, "5")).value, ParseInt(OrElse(offset, "0")).value))
      && (h.call.None? ==> h.response.ErrorResponse? && h.response.status == 400)
      && (OrElse(period, "month") !in {"month", "year"} ==> h.response.error == "Invalid period. Must be month or year.")
      && (OrElse(period, "month") in {"month", "year"} &&
          (ParseInt(OrElse(offset, "0")).None? || ParseInt(OrElse(offset, "0")).value < 0) ==>
            h.response.error == "Invalid offset. Must be a non-negative number.")
      && (OrElse(period, "month") in {"month", "year"} &&
          ParseInt(OrElse(offset, "0")).Some? && ParseInt(OrElse(offset, "0")).value >= 0 &&
          (ParseInt(OrElse(count, "5")).None? || ParseInt(OrElse(count, "5")).value <= 0) ==>
            h.response == ErrorResponse(400, "Invalid count. Must be a positive number."))
      && (h.call.Some? && reply.RpcFails? ==> h.response == ErrorResponse(500, "Failed to fetch financial data"))
  {
  }

  /** Without parameters the call asks for 5 months from offset 0. */
  lemma Defaults(reply: RpcReply)
    ensures GetFinancialData(None, None, None, reply).call == Some(SummaryCall("month", 5, 0))
  {
    DigitLiteral("0", 0);
    DigitLiteral("5", 5);
    assert OrElse(None, "month") == "month" && OrElse(None, "0") == "0" && OrElse(None, "5") == "5";
  }

  /** `parseInt` reads a numeric prefix: an offset of `'3x'` is offset 3. */
  lemma NumericPrefixAccepted(reply: RpcReply)
    ensures GetFinancialData(None, Some("3x"), None, reply).call == Some(SummaryCall("month", 5, 3))
  {
    DigitLiteral("5", 5);
    assert "3x" == [DigitChar(3), 'x'];
    DigitPrefix("3x", 3);
    assert OrElse(None, "month") == "month" && OrElse(Some("3x"), "0") == "3x" && OrElse(None, "5") == "5";
    assert ValidParameters(None, Some("3x"), None);
    ChecksInOrder(None, Some("3x"), None, reply);
  }

  lemma DigitPrefix(s: string, n: nat)
    requires 0 < n < 10 && s == [DigitChar(n), 'x']
    ensures ParseInt(s) == Some(n)
  {
    var d := [DigitChar(n)];
    assert d + "x" == s by {
      assert |d + "x"| == 2 && (d + "x")[0] == s[0] && (d + "x")[1] == s[1];
    }
    assert RadixValue(d, 10) == n by {
      assert d[..0] == [];
    }
    ParseIntPrefix(d, "x");
  }

  lemma DigitLiteral(s: string, n: nat)
    requires n < 10 && s == [DigitChar(n)]
    ensures ParseInt(s) == Some(n)
  {
    ParseIntOfIntString(n);
  }

  /**
   * The chart rows are the summary rows in the same order, each with its
   * fields unchanged except `categories`, which becomes `[]` when it was not
   * an array; null data gives no rows.
   */
  lemma TransformKeepsRows(data: Option<seq<SummaryRow>>)
    ensures data.None? ==> Transformed(data) == []
    ensures data.Some? ==> |Transformed(data)| == |data.value|
    ensures data.Some? ==> forall i :: 0 <= i < |data.value| ==>
      var row, out := data.value[i], Transformed(data)[i];
      && out.period == row.period && out.income == row.income && out.expenses == row.expenses
      && (row.categories.Some? ==> out.categories == row.categories.value)
      && (row.categories.None? ==> out.categories == [])
  {
  }
}
