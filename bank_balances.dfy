/**
 * `GET /api/bank-balances` (`src/routes/api/bank-balances/+server.ts`): the
 * rows of `get_bank_balances` become one bank entry each, and the total
 * balance is their sum. Balances are integers (cents).
 */
module BankBalances {
  import opened Js
  import opened Seqs

  /** A row of `get_bank_balances`. */
  datatype BalanceRow = BalanceRow(bankId: int, bankName: string, balance: int, accountCount: int)

  /** An entry of `banks`. */
  datatype Bank = Bank(id: int, name: string, balance: int, accountCounts: map<string, int>)

  /** What the RPC answers: an error, or data that may be null. */
  datatype RpcReply = RpcFails | RpcData(data: Option<seq<BalanceRow>>)

  /** The JSON body and its status; `error` is present only on a failure. */
  datatype BalancesResponse = BalancesResponse(status: int, banks: seq<Bank>, totalBalance: int, error: Option<string>)

  function ToBank(row: BalanceRow): Bank {
    Bank(row.bankId, row.bankName, row.balance, map["bank_account" := row.accountCount])
  }

  /** `data.map(bank => ({ id, name, balance, accountCounts: { bank_account } }))`. */
  function Banks(rows: seq<BalanceRow>): (banks: seq<Bank>)
    ensures |banks| == |rows|
    ensures forall i :: 0 <= i < |rows| ==> banks[i] == ToBank(rows[i])
  {
    if rows == [] then [] else Banks(rows[..|rows| - 1]) + [ToBank(rows[|rows| - 1])]
  }

  /** `banks.reduce((sum, bank) => sum + bank.balance, 0)`. */
  function TotalBalance(banks: seq<Bank>): int {
    SumOf(banks, (b: Bank) => b.balance)
  }

  function GetBankBalances(reply: RpcReply): BalancesResponse {
    if reply.RpcFails? then BalancesResponse(500, [], 0, Some("Failed to fetch bank data"))
    else if reply.data.None? then BalancesResponse(500, [], 0, Some("Internal server error"))
    else
      var banks := Banks(reply.data.value);
      BalancesResponse(200, banks, TotalBalance(banks), None)
  }

  /**
   * Each row gives one bank, in the same order: `bank_id`, `bank_name` and
   * `balance` become `id`, `name` and `balance`, and `accountCounts` holds
   * only the key `bank_account`, set to `account_count`.
   */
  lemma ProjectionSpec(rows: seq<BalanceRow>)
    ensures var banks := GetBankBalances(RpcData(Some(rows))).banks;
      && |banks| == |rows|
      && forall i :: 0 <= i < |rows| ==>
           && banks[i].id == rows[i].bankId
           && banks[i].name == rows[i].bankName
           && banks[i].balance == rows[i].balance
           && banks[i].accountCounts.Keys == {"bank_account"}
           && banks[i].accountCounts["bank_account"] == rows[i].accountCount
  {
  }

  /** The total is the sum of the rows' balances: 0 for no rows, and each further row adds its balance. */
  lemma {:induction false} TotalOfRows(rows: seq<BalanceRow>)
    ensures TotalBalance(Banks(rows)) == SumOf(rows, (r: BalanceRow) => r.balance)
  {
    if rows != [] {
      var init := rows[..|rows| - 1];
      TotalOfRows(init);
      assert Banks(rows)[..|rows| - 1] == Banks(init);
    }
  }

  /** With no negative balance the total is not negative. */
  lemma TotalNotNegative(rows: seq<BalanceRow>)
    requires forall i :: 0 <= i < |rows| ==> rows[i].balance >= 0
    ensures GetBankBalances(RpcData(Some(rows))).totalBalance >= 0
  {
    var banks := Banks(rows);
    SumOfNonNegative(banks, (b: Bank) => b.balance);
  }

  /**
   * An RPC error answers no banks, total 0 and `Failed to fetch bank data`;
   * null data makes the `map` throw, answered the same way with
   * `Internal server error`; both with status 500.
   */
  lemma FailuresAnswerNothing(reply: RpcReply)
    ensures var r := GetBankBalances(reply);
      && (r.status == 500 <==> reply.RpcFails? || reply.data.None?)
      && (r.status == 500 ==> r.banks == [] && r.totalBalance == 0)
      && (reply.RpcFails? ==> r.error == Some("Failed to fetch bank data"))
      && (reply.RpcData? && reply.data.None? ==> r.error == Some("Internal server error"))
      && (r.status != 500 ==> r.error.None? && r.totalBalance == SumOf(reply.data.value, (x: BalanceRow) => x.balance))
  {
    if reply.RpcData? && reply.data.Some? {
      TotalOfRows(reply.data.value);
    }
  }
}
