/**
 * The server helpers of `src/lib/server/transactions.ts`: reading one
 * transaction, and replacing a transaction's category allocations by
 * deleting its rows of `transaction_categories` and inserting the new ones,
 * two separate statements.
 */
module TransactionStore {
  import opened Js
  import opened Seqs

  /** An allocation as the caller passes it. */
  datatype Allocation = Allocation(categoryId: int, subcategoryId: Option<int>, amount: int)

  /** A row of `transaction_categories`. */
  datatype AllocationRow = AllocationRow(transactionId: int, categoryId: int, subcategoryId: Option<int>, amount: int)

  /** `categories.map(cat => ({ transaction_id: id, ... }))`. */
  function RowsFor(id: int, allocations: seq<Allocation>): (r: seq<AllocationRow>)
    ensures |r| == |allocations|
    ensures forall i :: 0 <= i < |r| ==>
      r[i] == AllocationRow(id, allocations[i].categoryId, allocations[i].subcategoryId, allocations[i].amount)
  {
    seq(|allocations|, i requires 0 <= i < |allocations| =>
      AllocationRow(id, allocations[i].categoryId, allocations[i].subcategoryId, allocations[i].amount))
  }

  /** The allocations a transaction has in the table, in row order. */
  function AllocationsOf(rows: seq<AllocationRow>, id: int): seq<Allocation> {
    var own := Filter(rows, (r: AllocationRow) => r.transactionId == id);
    seq(|own|, i requires 0 <= i < |own| => Allocation(own[i].categoryId, own[i].subcategoryId, own[i].amount))
  }

  /** `.delete().eq('transaction_id', id)`. */
  function WithoutTransaction(rows: seq<AllocationRow>, id: int): seq<AllocationRow> {
    Filter(rows, (r: AllocationRow) => r.transactionId != id)
  }

  /** The table after both statements succeed. */
  function Replaced(rows: seq<AllocationRow>, id: int, allocations: seq<Allocation>): seq<AllocationRow> {
    WithoutTransaction(rows, id) + RowsFor(id, allocations)
  }

  datatype Outcome = Done | HttpError(status: int, message: string)

  class AllocationTable {
    var rows: seq<AllocationRow>

    constructor (initial: seq<AllocationRow>)
      ensures rows == initial
    {
      rows := initial;
    }

    /**
     * `updateTransactionCategories`. A failed delete changes nothing; a
     * failed insert comes after the delete, so the transaction is left with
     * no allocations at all; both answer the same 500.
     */
    method UpdateTransactionCategories(id: int, allocations: seq<Allocation>, deleteFails: bool, insertFails: bool)
      returns (outcome: Outcome)
      modifies this
      ensures deleteFails ==> outcome == HttpError(500, "Failed to update transaction categories") && rows == old(rows)
      ensures !deleteFails && insertFails ==>
        outcome == HttpError(500, "Failed to update transaction categories") && rows == WithoutTransaction(old(rows), id)
      ensures !deleteFails && !insertFails ==> outcome == Done && rows == Replaced(old(rows), id, allocations)
    {
      if deleteFails {
        return HttpError(500, "Failed to update transaction categories");
      }
      rows := WithoutTransaction(rows, id);
      if insertFails {
        return HttpError(500, "Failed to update transaction categories");
      }
      rows := rows + RowsFor(id, allocations);
      return Done;
    }
  }

  /** Once both statements succeed, the transaction's allocations are exactly the input list, in order. */
  lemma ReplacedHoldsInput(rows: seq<AllocationRow>, id: int, allocations: seq<Allocation>)
    ensures AllocationsOf(Replaced(rows, id, allocations), id) == allocations
  {
    var p := (r: AllocationRow) => r.transactionId == id;
    var written := RowsFor(id, allocations);
    assert Filter(Replaced(rows, id, allocations), p) == written by {
      FilterAppend(WithoutTransaction(rows, id), written, p);
      FilterNone(WithoutTransaction(rows, id), p);
      FilterAll(written, p);
    }
    var r := AllocationsOf(Replaced(rows, id, allocations), id);
    assert |r| == |allocations|;
    forall i | 0 <= i < |r|
      ensures r[i] == allocations[i]
    {
    }
  }

  /** The other transactions' rows are untouched, in place and in order. */
  lemma ReplacedKeepsOthers(rows: seq<AllocationRow>, id: int, allocations: seq<Allocation>, other: int)
    requires other != id
    ensures Filter(Replaced(rows, id, allocations), (r: AllocationRow) => r.transactionId == other)
         == Filter(rows, (r: AllocationRow) => r.transactionId == other)
  {
    var p := (r: AllocationRow) => r.transactionId == other;
    var q := (r: AllocationRow) => r.transactionId != id;
    FilterAppend(WithoutTransaction(rows, id), RowsFor(id, allocations), p);
    FilterNone(RowsFor(id, allocations), p);
    FilterOfFilter(rows, q, p);
  }

  /** Filtering by `q` then by `p` is filtering by `p` when `p` implies `q`. */
  lemma {:induction false} FilterOfFilter<T>(s: seq<T>, q: T -> bool, p: T -> bool)
    requires forall x :: p(x) ==> q(x)
    ensures Filter(Filter(s, q), p) == Filter(s, p)
  {
    if s != [] {
      var init, last := s[..|s| - 1], s[|s| - 1];
      FilterOfFilter(init, q, p);
      FilterAppend(Filter(init, q), if q(last) then [last] else [], p);
    }
  }

  /** Repeating the update with the same list leaves the table as one update left it. */
  lemma ReplaceIdempotent(rows: seq<AllocationRow>, id: int, allocations: seq<Allocation>)
    ensures Replaced(Replaced(rows, id, allocations), id, allocations) == Replaced(rows, id, allocations)
  {
    var q := (r: AllocationRow) => r.transactionId != id;
    FilterAppend(WithoutTransaction(rows, id), RowsFor(id, allocations), q);
    FilterNone(RowsFor(id, allocations), q);
    FilterIdempotent(rows, q);
  }

  /** After a failed insert the transaction has no allocations left: the replacement is not atomic. */
  lemma FailedInsertLosesAllocations(rows: seq<AllocationRow>, id: int)
    ensures AllocationsOf(WithoutTransaction(rows, id), id) == []
  {
    var p := (r: AllocationRow) => r.transactionId == id;
    FilterNone(WithoutTransaction(rows, id), p);
  }

  // ---------------------------------------------------------------- getTransaction

  datatype TransactionRecord = TransactionRecord(id: int, description: string, userDescription: Option<string>, operationDate: string)

  datatype Fetched = Found(transaction: TransactionRecord) | Failed(status: int, message: string)

  /**
   * `getTransaction`: `.single()` answers the one row with that id, and is
   * an error when there is none or more than one, or the query fails. The
   * inner `error(500, 'Failed to fetch transaction')` is thrown inside the
   * `try` and replaced by the outer `catch`.
   */
  function GetTransaction(table: seq<TransactionRecord>, id: int, queryFails: bool): Fetched {
    var matching := Filter(table, (t: TransactionRecord) => t.id == id);
    if queryFails || |matching| != 1 then Failed(500, "Internal server error")
    else Found(matching[0])
  }

  /**
   * The transaction is found exactly when the query works and one row has
   * the id, and then it is that row; every failure, the inner 500 included,
   * surfaces as a 500 'Internal server error'.
   */
  lemma GetTransactionSpec(table: seq<TransactionRecord>, id: int, queryFails: bool)
    ensures GetTransaction(table, id, queryFails).Found? <==>
      !queryFails && |Filter(table, (t: TransactionRecord) => t.id == id)| == 1
    ensures GetTransaction(table, id, queryFails).Found? ==>
      GetTransaction(table, id, queryFails).transaction.id == id && GetTransaction(table, id, queryFails).transaction in table
    ensures GetTransaction(table, id, queryFails).Failed? ==> GetTransaction(table, id, queryFails) == Failed(500, "Internal server error")
    ensures (forall i :: 0 <= i < |table| ==> table[i].id != id) ==> GetTransaction(table, id, queryFails).Failed?
  {
    var p := (t: TransactionRecord) => t.id == id;
    if forall i :: 0 <= i < |table| ==> table[i].id != id {
      FilterNone(table, p);
    }
  }
}
