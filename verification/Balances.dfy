/** Account balances, and when two entries undo each other. */
module Balances {
  import opened Wrappers
  import opened Posting

  /** Which pair of columns a balance is drawn from. */
  datatype Columns = InTransaction | InBase

  /** What a row adds to its account. */
  function Movement(r: Row, columns: Columns): int {
    match columns
    case InTransaction => r.debit - r.credit
    case InBase => r.baseDebit - r.baseCredit
  }

  /** What some rows add to one account in one store. */
  function Net(rows: seq<Row>, account: Id, store: Option<Id>, columns: Columns): int {
    if rows == [] then 0
    else
      var r := rows[|rows| - 1];
      Net(rows[..|rows| - 1], account, store, columns)
        + if r.account == account && r.store == store then Movement(r, columns) else 0
  }

  /** The balance of one account in one store. */
  function Balance(entries: seq<Posted>, account: Id, store: Option<Id>, columns: Columns): int {
    if entries == [] then 0
    else Balance(entries[..|entries| - 1], account, store, columns)
         + Net(entries[|entries| - 1].rows, account, store, columns)
  }

  /** Row for row, the opposite movement on the same account and store. */
  ghost predicate Undoes(undo: seq<Row>, rows: seq<Row>, columns: Columns) {
    && |undo| == |rows|
    && forall i :: 0 <= i < |rows| ==>
      && undo[i].account == rows[i].account && undo[i].store == rows[i].store
      && Movement(undo[i], columns) == -Movement(rows[i], columns)
  }

  lemma {:induction false} UndoingCancels(undo: seq<Row>, rows: seq<Row>, account: Id, store: Option<Id>,
                                          columns: Columns)
    requires Undoes(undo, rows, columns)
    ensures Net(undo, account, store, columns) == -Net(rows, account, store, columns)
  {
    if rows != [] {
      UndoingCancels(undo[..|undo| - 1], rows[..|rows| - 1], account, store, columns);
    }
  }
}
