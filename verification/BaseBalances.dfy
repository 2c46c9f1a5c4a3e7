/** What an entry and its reversal put on one account in one store, in base. */
module BaseBalances {
  import opened Wrappers
  import opened Posting
  import opened PostingLaws
  import opened JournalLaws
  import opened Balances

  /** What some shares put on one account in one store, debits less credits. */
  function SharesNet(lines: seq<Line>, d: seq<int>, c: seq<int>, account: Id, store: Option<Id>): int {
    if lines == [] then 0
    else
      var n := |lines| - 1;
      var l := lines[n];
      SharesNet(lines[..n], d, c, account, store)
        + if l.account != Some(account) || l.store != store then 0
          else if l.side == Debit then ShareOf(lines, n, d, c) else -ShareOf(lines, n, d, c)
  }

  /** What lines posted at rate one put on one account in one store, in base. */
  function BaseNet(lines: seq<Line>, account: Id, store: Option<Id>): int {
    var (d, c) := (SharesOn(lines, Debit, 1.0), SharesOn(lines, Credit, 1.0));
    if d.Ok? && c.Ok? then SharesNet(lines, d.value, c.value, account, store) else 0
  }

  /** Allocated by their columns, the lines come to the same on this account in this store. */
  predicate BalanceSurvives(lines: seq<Line>, account: Id, store: Option<Id>) {
    BaseNet(Cut(lines), account, store) == BaseNet(lines, account, store)
  }

  lemma RowsMoveTheirShare(lines: seq<Line>, accounts: seq<Id>, currency: string, d: seq<int>, c: seq<int>, i: nat)
    requires AllSound(lines) && |accounts| == |lines| && i < |lines|
    ensures Movement(RowsOf(lines, accounts, currency, 1.0, d, c)[i], InBase)
         == if lines[i].side == Debit then ShareOf(lines, i, d, c) else -ShareOf(lines, i, d, c)
  {
    assert Sound(lines[i]);
  }

  lemma {:induction false} RowsNetTheirShares(lines: seq<Line>, accounts: seq<Id>, currency: string, d: seq<int>,
                                              c: seq<int>, account: Id, store: Option<Id>)
    requires AllSound(lines) && |accounts| == |lines|
    requires forall i :: 0 <= i < |lines| ==> lines[i].account == Some(accounts[i])
    ensures Net(RowsOf(lines, accounts, currency, 1.0, d, c), account, store, InBase)
      == SharesNet(lines, d, c, account, store)
  {
    hide AmountsOn, NextShare;
    if lines != [] {
      var n := |lines| - 1;
      RowsMoveTheirShare(lines, accounts, currency, d, c, n);
      var rows := RowsOf(lines, accounts, currency, 1.0, d, c);
      assert forall i :: 0 <= i < n ==> lines[..n][..i] == lines[..i];
      assert rows[..n] == RowsOf(lines[..n], accounts[..n], currency, 1.0, d, c);
      RowsNetTheirShares(lines[..n], accounts[..n], currency, d, c, account, store);
    }
  }

  /** Lines on the same accounts, stores and sides come to the same under the same shares. */
  ghost predicate SamePlaces(a: seq<Line>, b: seq<Line>) {
    |a| == |b| && forall i :: 0 <= i < |a| ==>
      a[i].account == b[i].account && a[i].store == b[i].store && a[i].side == b[i].side
  }

  lemma {:induction false} SamePlacesSameNet(a: seq<Line>, b: seq<Line>, d: seq<int>, c: seq<int>, account: Id,
                                             store: Option<Id>)
    requires SamePlaces(a, b)
    ensures SharesNet(a, d, c, account, store) == SharesNet(b, d, c, account, store)
  {
    if a != [] {
      var n := |a| - 1;
      SamePlacesSameNet(a[..n], b[..n], d, c, account, store);
      SameSidesSameShareOf(a, b, n, d, c);
    }
  }

  lemma {:induction false} FlippedNet(lines: seq<Line>, d: seq<int>, c: seq<int>, account: Id, store: Option<Id>)
    requires AllSound(lines)
    ensures SharesNet(FlipSides(lines), c, d, account, store) == -SharesNet(lines, d, c, account, store)
  {
    if lines != [] {
      var n := |lines| - 1;
      assert FlipSides(lines)[..n] == FlipSides(lines[..n]);
      FlippedNet(lines[..n], d, c, account, store);
      FlippedShareOf(lines, n, d, c);
      assert Sound(lines[n]);
    }
  }

  /** An entry whose lines name their accounts puts on each what its shares come to. */
  lemma EntriesNetTheirShares(chart: Chart, e: Entry, account: Id, store: Option<Id>)
    requires Postable(e) == Ok(e.lines) && e.rate == 1.0 && WrittenRows(chart, e, e.lines).Ok?
    requires forall i :: 0 <= i < |e.lines| ==> e.lines[i].account.Some?
    ensures Net(WrittenRows(chart, e, e.lines).value, account, store, InBase) == BaseNet(e.lines, account, store)
  {
    hide Postable, RowsOf, SharesOn, AmountsOn, SharesNet, Net;
    PostableLinesBalance(e);
    WrittenRowsBalance(chart, e, e.lines);
    var accounts := Accounts(chart, e.company, e.lines).value;
    RowsNetTheirShares(e.lines, accounts, e.currency, SharesOn(e.lines, Debit, 1.0).value,
                       SharesOn(e.lines, Credit, 1.0).value, account, store);
  }

  /** The flipped entry takes off each account what the stored amounts are allocated. */
  lemma FlippedEntriesNet(chart: Chart, rows: seq<Row>, e: Entry, account: Id, store: Option<Id>)
    requires AllWritable(rows) && |rows| >= 2 && e.rate == 1.0 && e.store.None?
    requires e.lines == FlipSides(LinesOf(rows).value)
    requires Postable(e).Ok? && WrittenRows(chart, e, Postable(e).value).Ok?
    ensures Net(WrittenRows(chart, e, Postable(e).value).value, account, store, InBase)
         == -BaseNet(LinesOf(rows).value, account, store)
  {
    hide Postable, WrittenRows, SharesOn, SharesNet, Net;
    var lines := LinesOf(rows).value;
    ReversalLinesArePostableIff(rows, e);
    EntriesReadBackSound(rows);
    TotalsReadBack(rows);
    FlippedSharesAreTheSame(lines);
    EntriesNetTheirShares(chart, e, account, store);
    if SharesOn(lines, Debit, 1.0).Ok? && SharesOn(lines, Credit, 1.0).Ok? {
      FlippedNet(lines, SharesOn(lines, Debit, 1.0).value, SharesOn(lines, Credit, 1.0).value, account, store);
    }
  }

  /** Read back, a newly posted entry comes to what its lines cut to their columns do. */
  lemma ReadBackNets(chart: Chart, e: Entry, account: Id, store: Option<Id>)
    requires Postable(e) == Ok(e.lines) && e.rate == 1.0 && WrittenRows(chart, e, e.lines).Ok?
    requires forall i :: 0 <= i < |e.lines| ==> e.lines[i].account.Some?
    ensures WrittenRows(chart, e, e.lines).value != []
    ensures BaseNet(LinesOf(WrittenRows(chart, e, e.lines).value).value, account, store)
      == BaseNet(Cut(e.lines), account, store)
  {
    hide Postable, WrittenRows, SharesOn, SharesNet;
    EntriesReadBackCut(chart, e, e.lines);
    var back := LinesOf(WrittenRows(chart, e, e.lines).value).value;
    WrittenRowsBalance(chart, e, e.lines);
    SameLegsSameShares(back, Cut(e.lines));
    assert SamePlaces(back, Cut(e.lines));
    if SharesOn(back, Debit, 1.0).Ok? && SharesOn(back, Credit, 1.0).Ok? {
      SamePlacesSameNet(back, Cut(e.lines), SharesOn(back, Debit, 1.0).value, SharesOn(back, Credit, 1.0).value,
                        account, store);
    }
  }

  /** Where no share moves, no balance does. */
  lemma SharesSurvivingKeepsBalances(lines: seq<Line>, account: Id, store: Option<Id>)
    requires SharesSurvive(lines)
    ensures BalanceSurvives(lines, account, store)
  {
    hide SharesOn, SharesNet;
    if SharesOn(lines, Debit, 1.0).Ok? && SharesOn(lines, Credit, 1.0).Ok? {
      SamePlacesSameNet(Cut(lines), lines, SharesOn(lines, Debit, 1.0).value, SharesOn(lines, Credit, 1.0).value,
                        account, store);
    }
  }
}
