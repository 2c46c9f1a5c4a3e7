/** When a journal can be undone, and when undoing it leaves no trace in a balance. */
module Reversals {
  import opened Wrappers
  import opened Rounding
  import opened Posting
  import opened PostingLaws
  import opened Journals
  import opened JournalLaws
  import opened Balances
  import opened LedgerInvariants
  import opened BaseBalances

  // ---------------------------------------------------------------------
  // When a reversal is accepted
  // ---------------------------------------------------------------------

  /** What the stored columns of an entry must satisfy for its opposite to be posted. */
  ghost predicate CanBeReversed(rows: seq<Row>) {
    && rows != []
    && StoredOn(rows, Debit) == StoredOn(rows, Credit)
    && var (lines, total) := (LinesOf(rows).value, Round(Amount(StoredOn(rows, Debit))));
    && total >= |AmountsOn(lines, Debit)| && total >= |AmountsOn(lines, Credit)|
  }

  /** Every account the entry went to is still the company's, and still takes postings. */
  ghost predicate AccountsStand(chart: Chart, company: Id, rows: seq<Row>) {
    forall i :: 0 <= i < |rows| ==>
      rows[i].account in chart.accounts && chart.accounts[rows[i].account] == Account(company, true)
  }

  lemma {:induction false} FlippedLinesAreAcceptedIff(chart: Chart, company: Id, rows: seq<Row>)
    requires AllWritable(rows) && rows != [] && StoredOn(rows, Debit) == StoredOn(rows, Credit)
    ensures AcceptedAtPar(chart, company, FlipSides(LinesOf(rows).value))
      <==> AccountsStand(chart, company, rows) && CanBeReversed(rows)
  {
    var lines := LinesOf(rows).value;
    var flipped := FlipSides(lines);
    EntriesReadBackSound(rows);
    TotalsReadBack(rows);
    FlippingMirrors(lines);
    MirroredLegsSwapAmounts(lines, flipped);
    forall i | 0 <= i < |rows|
      ensures Column(flipped[i].amount) > 0
      ensures AccountOf(chart, company, flipped[i]).Some?
        <==> rows[i].account in chart.accounts && chart.accounts[rows[i].account] == Account(company, true)
    {
      assert Writable(rows[i]);
      ColumnReadsBack(rows[i].debit);
      ColumnReadsBack(rows[i].credit);
    }
  }

  /** Exactly when a journal not yet reversed can be reversed. */
  lemma ReverseIsAcceptedIff(r: Register, i: nat, reason: string, uuid: Id, today: int, newId: Id)
    requires RegisterInv(r) && Fresh(r, newId) && i < |r.journals|
    requires r.journals[i].reverses.None? && ReversalOf(r.journals, r.journals[i].id).None?
    ensures var j := r.journals[i];
      && j.entry < |r.books.entries|
      && var rows := r.books.entries[j.entry].rows;
      && (AfterReverse(r, j.company, j.id, reason, uuid, today, newId).Ok? <==>
          && !Blank(reason)
          && JournalByUuid(r.journals, j.company, uuid).None?
          && PeriodIsOpen(r.books.chart, j.company, today)
          && AccountsStand(r.books.chart, j.company, rows)
          && CanBeReversed(rows))
  {
    hide AfterPost, AfterFiling, AfterReverse, Postable, WrittenRows, AcceptedAtPar, CanBeReversed;
    var j := r.journals[i];
    assert JournalInv(r, j) && EntryInv(r.books.entries[j.entry]);
    var rows := r.books.entries[j.entry].rows;
    var e := ReversalEntry(r, j, today, newId);
    ReverseIsFiling(r, i, reason, uuid, today, newId);
    FilingIsAcceptedIff(r, j.company, uuid, today, newId, Some(j.entry), Some(j.id), e.lines);
    ReversalLinesArePostableIff(rows, e);
    if StoredOn(rows, Debit) == StoredOn(rows, Credit) {
      FlippedLinesAreAcceptedIff(r.books.chart, j.company, rows);
    } else {
      UnbalancedColumnsCannot(rows);
    }
  }

  lemma UnbalancedColumnsCannot(rows: seq<Row>)
    requires StoredOn(rows, Debit) != StoredOn(rows, Credit)
    ensures !CanBeReversed(rows)
  {
  }

  // ---------------------------------------------------------------------
  // Journals in amounts the columns can hold
  // ---------------------------------------------------------------------

  ghost predicate TypedToFourDecimals(lines: seq<NewLine>) {
    forall i :: 0 <= i < |lines| ==> FitsItsColumn(lines[i].debit) && FitsItsColumn(lines[i].credit)
  }

  /** What a newly recorded journal posts: its own lines, in order. */
  lemma RecordPostsItsLines(r: Register, company: Id, j: NewJournal, newId: Id)
    requires RegisterInv(r) && Fresh(r, newId)
    requires JournalByUuid(r.journals, company, j.uuid).None? && AfterRecord(r, company, j, newId).Ok?
    ensures company in r.currencies && Validated(j).None?
    ensures var (after, k) := AfterRecord(r, company, j, newId).value;
      var e := JournalEntry(company, j.date.value, newId, r.currencies[company], None, LedgerLines(j.lines));
      && k == |r.journals| < |after.journals| && after.journals[k].company == company && after.journals[k].id == newId
      && after.journals[k].entry == |r.books.entries| == |after.books.entries| - 1
      && Postable(e) == Ok(LedgerLines(j.lines))
      && WrittenRows(r.books.chart, e, LedgerLines(j.lines)) == Ok(after.books.entries[|r.books.entries|].rows)
  {
    hide AfterPost, AfterFiling, Postable, WrittenRows;
    FilingAddsOneJournal(r, company, j.uuid, j.date.value, newId, None, None, LedgerLines(j.lines));
    var e := JournalEntry(company, j.date.value, newId, r.currencies[company], None, LedgerLines(j.lines));
    PostAppendsOneEntry(r.books, e);
    ValidatedJournalsArePostable(company, j, newId, r.currencies[company]);
  }

  // ---------------------------------------------------------------------
  // Undoing
  // ---------------------------------------------------------------------

  /** One register later than another: everything the first held is still there. */
  ghost predicate LaterThan(after: Register, before: Register) {
    && Appends(before.books.entries, after.books.entries)
    && |before.journals| <= |after.journals| && after.journals[..|before.journals|] == before.journals
  }

  /** The lines still balance once cut to their columns, and still come to a unit a line. */
  predicate ColumnsAllow(lines: seq<Line>) {
    var cut := Cut(lines);
    && Debits(cut) == Credits(cut)
    && Round(Debits(cut)) >= |AmountsOn(cut, Debit)| && Round(Debits(cut)) >= |AmountsOn(cut, Credit)|
  }

  /** What stands in the books of a recorded journal is reversible exactly when its typed lines are. */
  lemma RecordedRowsCanBeReversedIff(r: Register, company: Id, j: NewJournal, id: Id)
    requires RegisterInv(r) && Fresh(r, id)
    requires JournalByUuid(r.journals, company, j.uuid).None? && AfterRecord(r, company, j, id).Ok?
    ensures |r.books.entries| < |AfterRecord(r, company, j, id).value.0.books.entries|
    ensures CanBeReversed(AfterRecord(r, company, j, id).value.0.books.entries[|r.books.entries|].rows)
      <==> ColumnsAllow(LedgerLines(j.lines))
  {
    hide AfterPost, AfterFiling, AfterRecord, Postable, WrittenRows, RegisterInv;
    RecordPostsItsLines(r, company, j, id);
    var lines := LedgerLines(j.lines);
    var e := JournalEntry(company, j.date.value, id, r.currencies[company], None, lines);
    var rows := AfterRecord(r, company, j, id).value.0.books.entries[|r.books.entries|].rows;
    EntriesReadBackCut(r.books.chart, e, lines);
    WrittenRowsBalance(r.books.chart, e, lines);
    TotalsReadBack(rows);
    SameLegsSameAmounts(LinesOf(rows).value, Cut(lines), Debit);
    SameLegsSameAmounts(LinesOf(rows).value, Cut(lines), Credit);
  }

  /**
   Exactly when a recorded journal can be reversed at a later moment, whatever
   was posted in between: a reason, an unused identifier, an open period, the
   accounts still standing, and lines that balance once cut to their columns.
   */
  lemma JournalsCanBeReversedIff(
      r: Register, company: Id, j: NewJournal, id: Id, later: Register,
      reason: string, uuid: Id, today: int, newId: Id)
    requires RegisterInv(r) && Fresh(r, id)
    requires JournalByUuid(r.journals, company, j.uuid).None? && AfterRecord(r, company, j, id).Ok?
    requires RegisterInv(later) && LaterThan(later, AfterRecord(r, company, j, id).value.0) && Fresh(later, newId)
    requires ReversalOf(later.journals, id).None?
    ensures |r.books.entries| < |later.books.entries|
    ensures AfterReverse(later, company, id, reason, uuid, today, newId).Ok? <==>
      && !Blank(reason)
      && JournalByUuid(later.journals, company, uuid).None?
      && PeriodIsOpen(later.books.chart, company, today)
      && AccountsStand(later.books.chart, company, later.books.entries[|r.books.entries|].rows)
      && ColumnsAllow(LedgerLines(j.lines))
  {
    hide AfterPost, AfterFiling, AfterReverse, AfterRecord, Postable, WrittenRows, CanBeReversed;
    hide AccountsStand, PeriodIsOpen, RegisterInv, ColumnsAllow;
    RecordedJournalsStand(r, company, j, id, later);
    RecordedRowsCanBeReversedIff(r, company, j, id);
    ReverseIsAcceptedIff(later, |r.journals|, reason, uuid, today, newId);
  }

  /**
   A journal typed to four decimals is always one of those: nothing about its figures
   can stop or alter its reversal.
   */
  lemma FourDecimalJournalsCanBeReversed(r: Register, company: Id, j: NewJournal, id: Id)
    requires RegisterInv(r) && Fresh(r, id) && TypedToFourDecimals(j.lines)
    requires JournalByUuid(r.journals, company, j.uuid).None? && AfterRecord(r, company, j, id).Ok?
    ensures ColumnsAllow(LedgerLines(j.lines)) && SharesSurvive(LedgerLines(j.lines))
    ensures forall account, store :: BalanceSurvives(LedgerLines(j.lines), account, store)
  {
    hide AfterPost, AfterFiling, AfterRecord, Postable, WrittenRows, RegisterInv, BalanceSurvives;
    RecordPostsItsLines(r, company, j, id);
    var e := JournalEntry(company, j.date.value, id, r.currencies[company], None, LedgerLines(j.lines));
    PostableLinesBalance(e);
    RowsAreWrittenIff(r.books.chart, e, LedgerLines(j.lines));
    FittingLinesAreUncut(LedgerLines(j.lines));
    assert Debits(LedgerLines(j.lines)) * 1.0 == Debits(LedgerLines(j.lines));
    forall account, store ensures BalanceSurvives(LedgerLines(j.lines), account, store) {
      SharesSurvivingKeepsBalances(LedgerLines(j.lines), account, store);
    }
  }

  /** Where a recorded journal and its entry are found later. */
  lemma RecordedJournalsStand(r: Register, company: Id, j: NewJournal, id: Id, later: Register)
    requires RegisterInv(r) && Fresh(r, id)
    requires JournalByUuid(r.journals, company, j.uuid).None? && AfterRecord(r, company, j, id).Ok?
    requires RegisterInv(later) && LaterThan(later, AfterRecord(r, company, j, id).value.0)
    ensures |r.journals| < |later.journals| && |r.books.entries| < |later.books.entries|
    ensures var filed := later.journals[|r.journals|];
      filed.id == id && filed.company == company && filed.entry == |r.books.entries| && filed.reverses.None?
    ensures |r.books.entries| < |AfterRecord(r, company, j, id).value.0.books.entries|
    ensures later.books.entries[|r.books.entries|]
         == AfterRecord(r, company, j, id).value.0.books.entries[|r.books.entries|]
    ensures EntryInv(later.books.entries[|r.books.entries|])
  {
    hide AfterPost, AfterFiling, AfterRecord, Postable, WrittenRows, JournalInv, ReversesOne, OneOfEach, GapFree;
    RecordPostsItsLines(r, company, j, id);
    RecordKeepsTheRegister(r, company, j, id);
    var after := AfterRecord(r, company, j, id).value.0;
    assert later.journals[..|after.journals|][|r.journals|] == later.journals[|r.journals|];
    assert later.books.entries[..|after.books.entries|][|r.books.entries|] == later.books.entries[|r.books.entries|];
  }

  lemma BalanceOfAppend(before: seq<Posted>, after: seq<Posted>, account: Id, store: Option<Id>,
                                           columns: Columns)
    requires Appends(before, after) && |after| == |before| + 1
    ensures Balance(after, account, store, columns)
         == Balance(before, account, store, columns) + Net(after[|before|].rows, account, store, columns)
  {
  }

  /**
   What a new reversal appends: one entry that undoes its journal's, in base
   exactly when that one stands at par, and whose base total is that of the
   stored columns.
   */
  lemma ReversePostsTheOpposite(r: Register, i: nat, reason: string, uuid: Id, today: int, newId: Id)
    requires RegisterInv(r) && Fresh(r, newId) && i < |r.journals|
    requires r.journals[i].reverses.None? && ReversalOf(r.journals, r.journals[i].id).None?
    requires AfterReverse(r, r.journals[i].company, r.journals[i].id, reason, uuid, today, newId).Ok?
    ensures var j := r.journals[i];
      var after := AfterReverse(r, j.company, j.id, reason, uuid, today, newId).value.0;
      && j.entry < |r.books.entries|
      && Appends(r.books.entries, after.books.entries) && |after.books.entries| == |r.books.entries| + 1
      && EntryInv(after.books.entries[|r.books.entries|])
      && var (undo, rows) := (after.books.entries[|r.books.entries|].rows, r.books.entries[j.entry].rows);
      && Undoes(undo, rows, InTransaction) && (Undoes(undo, rows, InBase) <==> AtPar(rows))
      && BaseOn(undo, Debit) == Round(Amount(StoredOn(rows, Debit)))
      && rows != []
      && (forall account, store :: Net(undo, account, store, InBase) == -BaseNet(LinesOf(rows).value, account, store))
  {
    hide AfterPost, AfterFiling, AfterReverse, Postable, WrittenRows, AtPar, ReversesOne;
    hide OneOfEach, GapFree, JournalsGapFree, Net, BaseNet, IsConvertedTotal;
    var j := r.journals[i];
    assert JournalInv(r, j) && EntryInv(r.books.entries[j.entry]);
    var rows := r.books.entries[j.entry].rows;
    var e := ReversalEntry(r, j, today, newId);
    ReverseIsFiling(r, i, reason, uuid, today, newId);
    FilingAddsOneJournal(r, j.company, uuid, today, newId, Some(j.entry), Some(j.id), e.lines);
    PostAppendsOneEntry(r.books, e);
    PostAppendsABalancedEntry(r.books, e);
    FlippedEntryUndoesTheTransaction(r.books.chart, rows, e);
    FlippedEntryUndoesTheBaseIff(r.books.chart, rows, e);
    FlippedTotalIsTheColumns(r.books.chart, rows, e);
    forall account, store
      ensures Net(WrittenRows(r.books.chart, e, Postable(e).value).value, account, store, InBase)
           == -BaseNet(LinesOf(rows).value, account, store)
    {
      FlippedEntriesNet(r.books.chart, rows, e, account, store);
    }
  }

  /**
   What a new reversal writes: one entry on the day of the reversal, saying which
   entry it reverses, with every row turned round, and one register row that names
   the journal it reverses under the company's next number.
   */
  lemma ReverseWritesTheOpposite(r: Register, i: nat, reason: string, uuid: Id, today: int, newId: Id)
    requires RegisterInv(r) && Fresh(r, newId) && i < |r.journals|
    requires r.journals[i].reverses.None? && ReversalOf(r.journals, r.journals[i].id).None?
    requires AfterReverse(r, r.journals[i].company, r.journals[i].id, reason, uuid, today, newId).Ok?
    ensures var j := r.journals[i];
      var (after, k) := AfterReverse(r, j.company, j.id, reason, uuid, today, newId).value;
      && j.company in r.currencies && j.company in r.nextJournalNo && j.entry < |r.books.entries|
      && |after.books.entries| == |r.books.entries| + 1
      && var (posted, rows) := (after.books.entries[|r.books.entries|], r.books.entries[j.entry].rows);
      && posted.company == j.company && posted.date == today
      && posted.key == Key("manual_journal", Document(newId), "")
      && posted.reverses == Some(j.entry) && |posted.rows| == |rows|
      && (forall m :: 0 <= m < |rows| ==> TurnsRound(posted.rows[m], rows[m], r.currencies[j.company]))
      && k == |r.journals| && after.journals == r.journals
           + [Journal(newId, j.company, uuid, r.nextJournalNo[j.company], today, |r.books.entries|, Some(j.id))]
      && after.nextJournalNo == r.nextJournalNo[j.company := r.nextJournalNo[j.company] + 1]
  {
    hide AfterPost, AfterFiling, AfterReverse, Postable, WrittenRows, ReversesOne, OneOfEach, GapFree, TurnsRound;
    hide JournalsGapFree, IsConvertedTotal, BaseOn, StoredOn;
    var j := r.journals[i];
    assert JournalInv(r, j) && EntryInv(r.books.entries[j.entry]);
    var e := ReversalEntry(r, j, today, newId);
    ReverseIsFiling(r, i, reason, uuid, today, newId);
    FilingAddsOneJournal(r, j.company, uuid, today, newId, Some(j.entry), Some(j.id), e.lines);
    PostAppendsOneEntry(r.books, e);
    PostAppendsABalancedEntry(r.books, e);
    FlippedRowsTurnRound(r.books.chart, r.books.entries[j.entry].rows, e);
  }

  /**
   Exactly when the base columns come back too, row for row: when cutting the
   typed amounts to their columns moves no base share.
   */
  lemma ReversalRestoresTheBaseIff(
      r: Register, company: Id, j: NewJournal, id: Id, later: Register,
      reason: string, uuid: Id, today: int, newId: Id)
    requires RegisterInv(r) && Fresh(r, id)
    requires JournalByUuid(r.journals, company, j.uuid).None? && AfterRecord(r, company, j, id).Ok?
    requires RegisterInv(later) && LaterThan(later, AfterRecord(r, company, j, id).value.0) && Fresh(later, newId)
    requires ReversalOf(later.journals, id).None?
    requires AfterReverse(later, company, id, reason, uuid, today, newId).Ok?
    ensures var undone := AfterReverse(later, company, id, reason, uuid, today, newId).value.0;
      && |r.books.entries| < |later.books.entries| < |undone.books.entries|
      && (Undoes(undone.books.entries[|later.books.entries|].rows, later.books.entries[|r.books.entries|].rows, InBase)
          <==> SharesSurvive(LedgerLines(j.lines)))
  {
    hide AfterPost, AfterFiling, AfterReverse, AfterRecord, Postable, WrittenRows, AtPar;
    hide RegisterInv, EntryInv, Undoes, SharesSurvive;
    RecordedJournalsStand(r, company, j, id, later);
    RecordPostsItsLines(r, company, j, id);
    ReversePostsTheOpposite(later, |r.journals|, reason, uuid, today, newId);
    var e := JournalEntry(company, j.date.value, id, r.currencies[company], None, LedgerLines(j.lines));
    StandsAtParIff(r.books.chart, e, LedgerLines(j.lines));
  }

  /**
   Record, anything at all, then Reverse: what the reversal adds to an account in a
   store is exactly what the journal added, taken back, precisely when its lines,
   allocated by their columns, come to the same there. In the transaction columns
   that is always; in base it is so of every journal typed to four decimals.
   */
  lemma ReversingUndoesRecording(
      r: Register, company: Id, j: NewJournal, id: Id, later: Register,
      reason: string, uuid: Id, today: int, newId: Id, account: Id, store: Option<Id>, columns: Columns)
    requires RegisterInv(r) && Fresh(r, id)
    requires JournalByUuid(r.journals, company, j.uuid).None? && AfterRecord(r, company, j, id).Ok?
    requires RegisterInv(later) && LaterThan(later, AfterRecord(r, company, j, id).value.0) && Fresh(later, newId)
    requires ReversalOf(later.journals, id).None?
    requires AfterReverse(later, company, id, reason, uuid, today, newId).Ok?
    ensures var recorded := AfterRecord(r, company, j, id).value.0;
      var undone := AfterReverse(later, company, id, reason, uuid, today, newId).value.0;
      Balance(undone.books.entries, account, store, columns) - Balance(later.books.entries, account, store, columns)
        == -(Balance(recorded.books.entries, account, store, columns)
             - Balance(r.books.entries, account, store, columns))
      <==> columns == InTransaction || BalanceSurvives(LedgerLines(j.lines), account, store)
  {
    hide AfterPost, AfterFiling, AfterReverse, AfterRecord, Postable, WrittenRows, AtPar;
    hide RegisterInv, EntryInv, Undoes, BaseNet;
    RecordedJournalsStand(r, company, j, id, later);
    RecordPostsItsLines(r, company, j, id);
    RecordKeepsTheRegister(r, company, j, id);
    ReversePostsTheOpposite(later, |r.journals|, reason, uuid, today, newId);
    var e := JournalEntry(company, j.date.value, id, r.currencies[company], None, LedgerLines(j.lines));
    AllAccountsAreNamed(j.lines);
    EntriesNetTheirShares(r.books.chart, e, account, store);
    ReadBackNets(r.books.chart, e, account, store);
    var recorded := AfterRecord(r, company, j, id).value.0;
    var undone := AfterReverse(later, company, id, reason, uuid, today, newId).value.0;
    BalanceOfAppend(r.books.entries, recorded.books.entries, account, store, columns);
    BalanceOfAppend(later.books.entries, undone.books.entries, account, store, columns);
    if columns == InTransaction {
      UndoingCancels(undone.books.entries[|later.books.entries|].rows,
                     later.books.entries[|r.books.entries|].rows, account, store, columns);
    }
  }

  lemma AllAccountsAreNamed(lines: seq<NewLine>)
    requires FirstFault(lines).None?
    ensures forall i :: 0 <= i < |lines| ==> LedgerLines(lines)[i].account.Some?
  {
  }

  // ---------------------------------------------------------------------
  // Finer amounts
  // ---------------------------------------------------------------------

  /** A company with one open period and two accounts. */
  function TwoAccountShop(): Register {
    Register(Books(Chart([Period(1, 0, 9, Open)], map[7 := Account(1, true), 8 := Account(1, true)], map[]), [],
                   map[1 := 1]),
             map[1 := "SAR"], [], map[1 := 1])
  }

  lemma EmptyBooksAreInOrder()
    ensures RegisterInv(TwoAccountShop()) && Fresh(TwoAccountShop(), 2)
  {
  }

  /** 1.00005 twice against 2.0001, in hundredths: five decimals where the columns hold four. */
  function FiveDecimalJournal(): NewJournal {
    NewJournal(1, Some(5), "accrual",
      [NewLine(Some(7), 100.005, 0.0, None), NewLine(Some(7), 100.005, 0.0, None), NewLine(Some(8), 0.0, 200.01, None)])
  }

  lemma ThreeLineTotals(a: Line, b: Line, c: Line)
    requires a.side == Debit && b.side == Debit && c.side == Credit
    ensures Debits([a, b, c]) == a.amount + b.amount && Credits([a, b, c]) == c.amount
    ensures |AmountsOn([a, b, c], Debit)| == 2 && |AmountsOn([a, b, c], Credit)| == 1
  {
    TwoLineTotals(a, b);
    OneMoreLine([a, b], c);
    assert [a, b, c] == [a, b] + [c];
  }

  lemma FiveDecimalLines()
    ensures var lines := LedgerLines(FiveDecimalJournal().lines);
      && Debits(lines) == Credits(lines) == 200.01 && |AmountsOn(lines, Debit)| == 2 && |AmountsOn(lines, Credit)| == 1
      && Debits(Cut(lines)) == 200.02 && Credits(Cut(lines)) == 200.01
  {
    var lines := LedgerLines(FiveDecimalJournal().lines);
    var cut := Cut(lines);
    assert lines == [lines[0], lines[1], lines[2]] && cut == [cut[0], cut[1], cut[2]];
    assert Column(100.005) == 10001 && Column(200.01) == 20001;
    ThreeLineTotals(lines[0], lines[1], lines[2]);
    ThreeLineTotals(cut[0], cut[1], cut[2]);
  }

  /** With one open period and two accounts, a journal that balances at a unit a line or more is recorded. */
  lemma RecordedInTheShop(j: NewJournal)
    requires Validated(j).None? && j.date == Some(5)
    requires forall i :: 0 <= i < |j.lines| ==> j.lines[i].account == Some(7) || j.lines[i].account == Some(8)
    requires var lines := LedgerLines(j.lines);
      && Round(Debits(lines)) >= |AmountsOn(lines, Debit)| && Round(Debits(lines)) >= |AmountsOn(lines, Credit)|
      && forall i :: 0 <= i < |lines| ==> Column(lines[i].amount) > 0
    ensures AfterRecord(TwoAccountShop(), 1, j, 2).Ok?
  {
    hide AfterRecord, Validated;
    var r := TwoAccountShop();
    EmptyBooksAreInOrder();
    OpenAllYear(r.books.chart, 5);
    RecordedAtParIff(r, 1, j, 2);
  }

  lemma OpenAllYear(chart: Chart, on: int)
    requires chart == TwoAccountShop().books.chart && 0 <= on <= 9
    ensures PeriodIsOpen(chart, 1, on)
  {
  }

  lemma FiveDecimalJournalIsRecorded()
    ensures AfterRecord(TwoAccountShop(), 1, FiveDecimalJournal(), 2).Ok?
  {
    hide AfterRecord;
    var j := FiveDecimalJournal();
    FiveDecimalLines();
    assert j.reason[0] == 'a';
    assert FirstFault(j.lines).None?;
    TypedTotalsAreLedgerTotals(j.lines);
    assert Column(100.005) == 10001 && Column(200.01) == 20001;
    RecordedInTheShop(j);
  }

  /**
   The promise that a reversal undoes exactly what was posted does not reach
   amounts finer than the columns: here is a journal that is recorded, and whose
   reversal is refused for every reason, day and identifier, for ever after.
   */
  lemma FinerAmountsCanBarReversal(later: Register, reason: string, uuid: Id, today: int, newId: Id)
    requires RegisterInv(later) && Fresh(later, newId) && ReversalOf(later.journals, 2).None?
    requires AfterRecord(TwoAccountShop(), 1, FiveDecimalJournal(), 2).Ok?
    requires LaterThan(later, AfterRecord(TwoAccountShop(), 1, FiveDecimalJournal(), 2).value.0)
    ensures AfterReverse(later, 1, 2, reason, uuid, today, newId).Err?
  {
    hide AfterPost, AfterFiling, AfterReverse, AfterRecord, Postable, WrittenRows;
    FiveDecimalLines();
    EmptyBooksAreInOrder();
    JournalsCanBeReversedIff(TwoAccountShop(), 1, FiveDecimalJournal(), 2, later, reason, uuid, today, newId);
  }

  /** 1.494996 on each side, in hundredths: a hair under half a unit, which its columns round up to one half. */
  function SixDecimalJournal(): NewJournal {
    NewJournal(1, Some(5), "accrual", [NewLine(Some(7), 149.4996, 0.0, None), NewLine(Some(8), 0.0, 149.4996, None)])
  }

  lemma SixDecimalLines()
    ensures var lines := LedgerLines(SixDecimalJournal().lines);
      && Debits(lines) == Credits(lines) == 149.4996 && |AmountsOn(lines, Debit)| == |AmountsOn(lines, Credit)| == 1
      && Debits(Cut(lines)) == Credits(Cut(lines)) == 149.5
      && |AmountsOn(Cut(lines), Debit)| == |AmountsOn(Cut(lines), Credit)| == 1
  {
  }

  lemma SixDecimalJournalIsRecorded()
    ensures AfterRecord(TwoAccountShop(), 1, SixDecimalJournal(), 2).Ok?
  {
    hide AfterRecord;
    var j := SixDecimalJournal();
    SixDecimalLines();
    assert j.reason[0] == 'a';
    assert FirstFault(j.lines).None?;
    TypedTotalsAreLedgerTotals(j.lines);
    assert Column(149.4996) == 14950;
    RecordedInTheShop(j);
  }

  /** What stands in the books for it: 149 units, on a debit of one account and a credit of the other. */
  lemma SixDecimalRows(later: Register)
    requires RegisterInv(later) && AfterRecord(TwoAccountShop(), 1, SixDecimalJournal(), 2).Ok?
    requires LaterThan(later, AfterRecord(TwoAccountShop(), 1, SixDecimalJournal(), 2).value.0)
    ensures later.books.entries != [] && later.journals != []
    ensures var (filed, rows) := (later.journals[0], later.books.entries[0].rows);
      && filed.id == 2 && filed.company == 1 && filed.entry == 0 && filed.reverses.None?
      && |rows| == 2 && AllWritable(rows) && Balanced(rows)
      && rows[0].account == 7 && rows[0].store == None && rows[0].debit > 0 && rows[1].account == 8
      && rows[1].credit > 0
      && BaseOn(rows, Debit) == 149 && StoredOn(rows, Debit) == 14950
    ensures var recorded := AfterRecord(TwoAccountShop(), 1, SixDecimalJournal(), 2).value.0;
      recorded.books.entries == [later.books.entries[0]]
  {
    hide AfterPost, AfterFiling, AfterRecord, Postable, WrittenRows, RegisterInv;
    var (r, j) := (TwoAccountShop(), SixDecimalJournal());
    SixDecimalLines();
    EmptyBooksAreInOrder();
    RecordedJournalsStand(r, 1, j, 2, later);
    RecordPostsItsLines(r, 1, j, 2);
    var e := JournalEntry(1, 5, 2, "SAR", None, LedgerLines(j.lines));
    var rows := later.books.entries[0].rows;
    WrittenRowsBalance(r.books.chart, e, e.lines);
    EntriesReadBackCut(r.books.chart, e, e.lines);
    SameLegsSameAmounts(LinesOf(rows).value, Cut(e.lines), Debit);
    TotalsReadBack(rows);
    assert Writable(rows[0]) && Writable(rows[1]);
    assert Column(149.4996) == 14950;
  }

  /**
   Nor, where such a journal can be reversed, does its reversal always undo it in
   base: this one is recorded at 149 units, and every reversal of it takes 150
   off again, whenever and under whatever identifier it is made.
   */
  lemma FinerAmountsCanLeaveATrace(later: Register, reason: string, uuid: Id, today: int, newId: Id)
    requires RegisterInv(later) && Fresh(later, newId) && ReversalOf(later.journals, 2).None?
    requires AfterRecord(TwoAccountShop(), 1, SixDecimalJournal(), 2).Ok?
    requires LaterThan(later, AfterRecord(TwoAccountShop(), 1, SixDecimalJournal(), 2).value.0)
    requires AfterReverse(later, 1, 2, reason, uuid, today, newId).Ok?
    ensures var recorded := AfterRecord(TwoAccountShop(), 1, SixDecimalJournal(), 2).value.0;
      var undone := AfterReverse(later, 1, 2, reason, uuid, today, newId).value.0;
      && Balance(recorded.books.entries, 7, None, InBase) - Balance(TwoAccountShop().books.entries, 7, None, InBase)
        == 149
      && Balance(undone.books.entries, 7, None, InBase) - Balance(later.books.entries, 7, None, InBase) == -150
  {
    hide AfterPost, AfterFiling, AfterReverse, AfterRecord, RegisterInv, EntryInv, StoredOn, Net, BaseOn;
    SixDecimalRows(later);
    ReversePostsTheOpposite(later, 0, reason, uuid, today, newId);
    var recorded := AfterRecord(TwoAccountShop(), 1, SixDecimalJournal(), 2).value.0;
    var undone := AfterReverse(later, 1, 2, reason, uuid, today, newId).value.0;
    BalanceOfAppend([], recorded.books.entries, 7, None, InBase);
    BalanceOfAppend(later.books.entries, undone.books.entries, 7, None, InBase);
    var undo := undone.books.entries[|later.books.entries|].rows;
    assert AllWritable(undo) && Balanced(undo) by {
      EntriesInOrderBalance(undone.books.entries[|later.books.entries|]);
    }
    PairsNetTheirTotals(later.books.entries[0].rows, undo);
  }

  lemma EntriesInOrderBalance(p: Posted)
    requires EntryInv(p)
    ensures AllWritable(p.rows) && Balanced(p.rows)
  {
  }

  lemma OneMoreRow(rows: seq<Row>, r: Row, account: Id, store: Option<Id>)
    ensures BaseOn(rows + [r], Debit) == BaseOn(rows, Debit) + r.baseDebit
    ensures BaseOn(rows + [r], Credit) == BaseOn(rows, Credit) + r.baseCredit
    ensures Net(rows + [r], account, store, InBase) == Net(rows, account, store, InBase)
         + if r.account == account && r.store == store then r.baseDebit - r.baseCredit else 0
  {
    assert (rows + [r])[..|rows|] == rows;
  }

  lemma PairTotals(rows: seq<Row>, account: Id, store: Option<Id>)
    requires |rows| == 2 && rows[1].account != account
    ensures BaseOn(rows, Debit) == rows[0].baseDebit + rows[1].baseDebit
    ensures BaseOn(rows, Credit) == rows[0].baseCredit + rows[1].baseCredit
    ensures Net(rows, account, store, InBase)
         == if rows[0].account == account && rows[0].store == store then rows[0].baseDebit - rows[0].baseCredit else 0
  {
    var none: seq<Row> := [];
    OneMoreRow(none, rows[0], account, store);
    OneMoreRow([rows[0]], rows[1], account, store);
    assert none + [rows[0]] == [rows[0]] && [rows[0]] + [rows[1]] == rows;
  }

  /** A debit of one account against a credit of another, undone: the first gets the whole base total, and loses it. */
  lemma PairsNetTheirTotals(rows: seq<Row>, undo: seq<Row>)
    requires |rows| == 2 && AllWritable(rows) && AllWritable(undo) && Balanced(undo)
    requires Undoes(undo, rows, InTransaction)
    requires rows[0].account == 7 && rows[0].store == None && rows[0].debit > 0 && rows[1].account == 8
    requires rows[1].credit > 0
    ensures Net(rows, 7, None, InBase) == BaseOn(rows, Debit)
    ensures Net(undo, 7, None, InBase) == -BaseOn(undo, Debit)
  {
    assert Writable(rows[0]) && Writable(rows[1]) && Writable(undo[0]) && Writable(undo[1]);
    PairTotals(rows, 7, None);
    PairTotals(undo, 7, None);
  }

  /** And it can be reversed: on the spot, say. */
  lemma SixDecimalJournalCanBeReversed()
    ensures AfterRecord(TwoAccountShop(), 1, SixDecimalJournal(), 2).Ok?
    ensures AfterReverse(AfterRecord(TwoAccountShop(), 1, SixDecimalJournal(), 2).value.0, 1, 2, "undo", 2, 5, 3).Ok?
    ensures var later := AfterRecord(TwoAccountShop(), 1, SixDecimalJournal(), 2).value.0;
      Balance(AfterReverse(later, 1, 2, "undo", 2, 5, 3).value.0.books.entries, 7, None, InBase) == -1
  {
    hide AfterPost, AfterFiling, AfterReverse, AfterRecord, Postable, WrittenRows;
    hide RegisterInv, AccountsStand, Validated;
    var (r, j) := (TwoAccountShop(), SixDecimalJournal());
    SixDecimalLines();
    EmptyBooksAreInOrder();
    SixDecimalJournalIsRecorded();
    RecordKeepsTheRegister(r, 1, j, 2);
    var later := AfterRecord(r, 1, j, 2).value.0;
    RecordedInFull(r, j, later);
    assert "undo"[0] == 'u';
    OpenAllYear(later.books.chart, 5);
    JournalsCanBeReversedIff(r, 1, j, 2, later, "undo", 2, 5, 3);
    FinerAmountsCanLeaveATrace(later, "undo", 2, 5, 3);
    assert Balance(r.books.entries, 7, None, InBase) == 0;
  }

  /** What the register holds right after: one journal, one entry, on the company's own accounts. */
  lemma RecordedInFull(r: Register, j: NewJournal, later: Register)
    requires r == TwoAccountShop() && j == SixDecimalJournal() && AfterRecord(r, 1, j, 2) == Ok((later, 0))
    ensures Fresh(later, 3) && ReversalOf(later.journals, 2).None? && JournalByUuid(later.journals, 1, 2).None?
    ensures |later.books.entries| == 1 && AccountsStand(later.books.chart, 1, later.books.entries[0].rows)
  {
    hide AfterPost, AfterRecord, AfterFiling, Postable, WrittenRows, RegisterInv, Validated;
    EmptyBooksAreInOrder();
    RecordKeepsTheRegister(r, 1, j, 2);
    RecordPostsItsLines(r, 1, j, 2);
    RecordingFiles(r, 1, j, 2);
    FilingAddsOneJournal(r, 1, 1, 5, 2, None, None, LedgerLines(j.lines));
    WrittenOnTheShopsAccounts(j, later.books.entries[0].rows);
  }

  lemma RecordingFiles(r: Register, company: Id, j: NewJournal, newId: Id)
    requires JournalByUuid(r.journals, company, j.uuid).None? && AfterRecord(r, company, j, newId).Ok?
    ensures j.date.Some?
    ensures AfterRecord(r, company, j, newId)
         == AfterFiling(r, company, j.uuid, j.date.value, newId, None, None, LedgerLines(j.lines))
  {
    hide AfterFiling;
  }

  lemma WrittenOnTheShopsAccounts(j: NewJournal, rows: seq<Row>)
    requires j == SixDecimalJournal()
    requires var e := JournalEntry(1, 5, 2, "SAR", None, LedgerLines(j.lines));
      Postable(e) == Ok(e.lines) && WrittenRows(TwoAccountShop().books.chart, e, e.lines) == Ok(rows)
    ensures AccountsStand(TwoAccountShop().books.chart, 1, rows)
  {
    hide Postable, WrittenRows;
    WrittenRowsBalance(TwoAccountShop().books.chart, JournalEntry(1, 5, 2, "SAR", None, LedgerLines(j.lines)),
                       LedgerLines(j.lines));
  }
}
