/** What recording and reversing a journal by hand guarantee. */
module JournalLaws {
  import opened Wrappers
  import opened Refusals
  import opened Rounding
  import opened Sums
  import opened Posting
  import opened PostingLaws
  import opened Journals
  import opened Balances

  // ---------------------------------------------------------------------
  // Recording
  // ---------------------------------------------------------------------

  lemma {:induction false} TypedTotalsAreLedgerTotals(lines: seq<NewLine>)
    requires FirstFault(lines).None?
    ensures Debits(LedgerLines(lines)) == TypedDebits(lines)
    ensures Credits(LedgerLines(lines)) == TypedCredits(lines)
    ensures AllSound(LedgerLines(lines))
    ensures TypedDebits(lines) >= 0.0 && TypedCredits(lines) >= 0.0
    ensures lines != [] ==> TypedDebits(lines) > 0.0 || TypedCredits(lines) > 0.0
  {
    if lines != [] {
      var n := |lines| - 1;
      assert NewLineFault(lines[n]).None?;
      TypedTotalsAreLedgerTotals(lines[..n]);
      assert LedgerLines(lines)[..n] == LedgerLines(lines[..n]);
    }
  }

  /** The last check of `validateJournal` is never what refuses: the ones before it leave it nothing. */
  lemma AJournalOfNothingIsRefusedEarlier(j: NewJournal)
    ensures Validated(j) != Some(JournalOfNothing)
  {
    if FirstFault(j.lines).None? {
      TypedTotalsAreLedgerTotals(j.lines);
    }
    FirstFaultIsAFault(j.lines);
  }

  lemma {:induction false} FirstFaultIsAFault(lines: seq<NewLine>)
    ensures FirstFault(lines) in {None, Some(NoAccount), Some(NegativeAmount), Some(NotOneSide)}
  {
    if lines != [] {
      FirstFaultIsAFault(lines[..|lines| - 1]);
    }
  }

  /** Every journal that passes validation passes `usableLines` and the balance check untouched. */
  lemma ValidatedJournalsArePostable(company: Id, j: NewJournal, id: Id, currency: string)
    requires Validated(j).None?
    ensures Postable(JournalEntry(company, j.date.value, id, currency, None, LedgerLines(j.lines)))
         == Ok(LedgerLines(j.lines))
  {
    TypedTotalsAreLedgerTotals(j.lines);
    SoundLinesAreKept(LedgerLines(j.lines));
  }

  /** Filing adds one register row, pointing at the new entry it posted. */
  lemma FilingAddsOneJournal(
      r: Register, company: Id, uuid: Id, date: int, newId: Id, reversesEntry: Option<nat>,
      reverses: Option<Id>, lines: seq<Line>)
    requires Fresh(r, newId)
    requires AfterFiling(r, company, uuid, date, newId, reversesEntry, reverses, lines).Ok?
    ensures company in r.currencies && company in r.nextJournalNo
    ensures JournalByUuid(r.journals, company, uuid).None?
    ensures var posted := AfterPost(r.books,
                                    JournalEntry(company, date, newId, r.currencies[company], reversesEntry, lines));
      && posted.Ok? && !posted.value.1.alreadyPosted && posted.value.1.entry == |r.books.entries|
      && AfterFiling(r, company, uuid, date, newId, reversesEntry, reverses, lines).value
         == Filed(r, posted.value.0, Journal(newId, company, uuid, r.nextJournalNo[company], date,
                                             |r.books.entries|, reverses))
  {
    var e := JournalEntry(company, date, newId, r.currencies[company], reversesEntry, lines);
    NewKeysAreFree(r, newId);
    NewKeysAreNotReplays(r.books, e);
    PostAppendsOneEntry(r.books, e);
  }

  lemma NewKeysAreFree(r: Register, newId: Id)
    requires Fresh(r, newId)
    ensures EntryFor(r.books.entries, JournalKey(newId)).None?
  {
  }

  /** What the chart and the columns ask of lines posted at rate one. */
  ghost predicate AcceptedAtPar(chart: Chart, company: Id, lines: seq<Line>) {
    && (forall i :: 0 <= i < |lines| ==> AccountOf(chart, company, lines[i]).Some?)
    && Round(Debits(lines)) >= |AmountsOn(lines, Debit)|
    && Round(Debits(lines)) >= |AmountsOn(lines, Credit)|
    && (forall i :: 0 <= i < |lines| ==> Column(lines[i].amount) > 0)
  }

  lemma PostAtRateOneIsAcceptedIff(b: Books, e: Entry)
    requires EntryFor(b.entries, e.key).None? && e.rate == 1.0 && e.company in b.nextNo
    ensures AfterPost(b, e).Ok? <==>
      Postable(e).Ok? && PeriodFor(b.chart, e).Ok? && AcceptedAtPar(b.chart, e.company, Postable(e).value)
  {
    hide AfterPost, Postable, PeriodFor, EntryFor, AccountOf;
    PostableEntriesAreAcceptedIff(b, e);
    RoundOfWhole(100000000);
    assert RateColumn(1.0) > 0 && RateOf(e) == 1.0;
  }

  lemma FilingIsAcceptedIff(
      r: Register, company: Id, uuid: Id, date: int, newId: Id, reversesEntry: Option<nat>,
      reverses: Option<Id>, lines: seq<Line>)
    requires Fresh(r, newId)
    requires company in r.currencies && company in r.nextJournalNo && company in r.books.nextNo
    ensures AfterFiling(r, company, uuid, date, newId, reversesEntry, reverses, lines).Ok? <==>
      var e := JournalEntry(company, date, newId, r.currencies[company], reversesEntry, lines);
      && JournalByUuid(r.journals, company, uuid).None?
      && PeriodFor(r.books.chart, e).Ok?
      && Postable(e).Ok? && AcceptedAtPar(r.books.chart, company, Postable(e).value)
  {
    NewKeysAreFree(r, newId);
    PostAtRateOneIsAcceptedIff(r.books,
                               JournalEntry(company, date, newId, r.currencies[company], reversesEntry, lines));
  }

  /** The period an entry of a manual journal falls in is open. */
  ghost predicate PeriodIsOpen(chart: Chart, company: Id, on: int) {
    && CoveringPeriod(chart.periods, company, on).Some?
    && chart.periods[CoveringPeriod(chart.periods, company, on).value].state == Open
  }

  /** Exactly when a journal under a new identifier is accepted, in terms of the lines it posts. */
  lemma RecordedAtParIff(r: Register, company: Id, j: NewJournal, newId: Id)
    requires Fresh(r, newId) && JournalByUuid(r.journals, company, j.uuid).None?
    requires company in r.currencies && company in r.nextJournalNo && company in r.books.nextNo
    ensures AfterRecord(r, company, j, newId).Ok? <==>
      && Validated(j).None?
      && PeriodIsOpen(r.books.chart, company, j.date.value)
      && AcceptedAtPar(r.books.chart, company, LedgerLines(j.lines))
  {
    if Validated(j).None? {
      FilingIsAcceptedIff(r, company, j.uuid, j.date.value, newId, None, None, LedgerLines(j.lines));
      ValidatedJournalsArePostable(company, j, newId, r.currencies[company]);
    }
  }

  // ---------------------------------------------------------------------
  // In terms of what was typed
  // ---------------------------------------------------------------------

  function DebitsTyped(lines: seq<NewLine>): seq<real> {
    seq(|lines|, i requires 0 <= i < |lines| => lines[i].debit)
  }

  function CreditsTyped(lines: seq<NewLine>): seq<real> {
    seq(|lines|, i requires 0 <= i < |lines| => lines[i].credit)
  }

  /** How many lines have a debit. */
  function DebitLines(lines: seq<NewLine>): nat {
    if lines == [] then 0 else DebitLines(lines[..|lines| - 1]) + if lines[|lines| - 1].debit > 0.0 then 1 else 0
  }

  /** A line on an account, with an amount of half a ten-thousandth or more on one side and nothing on the other. */
  predicate LineIsTyped(chart: Chart, company: Id, l: NewLine) {
    && l.account.Some? && AccountStands(chart, company, l.account.value)
    && ((l.debit >= 0.005 && l.credit == 0.0) || (l.credit >= 0.005 && l.debit == 0.0))
  }

  /**
   What recording asks of a journal and the tables: a reason, a day in an open
   period, two to two hundred lines that balance, and a unit of the total for
   every leg on a side.
   */
  ghost predicate MayRecord(chart: Chart, company: Id, j: NewJournal) {
    && (exists i :: 0 <= i < |j.reason| && !IsSpace(j.reason[i]))
    && j.date.Some? && PeriodIsOpen(chart, company, j.date.value)
    && 2 <= |j.lines| <= 200
    && (forall i :: 0 <= i < |j.lines| ==> LineIsTyped(chart, company, j.lines[i]))
    && Total(DebitsTyped(j.lines)) == Total(CreditsTyped(j.lines))
    && Total(DebitsTyped(j.lines)) >= DebitLines(j.lines) as real - 0.5
    && Total(DebitsTyped(j.lines)) >= (|j.lines| - DebitLines(j.lines)) as real - 0.5
  }

  lemma {:induction false} TypedTotals(lines: seq<NewLine>)
    ensures TypedDebits(lines) == Total(DebitsTyped(lines)) && TypedCredits(lines) == Total(CreditsTyped(lines))
  {
    if lines != [] {
      var n := |lines| - 1;
      TypedTotals(lines[..n]);
      assert DebitsTyped(lines)[..n] == DebitsTyped(lines[..n]) && CreditsTyped(lines)[..n] == CreditsTyped(lines[..n]);
    }
  }

  lemma {:induction false} LegsAreTheTypedOnes(lines: seq<NewLine>)
    requires FirstFault(lines).None?
    ensures |AmountsOn(LedgerLines(lines), Debit)| == DebitLines(lines)
    ensures |AmountsOn(LedgerLines(lines), Credit)| == |lines| - DebitLines(lines)
  {
    if lines != [] {
      var n := |lines| - 1;
      assert LedgerLines(lines)[..n] == LedgerLines(lines[..n]);
      assert forall i :: 0 <= i < n ==> NewLineFault(lines[..n][i]).None?;
      LegsAreTheTypedOnes(lines[..n]);
      assert NewLineFault(lines[n]).None?;
    }
  }

  lemma TypedLinesPostIff(chart: Chart, company: Id, l: NewLine)
    ensures LineIsTyped(chart, company, l) <==>
      NewLineFault(l).None? && AccountOf(chart, company, LedgerLine(l)).Some? && Column(LedgerLine(l).amount) > 0
  {
    hide Column;
    ColumnShowsIff(LedgerLine(l).amount);
  }

  lemma RoundReachesIff(amount: real, n: nat)
    requires amount >= 0.0
    ensures Round(amount) >= n <==> amount >= n as real - 0.5
  {
  }

  /** Every character there is to trim. */
  const SPACES := "\t\n\U{0B}\U{0C}\r \U{85}\U{A0}\U{1680}"
               + "\U{2000}\U{2001}\U{2002}\U{2003}\U{2004}\U{2005}\U{2006}\U{2007}\U{2008}\U{2009}\U{200A}"
               + "\U{2028}\U{2029}\U{202F}\U{205F}\U{3000}"

  /** Text is blank when nothing else is in it. */
  lemma BlankTextIsSpaces(s: string)
    ensures Blank(s) <==> forall i :: 0 <= i < |s| ==> s[i] in SPACES
  {
  }

  lemma ValidatedIff(j: NewJournal)
    ensures Validated(j).None? <==>
      && (exists i :: 0 <= i < |j.reason| && !IsSpace(j.reason[i])) && j.date.Some? && 2 <= |j.lines| <= 200
      && FirstFault(j.lines).None? && Total(DebitsTyped(j.lines)) == Total(CreditsTyped(j.lines))
  {
    hide TypedDebits, TypedCredits, IsSpace;
    TypedTotals(j.lines);
    if FirstFault(j.lines).None? {
      TypedTotalsAreLedgerTotals(j.lines);
    }
    FirstFaultIsAFault(j.lines);
  }

  lemma AllLinesAreTypedIff(chart: Chart, company: Id, lines: seq<NewLine>)
    ensures (forall i :: 0 <= i < |lines| ==> LineIsTyped(chart, company, lines[i])) <==>
      && FirstFault(lines).None?
      && (forall i :: 0 <= i < |lines| ==> AccountOf(chart, company, LedgerLines(lines)[i]).Some?)
      && (forall i :: 0 <= i < |lines| ==> Column(LedgerLines(lines)[i].amount) > 0)
  {
    hide LineIsTyped, NewLineFault, AccountOf, Column, LedgerLine;
    forall i | 0 <= i < |lines| ensures LineIsTyped(chart, company, lines[i]) <==>
      NewLineFault(lines[i]).None? && AccountOf(chart, company, LedgerLines(lines)[i]).Some?
      && Column(LedgerLines(lines)[i].amount) > 0
    {
      TypedLinesPostIff(chart, company, lines[i]);
    }
  }

  /** Exactly when a journal under a new identifier is recorded. */
  lemma RecordIsAcceptedIff(r: Register, company: Id, j: NewJournal, newId: Id)
    requires Fresh(r, newId) && JournalByUuid(r.journals, company, j.uuid).None?
    requires company in r.currencies && company in r.nextJournalNo && company in r.books.nextNo
    ensures AfterRecord(r, company, j, newId).Ok? <==> MayRecord(r.books.chart, company, j)
  {
    hide AfterRecord, Validated, PeriodIsOpen, AccountOf, LineIsTyped, IsSpace, Fresh, JournalByUuid;
    hide LedgerLines, Column, AmountsOn, Debits, Total, DebitLines;
    RecordedAtParIff(r, company, j, newId);
    ValidatedIff(j);
    AllLinesAreTypedIff(r.books.chart, company, j.lines);
    if FirstFault(j.lines).None? {
      TypedTotals(j.lines);
      TypedTotalsAreLedgerTotals(j.lines);
      LegsAreTheTypedOnes(j.lines);
      DebitLinesAreLines(j.lines);
      RoundReachesIff(Debits(LedgerLines(j.lines)), DebitLines(j.lines));
      RoundReachesIff(Debits(LedgerLines(j.lines)), |j.lines| - DebitLines(j.lines));
    }
  }

  lemma {:induction false} DebitLinesAreLines(lines: seq<NewLine>)
    ensures DebitLines(lines) <= |lines|
  {
    if lines != [] {
      DebitLinesAreLines(lines[..|lines| - 1]);
    }
  }

  /** One row records one typed line: its account and store, and its amounts as their columns hold them, at par. */
  ghost predicate RecordsTyped(l: NewLine, row: Row, currency: string) {
    && l.account == Some(row.account) && row.store == l.store
    && NearestTo(row.debit, 100.0 * l.debit) && NearestTo(row.credit, 100.0 * l.credit)
    && row.currency == currency && row.rate == 100000000 && row.subledger == "" && row.subledgerId == None
  }

  /**
   What recording a new journal writes: one entry on the journal's day, a row for
   every typed line, in order, worth the total typed to the nearest unit in base,
   and one register row that names it under the company's next number.
   */
  lemma RecordWritesWhatWasTyped(r: Register, company: Id, j: NewJournal, newId: Id)
    requires Fresh(r, newId)
    requires JournalByUuid(r.journals, company, j.uuid).None? && AfterRecord(r, company, j, newId).Ok?
    ensures company in r.currencies && company in r.nextJournalNo && j.date.Some?
    ensures var (after, k) := AfterRecord(r, company, j, newId).value;
      && |after.books.entries| == |r.books.entries| + 1 && after.books.entries[..|r.books.entries|] == r.books.entries
      && var posted := after.books.entries[|r.books.entries|];
      && posted.company == company && posted.date == j.date.value
      && posted.key == Key("manual_journal", Document(newId), "")
      && posted.reverses == None && |posted.rows| == |j.lines|
      && (forall i :: 0 <= i < |j.lines| ==> RecordsTyped(j.lines[i], posted.rows[i], r.currencies[company]))
      && NearestTo(BaseOn(posted.rows, Debit), Total(DebitsTyped(j.lines)))
      && NearestTo(BaseOn(posted.rows, Credit), Total(DebitsTyped(j.lines)))
      && k == |r.journals| && after.journals == r.journals
           + [Journal(newId, company, j.uuid, r.nextJournalNo[company], j.date.value, |r.books.entries|, None)]
      && after.nextJournalNo == r.nextJournalNo[company := r.nextJournalNo[company] + 1]
  {
    hide AfterPost, AfterFiling, BaseOn, RecordsTyped, NearestTo, Total, Validated, Fresh, JournalByUuid;
    NewJournalsAreFiled(r, company, j, newId);
    FilingAddsOneJournal(r, company, j.uuid, j.date.value, newId, None, None, LedgerLines(j.lines));
    var e := JournalEntry(company, j.date.value, newId, r.currencies[company], None, LedgerLines(j.lines));
    TypedEntriesRecordTheirLines(r.books, j, e);
  }

  lemma NewJournalsAreFiled(r: Register, company: Id, j: NewJournal, newId: Id)
    requires JournalByUuid(r.journals, company, j.uuid).None? && AfterRecord(r, company, j, newId).Ok?
    ensures FirstFault(j.lines).None? && j.date.Some?
    ensures AfterRecord(r, company, j, newId)
         == AfterFiling(r, company, j.uuid, j.date.value, newId, None, None, LedgerLines(j.lines))
  {
    hide AfterFiling, FirstFault, TypedDebits, TypedCredits;
  }

  lemma TypedEntriesRecordTheirLines(b: Books, j: NewJournal, e: Entry)
    requires AfterPost(b, e).Ok? && !AfterPost(b, e).value.1.alreadyPosted
    requires FirstFault(j.lines).None? && e.lines == LedgerLines(j.lines) && e.rate == 1.0 && e.store == None
    ensures var after := AfterPost(b, e).value.0;
      && |after.entries| == |b.entries| + 1 && after.entries[..|b.entries|] == b.entries
      && var posted := after.entries[|b.entries|];
      && posted.company == e.company && posted.date == e.date && posted.key == e.key && posted.reverses == e.reverses
      && |posted.rows| == |j.lines|
      && (forall i :: 0 <= i < |j.lines| ==> RecordsTyped(j.lines[i], posted.rows[i], e.currency))
      && NearestTo(BaseOn(posted.rows, Debit), Total(DebitsTyped(j.lines)))
      && NearestTo(BaseOn(posted.rows, Credit), Total(DebitsTyped(j.lines)))
  {
    hide AfterPost, Postable, Records, BaseOn, NonZero, Debits, TypedDebits, SharesInOrder, RecordsTyped, Total;
    PostAppendsABalancedEntry(b, e);
    PostingRecordsItsLines(b, e);
    TypedTotalsAreLedgerTotals(j.lines);
    TypedTotals(j.lines);
    SoundLinesAreKept(e.lines);
    LinesAreKeptIff(e.lines);
    var rows := AfterPost(b, e).value.0.entries[|b.entries|].rows;
    forall i | 0 <= i < |j.lines| ensures RecordsTyped(j.lines[i], rows[i], e.currency) {
      assert NewLineFault(j.lines[i]).None?;
      TypedLinesAreRecorded(b.chart, e, j.lines[i], rows[i]);
    }
  }

  lemma TypedLinesAreRecorded(chart: Chart, e: Entry, l: NewLine, row: Row)
    requires NewLineFault(l).None? && Records(chart, e, LedgerLine(l), row) && e.rate == 1.0 && e.store == None
    ensures RecordsTyped(l, row, e.currency)
  {
  }

  // ---------------------------------------------------------------------
  // Reading an entry back
  // ---------------------------------------------------------------------

  lemma ColumnReadsBack(q: int)
    ensures Column(Amount(q)) == q
  {
  }

  lemma EntriesReadBackSound(rows: seq<Row>)
    requires AllWritable(rows) && rows != []
    ensures AllSound(LinesOf(rows).value) && AllSound(FlipSides(LinesOf(rows).value))
  {
  }

  /** An entry's totals read back as its stored columns. */
  lemma {:induction false} TotalsReadBack(rows: seq<Row>)
    requires AllWritable(rows) && rows != []
    ensures Debits(LinesOf(rows).value) == Amount(StoredOn(rows, Debit))
    ensures Credits(LinesOf(rows).value) == Amount(StoredOn(rows, Credit))
  {
    var n := |rows| - 1;
    var lines := LinesOf(rows).value;
    assert Writable(rows[n]);
    if n > 0 {
      TotalsReadBack(rows[..n]);
      assert lines[..n] == LinesOf(rows[..n]).value;
    } else {
      assert lines[..n] == [] && rows[..n] == [];
    }
  }

  lemma FlippingMirrors(lines: seq<Line>)
    requires AllSound(lines)
    ensures MirroredLegs(lines, FlipSides(lines))
  {
  }

  /** The lines a reversal posts, and when they still balance: when the stored columns do. */
  lemma {:induction false} ReversalLinesArePostableIff(rows: seq<Row>, e: Entry)
    requires AllWritable(rows) && |rows| >= 2 && e.rate == 1.0 && e.store.None?
    requires e.lines == FlipSides(LinesOf(rows).value)
    ensures Postable(e).Ok? <==> StoredOn(rows, Debit) == StoredOn(rows, Credit)
    ensures Postable(e).Ok? ==> Postable(e).value == e.lines
  {
    var lines := LinesOf(rows).value;
    EntriesReadBackSound(rows);
    TotalsReadBack(rows);
    SoundLinesAreKept(e.lines);
    FlippingMirrors(lines);
    MirroredLegsSwapAmounts(lines, e.lines);
    assert UsableLines(e.lines) == Ok(e.lines);
    if Postable(e).Ok? {
      assert Debits(e.lines) == Credits(e.lines);
    } else {
      assert StoredOn(rows, Debit) != StoredOn(rows, Credit);
    }
  }

  // ---------------------------------------------------------------------
  // What a reversal writes
  // ---------------------------------------------------------------------

  /** The base columns are what allocation gives the stored amounts at rate one. */
  ghost predicate AtPar(rows: seq<Row>) {
    && rows != []
    && var lines := LinesOf(rows).value;
    && var (d, c) := (SharesOn(lines, Debit, 1.0), SharesOn(lines, Credit, 1.0));
    && d.Ok? && c.Ok?
    && forall i :: 0 <= i < |rows| ==> BaseOf(rows[i]) == ShareOf(lines, i, d.value, c.value)
  }

  /** Posting the flipped lines gives back the same accounts, stores and amounts on the other side. */
  lemma FlippedEntryUndoesTheTransaction(chart: Chart, rows: seq<Row>, e: Entry)
    requires AllWritable(rows) && |rows| >= 2 && e.rate == 1.0 && e.store.None?
    requires e.lines == FlipSides(LinesOf(rows).value)
    requires Postable(e).Ok? && WrittenRows(chart, e, Postable(e).value).Ok?
    ensures Undoes(WrittenRows(chart, e, Postable(e).value).value, rows, InTransaction)
  {
    var undo := WrittenRows(chart, e, Postable(e).value).value;
    ReversalLinesArePostableIff(rows, e);
    EntriesReadBackSound(rows);
    WrittenRowsBalance(chart, e, e.lines);
    forall i | 0 <= i < |rows|
      ensures undo[i].account == rows[i].account && undo[i].store == rows[i].store
      ensures Movement(undo[i], InTransaction) == -Movement(rows[i], InTransaction)
    {
      assert Writable(rows[i]) && Writable(undo[i]);
      assert AccountOf(chart, e.company, e.lines[i]) == Some(undo[i].account);
      ColumnReadsBack(rows[i].debit);
      ColumnReadsBack(rows[i].credit);
    }
  }

  /** One row turned round: the amounts on the other side, everything else kept, in the company's currency. */
  ghost predicate TurnsRound(undo: Row, row: Row, currency: string) {
    && undo.account == row.account && undo.store == row.store
    && undo.debit == row.credit && undo.credit == row.debit
    && undo.subledger == row.subledger && undo.subledgerId == row.subledgerId
    && undo.currency == currency && undo.rate == 100000000
  }

  lemma FlippedRowsTurnRound(chart: Chart, rows: seq<Row>, e: Entry)
    requires AllWritable(rows) && |rows| >= 2 && e.rate == 1.0 && e.store.None?
    requires e.lines == FlipSides(LinesOf(rows).value)
    requires Postable(e).Ok? && WrittenRows(chart, e, Postable(e).value).Ok?
    ensures var undo := WrittenRows(chart, e, Postable(e).value).value;
      |undo| == |rows| && forall i :: 0 <= i < |rows| ==> TurnsRound(undo[i], rows[i], e.currency)
  {
    hide Postable, WrittenRows, Column;
    var undo := WrittenRows(chart, e, Postable(e).value).value;
    ReversalLinesArePostableIff(rows, e);
    WrittenRowsBalance(chart, e, e.lines);
    FlippedEntryUndoesTheTransaction(chart, rows, e);
    RoundOfWhole(100000000);
    forall i | 0 <= i < |rows| ensures TurnsRound(undo[i], rows[i], e.currency) {
      assert Writable(rows[i]) && Writable(undo[i]);
      assert Movement(undo[i], InTransaction) == -Movement(rows[i], InTransaction);
    }
  }

  /** The same list of amounts is allocated the same way from the other side. */
  lemma FlippedSharesAreTheSame(lines: seq<Line>)
    requires AllSound(lines) && Debits(lines) == Credits(lines)
    ensures SharesOn(FlipSides(lines), Debit, 1.0) == SharesOn(lines, Credit, 1.0)
    ensures SharesOn(FlipSides(lines), Credit, 1.0) == SharesOn(lines, Debit, 1.0)
  {
    FlippingMirrors(lines);
    MirroredLegsSwapAmounts(lines, FlipSides(lines));
  }

  lemma FlippedShareOf(lines: seq<Line>, i: nat, d: seq<int>, c: seq<int>)
    requires AllSound(lines) && i < |lines|
    ensures ShareOf(FlipSides(lines), i, c, d) == ShareOf(lines, i, d, c)
  {
    FlippingMirrors(lines);
    assert FlipSides(lines)[..i] == FlipSides(lines[..i]);
    MirroredLegsSwapAmounts(lines[..i], FlipSides(lines)[..i]);
    assert Sound(lines[i]);
  }

  /** The base total of the flipped entry is that of the stored columns. */
  lemma {:induction false} FlippedTotalIsTheColumns(chart: Chart, rows: seq<Row>, e: Entry)
    requires AllWritable(rows) && |rows| >= 2 && e.rate == 1.0 && e.store.None?
    requires e.lines == FlipSides(LinesOf(rows).value)
    requires Postable(e).Ok? && WrittenRows(chart, e, Postable(e).value).Ok?
    ensures BaseOn(WrittenRows(chart, e, Postable(e).value).value, Debit) == Round(Amount(StoredOn(rows, Debit)))
  {
    hide Postable, WrittenRows, FlipSides;
    ReversalLinesArePostableIff(rows, e);
    TotalsReadBack(rows);
    EntriesReadBackSound(rows);
    FlippingMirrors(LinesOf(rows).value);
    MirroredLegsSwapAmounts(LinesOf(rows).value, e.lines);
    WrittenRowsBalance(chart, e, e.lines);
  }

  /** And the base columns come back exactly when the entry stands at par. */
  lemma FlippedEntryUndoesTheBaseIff(chart: Chart, rows: seq<Row>, e: Entry)
    requires AllWritable(rows) && |rows| >= 2 && e.rate == 1.0 && e.store.None?
    requires e.lines == FlipSides(LinesOf(rows).value)
    requires Postable(e).Ok? && WrittenRows(chart, e, Postable(e).value).Ok?
    ensures Undoes(WrittenRows(chart, e, Postable(e).value).value, rows, InBase) <==> AtPar(rows)
  {
    hide Postable, RowsOf, FlipSides, ShareOf, SharesOn, BaseOf, AmountsOn, Accounts, Movement;
    var lines := LinesOf(rows).value;
    ReversalLinesArePostableIff(rows, e);
    EntriesReadBackSound(rows);
    TotalsReadBack(rows);
    FlippedSharesAreTheSame(lines);
    FlippedEntryUndoesTheTransaction(chart, rows, e);
    assert Postable(e) == Ok(e.lines) && RateOf(e) == 1.0;
    FlippedRowsSwapTheirShares(rows, Accounts(chart, e.company, e.lines).value, e.currency,
                               SharesOn(lines, Debit, 1.0).value, SharesOn(lines, Credit, 1.0).value);
  }

  lemma FlippedRowsSwapTheirShares(rows: seq<Row>, accounts: seq<Id>, currency: string,
                                                      d: seq<int>, c: seq<int>)
    requires AllWritable(rows) && rows != [] && |accounts| == |rows|
    ensures var undo := RowsOf(FlipSides(LinesOf(rows).value), accounts, currency, 1.0, c, d);
      forall i :: 0 <= i < |rows| ==>
        (Movement(undo[i], InBase) == -Movement(rows[i], InBase)
         <==> BaseOf(rows[i]) == ShareOf(LinesOf(rows).value, i, d, c))
  {
    var undo := RowsOf(FlipSides(LinesOf(rows).value), accounts, currency, 1.0, c, d);
    EntriesReadBackSound(rows);
    forall i | 0 <= i < |rows|
      ensures Movement(undo[i], InBase) == -Movement(rows[i], InBase)
        <==> BaseOf(rows[i]) == ShareOf(LinesOf(rows).value, i, d, c)
    {
      assert Writable(rows[i]);
      FlippedShareOf(LinesOf(rows).value, i, d, c);
    }
  }

  // ---------------------------------------------------------------------
  // Amounts the columns can hold
  // ---------------------------------------------------------------------

  /** Lines with their amounts as the columns will hold them. */
  function Cut(lines: seq<Line>): (r: seq<Line>)
    ensures |r| == |lines|
  {
    seq(|lines|, i requires 0 <= i < |lines| => lines[i].(amount := Amount(Column(lines[i].amount))))
  }

  /** Four decimals are enough to write this amount down. */
  ghost predicate FitsItsColumn(amount: real) {
    Amount(Column(amount)) == amount
  }

  lemma FittingLinesAreUncut(lines: seq<Line>)
    requires forall i :: 0 <= i < |lines| ==> FitsItsColumn(lines[i].amount)
    ensures Cut(lines) == lines
  {
  }

  /** Allocated by their columns, the lines get the base shares they get as stated. */
  predicate SharesSurvive(lines: seq<Line>) {
    && SharesOn(Cut(lines), Debit, 1.0) == SharesOn(lines, Debit, 1.0)
    && SharesOn(Cut(lines), Credit, 1.0) == SharesOn(lines, Credit, 1.0)
  }

  /** An entry reads back as its lines were posted, cut to their columns. */
  lemma EntriesReadBackCut(chart: Chart, e: Entry, lines: seq<Line>)
    requires Postable(e) == Ok(lines) && WrittenRows(chart, e, lines).Ok?
    ensures WrittenRows(chart, e, lines).value != []
    ensures SameLegs(LinesOf(WrittenRows(chart, e, lines).value).value, Cut(lines))
  {
    var rows := WrittenRows(chart, e, lines).value;
    WrittenRowsBalance(chart, e, lines);
    RowsAreWrittenIff(chart, e, lines);
    PostableLinesBalance(e);
    forall i | 0 <= i < |lines|
      ensures LineOf(rows[i]).amount == Cut(lines)[i].amount && LineOf(rows[i]).side == lines[i].side
    {
      assert Writable(rows[i]) && Sound(lines[i]);
    }
  }

  /** And, posted at rate one, stands at par exactly when cutting moves no share. */
  lemma StandsAtParIff(chart: Chart, e: Entry, lines: seq<Line>)
    requires Postable(e) == Ok(lines) && e.rate == 1.0 && WrittenRows(chart, e, lines).Ok?
    ensures AtPar(WrittenRows(chart, e, lines).value) <==> SharesSurvive(lines)
  {
    var rows := WrittenRows(chart, e, lines).value;
    var (d, c) := (SharesOn(lines, Debit, 1.0), SharesOn(lines, Credit, 1.0));
    var (d', c') := (SharesOn(Cut(lines), Debit, 1.0), SharesOn(Cut(lines), Credit, 1.0));
    EntriesReadBackCut(chart, e, lines);
    PostableLinesBalance(e);
    WrittenRowsBalance(chart, e, lines);
    SameLegsSameShares(LinesOf(rows).value, Cut(lines));
    RowsCarryStatedShares(rows, lines, Accounts(chart, e.company, lines).value, e.currency, 1.0, d.value, c.value);
    if d'.Ok? && c'.Ok? {
      forall i | 0 <= i < |lines|
        ensures ShareOf(LinesOf(rows).value, i, d'.value, c'.value) == ShareOf(lines, i, d'.value, c'.value)
      {
        SameSidesSameShareOf(LinesOf(rows).value, lines, i, d'.value, c'.value);
      }
      SharesAreOneALine(lines, Debit);
      SharesAreOneALine(lines, Credit);
      SharesAreOneALine(Cut(lines), Debit);
      SharesAreOneALine(Cut(lines), Credit);
      SameSidesSameCount(Cut(lines), lines, Debit);
      SameSidesSameCount(Cut(lines), lines, Credit);
      if forall i :: 0 <= i < |lines| ==> ShareOf(lines, i, d.value, c.value) == ShareOf(lines, i, d'.value, c'.value) {
        EveryShareHasALine(lines, d.value, c.value, d'.value, c'.value);
      }
    }
  }

  lemma {:induction false} SameSidesSameCount(a: seq<Line>, b: seq<Line>, side: Side)
    requires |a| == |b| && forall i :: 0 <= i < |a| ==> a[i].side == b[i].side
    ensures |AmountsOn(a, side)| == |AmountsOn(b, side)|
  {
    if a != [] {
      SameSidesSameCount(a[..|a| - 1], b[..|b| - 1], side);
    }
  }

  lemma SameSidesSameShareOf(a: seq<Line>, b: seq<Line>, i: nat, d: seq<int>, c: seq<int>)
    requires |a| == |b| && i < |a| && forall k :: 0 <= k < |a| ==> a[k].side == b[k].side
    ensures ShareOf(a, i, d, c) == ShareOf(b, i, d, c)
  {
    SameSidesSameCount(a[..i], b[..i], Debit);
    SameSidesSameCount(a[..i], b[..i], Credit);
  }

  lemma SharesAreOneALine(lines: seq<Line>, side: Side)
    requires SharesOn(lines, side, 1.0).Ok?
    ensures |SharesOn(lines, side, 1.0).value| == |AmountsOn(lines, side)|
  {
  }

  /** The line a share belongs to. */
  lemma {:induction false} LineOfShare(lines: seq<Line>, side: Side, k: nat) returns (i: nat)
    requires k < |AmountsOn(lines, side)|
    ensures i < |lines| && lines[i].side == side && |AmountsOn(lines[..i], side)| == k
  {
    var n := |lines| - 1;
    if k < |AmountsOn(lines[..n], side)| {
      i := LineOfShare(lines[..n], side, k);
      assert lines[..n][..i] == lines[..i];
    } else {
      i := n;
    }
  }

  /** Lines that are given the same shares one by one are given the same lists. */
  lemma EveryShareHasALine(lines: seq<Line>, d: seq<int>, c: seq<int>, d': seq<int>, c': seq<int>)
    requires |d| == |d'| == |AmountsOn(lines, Debit)| && |c| == |c'| == |AmountsOn(lines, Credit)|
    requires forall i :: 0 <= i < |lines| ==> ShareOf(lines, i, d, c) == ShareOf(lines, i, d', c')
    ensures d == d' && c == c'
  {
    forall k | 0 <= k < |d| ensures d[k] == d'[k] {
      var i := LineOfShare(lines, Debit, k);
      assert ShareOf(lines, i, d, c) == ShareOf(lines, i, d', c');
    }
    forall k | 0 <= k < |c| ensures c[k] == c'[k] {
      var i := LineOfShare(lines, Credit, k);
      assert ShareOf(lines, i, d, c) == ShareOf(lines, i, d', c');
    }
  }
}
