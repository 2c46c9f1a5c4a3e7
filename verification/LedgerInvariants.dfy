/** What holds of the books and the register in every reachable state, and that every ledger operation keeps it. */
module LedgerInvariants {
  import opened Wrappers
  import opened Refusals
  import opened Posting
  import opened PostingLaws
  import opened Journals
  import opened JournalLaws
  import opened Balances

  // ---------------------------------------------------------------------
  // The books
  // ---------------------------------------------------------------------

  /** An entry as the database insists on it: two lines or more, each on one side, in balance. */
  ghost predicate EntryInv(p: Posted) {
    |p.rows| >= 2 && AllWritable(p.rows) && Balanced(p.rows)
  }

  /** The numbers a company's entries carry, in posting order. */
  ghost function NumbersOf(entries: seq<Posted>, company: Id): seq<nat> {
    if entries == [] then []
    else
      var p := entries[|entries| - 1];
      NumbersOf(entries[..|entries| - 1], company) + if p.company == company then [p.no] else []
  }

  ghost function OneTo(n: nat): seq<nat> {
    if n == 0 then [] else OneTo(n - 1) + [n]
  }

  ghost predicate OneEntryAKey(entries: seq<Posted>) {
    forall i, j :: 0 <= i < j < |entries| ==> entries[i].key != entries[j].key
  }

  /** Every company's entries are numbered one to n, and the counter stands at the next. */
  ghost predicate GapFree(b: Books) {
    && (forall c :: c in b.nextNo ==> b.nextNo[c] >= 1 && NumbersOf(b.entries, c) == OneTo(b.nextNo[c] - 1))
    && (forall i :: 0 <= i < |b.entries| ==> b.entries[i].company in b.nextNo)
  }

  ghost predicate BooksInv(b: Books) {
    && (forall i :: 0 <= i < |b.entries| ==> EntryInv(b.entries[i]))
    && OneEntryAKey(b.entries)
    && GapFree(b)
  }

  lemma KeysOfBooks(b: Books)
    requires BooksInv(b)
    ensures OneEntryAKey(b.entries)
  {
  }

  /** What a company's base debits exceed its base credits by, over all accounts. */
  ghost function TrialBalanceDifference(entries: seq<Posted>, company: Id): int {
    if entries == [] then 0
    else
      var p := entries[|entries| - 1];
      TrialBalanceDifference(entries[..|entries| - 1], company)
        + if p.company == company then BaseOn(p.rows, Debit) - BaseOn(p.rows, Credit) else 0
  }

  lemma {:induction false} TrialBalanceIsZero(entries: seq<Posted>, company: Id)
    requires forall i :: 0 <= i < |entries| ==> EntryInv(entries[i])
    ensures TrialBalanceDifference(entries, company) == 0
  {
    if entries != [] {
      TrialBalanceIsZero(entries[..|entries| - 1], company);
      assert EntryInv(entries[|entries| - 1]);
    }
  }

  /** Posted history is only ever added to. */
  ghost predicate Appends(before: seq<Posted>, after: seq<Posted>) {
    |before| <= |after| && after[..|before|] == before
  }

  lemma AppendsIsTransitive(a: seq<Posted>, b: seq<Posted>, c: seq<Posted>)
    requires Appends(a, b) && Appends(b, c)
    ensures Appends(a, c)
  {
  }

  /** A key found once is found in the same place for ever. */
  lemma FoundStaysFound(before: seq<Posted>, after: seq<Posted>, key: Key)
    requires OneEntryAKey(after) && Appends(before, after) && EntryFor(before, key).Some?
    ensures EntryFor(after, key) == EntryFor(before, key)
  {
  }

  /** Everything added carries one key. */
  ghost predicate AddsOnly(before: seq<Posted>, after: seq<Posted>, key: Key) {
    Appends(before, after) && forall i :: |before| <= i < |after| ==> after[i].key == key
  }

  /** An entry in order, under a free key and the next number, keeps everything. */
  lemma AddingAnEntryKeepsTheBooks(b: Books, p: Posted)
    requires BooksInv(b) && EntryInv(p)
    requires p.company in b.nextNo && p.no == b.nextNo[p.company]
    requires forall i :: 0 <= i < |b.entries| ==> b.entries[i].key != p.key
    ensures BooksInv(Books(b.chart, b.entries + [p], b.nextNo[p.company := p.no + 1]))
  {
  }

  /** One accepted posting keeps everything, adds at the end, and moves only its own company's counter. */
  lemma PostKeepsTheBooks(b: Books, e: Entry)
    requires BooksInv(b) && AfterPost(b, e).Ok?
    ensures var after := AfterPost(b, e).value.0;
      BooksInv(after) && AddsOnly(b.entries, after.entries, e.key) && after.chart == b.chart
      && after.nextNo.Keys == b.nextNo.Keys
  {
    hide AfterPost, Postable, WrittenRows;
    if AfterPost(b, e).value.1.alreadyPosted {
      ReplayLeavesTheBooks(b, e);
    } else {
      PostAppendsOneEntry(b, e);
      PostAppendsABalancedEntry(b, e);
      AddingAnEntryKeepsTheBooks(b, AfterPost(b, e).value.0.entries[|b.entries|]);
    }
  }

  lemma ReplayLeavesTheBooks(b: Books, e: Entry)
    requires AfterPost(b, e).Ok? && AfterPost(b, e).value.1.alreadyPosted
    ensures AfterPost(b, e).value.0 == b
  {
  }

  // ---------------------------------------------------------------------
  // The register
  // ---------------------------------------------------------------------

  /** The company table has one row a company: all its columns are defined together. */
  ghost predicate CompaniesInv(r: Register) {
    r.currencies.Keys == r.nextJournalNo.Keys == r.books.nextNo.Keys
  }

  /** A journal stands on its own entry. */
  ghost predicate JournalInv(r: Register, j: Journal) {
    && j.company in r.currencies
    && j.entry < |r.books.entries|
    && r.books.entries[j.entry].key == JournalKey(j.id)
    && r.books.entries[j.entry].company == j.company
  }

  /** A reversal names a journal of the same company that is not one itself, and undoes its entry. */
  ghost predicate ReversalInv(r: Register, undo: Journal, j: Journal)
    requires undo.entry < |r.books.entries| && j.entry < |r.books.entries|
  {
    && undo.reverses == Some(j.id) && j.reverses.None? && undo.company == j.company
    && r.books.entries[undo.entry].reverses == Some(j.entry)
    && Undoes(r.books.entries[undo.entry].rows, r.books.entries[j.entry].rows, InTransaction)
  }

  ghost predicate ReversesOne(r: Register, undo: Journal)
    requires undo.entry < |r.books.entries|
  {
    exists k :: 0 <= k < |r.journals| && r.journals[k].entry < |r.books.entries| && ReversalInv(r, undo, r.journals[k])
  }

  ghost predicate OneOfEach(journals: seq<Journal>) {
    forall i, j :: 0 <= i < j < |journals| ==>
      && journals[i].id != journals[j].id
      && !(journals[i].company == journals[j].company && journals[i].uuid == journals[j].uuid)
      && (journals[i].reverses.Some? ==> journals[i].reverses != journals[j].reverses)
  }

  /** The numbers a company's journals carry, in the order they were filed. */
  ghost function JournalNumbersOf(journals: seq<Journal>, company: Id): seq<nat> {
    if journals == [] then []
    else
      var j := journals[|journals| - 1];
      JournalNumbersOf(journals[..|journals| - 1], company) + if j.company == company then [j.number] else []
  }

  /** Every company's journals are numbered one to n, and the counter stands at the next. */
  ghost predicate JournalsGapFree(journals: seq<Journal>, nextJournalNo: map<Id, nat>) {
    forall c :: c in nextJournalNo ==>
      nextJournalNo[c] >= 1 && JournalNumbersOf(journals, c) == OneTo(nextJournalNo[c] - 1)
  }

  ghost predicate RegisterInv(r: Register) {
    && BooksInv(r.books)
    && JournalsGapFree(r.journals, r.nextJournalNo)
    && CompaniesInv(r)
    && OneOfEach(r.journals)
    && (forall k :: 0 <= k < |r.journals| ==> JournalInv(r, r.journals[k]))
    && (forall k :: 0 <= k < |r.journals| && r.journals[k].reverses.Some? ==> ReversesOne(r, r.journals[k]))
  }

  /** What a reversal says stays true as entries and journals are added. */
  lemma ReversalsStand(r: Register, after: Register, undo: Journal)
    requires undo.entry < |r.books.entries| && ReversesOne(r, undo)
    requires Appends(r.books.entries, after.books.entries)
    requires |r.journals| <= |after.journals| && after.journals[..|r.journals|] == r.journals
    ensures ReversesOne(after, undo)
  {
  }

  /** Anything that only adds to the books keeps the register. */
  lemma AddingEntriesKeepsTheRegister(r: Register, books: Books)
    requires RegisterInv(r) && BooksInv(books)
    requires Appends(r.books.entries, books.entries) && books.nextNo.Keys == r.books.nextNo.Keys
    ensures RegisterInv(r.(books := books))
  {
    var after := r.(books := books);
    forall k | 0 <= k < |r.journals| ensures JournalInv(after, r.journals[k]) {
      assert JournalInv(r, r.journals[k]);
      assert books.entries[..|r.books.entries|][r.journals[k].entry] == books.entries[r.journals[k].entry];
    }
    assert after.journals[..|r.journals|] == r.journals;
    forall k | 0 <= k < |r.journals| && r.journals[k].reverses.Some? ensures ReversesOne(after, r.journals[k]) {
      assert JournalInv(r, r.journals[k]) && ReversesOne(r, r.journals[k]);
      ReversalsStand(r, after, r.journals[k]);
    }
  }

  /** One more journal on a new entry of its own keeps the register, if what it says of reversing is so. */
  lemma AddingAJournalKeepsTheRegister(r: Register, j: Journal)
    requires RegisterInv(r) && JournalInv(r, j) && j.company in r.nextJournalNo
    requires j.number == r.nextJournalNo[j.company]
    requires forall k :: 0 <= k < |r.journals| ==> r.journals[k].id != j.id
    requires JournalByUuid(r.journals, j.company, j.uuid).None?
    requires j.reverses.Some? ==> ReversesOne(r, j) && ReversalOf(r.journals, j.reverses.value).None?
    ensures RegisterInv(Filed(r, r.books, j).0)
  {
    hide BooksInv, JournalsGapFree, JournalNumbersOf, OneOfEach, ReversalInv, Undoes;
    var after := Filed(r, r.books, j).0;
    assert after.journals[..|r.journals|] == r.journals;
    OneMoreNumberIsNext(r.journals, r.nextJournalNo, j);
    OneMoreIsStillOneOfEach(r.journals, j);
    forall k | 0 <= k < |after.journals| ensures JournalInv(after, after.journals[k]) {
      assert k < |r.journals| ==> JournalInv(r, r.journals[k]);
      assert JournalInv(r, after.journals[k]);
    }
    forall k | 0 <= k < |after.journals| && after.journals[k].reverses.Some?
      ensures ReversesOne(after, after.journals[k])
    {
      assert k < |r.journals| ==> JournalInv(r, r.journals[k]) && ReversesOne(r, r.journals[k]);
      ReversalsStand(r, after, after.journals[k]);
    }
  }

  lemma OneMoreNumberIsNext(journals: seq<Journal>, nextJournalNo: map<Id, nat>, j: Journal)
    requires JournalsGapFree(journals, nextJournalNo)
    requires j.company in nextJournalNo && j.number == nextJournalNo[j.company]
    ensures JournalsGapFree(journals + [j], nextJournalNo[j.company := j.number + 1])
  {
    assert (journals + [j])[..|journals|] == journals;
  }

  lemma {:induction false} NoJournalsNoNumbers(journals: seq<Journal>, company: Id)
    requires forall i :: 0 <= i < |journals| ==> journals[i].company != company
    ensures JournalNumbersOf(journals, company) == []
  {
    if journals != [] {
      NoJournalsNoNumbers(journals[..|journals| - 1], company);
    }
  }

  lemma OneMoreIsStillOneOfEach(journals: seq<Journal>, j: Journal)
    requires OneOfEach(journals)
    requires forall k :: 0 <= k < |journals| ==> journals[k].id != j.id
    requires JournalByUuid(journals, j.company, j.uuid).None?
    requires j.reverses.Some? ==> ReversalOf(journals, j.reverses.value).None?
    ensures OneOfEach(journals + [j])
  {
  }

  // ---------------------------------------------------------------------
  // Recording and reversing keep it
  // ---------------------------------------------------------------------

  /** Filing under a fresh identifier keeps the register, if the entry it posts undoes what it says it reverses. */
  lemma FilingKeepsTheRegister(
      r: Register, company: Id, uuid: Id, date: int, newId: Id, reversesEntry: Option<nat>,
      reverses: Option<Id>, lines: seq<Line>)
    requires RegisterInv(r) && Fresh(r, newId)
    requires AfterFiling(r, company, uuid, date, newId, reversesEntry, reverses, lines).Ok?
    requires var e := JournalEntry(company, date, newId, r.currencies[company], reversesEntry, lines);
      reverses.Some? ==>
        && ReversalOf(r.journals, reverses.value).None?
        && exists k :: 0 <= k < |r.journals| && Reverses(r, e, reverses.value, r.journals[k])
    ensures var (after, k) := AfterFiling(r, company, uuid, date, newId, reversesEntry, reverses, lines).value;
      && RegisterInv(after) && AddsOnly(r.books.entries, after.books.entries, JournalKey(newId))
      && k == |r.journals| && |after.journals| == k + 1 && after.journals[..k] == r.journals
      && after.books.chart == r.books.chart && after.currencies == r.currencies
  {
    hide AfterPost, AfterFiling, Postable, WrittenRows, RegisterInv, JournalInv, OneOfEach;
    FilingAddsOneJournal(r, company, uuid, date, newId, reversesEntry, reverses, lines);
    var e := JournalEntry(company, date, newId, r.currencies[company], reversesEntry, lines);
    var j := Journal(newId, company, uuid, r.nextJournalNo[company], date, |r.books.entries|, reverses);
    FilingPostsFirst(r, e, j);
    if reverses.Some? {
      var k :| 0 <= k < |r.journals| && Reverses(r, e, reverses.value, r.journals[k]);
      NewReversalStands(r, e, k, j);
    }
    AddingAJournalKeepsTheRegister(r.(books := AfterPost(r.books, e).value.0), j);
  }

  lemma FilingPostsFirst(r: Register, e: Entry, j: Journal)
    requires RegisterInv(r) && AfterPost(r.books, e).Ok? && !AfterPost(r.books, e).value.1.alreadyPosted
    requires e.key == JournalKey(j.id) && e.company == j.company && j.company in r.currencies
    requires j.entry == |r.books.entries|
    ensures var posted := r.(books := AfterPost(r.books, e).value.0);
      && RegisterInv(posted) && JournalInv(posted, j)
      && AddsOnly(r.books.entries, posted.books.entries, JournalKey(j.id))
      && posted.books.chart == r.books.chart
  {
    hide AfterPost, Postable, WrittenRows;
    PostAppendsOneEntry(r.books, e);
    PostKeepsTheBooks(r.books, e);
    AddingEntriesKeepsTheRegister(r, AfterPost(r.books, e).value.0);
  }

  lemma NewReversalStands(r: Register, e: Entry, k: nat, undo: Journal)
    requires RegisterInv(r) && AfterPost(r.books, e).Ok? && !AfterPost(r.books, e).value.1.alreadyPosted
    requires k < |r.journals| && undo.entry == |r.books.entries| && undo.company == e.company
    requires undo.reverses.Some? && Reverses(r, e, undo.reverses.value, r.journals[k])
    ensures undo.entry < |AfterPost(r.books, e).value.0.entries|
    ensures ReversesOne(r.(books := AfterPost(r.books, e).value.0), undo)
  {
    hide AfterPost, Postable, WrittenRows;
    PostAppendsOneEntry(r.books, e);
    var posted := r.(books := AfterPost(r.books, e).value.0);
    assert JournalInv(r, r.journals[k]);
    assert ReversalInv(posted, undo, posted.journals[k]);
  }

  /** What a reversing entry has to be for the register to say it reverses a journal. */
  ghost predicate Reverses(r: Register, e: Entry, id: Id, j: Journal) {
    && j.id == id && j.reverses.None? && j.company == e.company
    && j.entry < |r.books.entries| && e.reverses == Some(j.entry)
    && Postable(e).Ok? && WrittenRows(r.books.chart, e, Postable(e).value).Ok?
    && Undoes(WrittenRows(r.books.chart, e, Postable(e).value).value, r.books.entries[j.entry].rows, InTransaction)
  }

  /** Recording keeps the register; a uuid already recorded answers with its journal and changes nothing. */
  lemma RecordKeepsTheRegister(r: Register, company: Id, j: NewJournal, newId: Id)
    requires RegisterInv(r) && Fresh(r, newId) && AfterRecord(r, company, j, newId).Ok?
    ensures var (after, k) := AfterRecord(r, company, j, newId).value;
      && RegisterInv(after) && AddsOnly(r.books.entries, after.books.entries, JournalKey(newId))
      && |r.journals| <= |after.journals| && after.journals[..|r.journals|] == r.journals
      && after.books.chart == r.books.chart && after.currencies == r.currencies
      && k < |after.journals| && after.journals[k].company == company && after.journals[k].uuid == j.uuid
      && (JournalByUuid(r.journals, company, j.uuid).Some? ==> after == r)
      && (JournalByUuid(r.journals, company, j.uuid).None? ==> k == |r.journals| && after.journals[k].reverses.None?)
  {
    hide AfterPost, AfterFiling, Postable, WrittenRows;
    if JournalByUuid(r.journals, company, j.uuid).None? {
      FilingAddsOneJournal(r, company, j.uuid, j.date.value, newId, None, None, LedgerLines(j.lines));
      FilingKeepsTheRegister(r, company, j.uuid, j.date.value, newId, None, None, LedgerLines(j.lines));
    }
  }

  /** The entry a reversal posts. */
  function ReversalEntry(r: Register, j: Journal, today: int, newId: Id): Entry
    requires j.company in r.currencies && j.entry < |r.books.entries| && r.books.entries[j.entry].rows != []
  {
    JournalEntry(j.company, today, newId, r.currencies[j.company], Some(j.entry),
                 FlipSides(LinesOf(r.books.entries[j.entry].rows).value))
  }

  lemma ReversalEntriesReverse(r: Register, j: Journal, today: int, newId: Id)
    requires RegisterInv(r) && JournalInv(r, j) && j.reverses.None?
    requires r.books.entries[j.entry].rows != []
    requires AfterPost(r.books, ReversalEntry(r, j, today, newId)).Ok? && Fresh(r, newId)
    ensures Reverses(r, ReversalEntry(r, j, today, newId), j.id, j)
  {
    hide AfterPost, Postable, WrittenRows;
    var e := ReversalEntry(r, j, today, newId);
    assert EntryInv(r.books.entries[j.entry]);
    NewKeysAreFree(r, newId);
    NewKeysAreNotReplays(r.books, e);
    PostAppendsOneEntry(r.books, e);
    FlippedEntryUndoesTheTransaction(r.books.chart, r.books.entries[j.entry].rows, e);
  }

  /** The journal a company knows by an identifier, when the register is in order. */
  lemma ReverseIsFiling(r: Register, i: nat, reason: string, uuid: Id, today: int, newId: Id)
    requires RegisterInv(r) && i < |r.journals|
    ensures var j := r.journals[i];
      && j.company in r.currencies && j.entry < |r.books.entries| && r.books.entries[j.entry].rows != []
      && AfterReverse(r, j.company, j.id, reason, uuid, today, newId) ==
        if Blank(reason) then Err(NoReason)
        else if j.reverses.Some? then Err(IsAReversal)
        else if ReversalOf(r.journals, j.id).Some? then Ok((r, ReversalOf(r.journals, j.id).value))
        else AfterFiling(r, j.company, uuid, today, newId, Some(j.entry), Some(j.id),
                         ReversalEntry(r, j, today, newId).lines)
  {
    hide JournalsGapFree, GapFree, Undoes;
    hide AfterPost, AfterFiling, Postable, WrittenRows;
    var j := r.journals[i];
    assert JournalInv(r, j) && EntryInv(r.books.entries[j.entry]);
    var found := JournalById(r.journals, j.company, j.id);
    assert found == Some(i);
    var k := ReversalOf(r.journals, j.id);
    if k.Some? {
      assert ReversesOne(r, r.journals[k.value]) && JournalInv(r, r.journals[k.value]);
      var m :| 0 <= m < |r.journals| && r.journals[m].entry < |r.books.entries|
            && ReversalInv(r, r.journals[k.value], r.journals[m]);
      assert m == i;
    }
  }

  /**
   Reversing keeps the register. A journal already reversed answers with its
   one reversal and posts nothing; a reversal is never reversed; a new reversal
   undoes its original, row for row, whatever precision the amounts were typed in.
   */
  lemma ReverseKeepsTheRegister(r: Register, i: nat, reason: string, uuid: Id, today: int, newId: Id)
    requires RegisterInv(r) && Fresh(r, newId) && i < |r.journals|
    requires AfterReverse(r, r.journals[i].company, r.journals[i].id, reason, uuid, today, newId).Ok?
    ensures var j := r.journals[i];
      var (after, k) := AfterReverse(r, j.company, j.id, reason, uuid, today, newId).value;
      && RegisterInv(after) && AddsOnly(r.books.entries, after.books.entries, JournalKey(newId))
      && |r.journals| <= |after.journals| && after.journals[..|r.journals|] == r.journals
      && after.books.chart == r.books.chart && after.currencies == r.currencies
      && j.reverses.None?
      && k < |after.journals| && after.journals[k].reverses == Some(j.id)
      && (ReversalOf(r.journals, j.id).Some? ==> after == r && ReversalOf(r.journals, j.id) == Some(k))
      && (ReversalOf(r.journals, j.id).None? ==> k == |r.journals| && |after.journals| == k + 1)
  {
    hide AfterPost, AfterFiling, AfterReverse, Postable, WrittenRows;
    var j := r.journals[i];
    assert JournalInv(r, j);
    ReverseIsFiling(r, i, reason, uuid, today, newId);
    if ReversalOf(r.journals, j.id).None? {
      var lines := ReversalEntry(r, j, today, newId).lines;
      FilingAddsOneJournal(r, j.company, uuid, today, newId, Some(j.entry), Some(j.id), lines);
      ReversalEntriesReverse(r, j, today, newId);
      FilingKeepsTheRegister(r, j.company, uuid, today, newId, Some(j.entry), Some(j.id), lines);
    }
  }
}
