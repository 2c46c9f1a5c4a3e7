/**
 Journals written by hand and their reversals
 (backend/internal/accounting/manual.go), as functions of the register before.
 */
module Journals {
  import opened Wrappers
  import opened Refusals
  import opened Posting

  const MANUAL := "manual_journal"

  const MAX_JOURNAL_LINES := 200

  /** One leg as a person types it; no account is the nil identifier. */
  datatype NewLine = NewLine(account: Option<Id>, debit: real, credit: real, store: Option<Id>)

  datatype NewJournal = NewJournal(uuid: Id, date: Option<int>, reason: string, lines: seq<NewLine>)

  /** One manual_journal row. */
  datatype Journal = Journal(
    id: Id, company: Id, uuid: Id, number: nat, date: int, entry: nat, reverses: Option<Id>)

  /** The books with the register of manual journals beside them. */
  datatype Register = Register(
    books: Books, currencies: map<Id, string>, journals: seq<Journal>, nextJournalNo: map<Id, nat>)

  /** What the standard library trims: the control spaces, and every space Unicode has. */
  predicate IsSpace(c: char) {
    var n := c as int;
    || 0x09 <= n <= 0x0D || n == 0x20 || n == 0x85 || n == 0xA0 || n == 0x1680 || 0x2000 <= n <= 0x200A
    || n == 0x2028 || n == 0x2029 || n == 0x202F || n == 0x205F || n == 0x3000
  }

  /** Nothing left once trimmed. */
  predicate Blank(s: string) {
    forall i :: 0 <= i < |s| ==> IsSpace(s[i])
  }

  // ---------------------------------------------------------------------
  // Validation
  // ---------------------------------------------------------------------

  function NewLineFault(l: NewLine): Option<Refusal> {
    if l.account.None? then Some(NoAccount)
    else if l.debit < 0.0 || l.credit < 0.0 then Some(NegativeAmount)
    else if (l.debit > 0.0) == (l.credit > 0.0) then Some(NotOneSide)
    else None
  }

  /** The first faulty line's fault. */
  function FirstFault(lines: seq<NewLine>): (r: Option<Refusal>)
    ensures r.None? <==> forall i :: 0 <= i < |lines| ==> NewLineFault(lines[i]).None?
  {
    if lines == [] then None
    else
      var earlier := FirstFault(lines[..|lines| - 1]);
      assert forall i :: 0 <= i < |lines| - 1 ==> lines[..|lines| - 1][i] == lines[i];
      if earlier.Some? then earlier else NewLineFault(lines[|lines| - 1])
  }

  function TypedDebits(lines: seq<NewLine>): real {
    if lines == [] then 0.0 else TypedDebits(lines[..|lines| - 1]) + lines[|lines| - 1].debit
  }

  function TypedCredits(lines: seq<NewLine>): real {
    if lines == [] then 0.0 else TypedCredits(lines[..|lines| - 1]) + lines[|lines| - 1].credit
  }

  /** `validateJournal`: nothing, or the first thing wrong. */
  function Validated(j: NewJournal): Option<Refusal> {
    if Blank(j.reason) then Some(NoReason)
    else if j.date.None? then Some(NoDate)
    else if |j.lines| < 2 then Some(TooFewLines)
    else if |j.lines| > MAX_JOURNAL_LINES then Some(TooManyLines)
    else if FirstFault(j.lines).Some? then FirstFault(j.lines)
    else if TypedDebits(j.lines) != TypedCredits(j.lines) then Some(Unbalanced)
    else if TypedDebits(j.lines) <= 0.0 then Some(JournalOfNothing)
    else None
  }

  function LedgerLine(l: NewLine): Line {
    Line("", l.account,
         if l.credit > 0.0 then Credit else Debit,
         if l.credit > 0.0 then l.credit else l.debit,
         l.store, "", None)
  }

  function LedgerLines(lines: seq<NewLine>): (r: seq<Line>)
    ensures |r| == |lines|
  {
    seq(|lines|, i requires 0 <= i < |lines| => LedgerLine(lines[i]))
  }

  // ---------------------------------------------------------------------
  // Looking journals up
  // ---------------------------------------------------------------------

  /** The journal a client's identifier already stands for. */
  function JournalByUuid(journals: seq<Journal>, company: Id, uuid: Id): (r: Option<nat>)
    ensures r.Some? ==> r.value < |journals| && journals[r.value].company == company && journals[r.value].uuid == uuid
    ensures r.None? ==> forall i :: 0 <= i < |journals| ==>
      !(journals[i].company == company && journals[i].uuid == uuid)
  {
    FirstWhere(journals, (j: Journal) => j.company == company && j.uuid == uuid)
  }

  function JournalById(journals: seq<Journal>, company: Id, id: Id): (r: Option<nat>)
    ensures r.Some? ==> r.value < |journals| && journals[r.value].company == company && journals[r.value].id == id
    ensures r.None? ==> forall i :: 0 <= i < |journals| ==> !(journals[i].company == company && journals[i].id == id)
  {
    FirstWhere(journals, (j: Journal) => j.company == company && j.id == id)
  }

  /** The journal that reverses a given one. */
  function ReversalOf(journals: seq<Journal>, id: Id): (r: Option<nat>)
    ensures r.Some? ==> r.value < |journals| && journals[r.value].reverses == Some(id)
    ensures r.None? ==> forall i :: 0 <= i < |journals| ==> journals[i].reverses != Some(id)
  {
    FirstWhere(journals, (j: Journal) => j.reverses == Some(id))
  }

  // ---------------------------------------------------------------------
  // Recording and reversing
  // ---------------------------------------------------------------------

  /** An identifier nothing in the register carries yet, which is what a new uuid is. */
  ghost predicate Fresh(r: Register, id: Id) {
    && (forall i :: 0 <= i < |r.books.entries| ==> r.books.entries[i].key.sourceId != Document(id))
    && (forall i :: 0 <= i < |r.journals| ==> r.journals[i].id != id)
  }

  function JournalKey(id: Id): Key {
    Key(MANUAL, Document(id), "")
  }

  function JournalEntry(company: Id, date: int, id: Id, currency: string, reverses: Option<nat>,
                        lines: seq<Line>): Entry {
    Entry(company, date, JournalKey(id), 0, currency, 1.0, reverses, None, lines)
  }

  /** The register row that explains an entry. */
  function Filed(r: Register, books: Books, j: Journal): (Register, nat)
    requires j.company in r.nextJournalNo
  {
    (Register(books, r.currencies, r.journals + [j],
              r.nextJournalNo[j.company := r.nextJournalNo[j.company] + 1]),
     |r.journals|)
  }

  /** Post the entry, then write the register row. */
  function AfterFiling(r: Register, company: Id, uuid: Id, date: int, newId: Id, reversesEntry: Option<nat>,
                       reverses: Option<Id>, lines: seq<Line>): Result<(Register, nat), Refusal>
  {
    if company !in r.currencies || company !in r.nextJournalNo then Err(NoCompany)
    else
      var e := JournalEntry(company, date, newId, r.currencies[company], reversesEntry, lines);
      match AfterPost(r.books, e)
      case Err(why) => Err(why)
      case Ok(posted) =>
        if JournalByUuid(r.journals, company, uuid).Some? then Err(UuidTaken)
        else Ok(Filed(r, posted.0, Journal(newId, company, uuid, r.nextJournalNo[company], date,
                                           posted.1.entry, reverses)))
  }

  /** `Record`: the register after, and the journal's place in it. */
  function AfterRecord(r: Register, company: Id, j: NewJournal, newId: Id): Result<(Register, nat), Refusal> {
    if Validated(j).Some? then Err(Validated(j).value)
    else
      match JournalByUuid(r.journals, company, j.uuid)
      case Some(i) => Ok((r, i))
      case None => AfterFiling(r, company, j.uuid, j.date.value, newId, None, None, LedgerLines(j.lines))
  }

  /** `Reverse`: the lines come from the entry itself, flipped, on the day of the reversal. */
  function AfterReverse(r: Register, company: Id, journal: Id, reason: string, uuid: Id, today: int, newId: Id)
    : Result<(Register, nat), Refusal>
  {
    if Blank(reason) then Err(NoReason)
    else
      match JournalById(r.journals, company, journal)
      case None => Err(JournalNotFound)
      case Some(i) =>
        if r.journals[i].reverses.Some? then Err(IsAReversal)
        else
          match ReversalOf(r.journals, journal)
          case Some(k) => if r.journals[k].company == company then Ok((r, k)) else Err(JournalNotFound)
          case None =>
            var entry := r.journals[i].entry;
            if entry >= |r.books.entries| then Err(NothingToReverse)
            else
              match LinesOf(r.books.entries[entry].rows)
              case Err(why) => Err(why)
              case Ok(lines) =>
                AfterFiling(r, company, uuid, today, newId, Some(entry), Some(journal), FlipSides(lines))
  }
}
