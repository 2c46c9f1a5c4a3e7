/**
 The posting engine (backend/internal/accounting/posting.go): what one call to
 `Post` does to the books of a tenant, as a function of the books before it.

 Amounts a caller states are decimals of any precision, measured in ledger units
 (hundredths of the currency). The journal_line table keeps transaction amounts
 to four decimals, which is a hundredth of a unit, and `Column` is that rounding;
 base amounts are whole ledger units.
 */
module Posting {
  import opened Wrappers
  import opened Refusals
  import opened Rounding
  import opened Allocation

  type Id = nat

  // ---------------------------------------------------------------------
  // What a caller hands over
  // ---------------------------------------------------------------------

  datatype Side = Debit | Credit | Other(text: string)

  /** A leg names its account by role or directly, never both. */
  datatype Line = Line(
    role: string, account: Option<Id>, side: Side, amount: real,
    store: Option<Id>, subledger: string, subledgerId: Option<Id>)

  datatype SourceId = Document(id: Id) | Instalment(plan: Id, number: nat)

  /** The idempotency key: source type, source id and rule key. */
  datatype Key = Key(sourceType: string, sourceId: SourceId, ruleKey: string)

  datatype Entry = Entry(
    company: Id, date: int, key: Key, ruleVersion: int, currency: string, rate: real,
    reverses: Option<nat>, store: Option<Id>, lines: seq<Line>)

  // ---------------------------------------------------------------------
  // The tables
  // ---------------------------------------------------------------------

  datatype PeriodState = Open | Closed | Locked

  datatype Period = Period(company: Id, startsOn: int, endsOn: int, state: PeriodState)

  datatype Account = Account(company: Id, postable: bool)

  /** Configuration the engine reads and never writes. */
  datatype Chart = Chart(periods: seq<Period>, accounts: map<Id, Account>, roles: map<(Id, string), Id>)

  /** One journal_line: transaction columns in ten-thousandths, base columns in ledger units. */
  datatype Row = Row(
    account: Id, store: Option<Id>, currency: string, rate: int,
    debit: int, credit: int, baseDebit: int, baseCredit: int,
    subledger: string, subledgerId: Option<Id>)

  /** One journal_entry with its lines in line_no order. Its id is its place in the journal. */
  datatype Posted = Posted(
    company: Id, period: nat, no: nat, date: int, key: Key, ruleVersion: int,
    reverses: Option<nat>, rows: seq<Row>)

  /** The transactional state: the journal, and each company's next entry number. */
  datatype Books = Books(chart: Chart, entries: seq<Posted>, nextNo: map<Id, nat>)

  datatype Receipt = Receipt(entry: nat, no: nat, alreadyPosted: bool)

  // ---------------------------------------------------------------------
  // Lines
  // ---------------------------------------------------------------------

  /** Why a non-zero line cannot be posted, in the order the checks are made. */
  function LineFault(l: Line): Option<Refusal> {
    if l.amount < 0.0 then Some(NegativeLine)
    else if l.side != Debit && l.side != Credit then Some(NotASide)
    else if l.role == "" && l.account.None? then Some(NamesNoAccount)
    else if l.role != "" && l.account.Some? then Some(NamesRoleAndAccount)
    else None
  }

  /** Zero lines dropped, the first faulty one refused. */
  function Kept(lines: seq<Line>): Result<seq<Line>, Refusal> {
    if lines == [] then Ok([])
    else
      var kept :- Kept(lines[..|lines| - 1]);
      var l := lines[|lines| - 1];
      if l.amount == 0.0 then Ok(kept)
      else match LineFault(l)
        case Some(why) => Err(why)
        case None => Ok(kept + [l])
  }

  function UsableLines(lines: seq<Line>): Result<seq<Line>, Refusal> {
    var kept :- Kept(lines);
    if |kept| < 2 then Err(TooFewLines) else Ok(kept)
  }

  function InStore(l: Line, store: Option<Id>): Line {
    if l.store.None? then l.(store := store) else l
  }

  function AllInStore(lines: seq<Line>, store: Option<Id>): (r: seq<Line>)
    ensures |r| == |lines|
  {
    seq(|lines|, i requires 0 <= i < |lines| => InStore(lines[i], store))
  }

  function AmountsOn(lines: seq<Line>, side: Side): seq<real> {
    if lines == [] then []
    else
      var l := lines[|lines| - 1];
      AmountsOn(lines[..|lines| - 1], side) + if l.side == side then [l.amount] else []
  }

  function Debits(lines: seq<Line>): real {
    if lines == [] then 0.0
    else Debits(lines[..|lines| - 1]) + if lines[|lines| - 1].side == Debit then lines[|lines| - 1].amount else 0.0
  }

  function Credits(lines: seq<Line>): real {
    if lines == [] then 0.0
    else Credits(lines[..|lines| - 1]) + if lines[|lines| - 1].side == Debit then 0.0 else lines[|lines| - 1].amount
  }

  function Flipped(l: Line): Line {
    l.(side := if l.side == Debit then Credit else Debit)
  }

  function FlipSides(lines: seq<Line>): (r: seq<Line>)
    ensures |r| == |lines|
  {
    seq(|lines|, i requires 0 <= i < |lines| => Flipped(lines[i]))
  }

  // ---------------------------------------------------------------------
  // Periods, numbers, accounts
  // ---------------------------------------------------------------------

  const YEAR_END := "year_end_close"

  /** The period covering a date, if any: periods of one company never overlap. */
  function CoveringPeriod(periods: seq<Period>, company: Id, on: int): (r: Option<nat>)
    ensures r.Some? ==> r.value < |periods|
    ensures r.Some? ==> periods[r.value].company == company
    ensures r.Some? ==> periods[r.value].startsOn <= on <= periods[r.value].endsOn
    ensures r.None? ==> forall i :: 0 <= i < |periods| && periods[i].company == company ==>
      !(periods[i].startsOn <= on <= periods[i].endsOn)
  {
    FirstWhere(periods, (p: Period) => p.company == company && p.startsOn <= on <= p.endsOn)
  }

  function PeriodFor(chart: Chart, e: Entry): Result<nat, Refusal> {
    match CoveringPeriod(chart.periods, e.company, e.date)
    case None => Err(NoPeriod)
    case Some(p) =>
      if e.key.sourceType == YEAR_END then
        if chart.periods[p].state == Locked then Err(PeriodShut) else Ok(p)
      else if chart.periods[p].state != Open then Err(PeriodShut)
      else Ok(p)
  }

  /** The entry already standing under a key. */
  function EntryFor(entries: seq<Posted>, key: Key): (r: Option<nat>)
    ensures r.Some? ==> r.value < |entries| && entries[r.value].key == key
    ensures r.None? ==> forall i :: 0 <= i < |entries| ==> entries[i].key != key
  {
    FirstWhere(entries, (e: Posted) => e.key == key)
  }

  /** The account a line posts to: its role's, or its own when it belongs to the company. */
  function AccountOf(chart: Chart, company: Id, l: Line): Option<Id> {
    match l.account
    case None =>
      if (company, l.role) in chart.roles
         && chart.roles[(company, l.role)] in chart.accounts
         && chart.accounts[chart.roles[(company, l.role)]].postable
      then Some(chart.roles[(company, l.role)]) else None
    case Some(id) =>
      if id in chart.accounts && chart.accounts[id] == Account(company, true) then Some(id) else None
  }

  /** Every line's account, or the refusal for roles first and named accounts after. */
  function Accounts(chart: Chart, company: Id, lines: seq<Line>): (r: Result<seq<Id>, Refusal>)
    ensures r.Ok? ==> |r.value| == |lines|
  {
    if exists i :: 0 <= i < |lines| && lines[i].account.None? && AccountOf(chart, company, lines[i]).None? then
      Err(RoleUnmapped)
    else if exists i :: 0 <= i < |lines| && AccountOf(chart, company, lines[i]).None? then
      Err(AccountNotPostable)
    else
      Ok(seq(|lines|, i requires 0 <= i < |lines| =>
        assert AccountOf(chart, company, lines[i]).Some?; AccountOf(chart, company, lines[i]).value))
  }

  // ---------------------------------------------------------------------
  // Rows
  // ---------------------------------------------------------------------

  /** What a transaction amount becomes in a column of four decimals. */
  function Column(amount: real): int {
    Round(amount * 100.0)
  }

  /** And what it reads back as. */
  function Amount(column: int): real {
    column as real / 100.0
  }

  /** What a rate becomes in a column of eight decimals. */
  function RateColumn(rate: real): int {
    Round(rate * 100000000.0)
  }

  function RowOf(l: Line, account: Id, currency: string, rate: real, share: int): Row {
    if l.side == Debit then
      Row(account, l.store, currency, RateColumn(rate), Column(l.amount), 0, share, 0, l.subledger, l.subledgerId)
    else
      Row(account, l.store, currency, RateColumn(rate), 0, Column(l.amount), 0, share, l.subledger, l.subledgerId)
  }

  function NextShare(shares: seq<int>, used: nat): int {
    if used < |shares| then shares[used] else 0
  }

  /** The share of line `i`: the next unused one on its own side. */
  function ShareOf(lines: seq<Line>, i: nat, baseDebits: seq<int>, baseCredits: seq<int>): int
    requires i < |lines|
  {
    if lines[i].side == Debit then NextShare(baseDebits, |AmountsOn(lines[..i], Debit)|)
    else NextShare(baseCredits, |AmountsOn(lines[..i], Credit)|)
  }

  function RowsOf(lines: seq<Line>, accounts: seq<Id>, currency: string, rate: real,
                  baseDebits: seq<int>, baseCredits: seq<int>): (r: seq<Row>)
    requires |accounts| == |lines|
    ensures |r| == |lines|
  {
    seq(|lines|, i requires 0 <= i < |lines| =>
      RowOf(lines[i], accounts[i], currency, rate, ShareOf(lines, i, baseDebits, baseCredits)))
  }

  /** The CHECK constraints of journal_line. */
  predicate Writable(r: Row) {
    && ((r.debit > 0 && r.credit == 0) || (r.credit > 0 && r.debit == 0))
    && ((r.baseDebit > 0 && r.baseCredit == 0) || (r.baseCredit > 0 && r.baseDebit == 0))
    && r.debit >= 0 && r.credit >= 0 && r.baseDebit >= 0 && r.baseCredit >= 0
    && ((r.debit > 0) <==> (r.baseDebit > 0))
    && r.rate > 0
  }

  predicate AllWritable(rows: seq<Row>) {
    forall i :: 0 <= i < |rows| ==> Writable(rows[i])
  }

  // ---------------------------------------------------------------------
  // One posting
  // ---------------------------------------------------------------------

  function RateOf(e: Entry): real {
    if e.rate == 0.0 then 1.0 else e.rate
  }

  function AllocationRefusal(e: AllocationError): Refusal {
    match e
    case EmptyPart => Refusal.EmptyPart
    case TotalTooSmall => Refusal.TotalTooSmall
  }

  /** An amount in the base currency, at the ledger's precision. */
  function Converted(amount: real, rate: real): int {
    Round(amount * rate)
  }

  function ConvertedTotal(lines: seq<Line>, rate: real): int {
    Converted(Debits(lines), rate)
  }

  function SharesFor(total: int, amounts: seq<real>): Result<seq<int>, Refusal> {
    match Allocated(total, amounts)
    case Err(why) => Err(AllocationRefusal(why))
    case Ok(shares) => Ok(shares)
  }

  function SharesOn(lines: seq<Line>, side: Side, rate: real): Result<seq<int>, Refusal> {
    SharesFor(ConvertedTotal(lines, rate), AmountsOn(lines, side))
  }

  /** The lines an entry would post, with the checks made before anything is written. */
  function Postable(e: Entry): Result<seq<Line>, Refusal> {
    var usable :- UsableLines(e.lines);
    var lines := if e.store.Some? then AllInStore(usable, e.store) else usable;
    if Debits(lines) != Credits(lines) then Err(Unbalanced)
    else if RateOf(e) < 0.0 then Err(NegativeRate)
    else Ok(lines)
  }

  /** The rows an entry would write: accounts, then shares, then the table's own checks. */
  function WrittenRows(chart: Chart, e: Entry, lines: seq<Line>): Result<seq<Row>, Refusal> {
    var accounts :- Accounts(chart, e.company, lines);
    var baseDebits :- SharesOn(lines, Debit, RateOf(e));
    var baseCredits :- SharesOn(lines, Credit, RateOf(e));
    var rows := RowsOf(lines, accounts, e.currency, RateOf(e), baseDebits, baseCredits);
    if AllWritable(rows) then Ok(rows) else Err(CheckViolated)
  }

  function Header(e: Entry, period: nat, no: nat, rows: seq<Row>): Posted {
    Posted(e.company, period, no, e.date, e.key, e.ruleVersion, e.reverses, rows)
  }

  /** The header and rows of a new entry, and the number it claims. */
  function Appended(b: Books, e: Entry, period: nat, rows: seq<Row>): (Books, Receipt)
    requires e.company in b.nextNo
  {
    var no := b.nextNo[e.company];
    (Books(b.chart, b.entries + [Header(e, period, no, rows)], b.nextNo[e.company := no + 1]),
     Receipt(|b.entries|, no, false))
  }

  /** `Post`: the books after it and what it answers, or why the transaction rolls back. */
  function AfterPost(b: Books, e: Entry): Result<(Books, Receipt), Refusal> {
    if Postable(e).Err? then Err(Postable(e).error)
    else if PeriodFor(b.chart, e).Err? then Err(PeriodFor(b.chart, e).error)
    else
      match EntryFor(b.entries, e.key)
      case Some(i) => Ok((b, Receipt(i, b.entries[i].no, true)))
      case None =>
        if e.company !in b.nextNo then Err(NoCompany)
        else
          match WrittenRows(b.chart, e, Postable(e).value)
          case Err(why) => Err(why)
          case Ok(rows) => Ok(Appended(b, e, PeriodFor(b.chart, e).value, rows))
  }

  /** `LinesOf`: an entry's lines as they read back, by account and in order. */
  function LineOf(r: Row): Line {
    Line("", Some(r.account), if r.debit > 0 then Debit else Credit,
         if r.debit > 0 then Amount(r.debit) else Amount(r.credit),
         r.store, r.subledger, r.subledgerId)
  }

  function LinesOf(rows: seq<Row>): Result<seq<Line>, Refusal> {
    if rows == [] then Err(NothingToReverse)
    else Ok(seq(|rows|, i requires 0 <= i < |rows| => LineOf(rows[i])))
  }
}
