/**
 The ledger as the program runs it: tables updated step by step, the way `Post`,
 `Record` and `Reverse` write them, and each proved to do exactly what the
 functions of Posting, Rules and Journals say.
 */
module LedgerService {
  import opened Wrappers
  import opened Refusals
  import opened Allocation
  import opened Posting
  import opened PostingLaws
  import opened Rules
  import opened Journals

  // ---------------------------------------------------------------------
  // Reading lines
  // ---------------------------------------------------------------------

  /** `usableLines`. */
  method CollectUsable(lines: seq<Line>) returns (r: Result<seq<Line>, Refusal>)
    ensures r == UsableLines(lines)
  {
    var out: seq<Line> := [];
    var i := 0;
    while i < |lines|
      invariant 0 <= i <= |lines|
      invariant Kept(lines[..i]) == Ok(out)
    {
      var l := lines[i];
      assert lines[..i + 1][..i] == lines[..i];
      i := i + 1;
      if l.amount == 0.0 {
        continue;
      }
      var fault := LineFault(l);
      if fault.Some? {
        RefusalsStand(lines, i);
        return Err(fault.value);
      }
      out := out + [l];
    }
    assert lines[..i] == lines;
    if |out| < 2 {
      return Err(TooFewLines);
    }
    r := Ok(out);
  }

  lemma {:induction false} RefusalsStand(lines: seq<Line>, i: nat)
    requires i <= |lines| && Kept(lines[..i]).Err?
    ensures Kept(lines) == Kept(lines[..i])
    decreases |lines|
  {
    if i < |lines| {
      var n := |lines| - 1;
      assert lines[..n][..i] == lines[..i];
      RefusalsStand(lines[..n], i);
    } else {
      assert lines[..i] == lines;
    }
  }

  /** `sideTotals`. */
  method SideTotals(lines: seq<Line>) returns (debits: real, credits: real)
    ensures debits == Debits(lines) && credits == Credits(lines)
  {
    debits, credits := 0.0, 0.0;
    var i := 0;
    while i < |lines|
      invariant 0 <= i <= |lines|
      invariant debits == Debits(lines[..i]) && credits == Credits(lines[..i])
    {
      assert lines[..i + 1][..i] == lines[..i];
      if lines[i].side == Debit {
        debits := debits + lines[i].amount;
      } else {
        credits := credits + lines[i].amount;
      }
      i := i + 1;
    }
    assert lines[..i] == lines;
  }

  /** `amountsOn`. */
  method CollectAmounts(lines: seq<Line>, side: Side) returns (out: seq<real>)
    ensures out == AmountsOn(lines, side)
  {
    out := [];
    var i := 0;
    while i < |lines|
      invariant 0 <= i <= |lines|
      invariant out == AmountsOn(lines[..i], side)
    {
      assert lines[..i + 1][..i] == lines[..i];
      if lines[i].side == side {
        out := out + [lines[i].amount];
      }
      i := i + 1;
    }
    assert lines[..i] == lines;
  }

  /** `FlipSides`, one line at a time. */
  method SwapSides(lines: seq<Line>) returns (out: seq<Line>)
    ensures out == FlipSides(lines)
  {
    out := [];
    var i := 0;
    while i < |lines|
      invariant 0 <= i <= |lines|
      invariant out == FlipSides(lines)[..i]
    {
      out := out + [Flipped(lines[i])];
      i := i + 1;
    }
  }

  /** `resolveAccounts`: roles first, then the accounts callers named. */
  method ResolveAccounts(chart: Chart, company: Id, lines: seq<Line>) returns (r: Result<seq<Id>, Refusal>)
    ensures r == Accounts(chart, company, lines)
  {
    var i := 0;
    while i < |lines|
      invariant 0 <= i <= |lines|
      invariant forall k :: 0 <= k < i && lines[k].account.None? ==> AccountOf(chart, company, lines[k]).Some?
    {
      if lines[i].account.None? && AccountOf(chart, company, lines[i]).None? {
        return Err(RoleUnmapped);
      }
      i := i + 1;
    }
    var out := [];
    i := 0;
    while i < |lines|
      invariant 0 <= i <= |lines| && |out| == i
      invariant forall k :: 0 <= k < i ==> AccountOf(chart, company, lines[k]) == Some(out[k])
    {
      var account := AccountOf(chart, company, lines[i]);
      if account.None? {
        return Err(AccountNotPostable);
      }
      out := out + [account.value];
      i := i + 1;
    }
    assert Accounts(chart, company, lines).Ok? && out == Accounts(chart, company, lines).value;
    r := Ok(out);
  }

  // ---------------------------------------------------------------------
  // Building from a rule
  // ---------------------------------------------------------------------

  /** `Rule.Build`. */
  method Build(template: seq<RuleLine>, txn: Transaction) returns (r: Result<seq<Line>, Refusal>)
    ensures r == Built(template, txn)
  {
    var out: seq<Line> := [];
    var i := 0;
    while i < |template|
      invariant 0 <= i <= |template|
      invariant Built(template[..i], txn) == Ok(out)
    {
      assert template[..i + 1][..i] == template[..i];
      var lines := TemplateLines(template[i], txn);
      if lines.Err? {
        BuildRefusalsStand(template, txn, i + 1);
        return Err(lines.error);
      }
      out := out + lines.value;
      i := i + 1;
    }
    assert template[..i] == template;
    r := Ok(out);
  }

  lemma {:induction false} BuildRefusalsStand(template: seq<RuleLine>, txn: Transaction, i: nat)
    requires i <= |template| && Built(template[..i], txn).Err?
    ensures Built(template, txn) == Built(template[..i], txn)
    decreases |template|
  {
    if i < |template| {
      var n := |template| - 1;
      assert template[..n][..i] == template[..i];
      BuildRefusalsStand(template[..n], txn, i);
    } else {
      assert template[..i] == template;
    }
  }

  // ---------------------------------------------------------------------
  // Checking a typed journal
  // ---------------------------------------------------------------------

  /** `validateJournal`. */
  method ValidateJournal(j: NewJournal) returns (fault: Option<Refusal>)
    ensures fault == Validated(j)
  {
    if Blank(j.reason) {
      return Some(NoReason);
    }
    if j.date.None? {
      return Some(NoDate);
    }
    if |j.lines| < 2 {
      return Some(TooFewLines);
    }
    if |j.lines| > MAX_JOURNAL_LINES {
      return Some(TooManyLines);
    }
    var debits, credits := 0.0, 0.0;
    var i := 0;
    while i < |j.lines|
      invariant 0 <= i <= |j.lines|
      invariant FirstFault(j.lines[..i]).None?
      invariant debits == TypedDebits(j.lines[..i]) && credits == TypedCredits(j.lines[..i])
    {
      var l := j.lines[i];
      assert j.lines[..i + 1][..i] == j.lines[..i];
      var why := NewLineFault(l);
      if why.Some? {
        FaultsStand(j.lines, i + 1);
        return why;
      }
      debits := debits + l.debit;
      credits := credits + l.credit;
      i := i + 1;
    }
    assert j.lines[..i] == j.lines;
    if debits != credits {
      return Some(Unbalanced);
    }
    if debits <= 0.0 {
      return Some(JournalOfNothing);
    }
    fault := None;
  }

  lemma {:induction false} FaultsStand(lines: seq<NewLine>, i: nat)
    requires i <= |lines| && FirstFault(lines[..i]).Some?
    ensures FirstFault(lines) == FirstFault(lines[..i])
    decreases |lines|
  {
    if i < |lines| {
      var n := |lines| - 1;
      assert lines[..n][..i] == lines[..i];
      FaultsStand(lines[..n], i);
    } else {
      assert lines[..i] == lines;
    }
  }

  // ---------------------------------------------------------------------
  // Writing lines
  // ---------------------------------------------------------------------

  /** The last header with these rows under it. */
  function WithRows(entries: seq<Posted>, rows: seq<Row>): seq<Posted>
    requires entries != []
  {
    entries[|entries| - 1 := entries[|entries| - 1].(rows := rows)]
  }

  /** What the two share counters of `Post` stand at, and what they hand line `i`. */
  lemma CountersKeepStep(lines: seq<Line>, i: nat, d: seq<int>, c: seq<int>)
    requires AllSound(lines) && i < |lines|
    requires |d| == |AmountsOn(lines, Debit)| && |c| == |AmountsOn(lines, Credit)|
    ensures var (di, ci) := (|AmountsOn(lines[..i], Debit)|, |AmountsOn(lines[..i], Credit)|);
      if lines[i].side == Debit then
        && di < |d| && ShareOf(lines, i, d, c) == d[di]
        && |AmountsOn(lines[..i + 1], Debit)| == di + 1 && |AmountsOn(lines[..i + 1], Credit)| == ci
      else
        && ci < |c| && ShareOf(lines, i, d, c) == c[ci]
        && |AmountsOn(lines[..i + 1], Debit)| == di && |AmountsOn(lines[..i + 1], Credit)| == ci + 1
  {
    assert lines[..i + 1][..i] == lines[..i] && Sound(lines[i]);
    AnAmountInItsPlace(lines, i);
  }

  lemma NothingOnNoLines(lines: seq<Line>)
    ensures AmountsOn(lines[..0], Debit) == [] && AmountsOn(lines[..0], Credit) == []
  {
  }

  /** The last stage of a posting under a free key: what the rows decide. */
  lemma PostIsWhatItWrites(b: Books, e: Entry)
    requires Postable(e).Ok? && PeriodFor(b.chart, e).Ok? && EntryFor(b.entries, e.key).None? && e.company in b.nextNo
    ensures AfterPost(b, e) == match WrittenRows(b.chart, e, Postable(e).value)
      case Err(why) => Err(why)
      case Ok(rows) => Ok(Appended(b, e, PeriodFor(b.chart, e).value, rows))
  {
  }

  /** Both sides' shares of one converted total. */
  method AllocateSides(lines: seq<Line>, rate: real) returns (r: Result<(seq<int>, seq<int>), Refusal>)
    ensures r == match SharesOn(lines, Debit, rate)
      case Err(why) => Err(why)
      case Ok(d) => match SharesOn(lines, Credit, rate)
        case Err(why) => Err(why)
        case Ok(c) => Ok((d, c))
  {
    hide Allocated, Converted;
    var debits, credits := SideTotals(lines);
    var baseTotal := Converted(debits, rate);
    var debitParts := CollectAmounts(lines, Debit);
    var baseDebits := Allocate(baseTotal, debitParts);
    if baseDebits.Err? {
      return Err(AllocationRefusal(baseDebits.error));
    }
    assert SharesOn(lines, Debit, rate) == Ok(baseDebits.value);
    var creditParts := CollectAmounts(lines, Credit);
    var baseCredits := Allocate(baseTotal, creditParts);
    if baseCredits.Err? {
      return Err(AllocationRefusal(baseCredits.error));
    }
    r := Ok((baseDebits.value, baseCredits.value));
  }

  /**
   What a refused posting may have written before its caller rolls back: at most
   one header of its own at the end, with some of its rows, and its own company's
   number claimed. Everything that stood still stands.
   */
  ghost predicate LeftOver(before: Books, after: Books, company: Id) {
    && after.chart == before.chart
    && |before.entries| <= |after.entries| <= |before.entries| + 1
    && after.entries[..|before.entries|] == before.entries
    && after.nextNo.Keys == before.nextNo.Keys
    && forall c :: c in before.nextNo && c != company ==> after.nextNo[c] == before.nextNo[c]
  }

  lemma NothingIsLeftOver(b: Books, company: Id)
    ensures LeftOver(b, b, company)
  {
  }

  /** An accepted posting leaves no more than that either. */
  lemma AcceptedIsLeftOver(b: Books, e: Entry)
    requires AfterPost(b, e).Ok?
    ensures LeftOver(b, AfterPost(b, e).value.0, e.company)
  {
  }

  // ---------------------------------------------------------------------
  // The tables
  // ---------------------------------------------------------------------

  class Ledger {
    var chart: Chart
    var entries: seq<Posted>
    var nextNo: map<Id, nat>
    var currencies: map<Id, string>
    var journals: seq<Journal>
    var nextJournalNo: map<Id, nat>

    constructor ()
      ensures entries == [] && journals == [] && chart == Chart([], map[], map[])
      ensures nextNo == map[] && currencies == map[] && nextJournalNo == map[]
    {
      chart := Chart([], map[], map[]);
      entries, journals := [], [];
      nextNo, nextJournalNo, currencies := map[], map[], map[];
    }

    function Book(): Books
      reads this
    {
      Books(chart, entries, nextNo)
    }

    function State(): Register
      reads this
    {
      Register(Book(), currencies, journals, nextJournalNo)
    }

    /** Undo everything a transaction wrote. */
    method RollBack(saved: Register)
      modifies this
      ensures State() == saved
    {
      chart, entries, nextNo := saved.books.chart, saved.books.entries, saved.books.nextNo;
      currencies, journals, nextJournalNo := saved.currencies, saved.journals, saved.nextJournalNo;
    }

    /** `insertEntry`: the entry already there, or a new header under the next number. */
    method InsertEntry(e: Entry, period: nat) returns (r: Result<Receipt, Refusal>)
      modifies this
      ensures chart == old(chart) && currencies == old(currencies)
      ensures journals == old(journals) && nextJournalNo == old(nextJournalNo)
      ensures match EntryFor(old(entries), e.key)
        case Some(i) => r == Ok(Receipt(i, old(entries)[i].no, true)) && Book() == old(Book())
        case None =>
          if e.company !in old(nextNo) then r == Err(NoCompany) && Book() == old(Book())
          else
            && r == Ok(Receipt(|old(entries)|, old(nextNo)[e.company], false))
            && Book() == Appended(old(Book()), e, period, []).0
    {
      var found := EntryFor(entries, e.key);
      if found.Some? {
        return Ok(Receipt(found.value, entries[found.value].no, true));
      }
      if e.company !in nextNo {
        return Err(NoCompany);
      }
      var no := nextNo[e.company];
      nextNo := nextNo[e.company := no + 1];
      entries := entries + [Header(e, period, no, [])];
      r := Ok(Receipt(|entries| - 1, no, false));
    }

    /** The insert loop of `Post`: one row at a time, each checked by the table. */
    method InsertRows(e: Entry, lines: seq<Line>, accounts: seq<Id>, baseDebits: seq<int>, baseCredits: seq<int>)
      returns (ok: bool)
      requires entries != [] && entries[|entries| - 1].rows == []
      requires AllSound(lines) && |accounts| == |lines|
      requires |baseDebits| == |AmountsOn(lines, Debit)| && |baseCredits| == |AmountsOn(lines, Credit)|
      modifies this
      ensures chart == old(chart) && currencies == old(currencies) && nextNo == old(nextNo)
      ensures journals == old(journals) && nextJournalNo == old(nextJournalNo)
      ensures ok <==> AllWritable(RowsOf(lines, accounts, e.currency, RateOf(e), baseDebits, baseCredits))
      ensures ok ==>
        entries == WithRows(old(entries), RowsOf(lines, accounts, e.currency, RateOf(e), baseDebits, baseCredits))
      ensures |entries| == |old(entries)| && entries[..|entries| - 1] == old(entries)[..|entries| - 1]
    {
      hide AmountsOn, ShareOf, Sound, Writable, RowOf;
      ghost var rows := RowsOf(lines, accounts, e.currency, RateOf(e), baseDebits, baseCredits);
      var last := |entries| - 1;
      var di, ci := 0, 0;
      assert |AmountsOn(lines[..0], Debit)| == 0 && |AmountsOn(lines[..0], Credit)| == 0 by {
        NothingOnNoLines(lines);
      }
      var i := 0;
      while i < |lines|
        invariant 0 <= i <= |lines|
        invariant di == |AmountsOn(lines[..i], Debit)| && ci == |AmountsOn(lines[..i], Credit)|
        invariant entries == WithRows(old(entries), rows[..i])
        invariant AllWritable(rows[..i])
        invariant chart == old(chart) && currencies == old(currencies) && nextNo == old(nextNo)
        invariant journals == old(journals) && nextJournalNo == old(nextJournalNo)
      {
        CountersKeepStep(lines, i, baseDebits, baseCredits);
        var share;
        if lines[i].side == Debit {
          share := baseDebits[di];
          di := di + 1;
        } else {
          share := baseCredits[ci];
          ci := ci + 1;
        }
        var row := RowOf(lines[i], accounts[i], e.currency, RateOf(e), share);
        assert row == rows[i];
        if !Writable(row) {
          return false;
        }
        entries := entries[last := entries[last].(rows := entries[last].rows + [row])];
        assert rows[..i + 1] == rows[..i] + [row];
        i := i + 1;
      }
      assert rows[..i] == rows;
      ok := true;
    }

    /** `Post`, inside the caller's transaction: on a refusal the caller rolls back. */
    method Post(e: Entry) returns (r: Result<Receipt, Refusal>)
      modifies this
      ensures chart == old(chart) && currencies == old(currencies)
      ensures journals == old(journals) && nextJournalNo == old(nextJournalNo)
      ensures match AfterPost(old(Book()), e)
        case Err(why) => r == Err(why) && LeftOver(old(Book()), Book(), e.company)
        case Ok(after) => r == Ok(after.1) && Book() == after.0
    {
      var usable := CollectUsable(e.lines);
      if usable.Err? {
        return Err(usable.error);
      }
      var lines := usable.value;
      if e.store.Some? {
        lines := AllInStore(lines, e.store);
      }
      var debits, credits := SideTotals(lines);
      if debits != credits {
        return Err(Unbalanced);
      }
      var rate := if e.rate == 0.0 then 1.0 else e.rate;
      if rate < 0.0 {
        return Err(NegativeRate);
      }
      assert Postable(e) == Ok(lines) && rate == RateOf(e);
      var period := PeriodFor(chart, e);
      if period.Err? {
        return Err(period.error);
      }
      var inserted := InsertEntry(e, period.value);
      if inserted.Err? {
        return Err(inserted.error);
      }
      if inserted.value.alreadyPosted {
        return inserted;
      }
      r := WriteLines(old(Book()), e, lines, period.value, inserted.value);
    }

    /** The second half of `Post`, once the header stands: accounts, shares, rows. */
    method WriteLines(ghost before: Books, e: Entry, lines: seq<Line>, period: nat, receipt: Receipt)
      returns (r: Result<Receipt, Refusal>)
      requires Postable(e) == Ok(lines) && PeriodFor(before.chart, e) == Ok(period)
      requires EntryFor(before.entries, e.key).None? && e.company in before.nextNo
      requires Book() == Appended(before, e, period, []).0 && receipt == Appended(before, e, period, []).1
      modifies this
      ensures chart == old(chart) && currencies == old(currencies)
      ensures journals == old(journals) && nextJournalNo == old(nextJournalNo)
      ensures match AfterPost(before, e)
        case Err(why) => r == Err(why) && LeftOver(before, Book(), e.company)
        case Ok(after) => r == Ok(after.1) && Book() == after.0
    {
      hide AfterPost, Postable, PeriodFor, EntryFor, Accounts, SharesOn, RowsOf;
      PostableLinesBalance(e);
      PostIsWhatItWrites(before, e);
      var accounts := ResolveAccounts(chart, e.company, lines);
      if accounts.Err? {
        return Err(accounts.error);
      }
      var shares := AllocateSides(lines, RateOf(e));
      if shares.Err? {
        return Err(shares.error);
      }
      var (baseDebits, baseCredits) := shares.value;
      SharesCoverTheTotal(lines, Debit, RateOf(e));
      SharesCoverTheTotal(lines, Credit, RateOf(e));
      var ok := InsertRows(e, lines, accounts.value, baseDebits, baseCredits);
      if !ok {
        return Err(CheckViolated);
      }
      r := Ok(receipt);
    }

    /** `PostByRule`, inside the caller's transaction. */
    method PostByRule(rules: seq<Rule>, e: Entry, country: string, txn: Transaction)
      returns (r: Result<Receipt, Refusal>)
      modifies this
      ensures chart == old(chart) && currencies == old(currencies)
      ensures journals == old(journals) && nextJournalNo == old(nextJournalNo)
      ensures match AfterPostByRule(old(Book()), rules, e, country, txn)
        case Err(why) => r == Err(why) && LeftOver(old(Book()), Book(), e.company)
        case Ok(after) => r == Ok(after.1) && Book() == after.0
    {
      if e.key.ruleKey == "" {
        return Err(NoRuleNamed);
      }
      var rule := ResolveRule(rules, e.key.ruleKey, country, e.date);
      if rule.None? {
        return Err(NoRuleInForce);
      }
      var lines := Build(rule.value.lines, txn);
      if lines.Err? {
        return Err(lines.error);
      }
      r := Post(e.(lines := lines.value, ruleVersion := rule.value.version));
    }

    /** The common half of `Record` and `Reverse`: claim a journal number, post, write the register row. */
    method FileJournal(company: Id, uuid: Id, date: int, newId: Id, reversesEntry: Option<nat>,
                       reverses: Option<Id>, lines: seq<Line>) returns (r: Result<nat, Refusal>)
      modifies this
      ensures match AfterFiling(old(State()), company, uuid, date, newId, reversesEntry, reverses, lines)
        case Err(why) =>
          && r == Err(why) && LeftOver(old(Book()), Book(), company)
          && journals == old(journals) && currencies == old(currencies)
          && nextJournalNo.Keys == old(nextJournalNo).Keys
          && (forall c :: c in old(nextJournalNo) && c != company ==> nextJournalNo[c] == old(nextJournalNo)[c])
        case Ok(after) => r == Ok(after.1) && State() == after.0
    {
      hide LeftOver, AfterPost;
      if company !in currencies || company !in nextJournalNo {
        NothingIsLeftOver(Book(), company);
        return Err(NoCompany);
      }
      var number := nextJournalNo[company];
      var posted := Post(JournalEntry(company, date, newId, currencies[company], reversesEntry, lines));
      if posted.Err? {
        return Err(posted.error);
      }
      AcceptedIsLeftOver(old(Book()), JournalEntry(company, date, newId, currencies[company], reversesEntry, lines));
      nextJournalNo := nextJournalNo[company := number + 1];
      if JournalByUuid(journals, company, uuid).Some? {
        return Err(UuidTaken);
      }
      journals := journals + [Journal(newId, company, uuid, number, date, posted.value.entry, reverses)];
      r := Ok(|journals| - 1);
    }

    /** `Record`: all of it, or nothing. */
    method Record(company: Id, j: NewJournal, newId: Id) returns (r: Result<nat, Refusal>)
      modifies this
      ensures match AfterRecord(old(State()), company, j, newId)
        case Err(why) => r == Err(why) && State() == old(State())
        case Ok(after) => r == Ok(after.1) && State() == after.0
    {
      var fault := ValidateJournal(j);
      if fault.Some? {
        return Err(fault.value);
      }
      var existing := JournalByUuid(journals, company, j.uuid);
      if existing.Some? {
        return Ok(existing.value);
      }
      var saved := State();
      var lines: seq<Line> := [];
      var i := 0;
      while i < |j.lines|
        invariant 0 <= i <= |j.lines|
        invariant lines == LedgerLines(j.lines)[..i]
        invariant State() == saved
      {
        lines := lines + [LedgerLine(j.lines[i])];
        i := i + 1;
      }
      assert lines == LedgerLines(j.lines);
      r := FileJournal(company, j.uuid, j.date.value, newId, None, None, lines);
      if r.Err? {
        RollBack(saved);
      }
    }

    /** `LinesOf`: read an entry back, row by row. */
    method ReadLines(entry: nat) returns (r: Result<seq<Line>, Refusal>)
      requires entry < |entries|
      ensures r == LinesOf(entries[entry].rows)
    {
      var rows := entries[entry].rows;
      var out: seq<Line> := [];
      var i := 0;
      while i < |rows|
        invariant 0 <= i <= |rows| && |out| == i
        invariant forall k :: 0 <= k < i ==> out[k] == LineOf(rows[k])
      {
        out := out + [LineOf(rows[i])];
        i := i + 1;
      }
      if |out| == 0 {
        return Err(NothingToReverse);
      }
      assert out == LinesOf(rows).value;
      r := Ok(out);
    }

    /** `Reverse`: all of it, or nothing. */
    method Reverse(company: Id, journal: Id, reason: string, uuid: Id, today: int, newId: Id)
      returns (r: Result<nat, Refusal>)
      modifies this
      ensures match AfterReverse(old(State()), company, journal, reason, uuid, today, newId)
        case Err(why) => r == Err(why) && State() == old(State())
        case Ok(after) => r == Ok(after.1) && State() == after.0
    {
      if Blank(reason) {
        return Err(NoReason);
      }
      var found := JournalById(journals, company, journal);
      if found.None? {
        return Err(JournalNotFound);
      }
      var j := journals[found.value];
      if j.reverses.Some? {
        return Err(IsAReversal);
      }
      var reversal := ReversalOf(journals, journal);
      if reversal.Some? {
        if journals[reversal.value].company != company {
          return Err(JournalNotFound);
        }
        return Ok(reversal.value);
      }
      if j.entry >= |entries| {
        return Err(NothingToReverse);
      }
      var lines := ReadLines(j.entry);
      if lines.Err? {
        return Err(lines.error);
      }
      var saved := State();
      var flipped := SwapSides(lines.value);
      r := FileJournal(company, uuid, today, newId, Some(j.entry), Some(journal), flipped);
      if r.Err? {
        RollBack(saved);
      }
    }
  }
}
