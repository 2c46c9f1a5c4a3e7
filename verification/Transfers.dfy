/** Rules of two lines that move one named amount from one role to another, as the plan rules the product ships do. */
module Transfers {
  import opened Wrappers
  import opened Rounding
  import opened Posting
  import opened PostingLaws
  import opened Rules

  /** Which role is debited, which is credited, and the figure that says how much. */
  datatype Transfer = Transfer(debit: string, credit: string, figure: string)

  function TransferRule(t: Transfer): seq<RuleLine> {
    [RuleLine(t.debit, "", "debit", t.figure), RuleLine(t.credit, "", "credit", t.figure)]
  }

  function TransferOf(t: Transfer, amount: int): Transaction {
    Transaction(map[t.figure := amount as real], map[])
  }

  function TransferLines(t: Transfer, amount: int): seq<Line> {
    [Line(t.debit, None, Debit, amount as real, None, "", None),
     Line(t.credit, None, Credit, amount as real, None, "", None)]
  }

  predicate NamesRoles(t: Transfer) {
    t.debit != "" && t.credit != ""
  }

  /** Every rule under a key is this transfer. */
  ghost predicate AlwaysThis(rules: seq<Rule>, key: string, t: Transfer) {
    forall r :: r in rules && r.key == key ==> r.lines == TransferRule(t)
  }

  lemma TransferBuilds(t: Transfer, amount: int)
    requires NamesRoles(t)
    ensures Built(TransferRule(t), TransferOf(t, amount)) == Ok(TransferLines(t, amount))
  {
    var (rule, txn) := (TransferRule(t), TransferOf(t, amount));
    var (first, second) := (TransferLines(t, amount)[0], TransferLines(t, amount)[1]);
    assert rule[..1] == [rule[0]] && [rule[0]][..0] == [];
    assert Built([], txn) == Ok([]);
    assert TemplateLines(rule[0], txn) == Ok([first]) && TemplateLines(rule[1], txn) == Ok([second]);
    var none: seq<Line> := [];
    assert Built([rule[0]], txn) == Ok(none + [first]);
    assert none + [first] == [first] && [first] + [second] == TransferLines(t, amount);
  }

  /** The lines balance at the amount, one on each side, none of them for nothing. */
  lemma TransferTotals(t: Transfer, amount: int)
    requires NamesRoles(t) && amount > 0
    ensures var lines := TransferLines(t, amount);
      && AllSound(lines) && NonZero(lines) == lines
      && Debits(lines) == Credits(lines) == amount as real
      && |AmountsOn(lines, Debit)| == |AmountsOn(lines, Credit)| == 1
      && Column(amount as real) > 0 && Converted(amount as real, 1.0) == amount
  {
    var lines := TransferLines(t, amount);
    var none: seq<Line> := [];
    assert lines[..1] == [lines[0]] && [lines[0]][..0] == none;
    assert NonZero(none) == none && none + [lines[0]] == [lines[0]];
    assert NonZero([lines[0]]) == [lines[0]];
    TwoLineTotals(lines[0], lines[1]);
    RoundOfWhole(amount);
    RoundOfWhole(amount * 100);
  }

  /** The entry posting by such a rule comes to. */
  function TransferEntry(e: Entry, rule: Rule, t: Transfer, amount: int): Entry {
    e.(lines := TransferLines(t, amount), ruleVersion := rule.version)
  }

  lemma TransferIsAPost(b: Books, rules: seq<Rule>, e: Entry, country: string, t: Transfer, amount: int)
    requires NamesRoles(t) && AlwaysThis(rules, e.key.ruleKey, t) && e.key.ruleKey != ""
    requires ResolveRule(rules, e.key.ruleKey, country, e.date).Some?
    ensures AfterPostByRule(b, rules, e, country, TransferOf(t, amount))
         == AfterPost(b, TransferEntry(e, ResolveRule(rules, e.key.ruleKey, country, e.date).value, t, amount))
  {
    hide AfterPost, Built, ResolveRule;
    TransferBuilds(t, amount);
  }

  /** Exactly when such a transfer is posted under a new key. */
  lemma TransferIsAcceptedIff(b: Books, rules: seq<Rule>, e: Entry, country: string, t: Transfer, amount: int)
    requires NamesRoles(t) && AlwaysThis(rules, e.key.ruleKey, t) && amount > 0
    requires EntryFor(b.entries, e.key).None? && e.rate == 1.0
    ensures AfterPostByRule(b, rules, e, country, TransferOf(t, amount)).Ok? <==>
      && e.key.ruleKey != "" && ResolveRule(rules, e.key.ruleKey, country, e.date).Some?
      && PeriodMayTake(b.chart, e) && e.company in b.nextNo
      && RoleStands(b.chart, e.company, t.debit) && RoleStands(b.chart, e.company, t.credit)
  {
    hide AfterPost, Built, ResolveRule, EntryFor, NonZero, Debits, Credits;
    hide AmountsOn, Column, Converted, CoveringPeriod;
    if e.key.ruleKey != "" && ResolveRule(rules, e.key.ruleKey, country, e.date).Some? {
      var posted := TransferEntry(e, ResolveRule(rules, e.key.ruleKey, country, e.date).value, t, amount);
      TransferIsAPost(b, rules, e, country, t, amount);
      TransferTotals(t, amount);
      RoundOfWhole(100000000);
      PostIsAcceptedIff(b, posted);
      TransferLinesMayPostIff(b.chart, e.company, t, amount);
    }
  }

  lemma TransferLinesMayPostIff(chart: Chart, company: Id, t: Transfer, amount: int)
    requires NamesRoles(t) && amount > 0
    ensures var lines := TransferLines(t, amount);
      (forall i :: 0 <= i < |lines| && lines[i].amount != 0.0 ==> LineMayPost(chart, company, lines[i]))
      <==> RoleStands(chart, company, t.debit) && RoleStands(chart, company, t.credit)
  {
    hide Column;
    TransferTotals(t, amount);
    var lines := TransferLines(t, amount);
    assert LineMayPost(chart, company, lines[0]) <==> RoleStands(chart, company, t.debit);
    assert LineMayPost(chart, company, lines[1]) <==> RoleStands(chart, company, t.credit);
  }

  /** One debit of the one role's account and one credit of the other's, of so much, unconverted. */
  ghost predicate Moves(chart: Chart, company: Id, rows: seq<Row>, t: Transfer, amount: int, currency: string) {
    && (company, t.debit) in chart.roles && (company, t.credit) in chart.roles
    && rows == [Row(chart.roles[(company, t.debit)], None, currency, 100000000, 100 * amount, 0, amount, 0, "", None),
                Row(chart.roles[(company, t.credit)], None, currency, 100000000, 0, 100 * amount, 0, amount, "", None)]
  }

  /** What it appends: one entry, under its key and on its day and the rule's version, that moves the amount. */
  lemma TransferPosts(b: Books, rules: seq<Rule>, e: Entry, country: string, t: Transfer, amount: int)
    requires NamesRoles(t) && AlwaysThis(rules, e.key.ruleKey, t) && amount > 0
    requires EntryFor(b.entries, e.key).None? && e.rate == 1.0 && e.store.None?
    requires AfterPostByRule(b, rules, e, country, TransferOf(t, amount)).Ok?
    ensures var after := AfterPostByRule(b, rules, e, country, TransferOf(t, amount)).value.0;
      && |after.entries| == |b.entries| + 1 && after.entries[..|b.entries|] == b.entries
      && var posted := after.entries[|b.entries|];
      && posted.key == e.key && posted.company == e.company && posted.date == e.date
      && BaseOn(posted.rows, Debit) == amount && Moves(b.chart, e.company, posted.rows, t, amount, e.currency)
  {
    hide AfterPost, Postable, WrittenRows, Built, EntryFor, PeriodFor, Converted, Debits, Credits, NonZero;
    hide ResolveRule, Moves;
    var posted := TransferEntry(e, ResolveRule(rules, e.key.ruleKey, country, e.date).value, t, amount);
    TransferIsAPost(b, rules, e, country, t, amount);
    NewKeysAreNotReplays(b, posted);
    PostAppendsOneEntry(b, posted);
    PostAppendsABalancedEntry(b, posted);
    TransferTotals(t, amount);
    PostableTransfers(posted, t, amount);
    TransferRowsMove(b.chart, posted, t, amount);
  }

  lemma PostableTransfers(e: Entry, t: Transfer, amount: int)
    requires NamesRoles(t) && amount > 0 && e.lines == TransferLines(t, amount) && e.store.None? && Postable(e).Ok?
    ensures Postable(e).value == e.lines
  {
    hide AmountsOn, NonZero, Debits, Credits;
    TransferTotals(t, amount);
    SoundLinesAreKept(e.lines);
  }

  lemma TransferRowsMove(chart: Chart, e: Entry, t: Transfer, amount: int)
    requires NamesRoles(t) && amount > 0 && e.lines == TransferLines(t, amount) && e.rate == 1.0
    requires Postable(e) == Ok(e.lines) && WrittenRows(chart, e, e.lines).Ok?
    ensures Moves(chart, e.company, WrittenRows(chart, e, e.lines).value, t, amount, e.currency)
  {
    hide Postable, WrittenRows, Column;
    var rows := WrittenRows(chart, e, e.lines).value;
    RoundOfWhole(amount);
    RoundOfWhole(100000000);
    NoConversionKeepsEveryRow(chart, e, e.lines);
    WrittenRowsBalance(chart, e, e.lines);
    assert Writable(rows[0]) && Writable(rows[1]);
    assert AccountOf(chart, e.company, e.lines[0]) == Some(rows[0].account);
    assert AccountOf(chart, e.company, e.lines[1]) == Some(rows[1].account);
    assert BaseOf(rows[0]) as real == amount as real && BaseOf(rows[1]) as real == amount as real;
    WholeColumnsShow(amount);
  }

  lemma WholeColumnsShow(amount: int)
    requires amount > 0
    ensures Column(amount as real) == 100 * amount > 0
  {
    RoundOfWhole(100 * amount);
  }
}
