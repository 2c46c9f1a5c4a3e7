/** What every accepted posting guarantees, whatever the lines, the rate and the books before it. */
module PostingLaws {
  import opened Wrappers
  import opened Rounding
  import opened Sums
  import opened Allocation
  import opened AllocationLaws
  import opened Posting

  // ---------------------------------------------------------------------
  // Column totals of an entry
  // ---------------------------------------------------------------------

  /** The base column of one side. */
  function BaseOn(rows: seq<Row>, side: Side): int {
    if rows == [] then 0
    else BaseOn(rows[..|rows| - 1], side)
         + if side == Debit then rows[|rows| - 1].baseDebit else rows[|rows| - 1].baseCredit
  }

  /** The transaction column of one side. */
  function StoredOn(rows: seq<Row>, side: Side): int {
    if rows == [] then 0
    else StoredOn(rows[..|rows| - 1], side)
         + if side == Debit then rows[|rows| - 1].debit else rows[|rows| - 1].credit
  }

  ghost predicate Balanced(rows: seq<Row>) {
    BaseOn(rows, Debit) == BaseOn(rows, Credit)
  }

  // ---------------------------------------------------------------------
  // Usable lines
  // ---------------------------------------------------------------------

  /** A line `Post` can write: a positive amount, on a side, naming one account one way. */
  predicate Sound(l: Line) {
    l.amount > 0.0 && LineFault(l).None?
  }

  predicate AllSound(lines: seq<Line>) {
    forall i :: 0 <= i < |lines| ==> Sound(lines[i])
  }

  /** Dropping zero lines leaves only sound ones and moves neither total. */
  lemma {:induction false} KeptLinesAreSound(lines: seq<Line>)
    requires Kept(lines).Ok?
    ensures AllSound(Kept(lines).value)
    ensures Debits(Kept(lines).value) == Debits(lines)
    ensures Credits(Kept(lines).value) == Credits(lines)
  {
    if lines != [] {
      var n := |lines| - 1;
      KeptLinesAreSound(lines[..n]);
      var before := Kept(lines[..n]).value;
      assert (before + [lines[n]])[..|before|] == before;
    }
  }

  /** Lines that are all sound are all kept. */
  lemma {:induction false} SoundLinesAreKept(lines: seq<Line>)
    requires AllSound(lines)
    ensures Kept(lines) == Ok(lines)
  {
    if lines != [] {
      var n := |lines| - 1;
      SoundLinesAreKept(lines[..n]);
      assert lines[..n] + [lines[n]] == lines;
    }
  }

  lemma OneMoreLine(lines: seq<Line>, l: Line)
    ensures Debits(lines + [l]) == Debits(lines) + if l.side == Debit then l.amount else 0.0
    ensures Credits(lines + [l]) == Credits(lines) + if l.side == Debit then 0.0 else l.amount
    ensures forall side :: |AmountsOn(lines + [l], side)| == |AmountsOn(lines, side)| + if l.side == side then 1 else 0
  {
  }

  lemma TwoLineTotals(a: Line, b: Line)
    requires a.side == Debit
    ensures Debits([a, b]) == a.amount + (if b.side == Debit then b.amount else 0.0)
    ensures Credits([a, b]) == if b.side == Debit then 0.0 else b.amount
    ensures |AmountsOn([a, b], Debit)| == 1 + (if b.side == Debit then 1 else 0)
    ensures |AmountsOn([a, b], Credit)| == if b.side == Credit then 1 else 0
  {
    var none: seq<Line> := [];
    OneMoreLine(none, a);
    OneMoreLine([a], b);
    assert [a] == none + [a] && [a, b] == [a] + [b];
  }

  lemma {:induction false} SideTotalsAreTotals(lines: seq<Line>)
    requires AllSound(lines)
    ensures Debits(lines) == Total(AmountsOn(lines, Debit))
    ensures Credits(lines) == Total(AmountsOn(lines, Credit))
    ensures AllPositive(AmountsOn(lines, Debit)) && AllPositive(AmountsOn(lines, Credit))
    ensures |AmountsOn(lines, Debit)| + |AmountsOn(lines, Credit)| == |lines|
  {
    if lines != [] {
      var n := |lines| - 1;
      SideTotalsAreTotals(lines[..n]);
      assert Sound(lines[n]);
      forall side | side == Debit || side == Credit
        ensures Total(AmountsOn(lines, side)) == Total(AmountsOn(lines[..n], side))
                  + if lines[n].side == side then lines[n].amount else 0.0
      {
        var before := AmountsOn(lines[..n], side);
        if lines[n].side == side {
          assert AmountsOn(lines, side)[..|before|] == before;
        } else {
          assert AmountsOn(lines, side) == before;
        }
      }
    }
  }

  lemma PositiveTotal(s: seq<real>)
    requires AllPositive(s)
    ensures Total(s) == 0.0 <==> s == []
  {
    TotalGrows(s, 0, |s|);
    assert s[..|s|] == s;
  }

  /** Positive amounts that balance sit on both sides, which is what lets both be allocated. */
  lemma BothSidesAreNamed(lines: seq<Line>)
    requires AllSound(lines) && lines != [] && Debits(lines) == Credits(lines)
    ensures AmountsOn(lines, Debit) != [] && AmountsOn(lines, Credit) != []
  {
    SideTotalsAreTotals(lines);
    PositiveTotal(AmountsOn(lines, Debit));
    PositiveTotal(AmountsOn(lines, Credit));
  }

  // ---------------------------------------------------------------------
  // Lines that differ only in what allocation does not look at
  // ---------------------------------------------------------------------

  ghost predicate SameLegs(a: seq<Line>, b: seq<Line>) {
    |a| == |b| && forall i :: 0 <= i < |a| ==> a[i].amount == b[i].amount && a[i].side == b[i].side
  }

  lemma {:induction false} SameLegsSameAmounts(a: seq<Line>, b: seq<Line>, side: Side)
    requires SameLegs(a, b)
    ensures AmountsOn(a, side) == AmountsOn(b, side)
    ensures Debits(a) == Debits(b) && Credits(a) == Credits(b)
  {
    if a != [] {
      SameLegsSameAmounts(a[..|a| - 1], b[..|b| - 1], side);
    }
  }

  ghost predicate MirroredLegs(a: seq<Line>, b: seq<Line>) {
    && |a| == |b|
    && forall i :: 0 <= i < |a| ==>
      && a[i].amount == b[i].amount
      && (a[i].side == Debit || a[i].side == Credit)
      && b[i].side == if a[i].side == Debit then Credit else Debit
  }

  lemma {:induction false} MirroredLegsSwapAmounts(a: seq<Line>, b: seq<Line>)
    requires MirroredLegs(a, b)
    ensures AmountsOn(a, Debit) == AmountsOn(b, Credit) && AmountsOn(a, Credit) == AmountsOn(b, Debit)
    ensures Debits(a) == Credits(b) && Credits(a) == Debits(b)
  {
    if a != [] {
      MirroredLegsSwapAmounts(a[..|a| - 1], b[..|b| - 1]);
    }
  }

  /** Allocation looks at sides and amounts only. */
  lemma SameLegsSameShares(a: seq<Line>, b: seq<Line>)
    requires SameLegs(a, b)
    ensures SharesOn(a, Debit, 1.0) == SharesOn(b, Debit, 1.0)
    ensures SharesOn(a, Credit, 1.0) == SharesOn(b, Credit, 1.0)
  {
    SameLegsSameAmounts(a, b, Debit);
    SameLegsSameAmounts(a, b, Credit);
  }

  // ---------------------------------------------------------------------
  // Rows
  // ---------------------------------------------------------------------

  /** One side's base column is its shares, when every row on the side takes the next one. */
  lemma {:induction false} RowsCarryTheirShares(rows: seq<Row>, lines: seq<Line>, shares: seq<int>, side: Side)
    requires |rows| == |lines| && |AmountsOn(lines, side)| <= |shares|
    requires forall i :: 0 <= i < |lines| ==>
      (if side == Debit then rows[i].baseDebit else rows[i].baseCredit)
        == if lines[i].side == side then NextShare(shares, |AmountsOn(lines[..i], side)|) else 0
    ensures BaseOn(rows, side) == Sum(shares[..|AmountsOn(lines, side)|])
  {
    if lines != [] {
      var n := |lines| - 1;
      forall i | 0 <= i < n ensures lines[..n][..i] == lines[..i] {
      }
      RowsCarryTheirShares(rows[..n], lines[..n], shares, side);
      if lines[n].side == side {
        SumOfNext(shares, |AmountsOn(lines[..n], side)|);
      }
    }
  }

  /** What `Postable` passes on: sound lines in balance, with the same legs as the lines kept. */
  lemma PostableLinesBalance(e: Entry)
    requires Postable(e).Ok?
    ensures var lines := Postable(e).value;
      && |lines| >= 2 && AllSound(lines) && Debits(lines) == Credits(lines)
      && Kept(e.lines).Ok? && SameLegs(lines, Kept(e.lines).value)
      && RateOf(e) > 0.0
  {
    KeptLinesAreSound(e.lines);
    assert RateOf(e) != 0.0;
  }

  /** The shares of one side, when they can be found: one a line, the whole converted total. */
  lemma SharesCoverTheTotal(lines: seq<Line>, side: Side, rate: real)
    requires AllSound(lines) && lines != [] && Debits(lines) == Credits(lines)
    requires side == Debit || side == Credit
    requires SharesOn(lines, side, rate).Ok?
    ensures var shares := SharesOn(lines, side, rate).value;
      && |shares| == |AmountsOn(lines, side)| && AtLeastFloor(shares)
      && Sum(shares) == ConvertedTotal(lines, rate)
  {
    BothSidesAreNamed(lines);
    AllocationIsExact(ConvertedTotal(lines, rate), AmountsOn(lines, side));
  }

  lemma AllocatedRowsBalance(lines: seq<Line>, accounts: seq<Id>, currency: string, rate: real,
                             baseDebits: seq<int>, baseCredits: seq<int>)
    requires AllSound(lines) && |accounts| == |lines|
    requires |baseDebits| == |AmountsOn(lines, Debit)| && |baseCredits| == |AmountsOn(lines, Credit)|
    ensures var rows := RowsOf(lines, accounts, currency, rate, baseDebits, baseCredits);
      BaseOn(rows, Debit) == Sum(baseDebits) && BaseOn(rows, Credit) == Sum(baseCredits)
  {
    var rows := RowsOf(lines, accounts, currency, rate, baseDebits, baseCredits);
    assert forall i :: 0 <= i < |lines| ==> Sound(lines[i]);
    RowsCarryTheirShares(rows, lines, baseDebits, Debit);
    RowsCarryTheirShares(rows, lines, baseCredits, Credit);
    assert baseDebits[..|baseDebits|] == baseDebits && baseCredits[..|baseCredits|] == baseCredits;
  }

  /**
   For every rate and every list of lines that `Post` accepts, the rows it
   writes stand line for line, each on one side in both columns, and both base
   columns come to the rounded converted total.
   */
  lemma WrittenRowsBalance(chart: Chart, e: Entry, lines: seq<Line>)
    requires Postable(e) == Ok(lines) && WrittenRows(chart, e, lines).Ok?
    ensures var rows := WrittenRows(chart, e, lines).value;
      && |rows| == |lines| >= 2 && AllWritable(rows)
      && BaseOn(rows, Debit) == BaseOn(rows, Credit) == ConvertedTotal(lines, RateOf(e))
      && forall i :: 0 <= i < |rows| ==>
        && rows[i].store == lines[i].store
        && rows[i].subledger == lines[i].subledger && rows[i].subledgerId == lines[i].subledgerId
        && rows[i].currency == e.currency && rows[i].rate == RateColumn(RateOf(e))
        && AccountOf(chart, e.company, lines[i]) == Some(rows[i].account)
        && (if lines[i].side == Debit then rows[i].debit == Column(lines[i].amount)
            else rows[i].credit == Column(lines[i].amount))
  {
    PostableLinesBalance(e);
    SharesCoverTheTotal(lines, Debit, RateOf(e));
    SharesCoverTheTotal(lines, Credit, RateOf(e));
    AllocatedRowsBalance(lines, Accounts(chart, e.company, lines).value, e.currency, RateOf(e),
                         SharesOn(lines, Debit, RateOf(e)).value, SharesOn(lines, Credit, RateOf(e)).value);
  }

  /** A leg's amount stands where its share will. */
  lemma {:induction false} AnAmountInItsPlace(lines: seq<Line>, i: nat)
    requires i < |lines|
    ensures |AmountsOn(lines[..i], lines[i].side)| < |AmountsOn(lines, lines[i].side)|
    ensures AmountsOn(lines, lines[i].side)[|AmountsOn(lines[..i], lines[i].side)|] == lines[i].amount
    decreases |lines|
  {
    var n := |lines| - 1;
    if i < n {
      assert lines[..n][..i] == lines[..i];
      AnAmountInItsPlace(lines[..n], i);
    }
  }

  /** With a share for every line, only a figure too fine for its column can stop a row. */
  lemma RowsAreWritableIff(lines: seq<Line>, accounts: seq<Id>, currency: string, rate: real,
                           baseDebits: seq<int>, baseCredits: seq<int>)
    requires AllSound(lines) && lines != [] && |accounts| == |lines|
    requires |baseDebits| == |AmountsOn(lines, Debit)| && |baseCredits| == |AmountsOn(lines, Credit)|
    requires AtLeastFloor(baseDebits) && AtLeastFloor(baseCredits)
    ensures AllWritable(RowsOf(lines, accounts, currency, rate, baseDebits, baseCredits))
      <==> RateColumn(rate) > 0 && forall i :: 0 <= i < |lines| ==> Column(lines[i].amount) > 0
  {
    var rows := RowsOf(lines, accounts, currency, rate, baseDebits, baseCredits);
    forall i | 0 <= i < |lines|
      ensures Writable(rows[i]) <==> RateColumn(rate) > 0 && Column(lines[i].amount) > 0
    {
      assert Sound(lines[i]);
      AnAmountInItsPlace(lines, i);
      assert ShareOf(lines, i, baseDebits, baseCredits) >= FLOOR;
    }
    assert Writable(rows[0]) ==> RateColumn(rate) > 0;
  }

  lemma SharesExistIff(lines: seq<Line>, side: Side, rate: real)
    requires AllSound(lines) && lines != [] && Debits(lines) == Credits(lines)
    requires side == Debit || side == Credit
    ensures SharesOn(lines, side, rate).Ok? <==> ConvertedTotal(lines, rate) >= |AmountsOn(lines, side)|
  {
    BothSidesAreNamed(lines);
    SideTotalsAreTotals(lines);
    AllocationIsExact(ConvertedTotal(lines, rate), AmountsOn(lines, side));
  }

  /** Exactly when the rows of a balanced entry can be written. */
  lemma RowsAreWrittenIff(chart: Chart, e: Entry, lines: seq<Line>)
    requires Postable(e) == Ok(lines)
    ensures WrittenRows(chart, e, lines).Ok? <==>
      && (forall i :: 0 <= i < |lines| ==> AccountOf(chart, e.company, lines[i]).Some?)
      && ConvertedTotal(lines, RateOf(e)) >= |AmountsOn(lines, Debit)|
      && ConvertedTotal(lines, RateOf(e)) >= |AmountsOn(lines, Credit)|
      && RateColumn(RateOf(e)) > 0
      && (forall i :: 0 <= i < |lines| ==> Column(lines[i].amount) > 0)
  {
    PostableLinesBalance(e);
    var rate, accounts := RateOf(e), Accounts(chart, e.company, lines);
    SharesExistIff(lines, Debit, rate);
    SharesExistIff(lines, Credit, rate);
    var baseDebits, baseCredits := SharesOn(lines, Debit, rate), SharesOn(lines, Credit, rate);
    if accounts.Ok? && baseDebits.Ok? && baseCredits.Ok? {
      SharesCoverTheTotal(lines, Debit, rate);
      SharesCoverTheTotal(lines, Credit, rate);
      RowsAreWritableIff(lines, accounts.value, e.currency, rate, baseDebits.value, baseCredits.value);
    }
  }

  /** What a row carries in base, on its own side. */
  function BaseOf(r: Row): int {
    if r.debit > 0 then r.baseDebit else r.baseCredit
  }

  lemma RowsCarryStatedShares(rows: seq<Row>, lines: seq<Line>, accounts: seq<Id>, currency: string, rate: real,
                              d: seq<int>, c: seq<int>)
    requires |accounts| == |lines| && rows == RowsOf(lines, accounts, currency, rate, d, c)
    requires AllWritable(rows) && AllSound(lines)
    ensures forall i :: 0 <= i < |rows| ==> BaseOf(rows[i]) == ShareOf(lines, i, d, c)
  {
    assert forall i :: 0 <= i < |rows| ==> Writable(rows[i]) && Sound(lines[i]);
  }

  // ---------------------------------------------------------------------
  // No conversion
  // ---------------------------------------------------------------------

  ghost predicate AllWhole(lines: seq<Line>) {
    forall i :: 0 <= i < |lines| ==> Round(lines[i].amount) as real == lines[i].amount
  }

  /** One side's amounts as whole units. */
  function UnitsOn(lines: seq<Line>, side: Side): (u: seq<int>)
    ensures |u| == |AmountsOn(lines, side)|
  {
    seq(|AmountsOn(lines, side)|, i requires 0 <= i < |AmountsOn(lines, side)| => Round(AmountsOn(lines, side)[i]))
  }

  lemma {:induction false} WholeAmountsStayWhole(lines: seq<Line>, side: Side)
    requires AllSound(lines) && AllWhole(lines)
    ensures AtLeastFloor(UnitsOn(lines, side))
    ensures forall i :: 0 <= i < |UnitsOn(lines, side)| ==> AmountsOn(lines, side)[i] == UnitsOn(lines, side)[i] as real
  {
    if lines != [] {
      var n := |lines| - 1;
      WholeAmountsStayWhole(lines[..n], side);
      assert Sound(lines[n]);
      forall i | 0 <= i < |UnitsOn(lines, side)|
        ensures UnitsOn(lines, side)[i] >= FLOOR && AmountsOn(lines, side)[i] == UnitsOn(lines, side)[i] as real
      {
        if i < |UnitsOn(lines[..n], side)| {
          assert UnitsOn(lines, side)[i] == UnitsOn(lines[..n], side)[i];
        }
      }
    }
  }

  lemma WholeSharesAreAmounts(lines: seq<Line>, side: Side)
    requires AllSound(lines) && AllWhole(lines) && Debits(lines) == Credits(lines) && (side == Debit || side == Credit)
    ensures SharesOn(lines, side, 1.0) == Ok(UnitsOn(lines, side))
  {
    hide Allocated;
    var units := UnitsOn(lines, side);
    WholeAmountsStayWhole(lines, side);
    SideTotalsAreTotals(lines);
    TotalOfWhole(AmountsOn(lines, side), units);
    assert Debits(lines) * 1.0 == Sum(units) as real;
    RoundOfWhole(Sum(units));
    NoConversionIsTheIdentity(units, AmountsOn(lines, side));
  }

  /**
   Whole amounts at rate one: nothing but an account that does not stand can stop
   the rows, and every row's base amount is its own amount, on its own side.
   */
  lemma NoConversionKeepsEveryRow(chart: Chart, e: Entry, lines: seq<Line>)
    requires Postable(e) == Ok(lines) && RateOf(e) == 1.0 && AllWhole(lines)
    ensures WrittenRows(chart, e, lines).Ok?
      <==> forall i :: 0 <= i < |lines| ==> AccountOf(chart, e.company, lines[i]).Some?
    ensures WrittenRows(chart, e, lines).Ok? ==>
      var rows := WrittenRows(chart, e, lines).value;
      |rows| == |lines| && forall i :: 0 <= i < |rows| ==>
        && rows[i].debit == 100 * rows[i].baseDebit && rows[i].credit == 100 * rows[i].baseCredit
        && BaseOf(rows[i]) as real == lines[i].amount
  {
    hide Postable, WrittenRows;
    PostableLinesBalance(e);
    WholeSharesAreAmounts(lines, Debit);
    WholeSharesAreAmounts(lines, Credit);
    WholeColumns(lines);
    SharesExistIff(lines, Debit, 1.0);
    SharesExistIff(lines, Credit, 1.0);
    RoundOfWhole(100000000);
    RowsAreWrittenIff(chart, e, lines);
    if WrittenRows(chart, e, lines).Ok? {
      WrittenRowsBalance(chart, e, lines);
      WholeRows(chart, e, lines);
    }
  }

  lemma WholeColumns(lines: seq<Line>)
    requires AllSound(lines) && AllWhole(lines)
    ensures forall i :: 0 <= i < |lines| ==> Column(lines[i].amount) == 100 * Round(lines[i].amount) > 0
  {
    forall i | 0 <= i < |lines| ensures Column(lines[i].amount) == 100 * Round(lines[i].amount) > 0 {
      assert Sound(lines[i]);
      RoundOfWhole(100 * Round(lines[i].amount));
    }
  }

  lemma WholeRows(chart: Chart, e: Entry, lines: seq<Line>)
    requires Postable(e) == Ok(lines) && RateOf(e) == 1.0 && AllWhole(lines) && WrittenRows(chart, e, lines).Ok?
    ensures |WrittenRows(chart, e, lines).value| == |lines|
    ensures forall i :: 0 <= i < |lines| ==> BaseOf(WrittenRows(chart, e, lines).value[i]) == Round(lines[i].amount)
  {
    hide Postable, SharesOn, RowsOf;
    PostableLinesBalance(e);
    WrittenRowsBalance(chart, e, lines);
    WholeSharesAreAmounts(lines, Debit);
    WholeSharesAreAmounts(lines, Credit);
    var rows := WrittenRows(chart, e, lines).value;
    var (d, c) := (UnitsOn(lines, Debit), UnitsOn(lines, Credit));
    RowsCarryStatedShares(rows, lines, Accounts(chart, e.company, lines).value, e.currency, 1.0, d, c);
    forall i | 0 <= i < |lines| ensures BaseOf(rows[i]) == Round(lines[i].amount) {
      AnAmountInItsPlace(lines, i);
      assert Sound(lines[i]);
    }
  }

  // ---------------------------------------------------------------------
  // One posting
  // ---------------------------------------------------------------------

  /** The shape of a fresh posting: one header at the end, one number claimed. */
  lemma PostAppendsOneEntry(b: Books, e: Entry)
    requires AfterPost(b, e).Ok? && !AfterPost(b, e).value.1.alreadyPosted
    ensures Postable(e).Ok? && PeriodFor(b.chart, e).Ok? && EntryFor(b.entries, e.key).None?
    ensures e.company in b.nextNo && WrittenRows(b.chart, e, Postable(e).value).Ok?
    ensures AfterPost(b, e).value
         == Appended(b, e, PeriodFor(b.chart, e).value, WrittenRows(b.chart, e, Postable(e).value).value)
  {
  }

  /** Under a key nothing stands under yet, what is accepted is new. */
  lemma NewKeysAreNotReplays(b: Books, e: Entry)
    requires EntryFor(b.entries, e.key).None? && AfterPost(b, e).Ok?
    ensures !AfterPost(b, e).value.1.alreadyPosted
  {
  }

  /**
   The period an entry stands in is its company's, covers its day, and is open, or
   closed for the year-end entry alone.
   */
  ghost predicate TakesTheEntry(chart: Chart, posted: Posted) {
    && posted.period < |chart.periods|
    && var p := chart.periods[posted.period];
    && p.company == posted.company && p.startsOn <= posted.date <= p.endsOn
    && (p.state == Open || (p.state == Closed && posted.key.sourceType == "year_end_close"))
  }

  /**
   What it appends is one balanced entry under its own key and the next number,
   in a period that may take it, whatever the lines and the rate.
   */
  lemma PostAppendsABalancedEntry(b: Books, e: Entry)
    requires AfterPost(b, e).Ok? && !AfterPost(b, e).value.1.alreadyPosted
    ensures var (after, r) := AfterPost(b, e).value;
      && r.entry == |b.entries| == |after.entries| - 1 && after.entries[..|b.entries|] == b.entries
      && Postable(e).Ok?
      && var posted := after.entries[r.entry];
      && |posted.rows| == |Postable(e).value| >= 2 && AllWritable(posted.rows)
      && BaseOn(posted.rows, Debit) == BaseOn(posted.rows, Credit) == ConvertedTotal(Postable(e).value, RateOf(e))
      && IsConvertedTotal(BaseOn(posted.rows, Debit), e)
      && posted.company == e.company && posted.date == e.date && posted.key == e.key
      && posted.ruleVersion == e.ruleVersion && posted.reverses == e.reverses
      && e.company in b.nextNo && r.no == posted.no == b.nextNo[e.company]
      && after.nextNo == b.nextNo[e.company := r.no + 1]
      && TakesTheEntry(b.chart, posted)
  {
    hide AfterPost, Postable, WrittenRows, PeriodFor, IsConvertedTotal;
    PostAppendsOneEntry(b, e);
    PeriodsTakeTheirEntries(b.chart, e);
    WrittenRowsBalance(b.chart, e, Postable(e).value);
    PostableTotalsConvert(b.chart, e);
  }

  lemma PostableTotalsConvert(chart: Chart, e: Entry)
    requires Postable(e).Ok?
    ensures IsConvertedTotal(ConvertedTotal(Postable(e).value, RateOf(e)), e)
  {
    hide Postable, Converted, Debits, Credits, AmountsOn, NonZero, IsConvertedTotal;
    PostableLinesBalance(e);
    PostableLinesAreTheNonZeroOnes(chart, e);
    DebitsAreNotNegative(Postable(e).value);
    ConvertedIsNearest(e);
  }

  lemma PeriodsTakeTheirEntries(chart: Chart, e: Entry)
    requires PeriodFor(chart, e).Ok?
    ensures forall no, rows :: TakesTheEntry(chart, Header(e, PeriodFor(chart, e).value, no, rows))
  {
  }

  /** Replaying a key writes nothing, burns no number and answers with the entry already there. */
  lemma ReplayWritesNothing(b: Books, e: Entry)
    requires exists i :: 0 <= i < |b.entries| && b.entries[i].key == e.key
    ensures AfterPost(b, e).Ok? ==>
      var (after, r) := AfterPost(b, e).value;
      && after == b && r.alreadyPosted
      && r.entry < |b.entries| && b.entries[r.entry].key == e.key && b.entries[r.entry].no == r.no
  {
  }

  /** The lines that are not for nothing. */
  function NonZero(lines: seq<Line>): seq<Line> {
    if lines == [] then []
    else NonZero(lines[..|lines| - 1]) + if lines[|lines| - 1].amount == 0.0 then [] else [lines[|lines| - 1]]
  }

  /** Exactly when no line is refused, and what is kept then. */
  lemma {:induction false} LinesAreKeptIff(lines: seq<Line>)
    ensures Kept(lines).Ok? <==> forall i :: 0 <= i < |lines| && lines[i].amount != 0.0 ==> LineFault(lines[i]).None?
    ensures Kept(lines).Ok? ==> Kept(lines).value == NonZero(lines)
  {
    if lines != [] {
      var n := |lines| - 1;
      LinesAreKeptIff(lines[..n]);
      assert forall i :: 0 <= i < n ==> lines[..n][i] == lines[i];
    }
  }

  /** Exactly when an entry's lines pass the checks made before anything is written. */
  lemma PostableIff(e: Entry)
    ensures Postable(e).Ok? <==>
      && (forall i :: 0 <= i < |e.lines| && e.lines[i].amount != 0.0 ==> LineFault(e.lines[i]).None?)
      && |NonZero(e.lines)| >= 2 && Debits(e.lines) == Credits(e.lines) && e.rate >= 0.0
    ensures Postable(e).Ok? ==> var lines := Postable(e).value;
      && |lines| == |NonZero(e.lines)| && SameLegs(lines, NonZero(e.lines))
      && forall i :: 0 <= i < |lines| ==> lines[i] == InStore(NonZero(e.lines)[i], e.store)
  {
    hide Kept, NonZero, Debits, Credits, LineFault, AmountsOn;
    LinesAreKeptIff(e.lines);
    if Kept(e.lines).Ok? {
      KeptLinesAreSound(e.lines);
      var kept := Kept(e.lines).value;
      var lines := if e.store.Some? then AllInStore(kept, e.store) else kept;
      assert SameLegs(lines, kept);
      SameLegsSameAmounts(lines, kept, Debit);
    }
  }

  /** The period a day falls in may take this entry: it is open, or closed for the year-end entry alone. */
  predicate PeriodMayTake(chart: Chart, e: Entry) {
    match CoveringPeriod(chart.periods, e.company, e.date)
    case None => false
    case Some(p) =>
      chart.periods[p].state == Open || (chart.periods[p].state == Closed && e.key.sourceType == "year_end_close")
  }

  /** A role of the company that posts to an account taking postings. */
  predicate RoleStands(chart: Chart, company: Id, role: string) {
    && (company, role) in chart.roles && chart.roles[(company, role)] in chart.accounts
    && chart.accounts[chart.roles[(company, role)]].postable
  }

  /** An account of the company that takes postings. */
  predicate AccountStands(chart: Chart, company: Id, account: Id) {
    && account in chart.accounts && chart.accounts[account].company == company && chart.accounts[account].postable
  }

  /** What one line needs: half a ten-thousandth or more, a side, and one account named one way, which stands. */
  predicate LineMayPost(chart: Chart, company: Id, l: Line) {
    && l.amount >= 0.005
    && (l.side == Debit || l.side == Credit)
    && match l.account
       case None => l.role != "" && RoleStands(chart, company, l.role)
       case Some(account) => l.role == "" && AccountStands(chart, company, account)
  }

  lemma ColumnShowsIff(amount: real)
    ensures Column(amount) > 0 <==> amount >= 0.005
  {
  }

  lemma RateShowsIff(rate: real)
    ensures RateColumn(rate) > 0 <==> rate >= 0.000000005
  {
  }

  lemma ConvertedReachesIff(amount: real, rate: real, n: nat)
    requires n > 0
    ensures Converted(amount, rate) >= n <==> amount * rate >= n as real - 0.5
  {
  }

  lemma LineMayPostIff(chart: Chart, company: Id, l: Line)
    ensures LineMayPost(chart, company, l)
      <==> LineFault(l).None? && AccountOf(chart, company, l).Some? && Column(l.amount) > 0
  {
    hide Column;
    ColumnShowsIff(l.amount);
  }

  /** The last stages, once the lines and the period have passed. */
  lemma PostableEntriesAreAcceptedIff(b: Books, e: Entry)
    requires EntryFor(b.entries, e.key).None?
    ensures AfterPost(b, e).Ok? <==>
      && Postable(e).Ok? && PeriodFor(b.chart, e).Ok? && e.company in b.nextNo
      && var (lines, rate) := (Postable(e).value, RateOf(e));
      && (forall i :: 0 <= i < |lines| ==> AccountOf(b.chart, e.company, lines[i]).Some?)
      && ConvertedTotal(lines, rate) >= |AmountsOn(lines, Debit)|
      && ConvertedTotal(lines, rate) >= |AmountsOn(lines, Credit)|
      && RateColumn(rate) > 0
      && (forall i :: 0 <= i < |lines| ==> Column(lines[i].amount) > 0)
  {
    if Postable(e).Ok? {
      RowsAreWrittenIff(b.chart, e, Postable(e).value);
    }
  }

  lemma {:induction false} EveryNonZeroLine(lines: seq<Line>, chart: Chart, company: Id)
    ensures (forall i :: 0 <= i < |NonZero(lines)| ==> LineMayPost(chart, company, NonZero(lines)[i]))
      <==> forall i :: 0 <= i < |lines| && lines[i].amount != 0.0 ==> LineMayPost(chart, company, lines[i])
  {
    hide LineMayPost;
    if lines != [] {
      var n := |lines| - 1;
      EveryNonZeroLine(lines[..n], chart, company);
      assert forall i :: 0 <= i < n ==> lines[..n][i] == lines[i];
      var (before, after) := (NonZero(lines[..n]), NonZero(lines));
      assert forall i :: 0 <= i < |before| ==> after[i] == before[i];
      assert lines[n].amount != 0.0 ==> |after| == |before| + 1 && after[|before|] == lines[n];
      assert lines[n].amount == 0.0 ==> after == before;
      assert (forall i :: 0 <= i < |after| ==> LineMayPost(chart, company, after[i])) <==>
        (forall i :: 0 <= i < |before| ==> LineMayPost(chart, company, before[i]))
        && (lines[n].amount != 0.0 ==> LineMayPost(chart, company, lines[n]));
    }
  }

  /**
   What `Post` asks of a call and the tables: every line that is not for nothing
   may post, there are two or more of them and they balance, the rate (one, when
   none is given) shows in its column, the period may take the entry, and the
   converted total rounds to a unit for every leg.
   */
  predicate MayPost(b: Books, e: Entry) {
    var lines, rate := NonZero(e.lines), if e.rate == 0.0 then 1.0 else e.rate;
    && (forall i :: 0 <= i < |e.lines| && e.lines[i].amount != 0.0 ==> LineMayPost(b.chart, e.company, e.lines[i]))
    && |lines| >= 2 && Debits(e.lines) == Credits(e.lines)
    && rate >= 0.000000005
    && PeriodMayTake(b.chart, e) && e.company in b.nextNo
    && Debits(e.lines) * rate >= |AmountsOn(lines, Debit)| as real - 0.5
    && Debits(e.lines) * rate >= |AmountsOn(lines, Credit)| as real - 0.5
  }

  /** Exactly when `Post` writes a new entry. */
  lemma PostIsAcceptedIff(b: Books, e: Entry)
    requires EntryFor(b.entries, e.key).None?
    ensures AfterPost(b, e).Ok? <==> MayPost(b, e)
  {
    hide AfterPost, Postable, AmountsOn, Debits, Credits, RateColumn, Converted, LineMayPost, LineFault, AccountOf;
    hide NonZero, EntryFor, PeriodFor, CoveringPeriod;
    PostableIff(e);
    PostableEntriesAreAcceptedIff(b, e);
    PeriodTakesIff(b.chart, e);
    RateShowsIff(RateOf(e));
    EveryNonZeroLine(e.lines, b.chart, e.company);
    NonZeroLinesHaveNoFaultIff(e.lines);
    forall l: Line ensures LineMayPost(b.chart, e.company, l)
      <==> LineFault(l).None? && AccountOf(b.chart, e.company, l).Some? && Column(l.amount) > 0
    {
      LineMayPostIff(b.chart, e.company, l);
    }
    if Postable(e).Ok? {
      var lines := Postable(e).value;
      PostableLinesAreTheNonZeroOnes(b.chart, e);
      BothSidesAreNamed(lines);
      ConvertedReachesIff(Debits(lines), RateOf(e), |AmountsOn(lines, Debit)|);
      ConvertedReachesIff(Debits(lines), RateOf(e), |AmountsOn(lines, Credit)|);
    }
  }

  lemma PeriodTakesIff(chart: Chart, e: Entry)
    ensures PeriodFor(chart, e).Ok? <==> PeriodMayTake(chart, e)
  {
  }

  lemma {:induction false} NonZeroLinesHaveNoFaultIff(lines: seq<Line>)
    ensures (forall i :: 0 <= i < |NonZero(lines)| ==> LineFault(NonZero(lines)[i]).None?)
      <==> forall i :: 0 <= i < |lines| && lines[i].amount != 0.0 ==> LineFault(lines[i]).None?
  {
    hide LineFault;
    if lines != [] {
      var n := |lines| - 1;
      NonZeroLinesHaveNoFaultIff(lines[..n]);
      assert forall i :: 0 <= i < n ==> lines[..n][i] == lines[i];
      var (before, after) := (NonZero(lines[..n]), NonZero(lines));
      assert forall i :: 0 <= i < |before| ==> after[i] == before[i];
      assert lines[n].amount != 0.0 ==> |after| == |before| + 1 && after[|before|] == lines[n];
      assert lines[n].amount == 0.0 ==> after == before;
      assert (forall i :: 0 <= i < |after| ==> LineFault(after[i]).None?) <==>
        (forall i :: 0 <= i < |before| ==> LineFault(before[i]).None?)
        && (lines[n].amount != 0.0 ==> LineFault(lines[n]).None?);
    }
  }

  /** What is passed on is the lines not for nothing, on their accounts, in balance. */
  lemma PostableLinesAreTheNonZeroOnes(chart: Chart, e: Entry)
    requires Postable(e).Ok?
    ensures var (lines, kept) := (Postable(e).value, NonZero(e.lines));
      && |lines| == |kept| >= 2 && AllSound(lines) && Debits(lines) == Credits(lines) == Debits(e.lines)
      && AmountsOn(lines, Debit) == AmountsOn(kept, Debit) && AmountsOn(lines, Credit) == AmountsOn(kept, Credit)
      && forall i :: 0 <= i < |lines| ==>
        && lines[i].amount == kept[i].amount && lines[i] == InStore(kept[i], e.store)
        && AccountOf(chart, e.company, lines[i]) == AccountOf(chart, e.company, kept[i])
  {
    hide Postable, AmountsOn, Debits, Credits, NonZero, Kept;
    PostableIff(e);
    PostableLinesBalance(e);
    LinesAreKeptIff(e.lines);
    KeptLinesAreSound(e.lines);
    SameLegsSameAmounts(Postable(e).value, NonZero(e.lines), Debit);
    SameLegsSameAmounts(Postable(e).value, NonZero(e.lines), Credit);
  }

  // ---------------------------------------------------------------------
  // What a posting writes, in terms of what was handed over
  // ---------------------------------------------------------------------

  /** The total of an entry's debits at its rate, one when none is given, to the nearest unit, halves up. */
  ghost predicate IsConvertedTotal(n: int, e: Entry) {
    if e.rate == 0.0 then n as real - 0.5 <= Debits(e.lines) < n as real + 0.5
    else n as real - 0.5 <= Debits(e.lines) * e.rate < n as real + 0.5
  }

  /** Where a line posts: its own account, or the one its role stands for. */
  ghost predicate PostsTo(chart: Chart, company: Id, l: Line, account: Id) {
    match l.account
    case Some(id) => account == id
    case None => (company, l.role) in chart.roles && account == chart.roles[(company, l.role)]
  }

  /** One row records one line: its amount, on its side alone, and where, in what and at what rate it was stated. */
  ghost predicate Records(chart: Chart, e: Entry, l: Line, row: Row) {
    && PostsTo(chart, e.company, l, row.account)
    && row.store == (if l.store.Some? then l.store else e.store)
    && row.currency == e.currency
    && NearestTo(row.rate, 100000000.0 * (if e.rate == 0.0 then 1.0 else e.rate))
    && row.subledger == l.subledger && row.subledgerId == l.subledgerId
    && if l.side == Debit then
         && NearestTo(row.debit, 100.0 * l.amount) && row.debit > 0 && row.baseDebit > 0
         && row.credit == row.baseCredit == 0
       else
         && NearestTo(row.credit, 100.0 * l.amount) && row.credit > 0 && row.baseCredit > 0
         && row.debit == row.baseDebit == 0
  }

  /** The base amounts of one side's rows are, in order, what allocation makes of the side's amounts. */
  ghost predicate SharesInOrder(lines: seq<Line>, rows: seq<Row>, total: int)
    requires |rows| == |lines|
  {
    forall i :: 0 <= i < |lines| ==>
      var (side, k) := (lines[i].side, |AmountsOn(lines[..i], lines[i].side)|);
      && Allocated(total, AmountsOn(lines, side)).Ok? && k < |Allocated(total, AmountsOn(lines, side)).value|
      && (if side == Debit then rows[i].baseDebit else rows[i].baseCredit)
         == Allocated(total, AmountsOn(lines, side)).value[k]
  }

  /**
   For every accepted new posting: a row for every line that is not for nothing, in
   order; and, for a rate of one when none is given, both base columns come to the
   total of the debits at that rate, rounded to the nearest unit and split over
   each side's amounts.
   */
  lemma PostingRecordsItsLines(b: Books, e: Entry)
    requires AfterPost(b, e).Ok? && !AfterPost(b, e).value.1.alreadyPosted
    ensures |AfterPost(b, e).value.0.entries| == |b.entries| + 1
    ensures var (rows, lines) := (AfterPost(b, e).value.0.entries[|b.entries|].rows, NonZero(e.lines));
      && |rows| == |lines|
      && (forall i :: 0 <= i < |rows| ==> Records(b.chart, e, lines[i], rows[i]))
      && IsConvertedTotal(BaseOn(rows, Debit), e) && IsConvertedTotal(BaseOn(rows, Credit), e)
      && SharesInOrder(lines, rows, BaseOn(rows, Debit))
  {
    hide AfterPost, Postable, WrittenRows, PeriodFor, AmountsOn, Debits, Credits, NonZero, Converted;
    hide Records, SharesInOrder, BaseOn, PostsTo, AccountOf, IsConvertedTotal;
    PostAppendsOneEntry(b, e);
    PostAppendsABalancedEntry(b, e);
    PostableLinesAreTheNonZeroOnes(b.chart, e);
    PostableLinesBalance(e);
    var lines := Postable(e).value;
    WrittenRowsRecord(b.chart, e, lines);
    var rows := WrittenRows(b.chart, e, lines).value;
    forall i | 0 <= i < |rows| ensures Records(b.chart, e, NonZero(e.lines)[i], rows[i]) {
      RecordsInTheEntrysStore(b.chart, e, NonZero(e.lines)[i], rows[i]);
    }
    SameLegsSharedInOrder(lines, NonZero(e.lines), rows, BaseOn(rows, Debit));
  }

  lemma RecordsInTheEntrysStore(chart: Chart, e: Entry, l: Line, row: Row)
    requires Records(chart, e.(store := None), InStore(l, e.store), row)
    ensures Records(chart, e, l, row)
  {
  }

  lemma {:induction false} DebitsAreNotNegative(lines: seq<Line>)
    requires AllSound(lines)
    ensures Debits(lines) >= 0.0
  {
    if lines != [] {
      assert Sound(lines[|lines| - 1]);
      DebitsAreNotNegative(lines[..|lines| - 1]);
    }
  }

  lemma ConvertedIsNearest(e: Entry)
    requires Debits(e.lines) >= 0.0 && RateOf(e) >= 0.0
    ensures IsConvertedTotal(Converted(Debits(e.lines), RateOf(e)), e)
  {
    hide Debits;
    assert Debits(e.lines) * RateOf(e) >= 0.0;
  }

  lemma ColumnsAreNearest(amount: real, rate: real)
    requires amount >= 0.0 && rate >= 0.0
    ensures NearestTo(Column(amount), 100.0 * amount) && NearestTo(RateColumn(rate), 100000000.0 * rate)
  {
  }

  lemma AccountOfIsWhereItPosts(chart: Chart, company: Id, l: Line)
    requires AccountOf(chart, company, l).Some?
    ensures PostsTo(chart, company, l, AccountOf(chart, company, l).value)
  {
  }

  lemma WrittenRowsRecord(chart: Chart, e: Entry, lines: seq<Line>)
    requires Postable(e) == Ok(lines) && WrittenRows(chart, e, lines).Ok?
    ensures var rows := WrittenRows(chart, e, lines).value;
      && |rows| == |lines|
      && (forall i :: 0 <= i < |rows| ==> Records(chart, e.(store := None), lines[i], rows[i]))
      && SharesInOrder(lines, rows, BaseOn(rows, Debit))
  {
    hide Postable, SharesOn, AmountsOn, Column, RateColumn, PostsTo, AccountOf;
    PostableLinesBalance(e);
    WrittenRowsBalance(chart, e, lines);
    RowsAreWrittenIff(chart, e, lines);
    var rows := WrittenRows(chart, e, lines).value;
    forall i | 0 <= i < |rows| ensures Records(chart, e.(store := None), lines[i], rows[i]) {
      assert Sound(lines[i]) && Writable(rows[i]);
      ColumnsAreNearest(lines[i].amount, RateOf(e));
      AccountOfIsWhereItPosts(chart, e.company, lines[i]);
    }
    RowsShareInOrder(chart, e, lines);
  }

  lemma RowsShareInOrder(chart: Chart, e: Entry, lines: seq<Line>)
    requires Postable(e) == Ok(lines) && WrittenRows(chart, e, lines).Ok?
    ensures |WrittenRows(chart, e, lines).value| == |lines|
    ensures SharesInOrder(lines, WrittenRows(chart, e, lines).value, ConvertedTotal(lines, RateOf(e)))
    ensures BaseOn(WrittenRows(chart, e, lines).value, Debit) == ConvertedTotal(lines, RateOf(e))
  {
    hide Postable, Allocated, Converted, ShareOf, AmountsOn, RowsOf, BaseOn;
    PostableLinesBalance(e);
    WrittenRowsBalance(chart, e, lines);
    var (rows, rate) := (WrittenRows(chart, e, lines).value, RateOf(e));
    SharesCoverTheTotal(lines, Debit, rate);
    SharesCoverTheTotal(lines, Credit, rate);
    var (d, c) := (SharesOn(lines, Debit, rate).value, SharesOn(lines, Credit, rate).value);
    RowsCarryStatedShares(rows, lines, Accounts(chart, e.company, lines).value, e.currency, rate, d, c);
    forall i | 0 <= i < |lines|
      ensures var (side, k) := (lines[i].side, |AmountsOn(lines[..i], lines[i].side)|);
        && k < |Allocated(ConvertedTotal(lines, rate), AmountsOn(lines, side)).value|
        && (if side == Debit then rows[i].baseDebit else rows[i].baseCredit)
           == Allocated(ConvertedTotal(lines, rate), AmountsOn(lines, side)).value[k]
    {
      assert Sound(lines[i]) && Writable(rows[i]);
      ShareInItsPlace(lines, i, d, c);
      RowsOnTheirSides(chart, e, lines, i);
    }
  }

  lemma RowsOnTheirSides(chart: Chart, e: Entry, lines: seq<Line>, i: nat)
    requires Postable(e) == Ok(lines) && WrittenRows(chart, e, lines).Ok? && i < |lines|
    ensures |WrittenRows(chart, e, lines).value| == |lines|
    ensures WrittenRows(chart, e, lines).value[i].debit > 0 <==> lines[i].side == Debit
  {
    hide Postable, WrittenRows, Column, ConvertedTotal;
    PostableLinesBalance(e);
    WrittenRowsBalance(chart, e, lines);
    RowsAreWrittenIff(chart, e, lines);
    assert Sound(lines[i]) && Writable(WrittenRows(chart, e, lines).value[i]);
  }

  lemma ShareInItsPlace(lines: seq<Line>, i: nat, d: seq<int>, c: seq<int>)
    requires AllSound(lines) && i < |lines|
    requires |d| == |AmountsOn(lines, Debit)| && |c| == |AmountsOn(lines, Credit)|
    ensures var (shares, k) := (if lines[i].side == Debit then d else c, |AmountsOn(lines[..i], lines[i].side)|);
      k < |shares| && ShareOf(lines, i, d, c) == shares[k]
  {
    AnAmountInItsPlace(lines, i);
    assert Sound(lines[i]);
  }

  lemma SameLegsSharedInOrder(a: seq<Line>, b: seq<Line>, rows: seq<Row>, total: int)
    requires |rows| == |a| && SharesInOrder(a, rows, total) && SameLegs(a, b)
    ensures SharesInOrder(b, rows, total)
  {
    hide Allocated;
    forall side, i | 0 <= i <= |a| ensures AmountsOn(a[..i], side) == AmountsOn(b[..i], side) {
      SameLegsSameAmounts(a[..i], b[..i], side);
    }
    assert a[..|a|] == a && b[..|b|] == b;
  }
}
