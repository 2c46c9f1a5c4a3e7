/**
 Posting rules (backend/internal/accounting/rules.go): which rule is in force,
 what lines it builds, and posting by rule.
 */
module Rules {
  import opened Wrappers
  import opened Refusals
  import opened Sums
  import opened Posting
  import opened PostingLaws

  datatype GroupMember = GroupMember(role: string, account: Option<Id>, amount: real)

  /** The figures a transaction offers a rule, by name. */
  datatype Transaction = Transaction(amounts: map<string, real>, groups: map<string, seq<GroupMember>>)

  /** One template line; a group's name in `forEach` repeats it, an empty one does not. */
  datatype RuleLine = RuleLine(role: string, forEach: string, side: string, amount: string)

  datatype Rule = Rule(
    key: string, country: Option<string>, version: int,
    effectiveFrom: int, effectiveTo: Option<int>, lines: seq<RuleLine>)

  // ---------------------------------------------------------------------
  // Which rule
  // ---------------------------------------------------------------------

  predicate InForce(r: Rule, key: string, country: string, on: int) {
    && r.key == key
    && (r.country == None || r.country == Some(country))
    && r.effectiveFrom <= on
    && (r.effectiveTo.None? || r.effectiveTo.value > on)
  }

  /** A country's own rule before the universal one, then the higher version. */
  predicate Outranks(a: Rule, b: Rule) {
    (a.country.Some? && b.country.None?) || (a.country.Some? == b.country.Some? && a.version > b.version)
  }

  /** `ResolveRule`: the first of the best rules in force on the transaction's date. */
  function ResolveRule(rules: seq<Rule>, key: string, country: string, on: int): (r: Option<Rule>)
    ensures r.None? <==> forall q :: q in rules ==> !InForce(q, key, country, on)
    ensures r.Some? ==> r.value in rules && InForce(r.value, key, country, on)
    ensures r.Some? ==> forall q :: q in rules && InForce(q, key, country, on) ==> !Outranks(q, r.value)
  {
    if rules == [] then None
    else
      var last := rules[|rules| - 1];
      var best := ResolveRule(rules[..|rules| - 1], key, country, on);
      assert forall q :: q in rules ==> q in rules[..|rules| - 1] || q == last;
      if !InForce(last, key, country, on) then best
      else if best.None? || Outranks(last, best.value) then Some(last)
      else best
  }

  /** Of this key, everybody's or this country's own, from this day or before it, and not ended by it. */
  ghost predicate Applies(r: Rule, key: string, country: string, on: int) {
    && r.key == key
    && (r.country == None || r.country == Some(country))
    && r.effectiveFrom <= on
    && (r.effectiveTo == None || on < r.effectiveTo.value)
  }

  /**
   Which rule it is: one that applies, the country's own where there is one, and
   of no lower version than any other that applies as closely. None exactly when
   none applies.
   */
  lemma TheClosestNewestRuleWins(rules: seq<Rule>, key: string, country: string, on: int)
    ensures ResolveRule(rules, key, country, on) == None <==> forall q :: q in rules ==> !Applies(q, key, country, on)
    ensures ResolveRule(rules, key, country, on) != None ==>
      var r := ResolveRule(rules, key, country, on).value;
      && r in rules && Applies(r, key, country, on)
      && forall q :: q in rules && Applies(q, key, country, on) ==>
        && (q.country != None ==> r.country != None)
        && ((q.country == None) == (r.country == None) ==> q.version <= r.version)
  {
    assert forall q :: InForce(q, key, country, on) <==> Applies(q, key, country, on);
  }

  // ---------------------------------------------------------------------
  // What it builds
  // ---------------------------------------------------------------------

  function ParseSide(s: string): Result<Side, Refusal> {
    if s == "debit" then Ok(Debit)
    else if s == "credit" then Ok(Credit)
    else Err(BadRuleSide)
  }

  function MemberLine(m: GroupMember, side: Side): Line {
    Line(m.role, m.account, side, m.amount, None, "", None)
  }

  function MemberLines(members: seq<GroupMember>, side: Side): Result<seq<Line>, Refusal> {
    if members == [] then Ok([])
    else
      var before :- MemberLines(members[..|members| - 1], side);
      var m := members[|members| - 1];
      if m.role == "" && m.account.None? then Err(NamesNoAccount)
      else Ok(before + [MemberLine(m, side)])
  }

  /** The lines of one template line. A figure nobody supplied is refused, never zero. */
  function TemplateLines(t: RuleLine, txn: Transaction): Result<seq<Line>, Refusal> {
    var side :- ParseSide(t.side);
    if t.forEach != "" then
      if t.forEach !in txn.groups then Err(MissingGroup) else MemberLines(txn.groups[t.forEach], side)
    else if t.role == "" then Err(NamesNoAccount)
    else if t.amount !in txn.amounts then Err(MissingAmount)
    else Ok([Line(t.role, None, side, txn.amounts[t.amount], None, "", None)])
  }

  /** `Rule.Build`. */
  function Built(template: seq<RuleLine>, txn: Transaction): Result<seq<Line>, Refusal> {
    if template == [] then Ok([])
    else
      var before :- Built(template[..|template| - 1], txn);
      var lines :- TemplateLines(template[|template| - 1], txn);
      Ok(before + lines)
  }

  // ---------------------------------------------------------------------
  // Posting by rule
  // ---------------------------------------------------------------------

  function AfterPostByRule(b: Books, rules: seq<Rule>, e: Entry, country: string, txn: Transaction)
    : Result<(Books, Receipt), Refusal>
  {
    if e.key.ruleKey == "" then Err(NoRuleNamed)
    else
      match ResolveRule(rules, e.key.ruleKey, country, e.date)
      case None => Err(NoRuleInForce)
      case Some(rule) =>
        match Built(rule.lines, txn)
        case Err(why) => Err(why)
        case Ok(lines) => AfterPost(b, e.(lines := lines, ruleVersion := rule.version))
  }

  /** What posting by rule does to the books is what one posting does. */
  lemma PostByRuleIsAPost(b: Books, rules: seq<Rule>, e: Entry, country: string, txn: Transaction)
    returns (posted: Entry)
    requires AfterPostByRule(b, rules, e, country, txn).Ok?
    ensures AfterPost(b, posted) == AfterPostByRule(b, rules, e, country, txn)
    ensures posted.key == e.key && posted.company == e.company
  {
    hide AfterPost;
    var rule := ResolveRule(rules, e.key.ruleKey, country, e.date).value;
    posted := e.(lines := Built(rule.lines, txn).value, ruleVersion := rule.version);
  }

  // ---------------------------------------------------------------------
  // What building means
  // ---------------------------------------------------------------------

  /** What one template line is worth: its named amount, or its group's total, signed by its side. */
  ghost function Worth(t: RuleLine, txn: Transaction): real {
    var amount :=
      if t.forEach != "" then
        if t.forEach in txn.groups then MembersTotal(txn.groups[t.forEach]) else 0.0
      else if t.amount in txn.amounts then txn.amounts[t.amount]
      else 0.0;
    if t.side == "debit" then amount else -amount
  }

  ghost function MembersTotal(members: seq<GroupMember>): real {
    Total(seq(|members|, i requires 0 <= i < |members| => members[i].amount))
  }

  ghost function TemplateWorth(template: seq<RuleLine>, txn: Transaction): real {
    if template == [] then 0.0
    else TemplateWorth(template[..|template| - 1], txn) + Worth(template[|template| - 1], txn)
  }

  lemma {:induction false} TotalsOfAppend(a: seq<Line>, b: seq<Line>)
    ensures Debits(a + b) == Debits(a) + Debits(b) && Credits(a + b) == Credits(a) + Credits(b)
  {
    if b == [] {
      assert a + b == a;
    } else {
      assert (a + b)[..|a + b| - 1] == a + b[..|b| - 1];
      TotalsOfAppend(a, b[..|b| - 1]);
    }
  }

  lemma {:induction false} MembersAreWorthTheirTotal(members: seq<GroupMember>, side: Side)
    requires side == Debit || side == Credit
    requires MemberLines(members, side).Ok?
    ensures var lines := MemberLines(members, side).value;
      Debits(lines) - Credits(lines) == if side == Debit then MembersTotal(members) else -MembersTotal(members)
  {
    if members != [] {
      var n := |members| - 1;
      MembersAreWorthTheirTotal(members[..n], side);
      var before := MemberLines(members[..n], side).value;
      assert (before + [MemberLine(members[n], side)])[..|before|] == before;
      var amounts := seq(|members|, i requires 0 <= i < |members| => members[i].amount);
      assert amounts[..n] == seq(n, i requires 0 <= i < n => members[..n][i].amount);
    }
  }

  /** Whatever a rule builds, its debits less its credits are the signed sum of the figures it names. */
  lemma {:induction false} BuiltLinesAreWorthTheirTemplate(template: seq<RuleLine>, txn: Transaction)
    requires Built(template, txn).Ok?
    ensures var lines := Built(template, txn).value;
      Debits(lines) - Credits(lines) == TemplateWorth(template, txn)
  {
    if template != [] {
      var n := |template| - 1;
      var t := template[n];
      BuiltLinesAreWorthTheirTemplate(template[..n], txn);
      var lines := TemplateLines(t, txn).value;
      TotalsOfAppend(Built(template[..n], txn).value, lines);
      if t.forEach != "" {
        MembersAreWorthTheirTotal(txn.groups[t.forEach], ParseSide(t.side).value);
      } else {
        assert lines[..0] == [];
      }
    }
  }

  /** A rule posts nothing unless the figures it names cancel. */
  lemma PostingByRuleNeedsBalancedFigures(b: Books, rules: seq<Rule>, e: Entry, country: string, txn: Transaction)
    requires AfterPostByRule(b, rules, e, country, txn).Ok?
    ensures ResolveRule(rules, e.key.ruleKey, country, e.date).Some?
    ensures TemplateWorth(ResolveRule(rules, e.key.ruleKey, country, e.date).value.lines, txn) == 0.0
  {
    var rule := ResolveRule(rules, e.key.ruleKey, country, e.date).value;
    var lines := Built(rule.lines, txn).value;
    var posted := e.(lines := lines, ruleVersion := rule.version);
    BuiltLinesAreWorthTheirTemplate(rule.lines, txn);
    PostableLinesBalance(posted);
    KeptLinesAreSound(lines);
    SameLegsSameAmounts(Postable(posted).value, Kept(lines).value, Debit);
  }

  // ---------------------------------------------------------------------
  // When it builds
  // ---------------------------------------------------------------------

  /** A template line the transaction can fill: its side reads, its figure is there, and an account is named. */
  predicate CanBeFilled(t: RuleLine, txn: Transaction) {
    && (t.side == "debit" || t.side == "credit")
    && if t.forEach != "" then
         t.forEach in txn.groups && forall m :: m in txn.groups[t.forEach] ==> m.role != "" || m.account.Some?
       else t.role != "" && t.amount in txn.amounts
  }

  lemma {:induction false} MembersBuildIff(members: seq<GroupMember>, side: Side)
    ensures MemberLines(members, side).Ok? <==> forall m :: m in members ==> m.role != "" || m.account.Some?
  {
    if members != [] {
      var n := |members| - 1;
      MembersBuildIff(members[..n], side);
      assert forall m :: m in members <==> m in members[..n] || m == members[n];
    }
  }

  lemma TemplateFillsIff(t: RuleLine, txn: Transaction)
    ensures TemplateLines(t, txn).Ok? <==> CanBeFilled(t, txn)
  {
    if t.forEach != "" && t.forEach in txn.groups && ParseSide(t.side).Ok? {
      MembersBuildIff(txn.groups[t.forEach], ParseSide(t.side).value);
    }
  }

  /** Exactly when a rule builds its lines: when the transaction can fill every one of them. */
  lemma {:induction false} BuildsIff(template: seq<RuleLine>, txn: Transaction)
    ensures Built(template, txn).Ok? <==> forall t :: t in template ==> CanBeFilled(t, txn)
  {
    hide CanBeFilled, TemplateLines;
    if template != [] {
      var n := |template| - 1;
      BuildsIff(template[..n], txn);
      TemplateFillsIff(template[n], txn);
      assert forall t :: t in template <==> t in template[..n] || t == template[n];
    }
  }

  /** What a rule builds, and nothing where it cannot. */
  function LinesOfRule(template: seq<RuleLine>, txn: Transaction): seq<Line> {
    if Built(template, txn).Ok? then Built(template, txn).value else []
  }

  /**
   Exactly when posting by a rule is accepted under a new key: one is in force, it
   builds, and what it builds may post.
   */
  lemma PostByRuleIsAcceptedIff(b: Books, rules: seq<Rule>, e: Entry, country: string, txn: Transaction)
    requires EntryFor(b.entries, e.key).None?
    ensures AfterPostByRule(b, rules, e, country, txn).Ok? <==>
      && e.key.ruleKey != "" && ResolveRule(rules, e.key.ruleKey, country, e.date).Some?
      && var rule := ResolveRule(rules, e.key.ruleKey, country, e.date).value;
      && (forall t :: t in rule.lines ==> CanBeFilled(t, txn))
      && MayPost(b, e.(lines := LinesOfRule(rule.lines, txn)))
  {
    hide AfterPost, Built, ResolveRule, CanBeFilled, MayPost, EntryFor;
    if e.key.ruleKey != "" && ResolveRule(rules, e.key.ruleKey, country, e.date).Some? {
      var rule := ResolveRule(rules, e.key.ruleKey, country, e.date).value;
      BuildsIff(rule.lines, txn);
      if Built(rule.lines, txn).Ok? {
        var posted := e.(lines := Built(rule.lines, txn).value, ruleVersion := rule.version);
        PostIsAcceptedIff(b, posted);
        MayPostIgnoresVersions(b, posted, e.(lines := posted.lines));
      }
    }
  }

  /**
   What posting by a rule appends: an entry under the version of the rule that
   wins on the entry's day, whose rows record what that rule builds.
   */
  lemma PostByRuleRecordsWhatTheRuleBuilds(b: Books, rules: seq<Rule>, e: Entry, country: string, txn: Transaction)
    requires AfterPostByRule(b, rules, e, country, txn).Ok?
    requires !AfterPostByRule(b, rules, e, country, txn).value.1.alreadyPosted
    ensures ResolveRule(rules, e.key.ruleKey, country, e.date).Some?
    ensures |AfterPostByRule(b, rules, e, country, txn).value.0.entries| == |b.entries| + 1
    ensures var rule := ResolveRule(rules, e.key.ruleKey, country, e.date).value;
      var posted := AfterPostByRule(b, rules, e, country, txn).value.0.entries[|b.entries|];
      var built := e.(lines := LinesOfRule(rule.lines, txn));
      && posted.ruleVersion == rule.version
      && posted.key == e.key && posted.company == e.company && posted.date == e.date && posted.reverses == e.reverses
      && |posted.rows| == |NonZero(built.lines)|
      && (forall i :: 0 <= i < |posted.rows| ==> Records(b.chart, built, NonZero(built.lines)[i], posted.rows[i]))
      && IsConvertedTotal(BaseOn(posted.rows, Debit), built) && IsConvertedTotal(BaseOn(posted.rows, Credit), built)
  {
    hide AfterPost, Built, ResolveRule, NonZero, BaseOn, Records;
    var rule := ResolveRule(rules, e.key.ruleKey, country, e.date).value;
    var posted := e.(lines := Built(rule.lines, txn).value, ruleVersion := rule.version);
    PostAppendsABalancedEntry(b, posted);
    PostingRecordsItsLines(b, posted);
    forall l, row ensures Records(b.chart, posted, l, row) <==> Records(b.chart, e.(lines := posted.lines), l, row) {
      RecordsIgnoresVersions(b.chart, posted, e.(lines := posted.lines), l, row);
    }
  }

  lemma RecordsIgnoresVersions(chart: Chart, e: Entry, q: Entry, l: Line, row: Row)
    requires q == e.(ruleVersion := q.ruleVersion)
    ensures Records(chart, e, l, row) <==> Records(chart, q, l, row)
  {
  }

  /** A line for every member of a group, in order: its account, its amount, and the template's side. */
  lemma {:induction false} GroupsBuildALineEach(members: seq<GroupMember>, side: Side)
    requires MemberLines(members, side).Ok?
    ensures var lines := MemberLines(members, side).value;
      && |lines| == |members|
      && forall i :: 0 <= i < |members| ==>
        && lines[i].role == members[i].role && lines[i].account == members[i].account
        && lines[i].amount == members[i].amount && lines[i].side == side
        && lines[i].store == None && lines[i].subledger == "" && lines[i].subledgerId == None
  {
    if members != [] {
      var n := |members| - 1;
      GroupsBuildALineEach(members[..n], side);
      assert MemberLines(members, side).value == MemberLines(members[..n], side).value + [MemberLine(members[n], side)];
    }
  }

  lemma MayPostIgnoresVersions(b: Books, e: Entry, q: Entry)
    requires q == e.(ruleVersion := q.ruleVersion)
    ensures MayPost(b, e) <==> MayPost(b, q)
  {
    hide Debits, Credits, NonZero, AmountsOn, CoveringPeriod, LineMayPost, RateColumn, Converted;
  }

  // ---------------------------------------------------------------------
  // Flipping a rule
  // ---------------------------------------------------------------------

  function FlippedLine(t: RuleLine): RuleLine {
    t.(side := if t.side == "debit" then "credit" else if t.side == "credit" then "debit" else t.side)
  }

  function FlippedTemplate(template: seq<RuleLine>): (r: seq<RuleLine>)
    ensures |r| == |template|
  {
    seq(|template|, i requires 0 <= i < |template| => FlippedLine(template[i]))
  }

  function FlippedResult(r: Result<seq<Line>, Refusal>): Result<seq<Line>, Refusal> {
    match r
    case Err(why) => Err(why)
    case Ok(lines) => Ok(FlipSides(lines))
  }

  lemma {:induction false} FlippedMembers(members: seq<GroupMember>, side: Side)
    requires side == Debit || side == Credit
    ensures MemberLines(members, if side == Debit then Credit else Debit) == FlippedResult(MemberLines(members, side))
  {
    if members != [] {
      var n := |members| - 1;
      FlippedMembers(members[..n], side);
      var before := MemberLines(members[..n], side);
      if before.Ok? {
        var m := members[n];
        assert FlipSides(before.value + [MemberLine(m, side)])
            == FlipSides(before.value) + [Flipped(MemberLine(m, side))];
      }
    }
  }

  lemma FlipOfAppend(x: seq<Line>, y: seq<Line>)
    ensures FlipSides(x + y) == FlipSides(x) + FlipSides(y)
  {
  }

  lemma FlippedTemplateLine(t: RuleLine, txn: Transaction)
    ensures TemplateLines(FlippedLine(t), txn) == FlippedResult(TemplateLines(t, txn))
  {
    var side := ParseSide(t.side);
    if side.Ok? {
      assert ParseSide(FlippedLine(t).side) == Ok(if side.value == Debit then Credit else Debit);
      if t.forEach != "" {
        if t.forEach in txn.groups {
          FlippedMembers(txn.groups[t.forEach], side.value);
        }
      } else if t.role != "" && t.amount in txn.amounts {
        var l := Line(t.role, None, side.value, txn.amounts[t.amount], None, "", None);
        assert FlipSides([l]) == [Flipped(l)];
      }
    }
  }

  /** Building the opposite rule gives the opposite lines, or the same refusal. */
  lemma {:induction false} FlippedRuleBuildsFlippedLines(template: seq<RuleLine>, txn: Transaction)
    ensures Built(FlippedTemplate(template), txn) == FlippedResult(Built(template, txn))
  {
    if template != [] {
      var n := |template| - 1;
      var t := template[n];
      FlippedRuleBuildsFlippedLines(template[..n], txn);
      assert FlippedTemplate(template)[..n] == FlippedTemplate(template[..n]);
      FlippedTemplateLine(t, txn);
      var before, lines := Built(template[..n], txn), TemplateLines(t, txn);
      if before.Ok? && lines.Ok? {
        FlipOfAppend(before.value, lines.value);
      }
    }
  }
}
