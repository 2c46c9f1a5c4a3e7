/**
 Finance income earned as instalments fall due: each once, each the same share, and
 how far that strays from the markup.
 */
module Accruals {
  import opened WholeDivision
  import opened Posting
  import opened PostingLaws
  import opened Rules
  import opened Transfers
  import opened LedgerInvariants
  import opened Plans

  // ---------------------------------------------------------------------
  // The rule
  // ---------------------------------------------------------------------

  /** The accrual rule the product ships: one amount out of the liability and into income. */
  const ACCRUING := Transfer("deferred_finance_income", "finance_income", "amount")

  ghost predicate AccrualRulesAreSeeded(rules: seq<Rule>) {
    AlwaysThis(rules, ACCRUE_RULE, ACCRUING)
  }

  /** One accrual adds one entry, under the instalment's key and on its day, that moves the share into income. */
  lemma AccrualPostsTheShare(b: Books, rules: seq<Rule>, p: Plan, due: nat, country: string)
    requires AccrualRulesAreSeeded(rules) && due < |p.dues| && ShareOfMarkup(p) > 0
    requires EntryFor(b.entries, DueKey(p.id, due)).None?
    requires AfterPostByRule(b, rules, AccrualEntry(p, due), country, TransferOf(ACCRUING, ShareOfMarkup(p))).Ok?
    ensures var after := AfterPostByRule(b, rules, AccrualEntry(p, due), country,
                                         TransferOf(ACCRUING, ShareOfMarkup(p))).value.0;
      && |after.entries| == |b.entries| + 1 && after.entries[..|b.entries|] == b.entries
      && var posted := after.entries[|b.entries|];
      && posted.key == DueKey(p.id, due) == Key("installment_due", Instalment(p.id, due), "installment.accrue")
      && posted.company == p.company && posted.date == p.dues[due].dueOn
      && BaseOn(posted.rows, Debit) == ShareOfMarkup(p)
      && Moves(b.chart, p.company, posted.rows, ACCRUING, ShareOfMarkup(p), p.currency)
  {
    hide AfterPostByRule, ShareOfMarkup, EntryFor, Moves;
    TransferPosts(b, rules, AccrualEntry(p, due), country, ACCRUING, ShareOfMarkup(p));
  }

  // ---------------------------------------------------------------------
  // What has been earned
  // ---------------------------------------------------------------------

  /** What the entry of one instalment earned; nothing while there is none. */
  function EarnedOn(entries: seq<Posted>, p: Plan, due: nat): int {
    match EntryFor(entries, DueKey(p.id, due))
    case None => 0
    case Some(i) => BaseOn(entries[i].rows, Debit)
  }

  function Earned(entries: seq<Posted>, p: Plan, k: nat): int {
    if k == 0 then 0 else Earned(entries, p, k - 1) + EarnedOn(entries, p, k - 1)
  }

  /** How many of the first instalments have accrued. */
  function Accrued(entries: seq<Posted>, p: Plan, k: nat): (n: nat)
    ensures n <= k
  {
    if k == 0 then 0
    else Accrued(entries, p, k - 1) + if EntryFor(entries, DueKey(p.id, k - 1)).Some? then 1 else 0
  }

  /** An instalment that has accrued has earned exactly its plan's share. */
  ghost predicate EarnsItsShare(entries: seq<Posted>, p: Plan) {
    forall due :: 0 <= due < |p.dues| && EntryFor(entries, DueKey(p.id, due)).Some? ==>
      EarnedOn(entries, p, due) == ShareOfMarkup(p)
  }

  ghost predicate AccrualInv(entries: seq<Posted>, plans: seq<Plan>) {
    forall k :: 0 <= k < |plans| ==> EarnsItsShare(entries, plans[k])
  }

  lemma {:induction false} EarnedIsTheSharesCounted(entries: seq<Posted>, p: Plan, k: nat)
    requires EarnsItsShare(entries, p) && k <= |p.dues|
    ensures Earned(entries, p, k) == Accrued(entries, p, k) * ShareOfMarkup(p)
  {
    if k > 0 {
      EarnedIsTheSharesCounted(entries, p, k - 1);
      assert (Accrued(entries, p, k - 1) + 1) * ShareOfMarkup(p)
          == Accrued(entries, p, k - 1) * ShareOfMarkup(p) + ShareOfMarkup(p);
    }
  }

  /** The share is the markup over the tenure to the nearest unit: the sixteen digits of the quotient do not show. */
  lemma ShareIsTheNearestUnit(p: Plan)
    requires p.markup >= 0 && 0 < p.tenure <= MAX_INTEGER
    ensures ShareOfMarkup(p) == (2 * p.markup + p.tenure) / (2 * p.tenure)
  {
    RoundingIsWholeDivision(p.markup, p.tenure);
  }

  lemma GapsAddUp(k: int, share: int, t: int, markup: int)
    requires k >= 0 && -t <= 2 * (share * t - markup) <= t
    ensures -(k * t) <= 2 * (k * share * t - k * markup) <= k * t
    ensures k == t ==> k * share == share * t
  {
  }

  /**
   After k instalments have accrued, what has been earned is k rounded shares,
   and is within k/2 units of k/tenure of the markup. Earned over the whole
   tenure, it is the markup exactly when the tenure divides it.
   */
  lemma EarnedFollowsTheMarkup(entries: seq<Posted>, p: Plan)
    requires EarnsItsShare(entries, p) && p.markup >= 0 && 0 < p.tenure <= MAX_INTEGER && |p.dues| == p.tenure
    ensures var (k, earned) := (Accrued(entries, p, p.tenure), Earned(entries, p, p.tenure));
      && earned == k * ((2 * p.markup + p.tenure) / (2 * p.tenure))
      && -(k * p.tenure) <= 2 * (earned * p.tenure - k * p.markup) <= k * p.tenure
      && (k == p.tenure ==> (earned == p.markup <==> p.markup % p.tenure == 0))
  {
    hide Accrued, Earned, EarnsItsShare, ShareOfMarkup;
    var k, share, t := Accrued(entries, p, p.tenure), ShareOfMarkup(p), p.tenure;
    EarnedIsTheSharesCounted(entries, p, t);
    ShareIsTheNearestUnit(p);
    RoundedShareIsClose(p.markup, t);
    RoundedShareIsExactIff(p.markup, t);
    GapsAddUp(k, share, t, p.markup);
  }

  // ---------------------------------------------------------------------
  // Adding entries
  // ---------------------------------------------------------------------

  lemma OtherEntriesKeepAccruals(before: seq<Posted>, after: seq<Posted>, plans: seq<Plan>)
    requires AccrualInv(before, plans) && OneEntryAKey(after) && Appends(before, after)
    requires forall i :: |before| <= i < |after| ==> after[i].key.sourceType != DUE
    ensures AccrualInv(after, plans)
  {
  }

  /** One accrual keeps them: the instalment it names now earns its share, every other is as it was. */
  lemma OneAccrualKeepsAccruals(before: seq<Posted>, after: seq<Posted>, plans: seq<Plan>, k: nat, due: nat)
    requires AccrualInv(before, plans) && OneEntryAKey(after) && Appends(before, after) && |after| == |before| + 1
    requires forall i, j :: 0 <= i < j < |plans| ==> plans[i].id != plans[j].id
    requires k < |plans| && after[|before|].key == DueKey(plans[k].id, due)
    requires BaseOn(after[|before|].rows, Debit) == ShareOfMarkup(plans[k])
    ensures AccrualInv(after, plans) && EntryFor(after, DueKey(plans[k].id, due)).Some?
  {
  }
}
