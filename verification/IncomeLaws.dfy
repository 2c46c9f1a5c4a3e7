/**
 What every run that earns as shipped promises of finance charges: parked once,
 earned near their terms, and not after the end.
 */
module IncomeLaws {
  import opened WholeDivision
  import opened Sums
  import opened Posting
  import opened PostingLaws
  import opened Rules
  import opened Transfers
  import opened Openings
  import opened Journals
  import opened LedgerInvariants
  import opened Plans
  import opened PlanLaws
  import opened Collecting
  import opened Accruals
  import opened Runs
  import opened IncomeRuns

  /** Finance income in every reachable shop: whole shares, one an instalment, near the markup to half a unit each. */
  lemma IncomeFollowsTheMarkup(steps: seq<Step>, k: nat)
    requires AllAllowed(NewShop(), steps) && AllEarnAsShipped(NewShop(), steps) && k < |Run(NewShop(), steps).plans|
    ensures var (entries, p) := (Run(NewShop(), steps).register.books.entries, Run(NewShop(), steps).plans[k]);
      && 0 < p.tenure <= MAX_INTEGER
      && var (n, earned) := (Accrued(entries, p, p.tenure), Earned(entries, p, p.tenure));
      && earned == n * ((2 * p.markup + p.tenure) / (2 * p.tenure))
      && -(n * p.tenure) <= 2 * (earned * p.tenure - n * p.markup) <= n * p.tenure
      && (n == p.tenure ==> (earned == p.markup <==> p.markup % p.tenure == 0))
  {
    hide After, AllAllowed, AllEarnAsShipped, Run, RegisterInv, EarnsItsShare, Accrued, Earned;
    hide Sum, Filled, Paid, Collected;
    NewShopsHaveNoIncome();
    RunKeepsIncome(NewShop(), steps);
    var s := Run(NewShop(), steps);
    assert PlanInv(s.plans[k], s.payments);
    EarnedFollowsTheMarkup(s.register.books.entries, s.plans[k]);
  }

  lemma {:induction false} SameEntriesSameCount(before: seq<Posted>, after: seq<Posted>, p: Plan, k: nat)
    requires EarnsNoMore(before, after, p) && k <= |p.dues|
    ensures Accrued(after, p, k) == Accrued(before, p, k)
  {
    if k > 0 {
      SameEntriesSameCount(before, after, p, k - 1);
    }
  }

  /**
   Earning stops with the plan: once it is settled or cancelled, no run ever
   releases another part of its finance charge, however many instalments it had
   still to reach.
   */
  lemma EarningStopsWithThePlan(s: Shop, steps: seq<Step>, k: nat)
    requires IncomeInv(s) && AllAllowed(s, steps) && AllEarnAsShipped(s, steps)
    requires k < |s.plans| && s.plans[k].status != Active
    ensures var later := Run(s, steps);
      && k < |later.plans| && later.plans[k] == s.plans[k]
      && Earned(later.register.books.entries, s.plans[k], |s.plans[k].dues|)
         == Earned(s.register.books.entries, s.plans[k], |s.plans[k].dues|)
  {
    hide After, AllAllowed, AllEarnAsShipped, Run, RegisterInv, CollectingInv;
    hide EarnsItsShare, EarnsNoMore, Earned, Accrued;
    RunKeeps(s, steps);
    RunKeepsIncome(s, steps);
    var later, p := Run(s, steps), s.plans[k];
    assert PlanStands(p, later.plans[k]);
    SameEntriesSameCount(s.register.books.entries, later.register.books.entries, p, |p.dues|);
    EarnedIsTheSharesCounted(s.register.books.entries, p, |p.dues|);
    EarnedIsTheSharesCounted(later.register.books.entries, p, |p.dues|);
  }

  /**
   A plan that has ended has released its whole charge, then and for ever, exactly
   when the rounded share, as often as it had accrued, comes to the charge: which
   may be before the last month, and need not be after it.
   */
  lemma EndedPlansHaveReleasedTheirChargeIff(s: Shop, steps: seq<Step>, k: nat)
    requires IncomeInv(s) && AllAllowed(s, steps) && AllEarnAsShipped(s, steps)
    requires k < |s.plans| && s.plans[k].status != Active
    ensures var (p, later) := (s.plans[k], Run(s, steps));
      && 0 < p.tenure <= MAX_INTEGER
      && (Earned(later.register.books.entries, p, p.tenure) == p.markup <==>
            Accrued(s.register.books.entries, p, p.tenure) * ((2 * p.markup + p.tenure) / (2 * p.tenure)) == p.markup)
  {
    hide After, AllAllowed, AllEarnAsShipped, Run, RegisterInv, EarnsItsShare, Accrued, Earned;
    hide Sum, Filled, Paid, Collected;
    EarningStopsWithThePlan(s, steps, k);
    assert PlanInv(s.plans[k], s.payments);
    EarnedFollowsTheMarkup(s.register.books.entries, s.plans[k]);
  }

  // ---------------------------------------------------------------------
  // Parked charges
  // ---------------------------------------------------------------------

  /** Plans are opened under identifiers nothing carries yet, and under the rule the product ships. */
  ghost predicate ParksAsShipped(s: Shop, step: Step) {
    match step
    case OpenAPlan(_, _, newId) => FreshPlan(s, newId)
    case AddRule(rule) => rule.key == OPEN_RULE ==> rule.lines == TransferRule(PARKING)
    case _ => true
  }

  ghost predicate AllParkAsShipped(s: Shop, steps: seq<Step>)
    decreases |steps|
  {
    steps == [] || (ParksAsShipped(s, steps[0]) && AllParkAsShipped(After(s, steps[0]), steps[1..]))
  }

  ghost predicate ChargesAreParked(s: Shop) {
    && OpeningRulesAreSeeded(s.rules)
    && forall k :: 0 <= k < |s.plans| ==> ChargeIsParked(s.register.books.entries, s.plans[k])
  }

  lemma ParkedChargesStand(before: seq<Posted>, after: seq<Posted>, p: Plan, q: Plan)
    requires ChargeIsParked(before, p) && OneEntryAKey(after) && Appends(before, after)
    requires q == p.(status := q.status)
    ensures ChargeIsParked(after, q)
  {
    if p.markup > 0 {
      FoundStaysFound(before, after, PlanKey(p.id));
      assert after[..|before|][EntryFor(before, PlanKey(p.id)).value] == before[EntryFor(before, PlanKey(p.id)).value];
    }
  }

  lemma FreshPlansHaveNoEntry(s: Shop, id: Id)
    requires FreshPlan(s, id)
    ensures EntryFor(s.register.books.entries, PlanKey(id)).None?
  {
  }

  lemma StepKeepsChargesParked(s: Shop, step: Step)
    requires ShopInv(s) && Allowed(s, step) && ChargesAreParked(s) && ParksAsShipped(s, step)
    ensures ChargesAreParked(After(s, step))
  {
    hide ShopInv, After, ChargeIsParked, FreshPlan, KeyOf;
    var after := After(s, step);
    StepKeeps(s, step);
    OnlyOpeningAddsPlans(s, step);
    RulesStaySeeded(s, step);
    OneKeyEachInAShop(after);
    forall k | 0 <= k < |s.plans| ensures ChargeIsParked(after.register.books.entries, after.plans[k]) {
      assert PlanStands(s.plans[k], after.plans[k]);
      ParkedChargesStand(s.register.books.entries, after.register.books.entries, s.plans[k], after.plans[k]);
    }
    if step.OpenAPlan? {
      OpenedChargesAreParked(s, step.company, step.asked, step.newId);
    }
  }

  lemma OneKeyEachInAShop(s: Shop)
    requires ShopInv(s)
    ensures OneEntryAKey(s.register.books.entries)
  {
    hide CollectingInv;
  }

  lemma RulesStaySeeded(s: Shop, step: Step)
    requires OpeningRulesAreSeeded(s.rules) && ParksAsShipped(s, step)
    ensures OpeningRulesAreSeeded(After(s, step).rules)
  {
    hide FreshPlan, AfterPost, AfterPostByRule, AfterRecord, AfterReverse, AfterOpen;
    hide AfterCollect, AfterCancel, AfterAccrue;
    OnlyOpeningAddsPlans(s, step);
  }

  lemma OpenedChargesAreParked(s: Shop, company: Id, asked: NewPlan, newId: Id)
    requires OpeningRulesAreSeeded(s.rules) && FreshPlan(s, newId)
    ensures var after := After(s, OpenAPlan(company, asked, newId));
      && |s.plans| <= |after.plans| <= |s.plans| + 1
      && (|after.plans| > |s.plans| ==> ChargeIsParked(after.register.books.entries, after.plans[|s.plans|]))
  {
    hide AfterOpen, ChargeIsParked, Moves;
    FreshPlansHaveNoEntry(s, newId);
    if AfterOpen(s, company, asked, newId).Ok? {
      OpeningParksTheCharge(s, company, asked, newId);
    }
  }

  lemma {:induction false} RunKeepsChargesParked(s: Shop, steps: seq<Step>)
    requires ShopInv(s) && AllAllowed(s, steps) && ChargesAreParked(s) && AllParkAsShipped(s, steps)
    ensures ChargesAreParked(Run(s, steps))
    decreases |steps|
  {
    hide ShopInv, After, Allowed, ChargesAreParked, ParksAsShipped, KeyOf;
    if steps != [] {
      StepKeeps(s, steps[0]);
      StepKeepsChargesParked(s, steps[0]);
      RunKeepsChargesParked(After(s, steps[0]), steps[1..]);
    }
  }

  /**
   Every plan with a finance charge, in every reachable shop: one entry of its
   company parks it, worth the whole charge, and no other entry has its key.
   */
  lemma EveryChargeIsParkedOnce(steps: seq<Step>, k: nat)
    requires AllAllowed(NewShop(), steps) && AllParkAsShipped(NewShop(), steps)
    requires k < |Run(NewShop(), steps).plans| && Run(NewShop(), steps).plans[k].markup > 0
    ensures var (entries, p) := (Run(NewShop(), steps).register.books.entries, Run(NewShop(), steps).plans[k]);
      exists i :: 0 <= i < |entries| && entries[i].key == PlanKey(p.id)
        && entries[i].company == p.company && BaseOn(entries[i].rows, Debit) == p.markup
        && forall other :: 0 <= other < |entries| && entries[other].key == PlanKey(p.id) ==> other == i
  {
    hide After, AllAllowed, AllParkAsShipped, Run, ShopInv;
    NewShopIsInOrder();
    RunKeeps(NewShop(), steps);
    RunKeepsChargesParked(NewShop(), steps);
    OneKeyEachInAShop(Run(NewShop(), steps));
    var (entries, p) := (Run(NewShop(), steps).register.books.entries, Run(NewShop(), steps).plans[k]);
    assert ChargeIsParked(entries, p);
    var i := EntryFor(entries, PlanKey(p.id)).value;
    assert entries[i].key == PlanKey(p.id);
  }
}
