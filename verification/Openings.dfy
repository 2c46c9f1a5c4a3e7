/** When a plan is opened, and the one entry that parks its finance charge. */
module Openings {
  import opened Wrappers
  import opened Rounding
  import opened WholeDivision
  import opened Sums
  import opened Posting
  import opened PostingLaws
  import opened Rules
  import opened Transfers
  import opened Journals
  import opened Plans
  import opened PlanLaws

  /** The opening rule the product ships: the charge onto the receivable, and into the liability. */
  const PARKING := Transfer("accounts_receivable", "deferred_finance_income", "markup")

  ghost predicate OpeningRulesAreSeeded(rules: seq<Rule>) {
    AlwaysThis(rules, OPEN_RULE, PARKING)
  }

  /**
   The plan's own figures for the financed part of an invoice add up once rounded,
   unless the down payment sits half-way.
   */
  lemma ColumnsAddUpIff(total: int, down: real)
    requires 0.0 <= down <= total as real
    ensures Round(total as real - down) == total - Round(down) <==> down != down.Floor as real + 0.5
  {
    hide Round;
    var f := down.Floor;
    var fraction := down - f as real;
    NearestIs(down, if fraction < 0.5 then f else f + 1);
    NearestIs(total as real - down, if fraction <= 0.5 then total - f else total - f - 1);
  }

  lemma NearestIs(x: real, n: int)
    requires x >= 0.0 && n as real <= x + 0.5 < n as real + 1.0
    ensures Round(x) == n
  {
  }

  /** There is something to spread exactly when it comes to a unit a month, to the quotient's last digit. */
  lemma SomethingToSpreadIff(total: real, tenure: int)
    requires tenure > 0
    ensures Base(total, tenure) > 0 <==> InUnits(total) / tenure as real >= 1.0 - QUOTIENT_ERROR
  {
    var x := InUnits(total) / tenure as real;
    var q := Round(x * QUOTIENT_STEPS);
    assert q >= 100000000000000 <==> x * QUOTIENT_STEPS >= 99999999999999.5;
    assert Base(total, tenure) == RoundDown(q as real / QUOTIENT_STEPS);
  }

  /** What opening asks of the request, the invoice and the other plans. */
  ghost predicate MayBeDrafted(s: Shop, company: Id, asked: NewPlan) {
    && 0 < asked.tenure <= 2147483647 && asked.downPayment >= 0.0 && asked.markupRate >= 0.0
    && asked.invoice in s.invoices
    && var invoice := s.invoices[asked.invoice];
    && invoice.company == company && invoice.customer == Some(asked.customer)
    && asked.downPayment <= invoice.total as real && asked.downPayment != asked.downPayment.Floor as real + 0.5
    && InUnits(TotalPayable(invoice.total as real - asked.downPayment, asked.markupRate)) / asked.tenure as real
       >= 1.0 - QUOTIENT_ERROR
    && forall i :: 0 <= i < |s.plans| ==> s.plans[i].invoice != asked.invoice
  }

  lemma DraftedIff(s: Shop, company: Id, asked: NewPlan, planId: Id)
    ensures Drafted(s, company, asked, planId).Ok? <==> MayBeDrafted(s, company, asked)
  {
    hide Base, InUnits, Round, TotalPayable, Markup;
    if asked.tenure > 0 && asked.invoice in s.invoices
      && 0.0 <= asked.downPayment <= s.invoices[asked.invoice].total as real {
      var total := TotalPayable(s.invoices[asked.invoice].total as real - asked.downPayment, asked.markupRate);
      ColumnsAddUpIff(s.invoices[asked.invoice].total, asked.downPayment);
      SomethingToSpreadIff(total, asked.tenure);
      if asked.tenure <= MAX_INTEGER && Base(total, asked.tenure) > 0 {
        ScheduleAddsBack(total, asked.tenure);
      }
    }
  }

  /** What parking a charge asks of the rules, the day and the chart. */
  ghost predicate MayBeParked(s: Shop, company: Id, markup: int, startsOn: int, key: Key, currency: string) {
    markup > 0 ==>
      && company in s.countries && ResolveRule(s.rules, OPEN_RULE, s.countries[company], startsOn).Some?
      && PeriodMayTake(s.register.books.chart, RuleEntry(company, startsOn, key, currency))
      && company in s.register.books.nextNo
      && RoleStands(s.register.books.chart, company, PARKING.debit)
      && RoleStands(s.register.books.chart, company, PARKING.credit)
  }

  /** Exactly when a plan is opened under the rule the product ships. */
  lemma OpenIsAcceptedIff(s: Shop, company: Id, asked: NewPlan, planId: Id)
    requires OpeningRulesAreSeeded(s.rules) && EntryFor(s.register.books.entries, PlanKey(planId)).None?
    ensures AfterOpen(s, company, asked, planId).Ok? <==>
      && MayBeDrafted(s, company, asked)
      && var invoice := s.invoices[asked.invoice];
      MayBeParked(s, company, Markup(invoice.total as real - asked.downPayment, asked.markupRate), asked.startsOn,
                  PlanKey(planId), invoice.currency)
  {
    hide MayBeDrafted, AfterPostByRule, EntryFor, ResolveRule, PeriodMayTake, RoleStands, Base, Round;
    DraftedIff(s, company, asked, planId);
    if Drafted(s, company, asked, planId).Ok? {
      var p := Drafted(s, company, asked, planId).value;
      DraftedFromItsInvoice(s, company, asked, planId);
      if p.markup > 0 && company in s.countries {
        TransferIsAcceptedIff(s.register.books, s.rules,
                              RuleEntry(company, asked.startsOn, PlanKey(planId), p.currency),
                              s.countries[company], PARKING, p.markup);
      }
    }
  }

  /** The entry that parked a plan's charge: there once the plan is, and worth it. */
  ghost predicate ChargeIsParked(entries: seq<Posted>, p: Plan) {
    p.markup > 0 ==>
      var found := EntryFor(entries, PlanKey(p.id));
      && found.Some? && entries[found.value].company == p.company
      && BaseOn(entries[found.value].rows, Debit) == p.markup
  }

  /** Opening a plan parks its charge: onto the company's receivable, and into its deferred income. */
  lemma OpeningParksTheCharge(s: Shop, company: Id, asked: NewPlan, planId: Id)
    requires OpeningRulesAreSeeded(s.rules) && EntryFor(s.register.books.entries, PlanKey(planId)).None?
    requires AfterOpen(s, company, asked, planId).Ok?
    ensures var after := AfterOpen(s, company, asked, planId).value;
      && |after.plans| == |s.plans| + 1 && after.plans[..|s.plans|] == s.plans
      && var (p, before, entries) := (after.plans[|s.plans|], s.register.books.entries, after.register.books.entries);
      && p.id == planId
      && ChargeIsParked(entries, p)
      && (p.markup > 0 ==>
            && |entries| == |before| + 1 && entries[..|before|] == before
            && entries[|before|].date == asked.startsOn
            && entries[|before|].key == Key("installment_plan", Document(planId), "installment.open")
            && Moves(s.register.books.chart, company, entries[|before|].rows, PARKING, p.markup, p.currency))
  {
    hide AfterPostByRule, ResolveRule, Base, Round, Moves, Drafted;
    var p := Drafted(s, company, asked, planId).value;
    DraftedFromItsInvoice(s, company, asked, planId);
    if p.markup > 0 {
      TransferPosts(s.register.books, s.rules, RuleEntry(company, asked.startsOn, PlanKey(planId), p.currency),
                    s.countries[company], PARKING, p.markup);
    }
  }

  // ---------------------------------------------------------------------
  // A case
  // ---------------------------------------------------------------------

  /** One invoice of 1.0000, and nothing else. */
  function OneInvoiceShop(): Shop {
    Shop(Register(Books(Chart([], map[], map[]), [], map[]), map[], [], map[]), [], map[],
         map[1 := Invoice(1, Some(1), 10000, "SAR")], map[], [], [])
  }

  /** 0.98996 down, the rest in one month, and no charge. */
  function NearlyAllDown(): NewPlan {
    NewPlan(1, 1, 9899.6, 0.0, 1, 0, month => month)
  }

  /** The case: what is payable is 0.01004, the plan is opened, and its one instalment is 0.0100. */
  lemma FinerDownPaymentsDoNotAddBack()
    ensures var after := AfterOpen(OneInvoiceShop(), 1, NearlyAllDown(), 1);
      && TotalPayable(10000.0 - 9899.6, 0.0) == 100.4
      && after.Ok? && |after.value.plans| == 1 && Sum(Amounts(after.value.plans[0].dues)) == 100
  {
    hide Base, Drafted;
    var (s, asked) := (OneInvoiceShop(), NearlyAllDown());
    RoundOfWhole(0);
    assert Markup(100.4, 0.0) == 0;
    FloorIs(9899.6, 9899);
    assert InUnits(100.4) / 1.0 >= 1.0 - QUOTIENT_ERROR;
    assert MayBeDrafted(s, 1, asked);
    OpenIsAcceptedIff(s, 1, asked, 1);
    DraftedIff(s, 1, asked, 1);
    OpenedAsQuoted(s, 1, asked, 1);
    OpeningParksTheCharge(s, 1, asked, 1);
    assert AfterOpen(s, 1, asked, 1).value.plans[0] == Drafted(s, 1, asked, 1).value;
    assert Round(100.4) == 100;
  }
}
