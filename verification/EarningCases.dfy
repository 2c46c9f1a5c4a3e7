/** Two runs of one plan: a charge its tenure does not divide, and a plan that ends before it is earned. */
module EarningCases {
  import opened Wrappers
  import opened Rounding
  import opened Posting
  import opened Rules
  import opened Transfers
  import opened Journals
  import opened LedgerInvariants
  import opened Plans
  import opened PlanLaws
  import opened Openings
  import opened Accruals
  import opened Runs
  import opened IncomeRuns
  import opened IncomeLaws

  // ---------------------------------------------------------------------
  // A shop
  // ---------------------------------------------------------------------

  function OneYearChart(): Chart {
    Chart([Period(1, 0, 9, Open)], map[7 := Account(1, true), 8 := Account(1, true), 9 := Account(1, true)],
          map[(1, "accounts_receivable") := 7, (1, "deferred_finance_income") := 8, (1, "finance_income") := 9])
  }

  function OpeningRule(): Rule {
    Rule(OPEN_RULE, None, 1, 0, None, TransferRule(PARKING))
  }

  function AccrualRule(): Rule {
    Rule(ACCRUE_RULE, None, 1, 0, None, TransferRule(ACCRUING))
  }

  function TenInvoiced(): Invoice {
    Invoice(1, Some(1), 100000, "SAR")
  }

  function Setup(): seq<Step> {
    [AddCompany(1, "SAR", "SA"), Configure(OneYearChart()), AddRule(OpeningRule()), AddRule(AccrualRule()),
     AddInvoice(1, TenInvoiced())]
  }

  /** One company, its chart, the two shipped rules and one invoice of ten. */
  function TradingShop(): Shop {
    Shop(Register(Books(OneYearChart(), [], map[1 := 1]), map[1 := "SAR"], [], map[1 := 1]),
         [OpeningRule(), AccrualRule()], map[1 := "SA"], map[1 := TenInvoiced()], map[], [], [])
  }

  /** Over three months at a tenth: a charge of a hundred units. */
  function InThirds(): NewPlan {
    NewPlan(1, 1, 0.0, 0.1, 3, 0, month => month)
  }

  lemma {:induction false} RunOfAppend(s: Shop, a: seq<Step>, b: seq<Step>)
    ensures Run(s, a + b) == Run(Run(s, a), b)
    ensures AllAllowed(s, a) && AllAllowed(Run(s, a), b) ==> AllAllowed(s, a + b)
    ensures AllEarnAsShipped(s, a) && AllEarnAsShipped(Run(s, a), b) ==> AllEarnAsShipped(s, a + b)
    decreases |a|
  {
    hide After, Allowed, EarnsAsShipped;
    if a == [] {
      assert a + b == b;
    } else {
      assert (a + b)[0] == a[0] && (a + b)[1..] == a[1..] + b;
      RunOfAppend(After(s, a[0]), a[1..], b);
    }
  }

  lemma OneStep(s: Shop, step: Step)
    ensures Run(s, [step]) == After(s, step)
    ensures Allowed(s, step) ==> AllAllowed(s, [step])
    ensures EarnsAsShipped(s, step) ==> AllEarnAsShipped(s, [step])
  {
    hide After, Allowed, EarnsAsShipped;
    assert [step][1..] == [];
  }

  lemma SetupSetsUp()
    ensures Run(NewShop(), Setup()) == TradingShop()
    ensures AllAllowed(NewShop(), Setup()) && AllEarnAsShipped(NewShop(), Setup())
    ensures IncomeInv(TradingShop())
  {
    hide IncomeInv, AllAllowed, AllEarnAsShipped, Run;
    var steps := Setup();
    var s1 := After(NewShop(), steps[0]);
    var s2 := After(s1, steps[1]);
    var s3 := After(s2, steps[2]);
    var s4 := After(s3, steps[3]);
    var s5 := After(s4, steps[4]);
    assert s5 == TradingShop();
    FiveSteps(NewShop(), steps[0], steps[1], steps[2], steps[3], steps[4]);
    ReachableShopsAreInOrder(steps);
  }

  lemma ReachableShopsAreInOrder(steps: seq<Step>)
    requires AllAllowed(NewShop(), steps) && AllEarnAsShipped(NewShop(), steps)
    ensures IncomeInv(Run(NewShop(), steps))
  {
    hide IncomeInv;
    NewShopsHaveNoIncome();
    RunKeepsIncome(NewShop(), steps);
  }

  lemma FiveSteps(s: Shop, a: Step, b: Step, c: Step, d: Step, e: Step)
    ensures var (s1, steps) := (After(s, a), [a, b, c, d, e]);
      var s2 := After(s1, b);
      var s3 := After(s2, c);
      var s4 := After(s3, d);
      && Run(s, steps) == After(s4, e)
      && (Allowed(s, a) && Allowed(s1, b) && Allowed(s2, c) && Allowed(s3, d) && Allowed(s4, e)
          ==> AllAllowed(s, steps))
      && (EarnsAsShipped(s, a) && EarnsAsShipped(s1, b) && EarnsAsShipped(s2, c) ==>
            EarnsAsShipped(s3, d) && EarnsAsShipped(s4, e) ==> AllEarnAsShipped(s, steps))
  {
    hide After, Allowed, EarnsAsShipped;
    var s1 := After(s, a);
    var s2 := After(s1, b);
    var s3 := After(s2, c);
    OneStep(After(s3, d), e);
    RunOfAppend(s3, [d], [e]);
    OneStep(s3, d);
    RunOfAppend(s2, [c], [d, e]);
    OneStep(s2, c);
    RunOfAppend(s1, [b], [c, d, e]);
    OneStep(s1, b);
    RunOfAppend(s, [a], [b, c, d, e]);
    OneStep(s, a);
    assert [d] + [e] == [d, e] && [c] + [d, e] == [c, d, e] && [b] + [c, d, e] == [b, c, d, e];
    assert [a] + [b, c, d, e] == [a, b, c, d, e];
  }

  // ---------------------------------------------------------------------
  // Opening
  // ---------------------------------------------------------------------

  /** The shop once the plan is open: its charge of a hundred parked, and its three instalments due on three days. */
  ghost predicate PlanOpened(s: Shop) {
    && IncomeInv(s) && s.rules == TradingShop().rules && s.countries == TradingShop().countries
    && s.register.books.chart == OneYearChart() && 1 in s.register.books.nextNo
    && |s.plans| == 1
    && var p := s.plans[0];
    && p.id == 1 && p.company == 1 && p.status == Active && p.markup == 100 && p.tenure == 3 && |p.dues| == 3
    && (forall i :: 0 <= i < 3 ==> p.dues[i].dueOn == i + 1)
  }

  ghost predicate NothingEarned(s: Shop) {
    forall due :: EntryFor(s.register.books.entries, DueKey(1, due)).None?
  }

  lemma TheChargeIsAHundred()
    ensures Markup(100000.0, 0.1) == 100 && TotalPayable(100000.0, 0.1) == 110000.0
  {
    RoundOfWhole(100);
  }

  lemma RulesAreInForce(on: int)
    requires on >= 0
    ensures ResolveRule(TradingShop().rules, OPEN_RULE, "SA", on).Some?
    ensures ResolveRule(TradingShop().rules, ACCRUE_RULE, "SA", on).Some?
  {
    assert InForce(OpeningRule(), OPEN_RULE, "SA", on) && OpeningRule() in TradingShop().rules;
    assert InForce(AccrualRule(), ACCRUE_RULE, "SA", on) && AccrualRule() in TradingShop().rules;
  }

  lemma OpeningGoesThrough()
    ensures AfterOpen(TradingShop(), 1, InThirds(), 1).Ok?
  {
    hide Base, Drafted, ResolveRule, Markup, TotalPayable;
    TheChargeIsAHundred();
    RulesAreInForce(0);
    assert InUnits(110000.0) / 3.0 >= 1.0 - QUOTIENT_ERROR;
    assert MayBeDrafted(TradingShop(), 1, InThirds());
    OpenIsAcceptedIff(TradingShop(), 1, InThirds(), 1);
  }

  lemma OpeningIsAllowed()
    ensures var step := OpenAPlan(1, InThirds(), 1);
      Allowed(TradingShop(), step) && EarnsAsShipped(TradingShop(), step) && IncomeInv(After(TradingShop(), step))
  {
    hide AfterOpen, IncomeInv;
    SetupSetsUp();
    StepKeepsIncome(TradingShop(), OpenAPlan(1, InThirds(), 1));
  }

  lemma ThePlanIsOpened()
    ensures var (s, step) := (TradingShop(), OpenAPlan(1, InThirds(), 1));
      && Allowed(s, step) && EarnsAsShipped(s, step)
      && PlanOpened(After(s, step)) && NothingEarned(After(s, step))
  {
    hide AfterOpen, IncomeInv, EntryFor, Allowed, EarnsAsShipped;
    OpeningIsAllowed();
    OpeningGoesThrough();
    var after := AfterOpen(TradingShop(), 1, InThirds(), 1).value;
    OpenedAs(TradingShop(), InThirds(), after);
    NoDuesAmong(after.register.books.entries);
  }

  lemma NoDuesAmong(entries: seq<Posted>)
    requires forall i :: 0 <= i < |entries| ==> entries[i].key == PlanKey(1)
    ensures forall due :: EntryFor(entries, DueKey(1, due)).None?
  {
  }

  lemma OpenedAs(s: Shop, asked: NewPlan, after: Shop)
    requires s == TradingShop() && asked == InThirds() && AfterOpen(s, 1, asked, 1) == Ok(after)
    ensures after.rules == s.rules && after.countries == s.countries && |after.plans| == 1
    ensures after.register.books.chart == OneYearChart() && 1 in after.register.books.nextNo
    ensures var p := after.plans[0];
      && p.id == 1 && p.company == 1 && p.status == Active && p.markup == 100 && p.tenure == 3 && |p.dues| == 3
      && (forall i :: 0 <= i < 3 ==> p.dues[i].dueOn == i + 1)
    ensures forall i :: 0 <= i < |after.register.books.entries| ==> after.register.books.entries[i].key == PlanKey(1)
  {
    hide Base, Drafted, AfterParking, Markup, TotalPayable;
    TheChargeIsAHundred();
    OpenedAsQuoted(s, 1, asked, 1);
    DraftedFromItsInvoice(s, 1, asked, 1);
    var financed := DraftedShape(s, 1, asked, 1);
    SetupSetsUp();
    RegisterHasBooks(s.register);
    ParkingAddsOnly(s, Drafted(s, 1, asked, 1).value, 0);
  }

  // ---------------------------------------------------------------------
  // Earning
  // ---------------------------------------------------------------------

  lemma ThirdsOfAHundred(p: Plan)
    requires p.markup == 100 && p.tenure == 3
    ensures ShareOfMarkup(p) == 33
  {
    ShareIsTheNearestUnit(p);
  }

  /** What is pending so many days on. */
  function Reached(days: nat): seq<DueRef> {
    seq(days, i requires 0 <= i < days => DueRef(0, i))
  }

  lemma ReachedIsPending(s: Shop, days: nat)
    requires PlanOpened(s) && NothingEarned(s) && days <= 3
    ensures InPlace(s, Reached(days)) && IsPendingList(s, 1, days, Reached(days))
  {
    hide IncomeInv, EntryFor;
    var pending := Reached(days);
    forall d ensures d in pending <==> IsPending(s, 1, days, d) {
      if IsPending(s, 1, days, d) {
        assert d == DueRef(0, d.due) && d.due < days && pending[d.due] == d;
      }
    }
  }

  lemma ReachedMayBeEarned(s: Shop, days: nat)
    requires PlanOpened(s) && days <= 3
    ensures InPlace(s, Reached(days)) && AllMayEarn(s, "SA", Reached(days))
  {
    hide IncomeInv, ResolveRule, ShareOfMarkup;
    forall i | 0 <= i < days ensures MayEarn(s, "SA", Reached(days)[i]) {
      RulesAreInForce(i + 1);
      assert AccrualEntry(s.plans[0], i).date == i + 1;
    }
  }

  /** The job, run once so many days on: it earns a third of the charge, rounded, for each instalment reached. */
  lemma AccruingOnce(s: Shop, days: nat)
    requires PlanOpened(s) && NothingEarned(s) && days <= 3
    ensures var (step, p) := (Accrue(1, days, Reached(days)), s.plans[0]);
      && Allowed(s, step) && EarnsAsShipped(s, step)
      && PlanOpened(After(s, step)) && After(s, step).plans == s.plans
      && Accrued(After(s, step).register.books.entries, p, 3) == days
      && Earned(After(s, step).register.books.entries, p, 3) == 33 * days
  {
    hide AfterAccrue, ShopInv, EarnsItsShare, Accrued, Earned, AllMayEarn, IsPendingList, AccrualInv, EarnedBooks;
    var (pending, p) := (Reached(days), s.plans[0]);
    ReachedIsPending(s, days);
    ReachedMayBeEarned(s, days);
    AccrueIsAcceptedIff(s, 1, days, pending);
    AccrueEarnsWhatIsPending(s, 1, days, pending);
    StepKeepsIncome(s, Accrue(1, days, pending));
    var after := After(s, Accrue(1, days, pending));
    EarnedWhatWasReached(s, days, after.register.books, AfterAccrue(s, 1, pending).value.1);
  }

  lemma EarnedWhatWasReached(s: Shop, days: nat, books: Books, count: nat)
    requires PlanOpened(s) && NothingEarned(s) && days <= 3 && EarnedBooks(s, Reached(days), books, count)
    ensures books.chart == OneYearChart() && 1 in books.nextNo
    ensures Accrued(books.entries, s.plans[0], 3) == days && Earned(books.entries, s.plans[0], 3) == 33 * days
  {
    hide EntryFor, ShareOfMarkup, IncomeInv, EarnsItsShare, BooksInv, Accrued, Earned;
    var p := s.plans[0];
    ThirdsOfAHundred(p);
    forall due | 0 <= due < 3 ensures EntryFor(books.entries, DueKey(1, due)).Some? <==> due < days {
      assert due < days ==> Reached(days)[due] == DueRef(0, due);
    }
    CountTheFirst(books.entries, p, days, 3);
    EarnedIsTheSharesCounted(books.entries, p, 3);
  }

  lemma {:induction false} CountTheFirst(entries: seq<Posted>, p: Plan, days: nat, k: nat)
    requires p.id == 1 && k <= 3
    requires forall due :: 0 <= due < 3 ==> (EntryFor(entries, DueKey(1, due)).Some? <==> due < days)
    ensures Accrued(entries, p, k) == if k < days then k else days
  {
    if k > 0 {
      CountTheFirst(entries, p, days, k - 1);
    }
  }

  function ThirdsRun(days: nat): seq<Step> {
    Setup() + [OpenAPlan(1, InThirds(), 1)] + [Accrue(1, days, Reached(days))]
  }

  lemma AfterSoManyDays(days: nat)
    requires days <= 3
    ensures AllAllowed(NewShop(), ThirdsRun(days)) && AllEarnAsShipped(NewShop(), ThirdsRun(days))
    ensures var s := Run(NewShop(), ThirdsRun(days));
      && PlanOpened(s)
      && Accrued(s.register.books.entries, s.plans[0], 3) == days
      && Earned(s.register.books.entries, s.plans[0], 3) == 33 * days
  {
    hide After, Allowed, EarnsAsShipped, PlanOpened, NothingEarned, Accrued, Earned;
    var (open, accrue) := (OpenAPlan(1, InThirds(), 1), Accrue(1, days, Reached(days)));
    SetupSetsUp();
    ThePlanIsOpened();
    OneStep(TradingShop(), open);
    var s := After(TradingShop(), open);
    assert PlanOpened(s) ==> |s.plans| == 1 by {
      OpenedHasAPlan(s);
    }
    AccruingOnce(s, days);
    OneStep(s, accrue);
    OpenedHasAPlan(After(s, accrue));
    RunOfAppend(NewShop(), Setup(), [open]);
    RunOfAppend(NewShop(), Setup() + [open], [accrue]);
  }

  lemma OpenedHasAPlan(s: Shop)
    ensures PlanOpened(s) ==> |s.plans| == 1
  {
  }

  /** A charge of a hundred over three months, every one of them accrued: ninety-nine is released, and one never is. */
  lemma ThreeThirdsReleaseNinetyNine()
    ensures AllAllowed(NewShop(), ThirdsRun(3)) && AllEarnAsShipped(NewShop(), ThirdsRun(3))
    ensures var s := Run(NewShop(), ThirdsRun(3));
      && |s.plans| == 1 && s.plans[0].markup == 100 && s.plans[0].tenure == 3
      && Accrued(s.register.books.entries, s.plans[0], 3) == 3
      && Earned(s.register.books.entries, s.plans[0], 3) == 99
  {
    hide AllAllowed, AllEarnAsShipped, Run, Accrued, Earned, ThirdsRun, IncomeInv;
    AfterSoManyDays(3);
  }

  /** Cancelled after its first month, it has released thirty-three of the hundred, and no run ever releases more. */
  lemma CancelledPlansKeepTheRestParked(steps: seq<Step>)
    requires var run := ThirdsRun(1) + [CancelAPlan(1, 1, "returned")];
      AllAllowed(Run(NewShop(), run), steps) && AllEarnAsShipped(Run(NewShop(), run), steps)
    ensures var run := ThirdsRun(1) + [CancelAPlan(1, 1, "returned")];
      var s := Run(NewShop(), run);
      && AllAllowed(NewShop(), run) && AllEarnAsShipped(NewShop(), run)
      && |s.plans| == 1 && s.plans[0].status == Cancelled && s.plans[0].markup == 100
      && Earned(s.register.books.entries, s.plans[0], 3) == 33
      && Earned(Run(s, steps).register.books.entries, s.plans[0], 3) == 33
  {
    hide AllAllowed, AllEarnAsShipped, Run, Accrued, Earned, ThirdsRun, IncomeInv, AfterCancel;
    AfterSoManyDays(1);
    var (before, cancel) := (Run(NewShop(), ThirdsRun(1)), CancelAPlan(1, 1, "returned"));
    OneStep(before, cancel);
    RunOfAppend(NewShop(), ThirdsRun(1), [cancel]);
    var s := After(before, cancel);
    StepKeepsIncome(before, cancel);
    CancellingEnds(before);
    SamePlansSameEarnings(before.register.books.entries, before.plans[0], s.plans[0], 3);
    EarningStopsWithThePlan(s, steps, 0);
  }

  lemma CancellingEnds(s: Shop)
    requires PlanOpened(s)
    ensures var after := After(s, CancelAPlan(1, 1, "returned"));
      && after.register == s.register && |after.plans| == 1 && after.plans[0] == s.plans[0].(status := Cancelled)
  {
    hide IncomeInv;
    assert "returned"[0] == 'r' && !Blank("returned");
    assert PlanIndex(s.plans, 1) == Some(0);
  }

  lemma {:induction false} SamePlansSameEarnings(entries: seq<Posted>, p: Plan, q: Plan, k: nat)
    requires q.id == p.id
    ensures Earned(entries, q, k) == Earned(entries, p, k)
  {
    if k > 0 {
      SamePlansSameEarnings(entries, p, q, k - 1);
    }
  }
}
