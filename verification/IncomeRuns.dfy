/** Runs in which plans earn as the product ships them to: what their finance charges have come to. */
module IncomeRuns {
  import opened Posting
  import opened PostingLaws
  import opened Rules
  import opened Transfers
  import opened Journals
  import opened LedgerInvariants
  import opened WholeDivision
  import opened Plans
  import opened Collecting
  import opened Accruals
  import opened Runs

  /** No entry is posted under a plan's identifiers yet. */
  ghost predicate FreshPlan(s: Shop, id: Id) {
    && (forall k :: 0 <= k < |s.plans| ==> s.plans[k].id != id)
    && (forall i :: 0 <= i < |s.register.books.entries| ==>
          var source := s.register.books.entries[i].key.sourceId;
          source != Document(id) && !(source.Instalment? && source.plan == id))
  }

  /**
   Accruals are posted by the accrual job alone, from the list its query returns,
   under the rule the product ships.
   */
  ghost predicate EarnsAsShipped(s: Shop, step: Step) {
    match step
    case PostEntry(e) => e.key.sourceType != DUE
    case PostRule(e, _, _) => e.key.sourceType != DUE
    case OpenAPlan(_, _, newId) => FreshPlan(s, newId)
    case Accrue(company, today, pending) => InPlace(s, pending) && IsPendingList(s, company, today, pending)
    case AddRule(rule) => rule.key == ACCRUE_RULE ==> rule.lines == TransferRule(ACCRUING)
    case _ => true
  }

  ghost predicate AllEarnAsShipped(s: Shop, steps: seq<Step>)
    decreases |steps|
  {
    steps == [] || (EarnsAsShipped(s, steps[0]) && AllEarnAsShipped(After(s, steps[0]), steps[1..]))
  }

  ghost predicate IncomeInv(s: Shop) {
    && ShopInv(s)
    && AccrualInv(s.register.books.entries, s.plans)
    && AccrualRulesAreSeeded(s.rules)
  }

  /** No instalment of the plan has accrued since. */
  ghost predicate EarnsNoMore(before: seq<Posted>, after: seq<Posted>, p: Plan) {
    forall due :: 0 <= due < |p.dues| ==>
      EntryFor(after, DueKey(p.id, due)).Some? == EntryFor(before, DueKey(p.id, due)).Some?
  }

  lemma OtherEntriesEarnNoMore(before: seq<Posted>, after: seq<Posted>, p: Plan)
    requires OneEntryAKey(after) && Appends(before, after)
    requires forall i :: |before| <= i < |after| ==> after[i].key.sourceType != DUE
    ensures EarnsNoMore(before, after, p)
  {
  }

  /** What plans earn does not depend on their status. */
  lemma SameTermsSameEarnings(entries: seq<Posted>, before: seq<Plan>, after: seq<Plan>)
    requires AccrualInv(entries, before) && |after| == |before|
    requires forall k :: 0 <= k < |before| ==> after[k] == before[k].(status := after[k].status)
    ensures AccrualInv(entries, after)
  {
  }

  lemma NewPlansHaveEarnedNothing(s: Shop, entries: seq<Posted>, id: Id)
    requires FreshPlan(s, id) && AddsOnly(s.register.books.entries, entries, PlanKey(id))
    ensures forall p: Plan :: p.id == id ==> EarnsItsShare(entries, p)
  {
  }

  // ---------------------------------------------------------------------
  // Accruing
  // ---------------------------------------------------------------------

  /** How many of some pending instalments have a share to earn. */
  ghost function WithAShare(plans: seq<Plan>, pending: seq<DueRef>): nat {
    if pending == [] then 0
    else
      var d := pending[|pending| - 1];
      WithAShare(plans, pending[..|pending| - 1])
        + if d.plan < |plans| && ShareOfMarkup(plans[d.plan]) > 0 then 1 else 0
  }

  /** Some instalments of the shop, each named once and none of them earned yet. */
  ghost predicate Unearned(s: Shop, pending: seq<DueRef>) {
    && InPlace(s, pending)
    && (forall i :: 0 <= i < |pending| ==>
          EntryFor(s.register.books.entries, DueKey(s.plans[pending[i].plan].id, pending[i].due)).None?)
    && (forall i, j :: 0 <= i < j < |pending| ==> pending[i] != pending[j])
  }

  /** The books once some of them have been earned: one entry for each with a share, nothing else touched. */
  ghost predicate EarnedBooks(s: Shop, pending: seq<DueRef>, books: Books, count: nat) {
    && BooksInv(books) && Appends(s.register.books.entries, books.entries)
    && books.chart == s.register.books.chart && books.nextNo.Keys == s.register.books.nextNo.Keys
    && AccrualInv(books.entries, s.plans)
    && count == WithAShare(s.plans, pending) && |books.entries| == |s.register.books.entries| + count
    && (forall k, due :: 0 <= k < |s.plans| && 0 <= due < |s.plans[k].dues| ==>
          EntryFor(books.entries, DueKey(s.plans[k].id, due)).Some? ==
            (EntryFor(s.register.books.entries, DueKey(s.plans[k].id, due)).Some?
             || (DueRef(k, due) in pending && ShareOfMarkup(s.plans[k]) > 0)))
  }

  lemma EarningOneMore(s: Shop, country: string, pending: seq<DueRef>, d: DueRef, books: Books, count: nat)
    requires IncomeInv(s) && EarnedBooks(s, pending, books, count)
    requires d.plan < |s.plans| && d.due < |s.plans[d.plan].dues| && d !in pending
    requires EntryFor(s.register.books.entries, DueKey(s.plans[d.plan].id, d.due)).None?
    requires ShareOfMarkup(s.plans[d.plan]) > 0
    requires AfterPostByRule(books, s.rules, AccrualEntry(s.plans[d.plan], d.due), country,
                             TransferOf(ACCRUING, ShareOfMarkup(s.plans[d.plan]))).Ok?
    ensures EarnedBooks(s, pending + [d],
              AfterPostByRule(books, s.rules, AccrualEntry(s.plans[d.plan], d.due), country,
                              TransferOf(ACCRUING, ShareOfMarkup(s.plans[d.plan]))).value.0, count + 1)
  {
    hide Moves, AccrualEntry, Grows, IsPending;
    hide AfterPost, AfterPostByRule, RegisterInv, PlanInv, EarnsItsShare, ShareOfMarkup;
    hide BooksInv, EntryFor, ReceiptsInv;
    var p := s.plans[d.plan];
    var after := AfterPostByRule(books, s.rules, AccrualEntry(p, d.due), country,
                                 TransferOf(ACCRUING, ShareOfMarkup(p))).value.0;
    var posted := PostByRuleIsAPost(books, s.rules, AccrualEntry(p, d.due), country,
                                    TransferOf(ACCRUING, ShareOfMarkup(p)));
    PostKeepsTheBooks(books, posted);
    AccrualPostsTheShare(books, s.rules, p, d.due, country);
    KeysOfBooks(after);
    OneAccrualKeepsAccruals(books.entries, after.entries, s.plans, d.plan, d.due);
    AppendsIsTransitive(s.register.books.entries, books.entries, after.entries);
    assert (pending + [d])[..|pending|] == pending;
    forall k, due | 0 <= k < |s.plans| && 0 <= due < |s.plans[k].dues|
      ensures EntryFor(after.entries, DueKey(s.plans[k].id, due)).Some? ==
            (EntryFor(s.register.books.entries, DueKey(s.plans[k].id, due)).Some?
             || (DueRef(k, due) in pending + [d] && ShareOfMarkup(s.plans[k]) > 0))
    {
      OnlyItsOwnKeyIsFound(s, books.entries, after.entries, d, k, due);
    }
  }

  lemma OnlyItsOwnKeyIsFound(s: Shop, before: seq<Posted>, after: seq<Posted>, d: DueRef, k: nat, due: nat)
    requires forall i, j :: 0 <= i < j < |s.plans| ==> s.plans[i].id != s.plans[j].id
    requires OneEntryAKey(after) && Appends(before, after) && |after| == |before| + 1
    requires d.plan < |s.plans| && k < |s.plans|
    requires after[|before|].key == DueKey(s.plans[d.plan].id, d.due)
    ensures EntryFor(after, DueKey(s.plans[k].id, due)).Some?
      <==> EntryFor(before, DueKey(s.plans[k].id, due)).Some? || DueRef(k, due) == d
  {
  }

  lemma EarnedNothingYet(s: Shop)
    requires IncomeInv(s)
    ensures EarnedBooks(s, [], s.register.books, 0)
  {
  }

  lemma EarningNothing(s: Shop, pending: seq<DueRef>, d: DueRef, books: Books, count: nat)
    requires EarnedBooks(s, pending, books, count) && d.plan < |s.plans| && ShareOfMarkup(s.plans[d.plan]) <= 0
    ensures EarnedBooks(s, pending + [d], books, count)
  {
  }

  /** Earning a list of pending instalments adds exactly one entry for each that has a share. */
  lemma {:induction false} EarningKeeps(s: Shop, country: string, pending: seq<DueRef>)
    requires IncomeInv(s) && Unearned(s, pending) && AfterEarning(s, country, pending).Ok?
    ensures EarnedBooks(s, pending, AfterEarning(s, country, pending).value.0,
                        AfterEarning(s, country, pending).value.1)
  {
    hide AfterPost, AfterPostByRule, RegisterInv, PlanInv, EarnsItsShare, ShareOfMarkup;
    hide BooksInv, EntryFor, ReceiptsInv;
    hide EarnedBooks, AccrualInv, PlansInv;
    if pending == [] {
      EarnedNothingYet(s);
    } else {
      var n := |pending| - 1;
      EarningKeeps(s, country, pending[..n]);
      var (books, count) := AfterEarning(s, country, pending[..n]).value;
      assert pending[..n] + [pending[n]] == pending;
      if ShareOfMarkup(s.plans[pending[n].plan]) > 0 {
        EarningOneMore(s, country, pending[..n], pending[n], books, count);
      } else {
        EarningNothing(s, pending[..n], pending[n], books, count);
      }
    }
  }

  lemma PendingIsUnearned(s: Shop, company: Id, today: int, pending: seq<DueRef>)
    requires InPlace(s, pending) && IsPendingList(s, company, today, pending)
    ensures Unearned(s, pending)
  {
    forall i | 0 <= i < |pending| ensures IsPending(s, company, today, pending[i]) {
      assert pending[i] in pending;
    }
  }

  /**
   One run of the accrual job: every pending instalment whose share is not
   nothing gets its one entry, the count says how many, and no other instalment
   of any plan is touched.
   */
  lemma AccrueEarnsWhatIsPending(s: Shop, company: Id, today: int, pending: seq<DueRef>)
    requires IncomeInv(s) && InPlace(s, pending) && IsPendingList(s, company, today, pending)
    requires AfterAccrue(s, company, pending).Ok?
    ensures var (after, count) := AfterAccrue(s, company, pending).value;
      && after == WithBooks(s, after.register.books)
      && EarnedBooks(s, pending, after.register.books, count)
  {
    hide AfterEarning, RegisterInv, PlanInv, EarnsItsShare, ShareOfMarkup, EntryFor, ReceiptsInv;
    PendingIsUnearned(s, company, today, pending);
    if pending != [] {
      EarningKeeps(s, s.countries[company], pending);
    } else {
      RegisterHasBooks(s.register);
    }
  }

  /**
   One run of the accrual job, in terms of the tables before it: an instalment has
   its entry afterwards exactly when it had one, or its plan is this company's, active
   and charged at least half a unit a month, and its day has come.
   */
  lemma AccrueEarnsWhatHasFallenDue(s: Shop, company: Id, today: int, pending: seq<DueRef>)
    requires IncomeInv(s) && InPlace(s, pending) && IsPendingList(s, company, today, pending)
    requires AfterAccrue(s, company, pending).Ok?
    ensures var (before, after) :=
        (s.register.books.entries, AfterAccrue(s, company, pending).value.0.register.books.entries);
      forall k, due :: 0 <= k < |s.plans| && 0 <= due < |s.plans[k].dues| ==>
        var p := s.plans[k];
        EntryFor(after, DueKey(p.id, due)).Some? ==
          (EntryFor(before, DueKey(p.id, due)).Some?
           || (p.company == company && p.status == Active && p.dues[due].dueOn <= today
               && p.markup > 0 && 2 * p.markup >= p.tenure))
  {
    hide AfterAccrue, RegisterInv, AccrualInv, EntryFor, ShareOfMarkup, BooksInv, AccrualRulesAreSeeded, ReceiptsInv;
    AccrueEarnsWhatIsPending(s, company, today, pending);
    var (before, after) :=
      (s.register.books.entries, AfterAccrue(s, company, pending).value.0.register.books.entries);
    forall k, due | 0 <= k < |s.plans| && 0 <= due < |s.plans[k].dues|
      ensures var p := s.plans[k];
        EntryFor(after, DueKey(p.id, due)).Some? ==
          (EntryFor(before, DueKey(p.id, due)).Some?
           || (p.company == company && p.status == Active && p.dues[due].dueOn <= today
               && p.markup > 0 && 2 * p.markup >= p.tenure))
    {
      assert PlanInv(s.plans[k], s.payments);
      SharesAreSomethingIff(s.plans[k]);
      assert DueRef(k, due) in pending <==> IsPending(s, company, today, DueRef(k, due));
    }
  }

  lemma SharesAreSomethingIff(p: Plan)
    requires p.markup >= 0 && 0 < p.tenure <= MAX_INTEGER
    ensures ShareOfMarkup(p) > 0 <==> 2 * p.markup >= p.tenure
  {
    hide ShareOfMarkup;
    ShareIsTheNearestUnit(p);
    QuotientsReachOneIff(2 * p.markup + p.tenure, 2 * p.tenure);
  }

  lemma QuotientsReachOneIff(n: int, y: int)
    requires n >= 0 && y > 0
    ensures n / y > 0 <==> n >= y
  {
    var q := n / y;
    assert n == q * y + n % y;
    if q > 0 {
      assert q * y >= y;
    } else {
      assert q * y == 0;
    }
  }

  /** What earning one instalment asks of the rules, its day and the chart. */
  ghost predicate MayEarn(s: Shop, country: string, d: DueRef)
    requires d.plan < |s.plans| && d.due < |s.plans[d.plan].dues|
  {
    var p := s.plans[d.plan];
    && ResolveRule(s.rules, ACCRUE_RULE, country, p.dues[d.due].dueOn).Some?
    && PeriodMayTake(s.register.books.chart, AccrualEntry(p, d.due)) && p.company in s.register.books.nextNo
    && RoleStands(s.register.books.chart, p.company, ACCRUING.debit)
    && RoleStands(s.register.books.chart, p.company, ACCRUING.credit)
  }

  ghost predicate AllMayEarn(s: Shop, country: string, pending: seq<DueRef>)
    requires InPlace(s, pending)
  {
    forall i :: 0 <= i < |pending| && ShareOfMarkup(s.plans[pending[i].plan]) > 0 ==> MayEarn(s, country, pending[i])
  }

  /** The next instalment of a list, once those before it have been earned, is earned exactly when it may be. */
  lemma NextIsEarnedIff(s: Shop, country: string, pending: seq<DueRef>, d: DueRef, books: Books, count: nat)
    requires IncomeInv(s) && EarnedBooks(s, pending, books, count)
    requires d.plan < |s.plans| && d.due < |s.plans[d.plan].dues| && d !in pending
    requires EntryFor(s.register.books.entries, DueKey(s.plans[d.plan].id, d.due)).None?
    requires ShareOfMarkup(s.plans[d.plan]) > 0
    ensures var p := s.plans[d.plan];
      var r := AfterPostByRule(books, s.rules, AccrualEntry(p, d.due), country, TransferOf(ACCRUING, ShareOfMarkup(p)));
      r.Ok? <==> MayEarn(s, country, d)
  {
    hide AfterPostByRule, ResolveRule, EntryFor, ShareOfMarkup, BooksInv, RegisterInv, CoveringPeriod, AccrualInv;
    var p := s.plans[d.plan];
    assert DueRef(d.plan, d.due) == d;
    TransferIsAcceptedIff(books, s.rules, AccrualEntry(p, d.due), country, ACCRUING, ShareOfMarkup(p));
  }

  /** Exactly when a list of unearned instalments is earned: when each that has a share may be. */
  lemma {:induction false} EarningIsAcceptedIff(s: Shop, country: string, pending: seq<DueRef>)
    requires IncomeInv(s) && Unearned(s, pending)
    ensures AfterEarning(s, country, pending).Ok? <==> AllMayEarn(s, country, pending)
  {
    hide AfterPostByRule, EntryFor, ShareOfMarkup, IncomeInv, EarnedBooks, MayEarn;
    if pending != [] {
      var n := |pending| - 1;
      EarningIsAcceptedIff(s, country, pending[..n]);
      if AfterEarning(s, country, pending[..n]).Ok? {
        var (books, count) := AfterEarning(s, country, pending[..n]).value;
        EarningKeeps(s, country, pending[..n]);
        if ShareOfMarkup(s.plans[pending[n].plan]) > 0 {
          NextIsEarnedIff(s, country, pending[..n], pending[n], books, count);
        }
      }
    }
  }

  /** Exactly when the accrual job goes through: every pending instalment with a share may be earned. */
  lemma AccrueIsAcceptedIff(s: Shop, company: Id, today: int, pending: seq<DueRef>)
    requires IncomeInv(s) && InPlace(s, pending) && IsPendingList(s, company, today, pending)
    ensures AfterAccrue(s, company, pending).Ok?
      <==> pending == [] || (company in s.countries && AllMayEarn(s, s.countries[company], pending))
  {
    hide AfterEarning, ShareOfMarkup, IncomeInv, MayEarn, EntryFor;
    PendingIsUnearned(s, company, today, pending);
    if pending != [] && company in s.countries {
      EarningIsAcceptedIff(s, s.countries[company], pending);
    }
  }

  // ---------------------------------------------------------------------
  // Every step
  // ---------------------------------------------------------------------

  /** Plans that have ended earn no more from one shop to a later one. */
  ghost predicate EndedPlansEarnNoMore(before: Shop, after: Shop) {
    forall k :: 0 <= k < |before.plans| && before.plans[k].status != Active ==>
      EarnsNoMore(before.register.books.entries, after.register.books.entries, before.plans[k])
  }

  lemma AccrueKeepsIncome(s: Shop, company: Id, today: int, pending: seq<DueRef>)
    requires IncomeInv(s) && InPlace(s, pending) && IsPendingList(s, company, today, pending)
    requires AfterAccrue(s, company, pending).Ok?
    ensures var after := AfterAccrue(s, company, pending).value.0;
      && AccrualInv(after.register.books.entries, after.plans) && after.rules == s.rules
      && EndedPlansEarnNoMore(s, after)
  {
    hide AfterAccrue, AfterEarning, RegisterInv, PlanInv, EarnsItsShare, ShareOfMarkup, EntryFor, ReceiptsInv;
    AccrueEarnsWhatIsPending(s, company, today, pending);
    var after := AfterAccrue(s, company, pending).value.0;
    forall k | 0 <= k < |s.plans| && s.plans[k].status != Active
      ensures EarnsNoMore(s.register.books.entries, after.register.books.entries, s.plans[k])
    {
      assert forall due :: DueRef(k, due) in pending ==> IsPending(s, company, today, DueRef(k, due));
    }
  }

  /** Entries from anywhere but the accrual job, and plans no older than the shop: what has been earned stands. */
  lemma OtherStepsKeepIncome(s: Shop, after: Shop, key: Key)
    requires AccrualInv(s.register.books.entries, s.plans) && ShopInv(after) && Grows(s, after)
    requires AddsOnly(s.register.books.entries, after.register.books.entries, key) && key.sourceType != DUE
    requires forall k :: |s.plans| <= k < |after.plans| ==> EarnsItsShare(after.register.books.entries, after.plans[k])
    ensures AccrualInv(after.register.books.entries, after.plans) && EndedPlansEarnNoMore(s, after)
  {
    hide EarnsItsShare, CollectingInv, RegisterInv;
    var (before, entries) := (s.register.books.entries, after.register.books.entries);
    OneKeyEach(after.register);
    OtherEntriesKeepAccruals(before, entries, s.plans);
    SameTermsSameEarnings(entries, s.plans, after.plans[..|s.plans|]);
    forall k | 0 <= k < |s.plans| ensures EarnsItsShare(entries, after.plans[k]) {
      assert after.plans[..|s.plans|][k] == after.plans[k];
    }
    forall k | 0 <= k < |s.plans| ensures EarnsNoMore(before, entries, s.plans[k]) {
      OtherEntriesEarnNoMore(before, entries, s.plans[k]);
    }
  }

  /** Every step that earns as shipped keeps what has been earned in order. */
  lemma StepKeepsIncome(s: Shop, step: Step)
    requires IncomeInv(s) && Allowed(s, step) && EarnsAsShipped(s, step)
    ensures IncomeInv(After(s, step)) && EndedPlansEarnNoMore(s, After(s, step))
  {
    hide ShopInv, After, EarnsItsShare, IsPendingList, FreshPlan, AccrualInv, EndedPlansEarnNoMore, Grows;
    var after := After(s, step);
    StepKeeps(s, step);
    RulesStayShipped(s, step);
    if step.Accrue? {
      AccruingKeepsIncome(s, step.company, step.today, step.pending);
    } else {
      OnlyOpeningAddsPlans(s, step);
      if step.OpenAPlan? {
        NewPlansHaveEarnedNothing(s, after.register.books.entries, step.newId);
      }
      OtherStepsKeepIncome(s, after, KeyOf(step));
    }
  }

  lemma RulesStayShipped(s: Shop, step: Step)
    requires AccrualRulesAreSeeded(s.rules) && EarnsAsShipped(s, step)
    ensures AccrualRulesAreSeeded(After(s, step).rules)
  {
    hide FreshPlan, IsPendingList, AfterPost, AfterPostByRule, AfterRecord, AfterReverse;
    hide AfterOpen, AfterCollect, AfterCancel;
    hide AfterAccrue;
    OnlyOpeningAddsPlans(s, step);
  }

  lemma AccruingKeepsIncome(s: Shop, company: Id, today: int, pending: seq<DueRef>)
    requires IncomeInv(s) && InPlace(s, pending) && IsPendingList(s, company, today, pending)
    ensures var after := After(s, Accrue(company, today, pending));
      AccrualInv(after.register.books.entries, after.plans) && EndedPlansEarnNoMore(s, after)
  {
    hide AfterAccrue, IsPendingList, AccrualInv;
    if AfterAccrue(s, company, pending).Ok? {
      AccrueKeepsIncome(s, company, today, pending);
    }
  }

  // ---------------------------------------------------------------------
  // Every run
  // ---------------------------------------------------------------------

  lemma EndingIsTransitive(a: Shop, b: Shop, c: Shop)
    requires Grows(a, b) && EndedPlansEarnNoMore(a, b) && EndedPlansEarnNoMore(b, c)
    ensures EndedPlansEarnNoMore(a, c)
  {
    forall k | 0 <= k < |a.plans| && a.plans[k].status != Active
      ensures EarnsNoMore(a.register.books.entries, c.register.books.entries, a.plans[k])
    {
      assert PlanStands(a.plans[k], b.plans[k]);
      assert EarnsNoMore(a.register.books.entries, b.register.books.entries, a.plans[k]);
      assert EarnsNoMore(b.register.books.entries, c.register.books.entries, b.plans[k]);
    }
  }

  lemma NoneEarnFromItself(s: Shop)
    ensures EndedPlansEarnNoMore(s, s)
  {
  }

  lemma {:induction false} RunKeepsIncome(s: Shop, steps: seq<Step>)
    requires IncomeInv(s) && AllAllowed(s, steps) && AllEarnAsShipped(s, steps)
    ensures IncomeInv(Run(s, steps)) && EndedPlansEarnNoMore(s, Run(s, steps))
    decreases |steps|
  {
    hide ShopInv, Grows, After, Allowed, EarnsAsShipped, IncomeInv, EndedPlansEarnNoMore, KeyOf;
    if steps != [] {
      var next := After(s, steps[0]);
      IncomeIsInOrder(s);
      StepKeeps(s, steps[0]);
      StepKeepsIncome(s, steps[0]);
      RunKeepsIncome(next, steps[1..]);
      EndingIsTransitive(s, next, Run(s, steps));
    } else {
      NoneEarnFromItself(s);
    }
  }

  lemma IncomeIsInOrder(s: Shop)
    requires IncomeInv(s)
    ensures ShopInv(s)
  {
  }

  lemma NewShopsHaveNoIncome()
    ensures IncomeInv(NewShop())
  {
    NewShopIsInOrder();
  }
}
