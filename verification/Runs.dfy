/** Whole runs: any calls in any order, refused ones included, over the ledger and the plans together. */
module Runs {
  import opened Wrappers
  import opened Refusals
  import opened Rounding
  import opened WholeDivision
  import opened Sums
  import opened Posting
  import opened Rules
  import opened Journals
  import opened LedgerInvariants
  import opened Reversals
  import opened Plans
  import opened PlanLaws
  import opened Collecting

  datatype Step =
    | PostEntry(entry: Entry)
    | PostRule(entry: Entry, country: string, txn: Transaction)
    | RecordJournal(company: Id, journal: NewJournal, newId: Id)
    | ReverseJournal(company: Id, target: Id, reason: string, uuid: Id, today: int, newId: Id)
    | OpenAPlan(company: Id, asked: NewPlan, newId: Id)
    | CollectOn(company: Id, plan: Id, receipt: Id, amount: real)
    | CancelAPlan(company: Id, plan: Id, reason: string)
    | Accrue(company: Id, today: int, pending: seq<DueRef>)
    // what changes around them: periods, accounts and roles; rules; documents; companies
    | Configure(chart: Chart)
    | AddRule(rule: Rule)
    | AddInvoice(id: Id, invoice: Invoice)
    | AddReceipt(id: Id, receiptRow: CustomerReceipt)
    | UndoReceipt(id: Id)
    | AddCompany(company: Id, currency: string, country: string)

  // ---------------------------------------------------------------------
  // One step
  // ---------------------------------------------------------------------

  function OrElse<T>(r: Result<T, Refusal>, otherwise: T): T {
    if r.Ok? then r.value else otherwise
  }

  function WithBooks(s: Shop, books: Books): Shop {
    s.(register := s.register.(books := books))
  }

  /** A call that is refused changes nothing: its transaction rolls back. */
  function After(s: Shop, step: Step): Shop {
    match step
    case PostEntry(e) =>
      var r := AfterPost(s.register.books, e);
      if r.Ok? then WithBooks(s, r.value.0) else s
    case PostRule(e, country, txn) =>
      var r := AfterPostByRule(s.register.books, s.rules, e, country, txn);
      if r.Ok? then WithBooks(s, r.value.0) else s
    case RecordJournal(company, j, newId) =>
      var r := AfterRecord(s.register, company, j, newId);
      if r.Ok? then s.(register := r.value.0) else s
    case ReverseJournal(company, target, reason, uuid, today, newId) =>
      var r := AfterReverse(s.register, company, target, reason, uuid, today, newId);
      if r.Ok? then s.(register := r.value.0) else s
    case OpenAPlan(company, asked, newId) => OrElse(AfterOpen(s, company, asked, newId), s)
    case CollectOn(company, plan, receipt, amount) => OrElse(AfterCollect(s, company, plan, receipt, amount), s)
    case CancelAPlan(company, plan, reason) => OrElse(AfterCancel(s, company, plan, reason), s)
    case Accrue(company, today, pending) =>
      if InPlace(s, pending) && AfterAccrue(s, company, pending).Ok?
      then AfterAccrue(s, company, pending).value.0 else s
    case Configure(chart) => WithBooks(s, s.register.books.(chart := chart))
    case AddRule(rule) => s.(rules := s.rules + [rule])
    case AddInvoice(id, invoice) => s.(invoices := s.invoices[id := invoice])
    case AddReceipt(id, receipt) => s.(receipts := s.receipts[id := receipt])
    case UndoReceipt(id) =>
      if id in s.receipts then s.(receipts := s.receipts[id := s.receipts[id].(undone := true)]) else s
    case AddCompany(company, currency, country) =>
      s.(countries := s.countries[company := country], register := WithCompany(s.register, company, currency))
  }

  /**
   What callers are held to: new identifiers are new, and documents are written
   once. Everything else is any call at all, under any key and any rules.
   */
  ghost predicate Allowed(s: Shop, step: Step) {
    match step
    case RecordJournal(_, _, newId) => Fresh(s.register, newId)
    case ReverseJournal(_, _, _, _, _, newId) => Fresh(s.register, newId)
    case OpenAPlan(_, _, newId) => forall k :: 0 <= k < |s.plans| ==> s.plans[k].id != newId
    case AddReceipt(id, receipt) => id !in s.receipts && receipt.amount > 0
    case AddCompany(company, _, _) => company !in s.register.currencies
    case _ => true
  }

  /** The one key a call other than the accrual job may post under. */
  function KeyOf(step: Step): Key {
    match step
    case PostEntry(e) => e.key
    case PostRule(e, _, _) => e.key
    case RecordJournal(_, _, newId) => JournalKey(newId)
    case ReverseJournal(_, _, _, _, _, newId) => JournalKey(newId)
    case OpenAPlan(_, _, newId) => PlanKey(newId)
    case _ => JournalKey(0)
  }

  // ---------------------------------------------------------------------
  // What every step keeps
  // ---------------------------------------------------------------------

  ghost predicate ShopInv(s: Shop) {
    RegisterInv(s.register) && CollectingInv(s)
  }

  /** A plan keeps its schedule and its terms, and once it is not active it stays as it is. */
  ghost predicate PlanStands(before: Plan, after: Plan) {
    && after == before.(status := after.status)
    && (before.status != Active ==> after.status == before.status)
  }

  /** Nothing written is ever taken back. */
  ghost predicate Grows(before: Shop, after: Shop) {
    && LaterThan(after.register, before.register)
    && |before.plans| <= |after.plans|
    && (forall k :: 0 <= k < |before.plans| ==> PlanStands(before.plans[k], after.plans[k]))
    && |before.payments| <= |after.payments| && after.payments[..|before.payments|] == before.payments
  }

  /** A step that touches the register and nothing of the plans. */
  lemma RegisterStepKeeps(s: Shop, register: Register)
    requires ShopInv(s) && RegisterInv(register) && LaterThan(register, s.register)
    ensures ShopInv(s.(register := register)) && Grows(s, s.(register := register))
  {
    hide RegisterInv, CollectingInv;
    SameReceiptsStand(s, s.(register := register));
  }

  lemma OneKeyEach(r: Register)
    requires RegisterInv(r)
    ensures OneEntryAKey(r.books.entries)
  {
  }

  lemma BooksStepKeeps(s: Shop, books: Books)
    requires ShopInv(s) && BooksInv(books) && Appends(s.register.books.entries, books.entries)
    requires books.nextNo.Keys == s.register.books.nextNo.Keys
    ensures ShopInv(WithBooks(s, books)) && Grows(s, WithBooks(s, books))
  {
    hide BooksInv, CollectingInv;
    AddingEntriesKeepsTheRegister(s.register, books);
    RegisterStepKeeps(s, s.register.(books := books));
  }

  lemma PostStepKeeps(s: Shop, e: Entry)
    requires ShopInv(s) && AfterPost(s.register.books, e).Ok?
    ensures var books := AfterPost(s.register.books, e).value.0;
      && ShopInv(WithBooks(s, books)) && Grows(s, WithBooks(s, books))
      && AddsOnly(s.register.books.entries, books.entries, e.key)
  {
    hide AfterPost, CollectingInv, BooksInv;
    PostKeepsTheBooks(s.register.books, e);
    BooksStepKeeps(s, AfterPost(s.register.books, e).value.0);
  }

  lemma RuleStepKeeps(s: Shop, e: Entry, country: string, txn: Transaction)
    requires ShopInv(s) && AfterPostByRule(s.register.books, s.rules, e, country, txn).Ok?
    ensures var books := AfterPostByRule(s.register.books, s.rules, e, country, txn).value.0;
      && ShopInv(WithBooks(s, books)) && Grows(s, WithBooks(s, books))
      && AddsOnly(s.register.books.entries, books.entries, e.key)
  {
    hide AfterPost, AfterPostByRule, ShopInv, Grows;
    var posted := PostByRuleIsAPost(s.register.books, s.rules, e, country, txn);
    PostStepKeeps(s, posted);
  }

  lemma RecordStepKeeps(s: Shop, company: Id, j: NewJournal, newId: Id)
    requires ShopInv(s) && Fresh(s.register, newId) && AfterRecord(s.register, company, j, newId).Ok?
    ensures var after := s.(register := AfterRecord(s.register, company, j, newId).value.0);
      && ShopInv(after) && Grows(s, after)
      && AddsOnly(s.register.books.entries, after.register.books.entries, JournalKey(newId))
  {
    hide AfterRecord, RegisterInv, CollectingInv;
    RecordKeepsTheRegister(s.register, company, j, newId);
    RegisterStepKeeps(s, AfterRecord(s.register, company, j, newId).value.0);
  }

  /** What a reversal is asked of is a journal of the register. */
  lemma ReverseFindsItsJournal(r: Register, company: Id, target: Id, reason: string, uuid: Id, today: int, newId: Id)
    returns (i: nat)
    requires AfterReverse(r, company, target, reason, uuid, today, newId).Ok?
    ensures i < |r.journals| && r.journals[i].company == company && r.journals[i].id == target
  {
    hide AfterFiling;
    i := JournalById(r.journals, company, target).value;
  }

  lemma ReverseStepKeeps(s: Shop, company: Id, target: Id, reason: string, uuid: Id, today: int, newId: Id)
    requires ShopInv(s) && Fresh(s.register, newId)
    requires AfterReverse(s.register, company, target, reason, uuid, today, newId).Ok?
    ensures var after :=
        s.(register := AfterReverse(s.register, company, target, reason, uuid, today, newId).value.0);
      && ShopInv(after) && Grows(s, after)
      && AddsOnly(s.register.books.entries, after.register.books.entries, JournalKey(newId))
  {
    hide AfterReverse, RegisterInv, CollectingInv;
    var i := ReverseFindsItsJournal(s.register, company, target, reason, uuid, today, newId);
    ReverseKeepsTheRegister(s.register, i, reason, uuid, today, newId);
    RegisterStepKeeps(s, AfterReverse(s.register, company, target, reason, uuid, today, newId).value.0);
  }

  // ---------------------------------------------------------------------
  // Plans
  // ---------------------------------------------------------------------

  /** What a drafted plan is made of. */
  lemma DraftedShape(s: Shop, company: Id, asked: NewPlan, planId: Id) returns (financed: real)
    requires Drafted(s, company, asked, planId).Ok?
    ensures financed >= 0.0 && asked.markupRate >= 0.0 && 0 < asked.tenure <= MAX_INTEGER
    ensures var total := TotalPayable(financed, asked.markupRate);
      && Base(total, asked.tenure) > 0
      && Drafted(s, company, asked, planId).value
         == Plan(planId, company, asked.customer, asked.invoice, Active, Markup(financed, asked.markupRate),
                 asked.tenure, Drafted(s, company, asked, planId).value.currency,
                 DuesOf(asked, Schedule(total, Base(total, asked.tenure), asked.tenure)))
  {
    hide Base, TotalPayable, Markup;
    financed := s.invoices[asked.invoice].total as real - asked.downPayment;
  }

  /** A drafted plan is in order, and nothing has been paid on it. */
  lemma DraftedPlansAreInOrder(s: Shop, company: Id, asked: NewPlan, planId: Id)
    requires Drafted(s, company, asked, planId).Ok? && ReceiptsInv(s)
    requires forall k :: 0 <= k < |s.plans| ==> s.plans[k].id != planId
    ensures var p := Drafted(s, company, asked, planId).value;
      PlanInv(p, s.payments) && p.id == planId && p.company == company && p.status == Active
  {
    hide Drafted, Base, TotalPayable, Markup, Filled, Sum;
    var p := Drafted(s, company, asked, planId).value;
    var financed := DraftedShape(s, company, asked, planId);
    var total := TotalPayable(financed, asked.markupRate);
    ScheduleAddsBack(total, asked.tenure);
    MarkupIsNearest(financed, asked.markupRate);
    assert Capacities(p.dues) == Schedule(total, Base(total, asked.tenure), asked.tenure);
    TotalIsPositive(total, asked.tenure);
    NothingPaidYet(s.payments, planId) by {
      assert forall i :: 0 <= i < |s.payments| ==> s.payments[i].plan != planId;
    }
    NothingPaidIsFilled(p, s.payments);
  }

  lemma TotalIsPositive(total: real, tenure: int)
    requires 0 < tenure <= MAX_INTEGER && Base(total, tenure) > 0
    ensures Round(total) > 0
  {
    if total <= 0.0 {
      NegativeTotalsHaveNoBase(total, tenure);
    }
    BaseFits(total, tenure);
  }

  lemma NothingPaidIsFilled(p: Plan, payments: seq<Payment>)
    requires ScheduleInv(p) && forall due :: PaidOn(payments, p.id, due) == 0
    ensures Paid(p, payments) == Filled(Capacities(p.dues), 0)
  {
    CapacitiesAreNotNegative(p);
    forall i | 0 <= i < |p.dues| ensures Paid(p, payments)[i] == Filled(Capacities(p.dues), 0)[i] {
      PrefixesGrow(Capacities(p.dues), 0, i);
      PrefixesGrow(Capacities(p.dues), 0, i + 1);
    }
  }

  lemma {:induction false} NothingPaidYet(payments: seq<Payment>, plan: Id)
    requires forall i :: 0 <= i < |payments| ==> payments[i].plan != plan
    ensures Collected(payments, plan) == 0 && forall due :: PaidOn(payments, plan, due) == 0
  {
    if payments != [] {
      NothingPaidYet(payments[..|payments| - 1], plan);
    }
  }

  lemma ParkingAddsOnly(s: Shop, p: Plan, startsOn: int)
    requires BooksInv(s.register.books) && AfterParking(s, p, startsOn).Ok?
    ensures var books := AfterParking(s, p, startsOn).value;
      BooksInv(books) && AddsOnly(s.register.books.entries, books.entries, PlanKey(p.id))
      && books.chart == s.register.books.chart && books.nextNo.Keys == s.register.books.nextNo.Keys
  {
    hide AfterPost, AfterPostByRule;
    if p.markup > 0 {
      var posted := PostByRuleIsAPost(s.register.books, s.rules,
                                      RuleEntry(p.company, startsOn, PlanKey(p.id), p.currency),
                                      s.countries[p.company], Transaction(map["markup" := p.markup as real], map[]));
      PostKeepsTheBooks(s.register.books, posted);
    }
  }

  lemma OpenStepKeeps(s: Shop, company: Id, asked: NewPlan, planId: Id)
    requires ShopInv(s) && AfterOpen(s, company, asked, planId).Ok?
    requires forall k :: 0 <= k < |s.plans| ==> s.plans[k].id != planId
    ensures var after := AfterOpen(s, company, asked, planId).value;
      && ShopInv(after) && Grows(s, after)
      && AddsOnly(s.register.books.entries, after.register.books.entries, PlanKey(planId))
  {
    hide Drafted, AfterParking, PlanInv, RegisterInv;
    var p := Drafted(s, company, asked, planId).value;
    DraftedPlansAreInOrder(s, company, asked, planId);
    RegisterHasBooks(s.register);
    ParkingAddsOnly(s, p, asked.startsOn);
    var books := AfterParking(s, p, asked.startsOn).value;
    BooksStepKeeps(s, books);
    AddingAPlanKeeps(WithBooks(s, books), p);
  }

  lemma AddingAPlanKeeps(s: Shop, p: Plan)
    requires ShopInv(s) && PlanInv(p, s.payments)
    requires forall k :: 0 <= k < |s.plans| ==> s.plans[k].id != p.id
    ensures ShopInv(s.(plans := s.plans + [p])) && Grows(s, s.(plans := s.plans + [p]))
  {
    hide PlanInv, RegisterInv;
    var after := s.(plans := s.plans + [p]);
    MorePlansSameReceipts(s, after);
    assert PlansInv(after);
  }

  lemma MorePlansSameReceipts(s: Shop, after: Shop)
    requires ReceiptsInv(s) && after.payments == s.payments && after.receipts == s.receipts
    requires |s.plans| <= |after.plans| && forall k :: 0 <= k < |s.plans| ==> after.plans[k] == s.plans[k]
    ensures ReceiptsInv(after)
  {
  }

  lemma RegisterHasBooks(r: Register)
    requires RegisterInv(r)
    ensures BooksInv(r.books)
  {
  }

  lemma CollectStepKeeps(s: Shop, company: Id, planId: Id, receipt: Id, amount: real)
    requires ShopInv(s) && AfterCollect(s, company, planId, receipt, amount).Ok?
    ensures var after := AfterCollect(s, company, planId, receipt, amount).value;
      ShopInv(after) && Grows(s, after) && after.register == s.register
  {
    hide RegisterInv, CollectingInv, PlanInv, Owing, Marked, Left, UsedOf;
    var k := PlanIndex(s.plans, planId).value;
    assert CollectingInv(s) ==> PlansInv(s) by {
      PlansAreInOrder(s);
    }
    CollectKeepsEverything(s, company, k, receipt, amount);
    CollectedShape(s, company, k, receipt, amount);
  }

  lemma PlansAreInOrder(s: Shop)
    ensures CollectingInv(s) ==> PlansInv(s)
  {
  }

  lemma CancelStepKeeps(s: Shop, company: Id, planId: Id, reason: string)
    requires ShopInv(s) && AfterCancel(s, company, planId, reason).Ok?
    ensures var after := AfterCancel(s, company, planId, reason).value;
      ShopInv(after) && Grows(s, after) && after.register == s.register
  {
    hide RegisterInv, Filled, Sum, Collected, PaidOn, UsedOf;
    var k := PlanIndex(s.plans, planId).value;
    var after := AfterCancel(s, company, planId, reason).value;
    assert PlanInv(s.plans[k], s.payments);
    assert Paid(after.plans[k], s.payments) == Paid(s.plans[k], s.payments);
    forall i | 0 <= i < |s.payments|
      ensures exists m :: 0 <= m < |after.plans| && after.plans[m].id == after.payments[i].plan
    {
      var m :| 0 <= m < |s.plans| && s.plans[m].id == s.payments[i].plan;
      assert after.plans[m].id == after.payments[i].plan;
    }
  }

  // ---------------------------------------------------------------------
  // Accruing
  // ---------------------------------------------------------------------

  /** Whatever the list and the rules, earning only adds to the books, and keeps them. */
  lemma {:induction false} EarningOnlyAdds(s: Shop, country: string, pending: seq<DueRef>)
    requires BooksInv(s.register.books) && InPlace(s, pending) && AfterEarning(s, country, pending).Ok?
    ensures var books := AfterEarning(s, country, pending).value.0;
      && BooksInv(books) && Appends(s.register.books.entries, books.entries)
      && books.chart == s.register.books.chart && books.nextNo.Keys == s.register.books.nextNo.Keys
  {
    hide AfterPost, AfterPostByRule, BooksInv, ShareOfMarkup;
    if pending != [] {
      var n := |pending| - 1;
      var (d, p) := (pending[n], s.plans[pending[n].plan]);
      EarningOnlyAdds(s, country, pending[..n]);
      var books := AfterEarning(s, country, pending[..n]).value.0;
      if ShareOfMarkup(p) > 0 {
        var posted := PostByRuleIsAPost(books, s.rules, AccrualEntry(p, d.due), country,
                                        Transaction(map["amount" := ShareOfMarkup(p) as real], map[]));
        PostKeepsTheBooks(books, posted);
        AppendsIsTransitive(s.register.books.entries, books.entries, AfterPost(books, posted).value.0.entries);
      }
    }
  }

  lemma AccrueStepKeeps(s: Shop, company: Id, pending: seq<DueRef>)
    requires ShopInv(s) && InPlace(s, pending) && AfterAccrue(s, company, pending).Ok?
    ensures var after := AfterAccrue(s, company, pending).value.0;
      ShopInv(after) && Grows(s, after)
  {
    hide AfterEarning, BooksInv, CollectingInv;
    RegisterHasBooks(s.register);
    if pending != [] {
      EarningOnlyAdds(s, s.countries[company], pending);
      BooksStepKeeps(s, AfterEarning(s, s.countries[company], pending).value.0);
    } else {
      GrowsFromItself(s);
    }
  }

  lemma SameReceiptsStand(s: Shop, after: Shop)
    requires CollectingInv(s) && after.plans == s.plans && after.payments == s.payments && after.receipts == s.receipts
    ensures CollectingInv(after)
  {
  }

  // ---------------------------------------------------------------------
  // Every step
  // ---------------------------------------------------------------------

  lemma SurroundingsStepKeeps(s: Shop, step: Step)
    requires ShopInv(s) && Allowed(s, step)
    requires step.Configure? || step.AddRule? || step.AddInvoice? || step.AddReceipt? || step.UndoReceipt?
      || step.AddCompany?
    ensures ShopInv(After(s, step)) && Grows(s, After(s, step))
    ensures After(s, step).register.books.entries == s.register.books.entries
  {
    hide PlanInv, EntryInv, ReversesOne, RegisterInv, CollectingInv;
    var after := After(s, step);
    assert after.plans == s.plans && after.payments == s.payments;
    match step
    case Configure(chart) =>
      RegisterHasBooks(s.register);
      BooksStandUnder(s.register.books, chart);
      AddingEntriesKeepsTheRegister(s.register, after.register.books);
      SameReceiptsStand(s, after);
    case AddCompany(company, currency, _) =>
      NewCompanyKeepsTheRegister(s.register, company, currency);
      SameReceiptsStand(s, after);
    case AddReceipt(id, receipt) =>
      ReceiptsStand(s, after, id);
    case UndoReceipt(id) =>
      ReceiptsStand(s, after, id);
    case AddRule(_) =>
      SameReceiptsStand(s, after);
    case AddInvoice(_, _) =>
      SameReceiptsStand(s, after);
  }

  lemma ReceiptsStand(s: Shop, after: Shop, id: Id)
    requires CollectingInv(s) && after.plans == s.plans && after.payments == s.payments
    requires after == s || (id in after.receipts && after.receipts == s.receipts[id := after.receipts[id]])
    requires after != s ==> if id in s.receipts then after.receipts[id].amount == s.receipts[id].amount
                            else after.receipts[id].amount > 0
    ensures CollectingInv(after)
  {
    hide PlanInv;
    if id !in s.receipts {
      NothingUsedYet(s.payments, id);
    }
  }

  lemma BooksStandUnder(b: Books, chart: Chart)
    requires BooksInv(b)
    ensures BooksInv(b.(chart := chart))
  {
  }

  lemma {:induction false} NothingUsedYet(payments: seq<Payment>, receipt: Id)
    requires forall i :: 0 <= i < |payments| ==> payments[i].receipt != receipt
    ensures UsedOf(payments, receipt) == 0
  {
    if payments != [] {
      NothingUsedYet(payments[..|payments| - 1], receipt);
    }
  }

  lemma {:induction false} NoNumbersYet(entries: seq<Posted>, company: Id)
    requires forall i :: 0 <= i < |entries| ==> entries[i].company != company
    ensures NumbersOf(entries, company) == []
  {
    if entries != [] {
      NoNumbersYet(entries[..|entries| - 1], company);
    }
  }

  function WithCompany(r: Register, company: Id, currency: string): Register {
    Register(r.books.(nextNo := r.books.nextNo[company := 1]), r.currencies[company := currency],
             r.journals, r.nextJournalNo[company := 1])
  }

  lemma NewCompanyKeepsTheBooks(b: Books, company: Id)
    requires BooksInv(b) && company !in b.nextNo
    ensures BooksInv(b.(nextNo := b.nextNo[company := 1]))
  {
    hide EntryInv;
    var after := b.(nextNo := b.nextNo[company := 1]);
    NoNumbersYet(b.entries, company);
    forall c | c in after.nextNo
      ensures after.nextNo[c] >= 1 && NumbersOf(after.entries, c) == OneTo(after.nextNo[c] - 1)
    {
      assert c != company ==> NumbersOf(b.entries, c) == OneTo(b.nextNo[c] - 1);
    }
  }

  lemma NewCompaniesHaveNoJournals(r: Register, company: Id)
    requires RegisterInv(r) && company !in r.currencies
    ensures JournalsGapFree(r.journals, r.nextJournalNo[company := 1])
  {
    hide BooksInv, ReversesOne, OneOfEach;
    forall k | 0 <= k < |r.journals| ensures r.journals[k].company != company {
      assert JournalInv(r, r.journals[k]);
    }
    NoJournalsNoNumbers(r.journals, company);
  }

  lemma NewCompanyKeepsTheRegister(r: Register, company: Id, currency: string)
    requires RegisterInv(r) && company !in r.currencies
    ensures RegisterInv(WithCompany(r, company, currency))
  {
    hide BooksInv, JournalsGapFree;
    var after := WithCompany(r, company, currency);
    NewCompanyKeepsTheBooks(r.books, company);
    NewCompaniesHaveNoJournals(r, company);
    forall k | 0 <= k < |r.journals| ensures JournalInv(after, r.journals[k]) {
      assert JournalInv(r, r.journals[k]);
    }
    forall k | 0 <= k < |r.journals| && r.journals[k].reverses.Some? ensures ReversesOne(after, r.journals[k]) {
      assert JournalInv(r, r.journals[k]) && ReversesOne(r, r.journals[k]);
      ReversalsStand(r, after, r.journals[k]);
    }
  }

  /** Every step, accepted or refused, keeps the whole shop in order and takes nothing back. */
  lemma StepKeeps(s: Shop, step: Step)
    requires ShopInv(s) && Allowed(s, step)
    ensures ShopInv(After(s, step)) && Grows(s, After(s, step))
    ensures !step.Accrue? ==> AddsOnly(s.register.books.entries, After(s, step).register.books.entries, KeyOf(step))
  {
    hide ShopInv, AfterPost, AfterPostByRule, AfterRecord, AfterReverse, AfterOpen, AfterCollect, AfterCancel;
    hide AfterAccrue, Fresh;
    GrowsFromItself(s);
    match step
    case PostEntry(e) =>
      if AfterPost(s.register.books, e).Ok? { PostStepKeeps(s, e); }
    case PostRule(e, country, txn) =>
      if AfterPostByRule(s.register.books, s.rules, e, country, txn).Ok? { RuleStepKeeps(s, e, country, txn); }
    case RecordJournal(company, j, newId) =>
      if AfterRecord(s.register, company, j, newId).Ok? { RecordStepKeeps(s, company, j, newId); }
    case ReverseJournal(company, target, reason, uuid, today, newId) =>
      if AfterReverse(s.register, company, target, reason, uuid, today, newId).Ok? {
        ReverseStepKeeps(s, company, target, reason, uuid, today, newId);
      }
    case OpenAPlan(company, asked, newId) =>
      if AfterOpen(s, company, asked, newId).Ok? { OpenStepKeeps(s, company, asked, newId); }
    case CollectOn(company, plan, receipt, amount) =>
      if AfterCollect(s, company, plan, receipt, amount).Ok? { CollectStepKeeps(s, company, plan, receipt, amount); }
    case CancelAPlan(company, plan, reason) =>
      if AfterCancel(s, company, plan, reason).Ok? { CancelStepKeeps(s, company, plan, reason); }
    case Accrue(company, today, pending) =>
      if InPlace(s, pending) && AfterAccrue(s, company, pending).Ok? { AccrueStepKeeps(s, company, pending); }
    case _ =>
      SurroundingsStepKeeps(s, step);
  }

  /** Only opening adds a plan, and only adding a rule changes the rules. */
  lemma OnlyOpeningAddsPlans(s: Shop, step: Step)
    ensures !step.OpenAPlan? ==> |After(s, step).plans| == |s.plans|
    ensures step.OpenAPlan? ==> |After(s, step).plans| <= |s.plans| + 1
    ensures step.OpenAPlan? ==> forall k :: |s.plans| <= k < |After(s, step).plans| ==>
      After(s, step).plans[k].id == step.newId
    ensures !step.AddRule? ==> After(s, step).rules == s.rules
  {
    hide AfterPost, AfterPostByRule, AfterRecord, AfterReverse, AfterEarning, Drafted, AfterParking, InPlace;
    hide Marked, Left, Owing, UsedOf, PlanIndex, IfClear;
    if step.OpenAPlan? && AfterOpen(s, step.company, step.asked, step.newId).Ok? {
      var financed := DraftedShape(s, step.company, step.asked, step.newId);
    }
  }

  // ---------------------------------------------------------------------
  // Every run
  // ---------------------------------------------------------------------

  ghost predicate AllAllowed(s: Shop, steps: seq<Step>)
    decreases |steps|
  {
    steps == [] || (Allowed(s, steps[0]) && AllAllowed(After(s, steps[0]), steps[1..]))
  }

  ghost function Run(s: Shop, steps: seq<Step>): Shop
    decreases |steps|
  {
    if steps == [] then s else Run(After(s, steps[0]), steps[1..])
  }

  lemma GrowsIsTransitive(a: Shop, b: Shop, c: Shop)
    requires Grows(a, b) && Grows(b, c)
    ensures Grows(a, c)
  {
  }

  /** Every run, of any length, keeps the whole shop in order and takes nothing back. */
  lemma {:induction false} RunKeeps(s: Shop, steps: seq<Step>)
    requires ShopInv(s) && AllAllowed(s, steps)
    ensures ShopInv(Run(s, steps)) && Grows(s, Run(s, steps))
    decreases |steps|
  {
    hide ShopInv, Grows, After, Allowed, KeyOf;
    if steps != [] {
      StepKeeps(s, steps[0]);
      RunKeeps(After(s, steps[0]), steps[1..]);
      GrowsIsTransitive(s, After(s, steps[0]), Run(s, steps));
    } else {
      GrowsFromItself(s);
    }
  }

  lemma GrowsFromItself(s: Shop)
    ensures Grows(s, s)
  {
  }

  /** Nothing posted, nothing sold, nobody there yet. */
  function NewShop(): Shop {
    Shop(Register(Books(Chart([], map[], map[]), [], map[]), map[], [], map[]), [], map[], map[], map[], [], [])
  }

  lemma NewShopIsInOrder()
    ensures ShopInv(NewShop())
  {
  }
}
