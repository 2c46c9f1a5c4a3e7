/**
 Instalment plans (backend/internal/aftersales/installments.go), as functions of
 the tables before each call.

 Amounts are counted in ten-thousandths of the currency; a hundred of them make
 one ledger unit. What a caller states may be any decimal. What a column holds is
 a whole number of ten-thousandths, and writing to one rounds.
 */
module Plans {
  import opened Wrappers
  import opened Refusals
  import opened Rounding
  import opened WholeDivision
  import opened Sums
  import opened Posting
  import opened Rules
  import opened Journals

  /** Ten-thousandths in one ledger unit. */
  const UNIT := 100

  datatype Status = Active | Settled | Cancelled | Defaulted

  datatype Due = Due(dueOn: int, amount: int, waived: int)

  /** One agreement with its schedule; `markup` is in ledger units. */
  datatype Plan = Plan(
    id: Id, company: Id, customer: Id, invoice: Id, status: Status,
    markup: int, tenure: int, currency: string, dues: seq<Due>)

  datatype Invoice = Invoice(company: Id, customer: Option<Id>, total: int, currency: string)

  /** `undone`: it reverses another receipt, or another reverses it. */
  datatype CustomerReceipt = CustomerReceipt(customer: Id, amount: int, undone: bool)

  /** What part of a receipt went to which instalment. */
  datatype Payment = Payment(plan: Id, due: nat, receipt: Id, amount: int)

  datatype Shop = Shop(
    register: Register, rules: seq<Rule>, countries: map<Id, string>,
    invoices: map<Id, Invoice>, receipts: map<Id, CustomerReceipt>,
    plans: seq<Plan>, payments: seq<Payment>)

  /** An agreement being set up; `dueOn` gives the date so many months after it starts. */
  datatype NewPlan = NewPlan(
    customer: Id, invoice: Id, downPayment: real, markupRate: real, tenure: int,
    startsOn: int, dueOn: nat -> int)

  // ---------------------------------------------------------------------
  // The arithmetic of a plan
  // ---------------------------------------------------------------------

  function InUnits(amount: real): real {
    amount / UNIT as real
  }

  /** The finance charge, rounded to the ledger unit. */
  function Markup(financed: real, rate: real): int {
    Round(InUnits(financed) * rate)
  }

  /** What the whole schedule comes to. */
  function TotalPayable(financed: real, rate: real): real {
    financed + (UNIT * Markup(financed, rate)) as real
  }

  /** One instalment in ledger units: the total over the tenure, cut down. */
  function Base(total: real, tenure: int): int
    requires tenure > 0
  {
    RoundDown(Quotient(InUnits(total), tenure as real))
  }

  /** What so many equal instalments leave of the total. */
  function Remainder(total: real, base: int, instalments: int): real {
    total - (UNIT * base * instalments) as real
  }

  /** The schedule, as its column holds it: the last instalment takes the remainder. */
  function Schedule(total: real, base: int, tenure: nat): (s: seq<int>)
    ensures |s| == tenure
  {
    seq(tenure, i requires 0 <= i < tenure =>
      if i == tenure - 1 then Round(Remainder(total, base, tenure - 1)) else UNIT * base)
  }

  datatype Quote = Quote(financed: real, markup: int, total: real, instalment: int, finalPayment: real)

  /** `QuotePlan`, before its figures are written out to two decimals. */
  function Quoted(principal: real, down: real, rate: real, tenure: int): Result<Quote, Refusal> {
    if tenure <= 0 then Err(BadTenure)
    else if down > principal then Err(DownPaymentTooLarge)
    else
      var financed := principal - down;
      var total := TotalPayable(financed, rate);
      var base := Base(total, tenure);
      Ok(Quote(financed, Markup(financed, rate), total, UNIT * base, Remainder(total, base, tenure - 1)))
  }

  // ---------------------------------------------------------------------
  // Opening
  // ---------------------------------------------------------------------

  function PlanIndex(plans: seq<Plan>, id: Id): (r: Option<nat>)
    ensures r.Some? ==> r.value < |plans| && plans[r.value].id == id
    ensures r.None? ==> forall i :: 0 <= i < |plans| ==> plans[i].id != id
  {
    FirstWhere(plans, (p: Plan) => p.id == id)
  }

  const OPEN_RULE := "installment.open"
  const ACCRUE_RULE := "installment.accrue"
  const DUE := "installment_due"

  function PlanKey(id: Id): Key {
    Key("installment_plan", Document(id), OPEN_RULE)
  }

  function DueKey(plan: Id, due: nat): Key {
    Key(DUE, Instalment(plan, due), ACCRUE_RULE)
  }

  function RuleEntry(company: Id, date: int, key: Key, currency: string): Entry {
    Entry(company, date, key, 0, currency, 1.0, None, None, [])
  }

  function DuesOf(asked: NewPlan, amounts: seq<int>): (d: seq<Due>)
    ensures |d| == |amounts|
  {
    seq(|amounts|, i requires 0 <= i < |amounts| => Due(asked.dueOn(i + 1), amounts[i], 0))
  }

  /** The plan an invoice and a request make, or why they make none. */
  function Drafted(s: Shop, company: Id, asked: NewPlan, planId: Id): Result<Plan, Refusal> {
    if asked.tenure <= 0 then Err(BadTenure)
    else if asked.downPayment < 0.0 then Err(NegativeDownPayment)
    else if asked.markupRate < 0.0 then Err(NegativeMarkupRate)
    else if asked.invoice !in s.invoices || s.invoices[asked.invoice].company != company then Err(InvoiceNotFound)
    else
      var invoice := s.invoices[asked.invoice];
      if invoice.customer != Some(asked.customer) then Err(WrongCustomer)
      else if asked.downPayment > invoice.total as real then Err(DownPaymentTooLarge)
      else
        var financed := invoice.total as real - asked.downPayment;
        var total := TotalPayable(financed, asked.markupRate);
        var base := Base(total, asked.tenure);
        if base <= 0 then Err(NothingToSpread)
        else if asked.tenure > MAX_INTEGER then Err(CheckViolated)
        else if Round(financed) != invoice.total - Round(asked.downPayment) then Err(CheckViolated)
        else if exists i :: 0 <= i < |s.plans| && s.plans[i].invoice == asked.invoice then Err(InvoiceHasPlan)
        else
          var amounts := Schedule(total, base, asked.tenure);
          if exists i :: 0 <= i < |amounts| && amounts[i] <= 0 then Err(CheckViolated)
          else Ok(Plan(planId, company, asked.customer, asked.invoice, Active, Markup(financed, asked.markupRate),
                       asked.tenure, invoice.currency, DuesOf(asked, amounts)))
  }

  /** The books after a plan's finance charge is parked. */
  function AfterParking(s: Shop, p: Plan, startsOn: int): Result<Books, Refusal> {
    if p.markup <= 0 then Ok(s.register.books)
    else if p.company !in s.countries then Err(NoCompany)
    else
      match AfterPostByRule(s.register.books, s.rules, RuleEntry(p.company, startsOn, PlanKey(p.id), p.currency),
                            s.countries[p.company], Transaction(map["markup" := p.markup as real], map[]))
      case Err(why) => Err(why)
      case Ok(posted) => Ok(posted.0)
  }

  /** `OpenPlan`. */
  function AfterOpen(s: Shop, company: Id, asked: NewPlan, planId: Id): Result<Shop, Refusal> {
    match Drafted(s, company, asked, planId)
    case Err(why) => Err(why)
    case Ok(p) =>
      match AfterParking(s, p, asked.startsOn)
      case Err(why) => Err(why)
      case Ok(books) => Ok(s.(register := s.register.(books := books), plans := s.plans + [p]))
  }

  // ---------------------------------------------------------------------
  // Collecting
  // ---------------------------------------------------------------------

  /** What payments have put on one instalment. */
  function PaidOn(payments: seq<Payment>, plan: Id, due: nat): int {
    if payments == [] then 0
    else
      var p := payments[|payments| - 1];
      PaidOn(payments[..|payments| - 1], plan, due) + if p.plan == plan && p.due == due then p.amount else 0
  }

  /** What payments have taken from one receipt. */
  function UsedOf(payments: seq<Payment>, receipt: Id): int {
    if payments == [] then 0
    else
      var p := payments[|payments| - 1];
      UsedOf(payments[..|payments| - 1], receipt) + if p.receipt == receipt then p.amount else 0
  }

  /** What each instalment still owes. */
  function Owing(p: Plan, payments: seq<Payment>): (o: seq<int>)
    ensures |o| == |p.dues|
  {
    seq(|p.dues|, i requires 0 <= i < |p.dues| =>
      p.dues[i].amount - p.dues[i].waived - PaidOn(payments, p.id, i))
  }

  /** What one instalment takes of what is left. */
  function Take(owing: int, left: real): real {
    if left <= 0.0 || owing <= 0 then 0.0 else if left < owing as real then left else owing as real
  }

  /** What is left after offering an amount to each instalment in turn. */
  function Left(owing: seq<int>, amount: real): real {
    if owing == [] then amount
    else
      var left := Left(owing[..|owing| - 1], amount);
      left - Take(owing[|owing| - 1], left)
  }

  /** The payments written on the way, unless one rounds to nothing in its column, which the table refuses. */
  function Marked(plan: Id, receipt: Id, owing: seq<int>, amount: real): Result<seq<Payment>, Refusal> {
    if owing == [] then Ok([])
    else
      var n := |owing| - 1;
      var before :- Marked(plan, receipt, owing[..n], amount);
      var take := Take(owing[n], Left(owing[..n], amount));
      if take <= 0.0 then Ok(before)
      else if Round(take) <= 0 then Err(CheckViolated)
      else Ok(before + [Payment(plan, n, receipt, Round(take))])
  }

  /** `settleIfClear`. */
  function IfClear(p: Plan, payments: seq<Payment>): Plan {
    if Sum(Owing(p, payments)) > 0 then p else p.(status := Settled)
  }

  /** `CollectInstalment`. */
  function AfterCollect(s: Shop, company: Id, planId: Id, receipt: Id, amount: real): Result<Shop, Refusal> {
    if amount <= 0.0 then Err(NothingCollected)
    else
      match PlanIndex(s.plans, planId)
      case None => Err(PlanNotFound)
      case Some(k) =>
        var p := s.plans[k];
        if p.company != company then Err(PlanNotFound)
        else if p.status != Active then Err(PlanNotActive)
        else if receipt !in s.receipts || s.receipts[receipt].customer != p.customer then Err(WrongCustomer)
        else if s.receipts[receipt].undone then Err(ReceiptReversed)
        else if amount > (s.receipts[receipt].amount - UsedOf(s.payments, receipt)) as real then Err(ReceiptSpent)
        else
          var owing := Owing(p, s.payments);
          match Marked(planId, receipt, owing, amount)
          case Err(why) => Err(why)
          case Ok(marked) =>
            if Left(owing, amount) > 0.0 then Err(MoreThanOwed)
            else Ok(s.(payments := s.payments + marked, plans := s.plans[k := IfClear(p, s.payments + marked)]))
  }

  // ---------------------------------------------------------------------
  // Cancelling
  // ---------------------------------------------------------------------

  /** `CancelPlan`. */
  function AfterCancel(s: Shop, company: Id, planId: Id, reason: string): Result<Shop, Refusal> {
    if Blank(reason) then Err(NoReason)
    else
      match PlanIndex(s.plans, planId)
      case None => Err(PlanNotActive)
      case Some(k) =>
        if s.plans[k].company != company || s.plans[k].status != Active then Err(PlanNotActive)
        else Ok(s.(plans := s.plans[k := s.plans[k].(status := Cancelled)]))
  }

  // ---------------------------------------------------------------------
  // Accruing
  // ---------------------------------------------------------------------

  /** One instalment of one plan, by their places. */
  datatype DueRef = DueRef(plan: nat, due: nat)

  /** What an instalment earns: its plan's finance charge over the tenure, rounded. */
  function ShareOfMarkup(p: Plan): int {
    if p.tenure <= 0 then 0 else Round(Quotient(p.markup as real, p.tenure as real))
  }

  /** Reached, on an active plan with a finance charge, and not yet earned. */
  predicate IsPending(s: Shop, company: Id, today: int, d: DueRef) {
    && d.plan < |s.plans| && d.due < |s.plans[d.plan].dues|
    && var p := s.plans[d.plan];
    && p.company == company && p.status == Active && p.markup > 0
    && p.dues[d.due].dueOn <= today
    && EntryFor(s.register.books.entries, DueKey(p.id, d.due)).None?
  }

  function DateOf(s: Shop, d: DueRef): int {
    if d.plan < |s.plans| && d.due < |s.plans[d.plan].dues| then s.plans[d.plan].dues[d.due].dueOn else 0
  }

  /** The rows the query returns: each pending instalment once, earliest first; ties stand in any order. */
  ghost predicate IsPendingList(s: Shop, company: Id, today: int, pending: seq<DueRef>) {
    && (forall d :: d in pending <==> IsPending(s, company, today, d))
    && (forall i, j :: 0 <= i < j < |pending| ==> pending[i] != pending[j])
    && (forall i, j :: 0 <= i < j < |pending| ==>
          DateOf(s, pending[i]) <= DateOf(s, pending[j]))
  }

  function AccrualEntry(p: Plan, due: nat): Entry
    requires due < |p.dues|
  {
    RuleEntry(p.company, p.dues[due].dueOn, DueKey(p.id, due), p.currency)
  }

  /** The rows name instalments the shop has. */
  predicate InPlace(s: Shop, pending: seq<DueRef>) {
    forall i :: 0 <= i < |pending| ==> pending[i].plan < |s.plans| && pending[i].due < |s.plans[pending[i].plan].dues|
  }

  /** The books, and the count, after earning some pending instalments in turn. */
  function AfterEarning(s: Shop, country: string, pending: seq<DueRef>): Result<(Books, nat), Refusal>
    requires InPlace(s, pending)
  {
    if pending == [] then Ok((s.register.books, 0))
    else
      match AfterEarning(s, country, pending[..|pending| - 1])
      case Err(why) => Err(why)
      case Ok(before) =>
        var d := pending[|pending| - 1];
        var p := s.plans[d.plan];
        if ShareOfMarkup(p) <= 0 then Ok(before)
        else
          match AfterPostByRule(before.0, s.rules, AccrualEntry(p, d.due), country,
                                Transaction(map["amount" := ShareOfMarkup(p) as real], map[]))
          case Err(why) => Err(why)
          case Ok(posted) => Ok((posted.0, before.1 + 1))
  }

  /** `AccrueDue`, on the list its query returns. */
  function AfterAccrue(s: Shop, company: Id, pending: seq<DueRef>): Result<(Shop, nat), Refusal>
    requires InPlace(s, pending)
  {
    if pending == [] then Ok((s, 0))
    else if company !in s.countries then Err(NoCompany)
    else
      match AfterEarning(s, s.countries[company], pending)
      case Err(why) => Err(why)
      case Ok(earned) => Ok((s.(register := s.register.(books := earned.0)), earned.1))
  }
}
