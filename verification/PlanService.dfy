/**
 Instalment plans as the program runs them: rows written one by one inside a
 transaction, each method proved to do exactly what the functions of Plans say.
 */
module PlanService {
  import opened Wrappers
  import opened Refusals
  import opened Rounding
  import opened WholeDivision
  import opened Sums
  import opened Posting
  import opened Rules
  import opened Journals
  import opened LedgerService
  import opened Plans

  /** What stays of a refusal met on the way through a pending list. */
  lemma {:induction false} EarningRefusalsStand(s: Shop, country: string, pending: seq<DueRef>, i: nat)
    requires InPlace(s, pending) && i <= |pending| && AfterEarning(s, country, pending[..i]).Err?
    ensures AfterEarning(s, country, pending) == AfterEarning(s, country, pending[..i])
    decreases |pending|
  {
    hide AfterPostByRule;
    if i < |pending| {
      var n := |pending| - 1;
      assert pending[..n][..i] == pending[..i];
      EarningRefusalsStand(s, country, pending[..n], i);
    } else {
      assert pending[..i] == pending;
    }
  }

  class PlanDesk {
    const ledger: Ledger
    var rules: seq<Rule>
    var countries: map<Id, string>
    var invoices: map<Id, Invoice>
    var receipts: map<Id, CustomerReceipt>
    var plans: seq<Plan>
    var payments: seq<Payment>

    constructor (ledger: Ledger)
      ensures this.ledger == ledger && plans == [] && payments == [] && rules == []
      ensures countries == map[] && invoices == map[] && receipts == map[]
    {
      this.ledger := ledger;
      rules, plans, payments := [], [], [];
      countries, invoices, receipts := map[], map[], map[];
    }

    function State(): Shop
      reads this, ledger
    {
      Shop(ledger.State(), rules, countries, invoices, receipts, plans, payments)
    }

    /** The schedule loop of `OpenPlan`: the last instalment is the total less what has run so far. */
    method InsertSchedule(asked: NewPlan, total: real, base: int) returns (ok: bool, dues: seq<Due>)
      requires asked.tenure > 0
      ensures ok <==> forall i :: 0 <= i < asked.tenure ==> Schedule(total, base, asked.tenure)[i] > 0
      ensures ok ==> dues == DuesOf(asked, Schedule(total, base, asked.tenure))
    {
      ghost var schedule := Schedule(total, base, asked.tenure);
      dues := [];
      var running := 0.0;
      var i := 1;
      while i <= asked.tenure
        invariant 1 <= i <= asked.tenure + 1
        invariant i <= asked.tenure ==> running == (UNIT * base * (i - 1)) as real
        invariant dues == DuesOf(asked, schedule)[..i - 1]
        invariant forall k :: 0 <= k < i - 1 ==> schedule[k] > 0
      {
        var amount := (UNIT * base) as real;
        if i == asked.tenure {
          amount := total - running;
          assert amount == Remainder(total, base, asked.tenure - 1);
        }
        var column := Round(amount);
        RoundOfWhole(UNIT * base);
        assert column == schedule[i - 1];
        running := running + amount;
        if column <= 0 {
          return false, dues;
        }
        dues := dues + [Due(asked.dueOn(i), column, 0)];
        assert UNIT * base * i == UNIT * base * (i - 1) + UNIT * base;
        i := i + 1;
      }
      ok := true;
    }

    /** `OpenPlan`. */
    method OpenPlan(company: Id, asked: NewPlan, planId: Id) returns (r: Result<(), Refusal>)
      modifies this, ledger
      ensures match AfterOpen(old(State()), company, asked, planId)
        case Err(why) => r == Err(why) && State() == old(State())
        case Ok(after) => r == Ok(()) && State() == after
    {
      hide AfterPostByRule, Base;
      if asked.tenure <= 0 {
        return Err(BadTenure);
      }
      if asked.downPayment < 0.0 {
        return Err(NegativeDownPayment);
      }
      if asked.markupRate < 0.0 {
        return Err(NegativeMarkupRate);
      }
      if asked.invoice !in invoices || invoices[asked.invoice].company != company {
        return Err(InvoiceNotFound);
      }
      var invoice := invoices[asked.invoice];
      if invoice.customer != Some(asked.customer) {
        return Err(WrongCustomer);
      }
      if asked.downPayment > invoice.total as real {
        return Err(DownPaymentTooLarge);
      }
      var financed := invoice.total as real - asked.downPayment;
      var markup := Markup(financed, asked.markupRate);
      var total := financed + (UNIT * markup) as real;
      var base := Base(total, asked.tenure);
      if base <= 0 {
        return Err(NothingToSpread);
      }
      if asked.tenure > MAX_INTEGER || Round(financed) != invoice.total - Round(asked.downPayment) {
        return Err(CheckViolated);
      }
      var taken := HasPlan(asked.invoice);
      if taken {
        return Err(InvoiceHasPlan);
      }
      var ok, dues := InsertSchedule(asked, total, base);
      if !ok {
        return Err(CheckViolated);
      }
      var p := Plan(planId, company, asked.customer, asked.invoice, Active, markup, asked.tenure, invoice.currency,
                    dues);
      assert Drafted(old(State()), company, asked, planId) == Ok(p);
      var saved := ledger.State();
      plans := plans + [p];
      r := ParkMarkup(p, asked.startsOn);
      if r.Err? {
        ledger.RollBack(saved);
        plans := plans[..|plans| - 1];
        assert plans == old(plans);
      }
    }

    /** The unique index on a plan's invoice. */
    method HasPlan(invoice: Id) returns (found: bool)
      ensures found <==> exists i :: 0 <= i < |plans| && plans[i].invoice == invoice
    {
      var i := 0;
      while i < |plans|
        invariant 0 <= i <= |plans|
        invariant forall k :: 0 <= k < i ==> plans[k].invoice != invoice
      {
        if plans[i].invoice == invoice {
          return true;
        }
        i := i + 1;
      }
      found := false;
    }

    /** The finance charge: owed by the customer, not yet earned. */
    method ParkMarkup(p: Plan, startsOn: int) returns (r: Result<(), Refusal>)
      modifies ledger
      ensures ledger.currencies == old(ledger.currencies)
      ensures ledger.journals == old(ledger.journals) && ledger.nextJournalNo == old(ledger.nextJournalNo)
      ensures match AfterParking(old(State()), p, startsOn)
        case Err(why) => r == Err(why) && LeftOver(old(ledger.Book()), ledger.Book(), p.company)
        case Ok(books) => r == Ok(()) && ledger.Book() == books
    {
      hide AfterPostByRule;
      if p.markup <= 0 {
        return Ok(());
      }
      if p.company !in countries {
        return Err(NoCompany);
      }
      var posted := ledger.PostByRule(rules, RuleEntry(p.company, startsOn, PlanKey(p.id), p.currency),
                                      countries[p.company], Transaction(map["markup" := p.markup as real], map[]));
      if posted.Err? {
        return Err(posted.error);
      }
      r := Ok(());
    }

    /** `CollectInstalment`. */
    method CollectInstalment(company: Id, planId: Id, receipt: Id, amount: real) returns (r: Result<(), Refusal>)
      modifies this
      ensures match AfterCollect(old(State()), company, planId, receipt, amount)
        case Err(why) => r == Err(why) && State() == old(State())
        case Ok(after) => r == Ok(()) && State() == after
    {
      if amount <= 0.0 {
        return Err(NothingCollected);
      }
      var found := PlanIndex(plans, planId);
      if found.None? {
        return Err(PlanNotFound);
      }
      var k := found.value;
      var p := plans[k];
      if p.company != company {
        return Err(PlanNotFound);
      }
      if p.status != Active {
        return Err(PlanNotActive);
      }
      if receipt !in receipts || receipts[receipt].customer != p.customer {
        return Err(WrongCustomer);
      }
      if receipts[receipt].undone {
        return Err(ReceiptReversed);
      }
      if amount > (receipts[receipt].amount - UsedOf(payments, receipt)) as real {
        return Err(ReceiptSpent);
      }
      var saved := payments;
      var ok, left := MarkOff(p, receipt, amount);
      if !ok {
        payments := saved;
        return Err(CheckViolated);
      }
      if left > 0.0 {
        payments := saved;
        return Err(MoreThanOwed);
      }
      SettleIfClear(k);
      r := Ok(());
    }

    /** The loop over what is owing, oldest first; a payment its column rounds to nothing stops it. */
    method MarkOff(p: Plan, receipt: Id, amount: real) returns (ok: bool, left: real)
      modifies this`payments
      ensures match Marked(p.id, receipt, Owing(p, old(payments)), amount)
        case Err(why) => !ok && why == CheckViolated
        case Ok(marked) => ok && left == Left(Owing(p, old(payments)), amount) && payments == old(payments) + marked
      ensures |old(payments)| <= |payments| && payments[..|old(payments)|] == old(payments)
    {
      hide Owing, Round;
      var owing := Owing(p, payments);
      left := amount;
      var i := 0;
      while i < |owing|
        invariant 0 <= i <= |owing|
        invariant left == Left(owing[..i], amount)
        invariant Marked(p.id, receipt, owing[..i], amount).Ok?
        invariant payments == old(payments) + Marked(p.id, receipt, owing[..i], amount).value
      {
        assert owing[..i + 1][..i] == owing[..i];
        if left <= 0.0 {
          NothingMoreIsTaken(p.id, receipt, owing, amount, i);
          break;
        }
        if owing[i] > 0 {
          var take := owing[i] as real;
          if left < take {
            take := left;
          }
          if Round(take) <= 0 {
            CrumbsStand(p.id, receipt, owing, amount, i + 1);
            return false, left;
          }
          payments := payments + [Payment(p.id, i, receipt, Round(take))];
          left := left - take;
        }
        i := i + 1;
      }
      assert owing[..|owing|] == owing;
      ok := true;
    }

    /** A payment that cannot be written stops everything after it. */
    lemma {:induction false} CrumbsStand(plan: Id, receipt: Id, owing: seq<int>, amount: real, i: nat)
      requires i <= |owing| && Marked(plan, receipt, owing[..i], amount) == Err(CheckViolated)
      ensures Marked(plan, receipt, owing, amount) == Err(CheckViolated)
      decreases |owing|
    {
      if i < |owing| {
        var n := |owing| - 1;
        assert owing[..n][..i] == owing[..i];
        CrumbsStand(plan, receipt, owing[..n], amount, i);
      } else {
        assert owing[..i] == owing;
      }
    }

    /** Once nothing is left, the instalments after take nothing. */
    lemma {:induction false} NothingMoreIsTaken(plan: Id, receipt: Id, owing: seq<int>, amount: real, i: nat)
      requires i <= |owing| && Left(owing[..i], amount) <= 0.0
      ensures Left(owing, amount) == Left(owing[..i], amount)
      ensures Marked(plan, receipt, owing, amount) == Marked(plan, receipt, owing[..i], amount)
      decreases |owing|
    {
      if i < |owing| {
        var n := |owing| - 1;
        assert owing[..n][..i] == owing[..i];
        NothingMoreIsTaken(plan, receipt, owing[..n], amount, i);
      } else {
        assert owing[..i] == owing;
      }
    }

    /** `settleIfClear`. */
    method SettleIfClear(k: nat)
      requires k < |plans|
      modifies this`plans
      ensures plans == old(plans)[k := IfClear(old(plans)[k], payments)]
    {
      var owing := Owing(plans[k], payments);
      var outstanding := 0;
      var i := 0;
      while i < |owing|
        invariant 0 <= i <= |owing|
        invariant outstanding == Sum(owing[..i])
        invariant plans == old(plans)
      {
        SumOfNext(owing, i);
        outstanding := outstanding + owing[i];
        i := i + 1;
      }
      assert owing[..i] == owing;
      if outstanding > 0 {
        return;
      }
      plans := plans[k := plans[k].(status := Settled)];
    }

    /** `CancelPlan`. */
    method CancelPlan(company: Id, planId: Id, reason: string) returns (r: Result<(), Refusal>)
      modifies this
      ensures match AfterCancel(old(State()), company, planId, reason)
        case Err(why) => r == Err(why) && State() == old(State())
        case Ok(after) => r == Ok(()) && State() == after
    {
      if Blank(reason) {
        return Err(NoReason);
      }
      var found := PlanIndex(plans, planId);
      if found.None? || plans[found.value].company != company || plans[found.value].status != Active {
        return Err(PlanNotActive);
      }
      plans := plans[found.value := plans[found.value].(status := Cancelled)];
      r := Ok(());
    }

    /** `AccrueDue`, on the rows its query returned. */
    method AccrueDue(company: Id, pending: seq<DueRef>) returns (r: Result<nat, Refusal>)
      requires InPlace(State(), pending)
      modifies this, ledger
      ensures match AfterAccrue(old(State()), company, pending)
        case Err(why) => r == Err(why) && State() == old(State())
        case Ok(after) => r == Ok(after.1) && State() == after.0
    {
      hide AfterPostByRule, ShareOfMarkup, AccrualEntry;
      if |pending| == 0 {
        return Ok(0);
      }
      if company !in countries {
        return Err(NoCompany);
      }
      ghost var before := State();
      var country := countries[company];
      var saved := ledger.State();
      var accrued: nat := 0;
      var i := 0;
      while i < |pending|
        invariant 0 <= i <= |pending|
        invariant AfterEarning(before, country, pending[..i]) == Ok((ledger.Book(), accrued))
        invariant State() == before.(register := before.register.(books := ledger.Book()))
      {
        var d := pending[i];
        var p := plans[d.plan];
        assert pending[..i + 1][..i] == pending[..i];
        var share := ShareOfMarkup(p);
        if share > 0 {
          var posted := ledger.PostByRule(rules, AccrualEntry(p, d.due), country,
                                          Transaction(map["amount" := share as real], map[]));
          if posted.Err? {
            EarningRefusalsStand(before, country, pending, i + 1);
            ledger.RollBack(saved);
            return Err(posted.error);
          }
          accrued := accrued + 1;
        }
        i := i + 1;
      }
      assert pending[..i] == pending;
      r := Ok(accrued);
    }
  }
}
