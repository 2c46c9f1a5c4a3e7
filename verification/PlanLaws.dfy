/** What a schedule adds up to, and what collecting against it keeps. */
module PlanLaws {
  import opened Wrappers
  import opened Rounding
  import opened WholeDivision
  import opened Sums
  import opened Posting
  import opened Plans

  // ---------------------------------------------------------------------
  // The schedule
  // ---------------------------------------------------------------------

  /** An amount its column can hold. */
  predicate IsWhole(amount: real) {
    amount == amount.Floor as real
  }

  /** Over a whole total the base instalment is the exact whole-number quotient: sixteen digits are enough. */
  lemma BaseIsWholeDivision(total: int, tenure: int)
    requires 0 < tenure <= MAX_INTEGER && total >= 0
    ensures Base(total as real, tenure) == total / (UNIT * tenure)
  {
    CutDownIsWholeDivision(total, tenure);
  }

  /**
   Over any total, its instalments come to no more than the rounded total, and one unit
   more each to more than the total.
   */
  lemma BaseFits(total: real, tenure: int)
    requires 0 < tenure <= MAX_INTEGER && total >= 0.0
    ensures var spread := UNIT * Base(total, tenure) * tenure;
      spread <= Round(total) && total < (spread + UNIT * tenure) as real
  {
    CutDownFits(total, tenure);
    var base := Base(total, tenure);
    assert UNIT * base * tenure == 100 * (base * tenure);
  }

  lemma NegativeTotalsHaveNoBase(total: real, tenure: int)
    requires 0 < tenure && total <= 0.0
    ensures Base(total, tenure) <= 0
  {
    QuotientIsMonotone(InUnits(total), 0.0, tenure as real);
    QuotientOfMultiple(0, 0.0, tenure as real);
  }

  lemma {:induction false} ScheduleSums(total: real, base: int, tenure: nat, k: nat)
    requires k <= tenure && tenure > 0 && total >= 0.0 && Remainder(total, base, tenure - 1) >= 0.0
    ensures Sum(Schedule(total, base, tenure)[..k]) == if k == tenure then Round(total) else UNIT * base * k
  {
    var s := Schedule(total, base, tenure);
    if k > 0 {
      ScheduleSums(total, base, tenure, k - 1);
      SumOfNext(s, k - 1);
      assert UNIT * base * k == UNIT * base * (k - 1) + UNIT * base;
      if k == tenure {
        RoundOfShifted(total, UNIT * base * (tenure - 1));
      }
    }
  }

  /** Whole parts do not matter to a rounding that stays above nothing. */
  lemma RoundOfShifted(total: real, n: int)
    requires total >= 0.0 && total >= n as real
    ensures Round(total - n as real) == Round(total) - n
  {
  }

  /**
   For every total and tenure: the schedule adds back to the total as its column
   holds it, which is the total exactly when four decimals are enough for it;
   every instalment is positive; and the last one is at least the others and
   above them by at most one unit a month, by less when the total is whole.
   */
  lemma ScheduleAddsBack(total: real, tenure: int)
    requires 0 < tenure <= MAX_INTEGER && Base(total, tenure) > 0
    ensures var s := Schedule(total, Base(total, tenure), tenure);
      && Sum(s) == Round(total) && (Sum(s) as real == total <==> IsWhole(total))
      && (forall i :: 0 <= i < tenure ==> s[i] > 0)
      && (forall i :: 0 <= i < tenure - 1 ==> s[i] == s[0] <= s[tenure - 1])
      && 0 <= s[tenure - 1] - UNIT * Base(total, tenure) <= UNIT * tenure
      && (IsWhole(total) ==> s[tenure - 1] - UNIT * Base(total, tenure) < UNIT * tenure)
  {
    if total <= 0.0 {
      NegativeTotalsHaveNoBase(total, tenure);
    }
    BaseFits(total, tenure);
    var base := Base(total, tenure);
    var s := Schedule(total, base, tenure);
    assert UNIT * base * (tenure - 1) == UNIT * base * tenure - UNIT * base;
    ScheduleSums(total, base, tenure, tenure);
    assert s[..tenure] == s;
    RoundOfShifted(total, UNIT * base * (tenure - 1));
  }

  lemma RoundIsItselfIff(amount: real)
    ensures Round(amount) as real == amount <==> IsWhole(amount)
  {
    hide Round;
    if IsWhole(amount) {
      RoundOfWhole(amount.Floor);
    } else if Round(amount) as real == amount {
      FloorIs(amount, Round(amount));
    }
  }

  /**
   What `OpenPlan` agrees is what `QuotePlan` offered: same instalments, same final
   payment as its column holds it.
   */
  lemma OpenedAsQuoted(s: Shop, company: Id, asked: NewPlan, planId: Id)
    requires Drafted(s, company, asked, planId).Ok?
    ensures asked.invoice in s.invoices
    ensures var p := Drafted(s, company, asked, planId).value;
      var quote := Quoted(s.invoices[asked.invoice].total as real, asked.downPayment, asked.markupRate, asked.tenure);
      && quote.Ok? && quote.value.markup == p.markup && |p.dues| == asked.tenure
      && (forall i :: 0 <= i < asked.tenure - 1 ==> p.dues[i].amount == quote.value.instalment)
      && p.dues[asked.tenure - 1].amount == Round(quote.value.finalPayment)
      && Sum(Amounts(p.dues)) == Round(quote.value.total)
      && (forall i :: 0 <= i < asked.tenure ==> p.dues[i].dueOn == asked.dueOn(i + 1) && p.dues[i].waived == 0)
      && p.status == Active && p.customer == asked.customer && p.invoice == asked.invoice
      && s.invoices[asked.invoice].customer == Some(p.customer) && p.company == s.invoices[asked.invoice].company
  {
    var p := Drafted(s, company, asked, planId).value;
    var financed := s.invoices[asked.invoice].total as real - asked.downPayment;
    var total := TotalPayable(financed, asked.markupRate);
    ScheduleAddsBack(total, asked.tenure);
    assert Amounts(p.dues) == Schedule(total, Base(total, asked.tenure), asked.tenure);
  }

  /** So many ten-thousandths at a rate, in units, to the nearest one, halves up. */
  ghost predicate IsRateOn(charge: int, financed: real, rate: real) {
    charge as real - 0.5 <= financed / 100.0 * rate < charge as real + 0.5
  }

  lemma MarkupIsNearest(financed: real, rate: real)
    requires financed >= 0.0 && rate >= 0.0
    ensures IsRateOn(Markup(financed, rate), financed, rate) && Markup(financed, rate) >= 0
  {
    assert financed / 100.0 * rate >= 0.0;
    RoundIsNearest(financed / 100.0 * rate);
  }

  /**
   What a quote says, for every principal, down payment and rate that is not
   negative: the charge is the rate of what is financed, to the nearest unit; what is
   payable is the two together; an instalment is a whole number of units, as many as
   fit in as often as there are months; and the final payment is the rest.
   */
  lemma QuotesAddUp(principal: real, down: real, rate: real, tenure: int)
    requires rate >= 0.0
    ensures Quoted(principal, down, rate, tenure).Ok? <==> tenure > 0 && down <= principal
    ensures Quoted(principal, down, rate, tenure).Ok? ==>
      var q := Quoted(principal, down, rate, tenure).value;
      && q.financed == principal - down
      && IsRateOn(q.markup, principal - down, rate)
      && q.total == principal - down + 100.0 * q.markup as real
      && q.finalPayment == q.total - (q.instalment * (tenure - 1)) as real
    ensures Quoted(principal, down, rate, tenure).Ok? && tenure <= MAX_INTEGER ==>
      var q := Quoted(principal, down, rate, tenure).value;
      && q.instalment % 100 == 0
      && (q.instalment * tenure) as real <= q.total + 0.5
      && q.total < (q.instalment * tenure + 100 * tenure) as real
  {
    hide Base, Markup, IsRateOn;
    if tenure > 0 && down <= principal {
      MarkupIsNearest(principal - down, rate);
      var (total, base) := (TotalPayable(principal - down, rate), Base(TotalPayable(principal - down, rate), tenure));
      PayableIsNotNegative(principal - down, rate);
      if tenure <= MAX_INTEGER {
        BaseFits(total, tenure);
        MultiplesOfUnits(base);
      }
    }
  }

  lemma MultiplesOfUnits(n: int)
    ensures UNIT * n % 100 == 0
  {
  }

  lemma PayableIsNotNegative(financed: real, rate: real)
    requires financed >= 0.0 && rate >= 0.0
    ensures TotalPayable(financed, rate) >= 0.0
  {
    hide Markup;
    MarkupIsNearest(financed, rate);
  }

  lemma DraftedFromItsInvoice(s: Shop, company: Id, asked: NewPlan, planId: Id)
    requires Drafted(s, company, asked, planId).Ok?
    ensures asked.invoice in s.invoices
    ensures var (p, invoice) := (Drafted(s, company, asked, planId).value, s.invoices[asked.invoice]);
      && p.id == planId && p.company == company && p.currency == invoice.currency && p.tenure == asked.tenure
      && asked.tenure > 0 && 0.0 <= asked.downPayment <= invoice.total as real && asked.markupRate >= 0.0
      && p.markup == Markup(invoice.total as real - asked.downPayment, asked.markupRate)
  {
    hide Base, Round, TotalPayable, Markup;
  }

  /** What an agreed plan charges and comes to, in terms of the invoice and the request. */
  lemma DraftedFigures(s: Shop, company: Id, asked: NewPlan, planId: Id)
    requires Drafted(s, company, asked, planId).Ok?
    ensures asked.invoice in s.invoices && asked.tenure > 0
    ensures var (p, financed) :=
        (Drafted(s, company, asked, planId).value, s.invoices[asked.invoice].total as real - asked.downPayment);
      && p.id == planId && p.company == company && p.currency == s.invoices[asked.invoice].currency
      && p.tenure == asked.tenure == |p.dues|
      && IsRateOn(p.markup, financed, asked.markupRate)
      && NearestTo(Sum(Amounts(p.dues)), financed + 100.0 * p.markup as real)
  {
    hide Drafted, Base, Sum, Amounts, Markup, NearestTo, Round, IsRateOn;
    DraftedFromItsInvoice(s, company, asked, planId);
    var financed := s.invoices[asked.invoice].total as real - asked.downPayment;
    OpenedAsQuoted(s, company, asked, planId);
    MarkupIsNearest(financed, asked.markupRate);
    PayableIsNotNegative(financed, asked.markupRate);
    RoundIsNearest(TotalPayable(financed, asked.markupRate));
  }

  /** An agreed schedule comes to what is payable exactly when four decimals are enough for the down payment. */
  lemma DraftedAddsBackIff(s: Shop, company: Id, asked: NewPlan, planId: Id)
    requires Drafted(s, company, asked, planId).Ok?
    ensures asked.invoice in s.invoices
    ensures var payable := TotalPayable(s.invoices[asked.invoice].total as real - asked.downPayment, asked.markupRate);
      Sum(Amounts(Drafted(s, company, asked, planId).value.dues)) as real == payable <==> IsWhole(asked.downPayment)
  {
    hide Drafted, Base, Markup, Sum, Amounts;
    OpenedAsQuoted(s, company, asked, planId);
    var financed := s.invoices[asked.invoice].total as real - asked.downPayment;
    var markup := Markup(financed, asked.markupRate);
    RoundIsItselfIff(TotalPayable(financed, asked.markupRate));
    WholeLess(s.invoices[asked.invoice].total + UNIT * markup, asked.downPayment);
  }

  lemma WholeLess(n: int, x: real)
    ensures IsWhole(n as real - x) <==> IsWhole(x)
  {
    if IsWhole(x) {
      FloorIs(n as real - x, n - x.Floor);
    }
    if IsWhole(n as real - x) {
      FloorIs(x, n - (n as real - x).Floor);
    }
  }

  function Amounts(dues: seq<Due>): (a: seq<int>)
    ensures |a| == |dues|
  {
    seq(|dues|, i requires 0 <= i < |dues| => dues[i].amount)
  }

  // ---------------------------------------------------------------------
  // Collecting whole amounts
  // ---------------------------------------------------------------------

  /** What one instalment takes of a whole amount left. */
  function WholeTake(owing: int, left: int): int {
    if left <= 0 || owing <= 0 then 0 else if left < owing then left else owing
  }

  function WholeLeft(owing: seq<int>, amount: int): int {
    if owing == [] then amount
    else
      var left := WholeLeft(owing[..|owing| - 1], amount);
      left - WholeTake(owing[|owing| - 1], left)
  }

  /** The payments a whole amount makes: none of them can round to nothing. */
  function WholeMarked(plan: Id, receipt: Id, owing: seq<int>, amount: int): seq<Payment> {
    if owing == [] then []
    else
      var n := |owing| - 1;
      var take := WholeTake(owing[n], WholeLeft(owing[..n], amount));
      WholeMarked(plan, receipt, owing[..n], amount) + if take > 0 then [Payment(plan, n, receipt, take)] else []
  }

  lemma RoundOfTake(owing: int, left: real)
    requires left >= 0.0
    ensures Round(Take(owing, left)) == WholeTake(owing, Round(left))
    ensures 0.0 <= Take(owing, left) <= left
    ensures Round(left - Take(owing, left)) == Round(left) - WholeTake(owing, Round(left))
  {
    if 0 < owing && owing as real <= left {
      RoundOfShifted(left, owing);
    }
  }

  /** What is left of any amount rounds to what is left of the amount rounded. */
  lemma {:induction false} RoundOfLeft(owing: seq<int>, amount: real)
    requires amount >= 0.0
    ensures 0.0 <= Left(owing, amount) <= amount
    ensures Round(Left(owing, amount)) == WholeLeft(owing, Round(amount))
  {
    if owing != [] {
      var n := |owing| - 1;
      RoundOfLeft(owing[..n], amount);
      RoundOfTake(owing[n], Left(owing[..n], amount));
    }
  }

  /** The payments any amount makes, when they can be written, are those of the amount rounded. */
  lemma {:induction false} MarkedAsRounded(plan: Id, receipt: Id, owing: seq<int>, amount: real)
    requires amount >= 0.0 && Marked(plan, receipt, owing, amount).Ok?
    ensures Marked(plan, receipt, owing, amount).value == WholeMarked(plan, receipt, owing, Round(amount))
    ensures Left(owing, amount) < amount ==> Round(amount) > 0
  {
    if owing != [] {
      var n := |owing| - 1;
      MarkedAsRounded(plan, receipt, owing[..n], amount);
      RoundOfLeft(owing[..n], amount);
      RoundOfTake(owing[n], Left(owing[..n], amount));
      RoundIsMonotone(Take(owing[n], Left(owing[..n], amount)), amount);
    }
  }

  /**
   An amount whose whole part exactly clears everything before some instalment
   that still owes, with less than half a ten-thousandth over to offer it.
   */
  ghost predicate LeavesACrumb(owing: seq<int>, amount: real) {
    && amount.Floor as real < amount < amount.Floor as real + 0.5
    && exists k :: 0 <= k < |owing| && owing[k] > 0 && Sum(owing[..k]) == amount.Floor
  }

  lemma {:induction false} LeftOfAny(owing: seq<int>, amount: real)
    requires NoneNegative(owing) && amount >= 0.0
    ensures Left(owing, amount) == if amount <= Sum(owing) as real then 0.0 else amount - Sum(owing) as real
    ensures Sum(owing) >= 0
  {
    if owing != [] {
      LeftOfAny(owing[..|owing| - 1], amount);
    }
  }

  /** Exactly when the payments can be written: when no crumb is left for any of them. */
  lemma {:induction false} MarkedUnlessACrumb(plan: Id, receipt: Id, owing: seq<int>, amount: real)
    requires NoneNegative(owing) && amount >= 0.0
    ensures Marked(plan, receipt, owing, amount).Ok? <==> !LeavesACrumb(owing, amount)
  {
    hide Take, Round, Sum, Left;
    if owing != [] {
      var n := |owing| - 1;
      MarkedUnlessACrumb(plan, receipt, owing[..n], amount);
      LeftOfAny(owing[..n], amount);
      CrumbsOfNext(owing, amount);
      TakeOfACrumb(owing[n], Sum(owing[..n]), amount);
    }
  }

  lemma TakeOfACrumb(owing: int, sum: int, amount: real)
    requires sum >= 0 && amount >= 0.0
    ensures var take := Take(owing, if amount <= sum as real then 0.0 else amount - sum as real);
      take > 0.0 && Round(take) <= 0 <==>
        amount.Floor as real < amount < amount.Floor as real + 0.5 && owing > 0 && sum == amount.Floor
  {
    hide Round;
    RoundsToNothingIff(Take(owing, if amount <= sum as real then 0.0 else amount - sum as real));
    FractionIs(amount, sum);
  }

  lemma RoundsToNothingIff(x: real)
    requires x >= 0.0
    ensures Round(x) <= 0 <==> x < 0.5
  {
  }

  lemma FractionIs(amount: real, whole: int)
    ensures 0.0 < amount - whole as real < 0.5
      <==> whole == amount.Floor && amount.Floor as real < amount < amount.Floor as real + 0.5
  {
    if 0.0 < amount - whole as real < 0.5 {
      FloorIs(amount, whole);
    }
  }

  lemma FloorIs(x: real, n: int)
    requires n as real <= x < n as real + 1.0
    ensures x.Floor == n
  {
  }

  lemma CrumbsOfNext(owing: seq<int>, amount: real)
    requires owing != []
    ensures var n := |owing| - 1;
      LeavesACrumb(owing, amount) <==>
        || LeavesACrumb(owing[..n], amount)
        || (amount.Floor as real < amount < amount.Floor as real + 0.5 && owing[n] > 0
            && Sum(owing[..n]) == amount.Floor)
  {
    var n := |owing| - 1;
    assert forall k :: 0 <= k < n ==> owing[..n][..k] == owing[..k];
    if amount.Floor as real < amount < amount.Floor as real + 0.5 {
      if k :| 0 <= k < n && owing[k] > 0 && Sum(owing[..k]) == amount.Floor {
        assert owing[..n][k] > 0 && Sum(owing[..n][..k]) == amount.Floor;
      }
      if LeavesACrumb(owing[..n], amount) {
        var k :| 0 <= k < n && owing[..n][k] > 0 && Sum(owing[..n][..k]) == amount.Floor;
        assert owing[k] > 0 && Sum(owing[..k]) == amount.Floor;
      }
    }
  }

  /** A whole amount leaves none. */
  lemma WholeAmountsAreMarked(plan: Id, receipt: Id, owing: seq<int>, amount: int)
    requires NoneNegative(owing) && amount >= 0
    ensures Round(amount as real) == amount
    ensures Marked(plan, receipt, owing, amount as real) == Ok(WholeMarked(plan, receipt, owing, amount))
  {
    RoundOfWhole(amount);
    MarkedUnlessACrumb(plan, receipt, owing, amount as real);
    MarkedAsRounded(plan, receipt, owing, amount as real);
  }

  // ---------------------------------------------------------------------
  // Oldest first
  // ---------------------------------------------------------------------

  /** What each instalment can take. */
  function Capacities(dues: seq<Due>): (c: seq<int>)
    ensures |c| == |dues|
  {
    seq(|dues|, i requires 0 <= i < |dues| => dues[i].amount - dues[i].waived)
  }

  function Min(a: int, b: int): int {
    if a < b then a else b
  }

  /** One oldest-first allocation of a total over the schedule: the reference for every collection. */
  function Filled(caps: seq<int>, total: int): (f: seq<int>)
    ensures |f| == |caps|
  {
    seq(|caps|, i requires 0 <= i < |caps| => Min(total, Sum(caps[..i + 1])) - Min(total, Sum(caps[..i])))
  }

  ghost predicate NoneNegative(s: seq<int>) {
    forall i :: 0 <= i < |s| ==> s[i] >= 0
  }

  lemma {:induction false} PrefixesGrow(s: seq<int>, i: nat, j: nat)
    requires NoneNegative(s) && i <= j <= |s|
    ensures 0 <= Sum(s[..i]) <= Sum(s[..j])
  {
    if i < j {
      PrefixesGrow(s, i, j - 1);
      SumOfNext(s, j - 1);
    } else if i > 0 {
      PrefixesGrow(s, i - 1, i);
    }
  }

  /** What is left is the amount less what was owing, never below nothing. */
  lemma {:induction false} LeftIsTheExcess(owing: seq<int>, amount: int)
    requires NoneNegative(owing) && amount >= 0
    ensures WholeLeft(owing, amount) == if amount <= Sum(owing) then 0 else amount - Sum(owing)
    ensures Sum(owing) >= 0
  {
    if owing != [] {
      LeftIsTheExcess(owing[..|owing| - 1], amount);
    }
  }

  lemma {:induction false} FilledPrefix(caps: seq<int>, total: int, k: nat)
    requires NoneNegative(caps) && total >= 0 && k <= |caps|
    ensures Sum(Filled(caps, total)[..k]) == Min(total, Sum(caps[..k]))
  {
    PrefixesGrow(caps, 0, k);
    if k > 0 {
      FilledPrefix(caps, total, k - 1);
      SumOfNext(Filled(caps, total), k - 1);
    }
  }

  lemma FilledFits(caps: seq<int>, total: int, i: nat)
    requires NoneNegative(caps) && total >= 0 && i < |caps|
    ensures 0 <= Filled(caps, total)[i] <= caps[i]
  {
    SumOfNext(caps, i);
    PrefixesGrow(caps, 0, i);
    PrefixesGrow(caps, i, i + 1);
  }

  /** The part of each capacity a filling leaves open. */
  ghost predicate Open(caps: seq<int>, total: int, owing: seq<int>) {
    |owing| == |caps| && forall i :: 0 <= i < |caps| ==> owing[i] == caps[i] - Filled(caps, total)[i]
  }

  lemma OpenIsNotNegative(caps: seq<int>, total: int, owing: seq<int>)
    requires NoneNegative(caps) && total >= 0 && Open(caps, total, owing)
    ensures NoneNegative(owing)
  {
    forall i | 0 <= i < |caps| ensures owing[i] >= 0 {
      FilledFits(caps, total, i);
    }
  }

  lemma {:induction false} OpenSums(caps: seq<int>, total: int, owing: seq<int>, k: nat)
    requires NoneNegative(caps) && total >= 0 && Open(caps, total, owing) && k <= |caps|
    ensures Sum(owing[..k]) == Sum(caps[..k]) - Min(total, Sum(caps[..k]))
  {
    if k > 0 {
      OpenSums(caps, total, owing, k - 1);
      SumOfNext(owing, k - 1);
      SumOfNext(caps, k - 1);
    }
  }

  /** One more collection on a schedule filled oldest first leaves it filled oldest first. */
  lemma TakingKeepsFilling(caps: seq<int>, total: int, owing: seq<int>, amount: int, i: nat)
    requires NoneNegative(caps) && total >= 0 && amount >= 0 && Open(caps, total, owing) && i < |caps|
    ensures Filled(caps, total + amount)[i]
      == Filled(caps, total)[i] + WholeTake(owing[i], WholeLeft(owing[..i], amount))
  {
    OpenIsNotNegative(caps, total, owing);
    OpenSums(caps, total, owing, i);
    LeftIsTheExcess(owing[..i], amount);
    SumOfNext(caps, i);
    PrefixesGrow(caps, 0, i);
    PrefixesGrow(caps, i, i + 1);
  }

  /** Where an instalment that is not clear is followed only by untouched ones. */
  ghost predicate ClearThenPartThenUntouched(caps: seq<int>, paid: seq<int>) {
    && |paid| == |caps|
    && (forall i :: 0 <= i < |caps| ==> 0 <= paid[i] <= caps[i])
    && (forall i, j :: 0 <= i < j < |caps| && paid[i] < caps[i] ==> paid[j] == 0)
  }

  lemma FilledIsClearThenPartThenUntouched(caps: seq<int>, total: int)
    requires NoneNegative(caps) && total >= 0
    ensures ClearThenPartThenUntouched(caps, Filled(caps, total))
  {
    forall i | 0 <= i < |caps| ensures 0 <= Filled(caps, total)[i] <= caps[i] {
      FilledFits(caps, total, i);
    }
    forall i, j | 0 <= i < j < |caps| && Filled(caps, total)[i] < caps[i]
      ensures Filled(caps, total)[j] == 0
    {
      NothingPastTheGap(caps, total, i, j);
    }
  }

  lemma NothingPastTheGap(caps: seq<int>, total: int, i: nat, j: nat)
    requires NoneNegative(caps) && total >= 0 && i < j < |caps| && Filled(caps, total)[i] < caps[i]
    ensures Filled(caps, total)[j] == 0
  {
    hide Sum;
    SumOfNext(caps, i);
    SumOfNext(caps, j);
    PrefixesGrow(caps, 0, i);
    PrefixesGrow(caps, i + 1, j);
    PrefixesGrow(caps, j, j + 1);
  }

  // ---------------------------------------------------------------------
  // Payments
  // ---------------------------------------------------------------------

  lemma {:induction false} PaidOnAppend(a: seq<Payment>, b: seq<Payment>, plan: Id, due: nat)
    ensures PaidOn(a + b, plan, due) == PaidOn(a, plan, due) + PaidOn(b, plan, due)
  {
    if b == [] {
      assert a + b == a;
    } else {
      assert (a + b)[..|a + b| - 1] == a + b[..|b| - 1];
      PaidOnAppend(a, b[..|b| - 1], plan, due);
    }
  }

  lemma {:induction false} UsedOfAppend(a: seq<Payment>, b: seq<Payment>, receipt: Id)
    ensures UsedOf(a + b, receipt) == UsedOf(a, receipt) + UsedOf(b, receipt)
  {
    if b == [] {
      assert a + b == a;
    } else {
      assert (a + b)[..|a + b| - 1] == a + b[..|b| - 1];
      UsedOfAppend(a, b[..|b| - 1], receipt);
    }
  }

  lemma LastPaymentPays(a: seq<Payment>, p: Payment, plan: Id, due: nat)
    ensures PaidOn(a + [p], plan, due)
         == PaidOn(a, plan, due) + if p.plan == plan && p.due == due then p.amount else 0
  {
  }

  /** The payments of one collection put on each instalment what it took, and nothing anywhere else. */
  lemma {:induction false} MarkedPays(plan: Id, receipt: Id, owing: seq<int>, amount: int, other: Id, due: nat)
    ensures PaidOn(WholeMarked(plan, receipt, owing, amount), other, due)
         == if other == plan && due < |owing| then WholeTake(owing[due], WholeLeft(owing[..due], amount)) else 0
  {
    if owing != [] {
      var n := |owing| - 1;
      MarkedPays(plan, receipt, owing[..n], amount, other, due);
      assert due < n ==> owing[..n][..due] == owing[..due];
      var take := WholeTake(owing[n], WholeLeft(owing[..n], amount));
      LastPaymentPays(WholeMarked(plan, receipt, owing[..n], amount), Payment(plan, n, receipt, take), other, due);
      assert WholeMarked(plan, receipt, owing[..n], amount) + [] == WholeMarked(plan, receipt, owing[..n], amount);
    }
  }

  /** Between them they take from the receipt exactly what is not left over, each a positive amount. */
  lemma {:induction false} MarkedUses(plan: Id, receipt: Id, owing: seq<int>, amount: int, other: Id)
    ensures UsedOf(WholeMarked(plan, receipt, owing, amount), other)
         == if other == receipt then amount - WholeLeft(owing, amount) else 0
    ensures forall p :: p in WholeMarked(plan, receipt, owing, amount) ==>
      p.plan == plan && p.due < |owing| && p.receipt == receipt && p.amount > 0
  {
    if owing != [] {
      var n := |owing| - 1;
      MarkedUses(plan, receipt, owing[..n], amount, other);
      var before := WholeMarked(plan, receipt, owing[..n], amount);
      var take := WholeTake(owing[n], WholeLeft(owing[..n], amount));
      assert (before + [Payment(plan, n, receipt, take)])[..|before|] == before;
      assert before + [] == before;
    }
  }
}
