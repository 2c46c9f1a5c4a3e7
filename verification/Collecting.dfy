/** Collections over any run: nothing is paid twice, nothing is lost, and the order they come in does not matter. */
module Collecting {
  import opened Wrappers
  import opened Rounding
  import opened Sums
  import opened WholeDivision
  import opened Refusals
  import opened Posting
  import opened Journals
  import opened Plans
  import opened PlanLaws

  /** What all payments have put on one plan. */
  ghost function Collected(payments: seq<Payment>, plan: Id): int {
    if payments == [] then 0
    else
      var p := payments[|payments| - 1];
      Collected(payments[..|payments| - 1], plan) + if p.plan == plan then p.amount else 0
  }

  ghost function Paid(p: Plan, payments: seq<Payment>): (v: seq<int>)
    ensures |v| == |p.dues|
  {
    seq(|p.dues|, i requires 0 <= i < |p.dues| => PaidOn(payments, p.id, i))
  }

  /** A schedule whose waivers stay within its amounts. */
  ghost predicate ScheduleInv(p: Plan) {
    p.dues != [] && |p.dues| == p.tenure <= MAX_INTEGER
    && forall i :: 0 <= i < |p.dues| ==> p.dues[i].amount > 0 && 0 <= p.dues[i].waived <= p.dues[i].amount
  }

  /**
   One plan: what has been paid on each instalment is one oldest-first
   allocation of everything collected; an active plan still owes something and a
   settled one owes nothing.
   */
  ghost predicate PlanInv(p: Plan, payments: seq<Payment>) {
    var caps, total := Capacities(p.dues), Collected(payments, p.id);
    && ScheduleInv(p) && p.markup >= 0
    && 0 <= total <= Sum(caps)
    && Paid(p, payments) == Filled(caps, total)
    && (p.status == Active ==> total < Sum(caps))
    && (p.status == Settled ==> total == Sum(caps))
  }

  ghost predicate PlansInv(s: Shop) {
    && (forall i, j :: 0 <= i < j < |s.plans| ==> s.plans[i].id != s.plans[j].id)
    && (forall i :: 0 <= i < |s.plans| ==> PlanInv(s.plans[i], s.payments))
  }

  /** Payments are positive, name receipts that exist, and never take more from one than it holds. */
  ghost predicate ReceiptsInv(s: Shop) {
    && (forall i :: 0 <= i < |s.payments| ==>
          s.payments[i].amount > 0 && s.payments[i].receipt in s.receipts
          && exists k :: 0 <= k < |s.plans| && s.plans[k].id == s.payments[i].plan)
    && (forall r :: r in s.receipts ==> UsedOf(s.payments, r) <= s.receipts[r].amount)
  }

  ghost predicate CollectingInv(s: Shop) {
    PlansInv(s) && ReceiptsInv(s)
  }

  lemma CapacitiesAreNotNegative(p: Plan)
    requires ScheduleInv(p)
    ensures NoneNegative(Capacities(p.dues)) && Sum(Capacities(p.dues)) >= 0
  {
    PrefixesGrow(Capacities(p.dues), 0, |p.dues|);
    assert Capacities(p.dues)[..|p.dues|] == Capacities(p.dues);
  }

  lemma {:induction false} CollectedAppend(a: seq<Payment>, b: seq<Payment>, plan: Id)
    ensures Collected(a + b, plan) == Collected(a, plan) + Collected(b, plan)
  {
    if b == [] {
      assert a + b == a;
    } else {
      assert (a + b)[..|a + b| - 1] == a + b[..|b| - 1];
      CollectedAppend(a, b[..|b| - 1], plan);
    }
  }

  lemma {:induction false} MarkedCollects(plan: Id, receipt: Id, owing: seq<int>, amount: int, other: Id)
    ensures Collected(WholeMarked(plan, receipt, owing, amount), other)
         == if other == plan then amount - WholeLeft(owing, amount) else 0
  {
    if owing != [] {
      var n := |owing| - 1;
      MarkedCollects(plan, receipt, owing[..n], amount, other);
      var before := WholeMarked(plan, receipt, owing[..n], amount);
      var take := WholeTake(owing[n], WholeLeft(owing[..n], amount));
      assert (before + [Payment(plan, n, receipt, take)])[..|before|] == before;
      assert before + [] == before;
    }
  }

  /** What a plan in order still owes, instalment by instalment and in all. */
  lemma OwingIsWhatIsOpen(p: Plan, payments: seq<Payment>)
    requires PlanInv(p, payments)
    ensures NoneNegative(Capacities(p.dues))
    ensures PlanLaws.Open(Capacities(p.dues), Collected(payments, p.id), Owing(p, payments))
    ensures NoneNegative(Owing(p, payments))
    ensures Sum(Owing(p, payments)) == Sum(Capacities(p.dues)) - Collected(payments, p.id)
  {
    var caps, owing, total := Capacities(p.dues), Owing(p, payments), Collected(payments, p.id);
    CapacitiesAreNotNegative(p);
    forall i | 0 <= i < |caps| ensures owing[i] == caps[i] - Filled(caps, total)[i] {
      assert Paid(p, payments)[i] == PaidOn(payments, p.id, i);
    }
    OpenIsNotNegative(caps, total, owing);
    OpenSums(caps, total, owing, |caps|);
    assert owing[..|caps|] == owing && caps[..|caps|] == caps;
  }

  /**
   An active plan, its customer's receipt still standing, room on both, and no part of
   the amount rounding to nothing.
   */
  ghost predicate MayCollect(s: Shop, company: Id, k: nat, receipt: Id, amount: real)
    requires k < |s.plans|
  {
    var p := s.plans[k];
    && amount > 0.0
    && p.company == company && p.status == Active
    && receipt in s.receipts && s.receipts[receipt].customer == p.customer && !s.receipts[receipt].undone
    && amount <= (s.receipts[receipt].amount - UsedOf(s.payments, receipt)) as real
    && amount <= (Sum(Capacities(p.dues)) - Collected(s.payments, p.id)) as real
    && !LeavesACrumb(Owing(p, s.payments), amount)
  }

  /** Exactly when a collection is accepted, of any amount. */
  lemma CollectIsAcceptedIff(s: Shop, company: Id, k: nat, receipt: Id, amount: real)
    requires PlansInv(s) && k < |s.plans|
    ensures AfterCollect(s, company, s.plans[k].id, receipt, amount).Ok? <==> MayCollect(s, company, k, receipt, amount)
  {
    hide Marked, Left, LeavesACrumb, PaidOn, UsedOf, Collected, Sum;
    var p := s.plans[k];
    assert PlanInv(p, s.payments);
    assert PlanIndex(s.plans, p.id) == Some(k);
    OwingIsWhatIsOpen(p, s.payments);
    if amount > 0.0 {
      LeftOfAny(Owing(p, s.payments), amount);
      MarkedUnlessACrumb(p.id, receipt, Owing(p, s.payments), amount);
    }
  }

  /** The shape of an accepted collection: that of the amount rounded, which is not nothing. */
  lemma CollectedShape(s: Shop, company: Id, k: nat, receipt: Id, amount: real)
    requires PlansInv(s) && k < |s.plans| && AfterCollect(s, company, s.plans[k].id, receipt, amount).Ok?
    ensures var p := s.plans[k];
      var marked := WholeMarked(p.id, receipt, Owing(p, s.payments), Round(amount));
      && Round(amount) > 0 && WholeLeft(Owing(p, s.payments), Round(amount)) == 0
      && AfterCollect(s, company, p.id, receipt, amount).value
         == s.(payments := s.payments + marked, plans := s.plans[k := IfClear(p, s.payments + marked)])
  {
    hide Marked, Left, LeavesACrumb, PaidOn, UsedOf, Collected, Sum;
    var p := s.plans[k];
    var owing := Owing(p, s.payments);
    assert PlanIndex(s.plans, p.id) == Some(k);
    CollectIsAcceptedIff(s, company, k, receipt, amount);
    OwingIsWhatIsOpen(p, s.payments);
    LeftOfAny(owing, amount);
    RoundOfLeft(owing, amount);
    MarkedAsRounded(p.id, receipt, owing, amount);
  }

  /** An accepted collection does what collecting the amount its columns hold would have done. */
  lemma CollectingRounds(s: Shop, company: Id, k: nat, receipt: Id, amount: real)
    requires PlansInv(s) && k < |s.plans| && AfterCollect(s, company, s.plans[k].id, receipt, amount).Ok?
    ensures AfterCollect(s, company, s.plans[k].id, receipt, Round(amount) as real)
         == AfterCollect(s, company, s.plans[k].id, receipt, amount)
  {
    hide AfterCollect, Owing, WholeMarked, WholeLeft, UsedOf, Collected, Sum;
    CollectedShape(s, company, k, receipt, amount);
    CollectIsAcceptedIff(s, company, k, receipt, amount);
    RoundStaysWithin(amount, s.receipts[receipt].amount - UsedOf(s.payments, receipt));
    RoundStaysWithin(amount, Sum(Capacities(s.plans[k].dues)) - Collected(s.payments, s.plans[k].id));
    RoundOfWhole(Round(amount));
    CollectIsAcceptedIff(s, company, k, receipt, Round(amount) as real);
    CollectedShape(s, company, k, receipt, Round(amount) as real);
  }

  /** Rounding never carries an amount past a whole one it is within. */
  lemma RoundStaysWithin(amount: real, room: int)
    requires amount <= room as real
    ensures Round(amount) <= room
  {
  }

  /** Exactly when a plan is cancelled, and that nothing but its status changes. */
  lemma CancelIsAcceptedIff(s: Shop, company: Id, k: nat, reason: string)
    requires PlansInv(s) && k < |s.plans|
    ensures AfterCancel(s, company, s.plans[k].id, reason).Ok? <==>
      && (exists i :: 0 <= i < |reason| && !IsSpace(reason[i]))
      && s.plans[k].company == company && s.plans[k].status == Active
    ensures AfterCancel(s, company, s.plans[k].id, reason).Ok? ==>
      AfterCancel(s, company, s.plans[k].id, reason).value
      == s.(plans := s.plans[k := s.plans[k].(status := Cancelled)])
  {
    hide PlanInv, IsSpace;
    assert PlanIndex(s.plans, s.plans[k].id) == Some(k);
  }

  /** The plan collected against stays filled oldest first, and is settled exactly when nothing is left. */
  lemma CollectKeepsThePlan(p: Plan, payments: seq<Payment>, receipt: Id, amount: int)
    requires PlanInv(p, payments) && p.status == Active && amount > 0 && WholeLeft(Owing(p, payments), amount) == 0
    ensures var after := payments + WholeMarked(p.id, receipt, Owing(p, payments), amount);
      && Collected(after, p.id) == Collected(payments, p.id) + amount
      && PlanInv(IfClear(p, after), after)
      && (IfClear(p, after).status == Settled <==> Collected(after, p.id) == Sum(Capacities(p.dues)))
  {
    hide Marked, Filled, Owing, Left, Sum, Collected, PaidOn;
    var owing := Owing(p, payments);
    var after := payments + WholeMarked(p.id, receipt, owing, amount);
    OwingIsWhatIsOpen(p, payments);
    LeftIsTheExcess(owing, amount);
    CollectedAppend(payments, WholeMarked(p.id, receipt, owing, amount), p.id);
    MarkedCollects(p.id, receipt, owing, amount, p.id);
    forall i | 0 <= i < |p.dues|
      ensures Paid(p, after)[i] == Filled(Capacities(p.dues), Collected(payments, p.id) + amount)[i]
    {
      CollectFillsOneMore(p, payments, receipt, amount, i);
    }
    OpenAfter(p, after, Collected(payments, p.id) + amount);
  }

  lemma CollectFillsOneMore(p: Plan, payments: seq<Payment>, receipt: Id, amount: int, i: nat)
    requires PlanInv(p, payments) && amount > 0 && i < |p.dues|
    ensures Paid(p, payments + WholeMarked(p.id, receipt, Owing(p, payments), amount))[i]
         == Filled(Capacities(p.dues), Collected(payments, p.id) + amount)[i]
  {
    hide Marked, Filled, Left, Sum, Collected, PaidOn;
    var owing := Owing(p, payments);
    OwingIsWhatIsOpen(p, payments);
    PaidOnAppend(payments, WholeMarked(p.id, receipt, owing, amount), p.id, i);
    MarkedPays(p.id, receipt, owing, amount, p.id, i);
    TakingKeepsFilling(Capacities(p.dues), Collected(payments, p.id), owing, amount, i);
    assert Paid(p, payments)[i] == Filled(Capacities(p.dues), Collected(payments, p.id))[i];
  }

  lemma OpenAfter(p: Plan, payments: seq<Payment>, total: int)
    requires ScheduleInv(p) && 0 <= total <= Sum(Capacities(p.dues))
    requires forall i :: 0 <= i < |p.dues| ==> Paid(p, payments)[i] == Filled(Capacities(p.dues), total)[i]
    ensures Paid(p, payments) == Filled(Capacities(p.dues), total)
    ensures Sum(Owing(p, payments)) == Sum(Capacities(p.dues)) - total
    ensures Paid(p.(status := Settled), payments) == Paid(p, payments)
  {
    var caps, owing := Capacities(p.dues), Owing(p, payments);
    CapacitiesAreNotNegative(p);
    forall i | 0 <= i < |caps| ensures owing[i] == caps[i] - Filled(caps, total)[i] {
      assert Paid(p, payments)[i] == PaidOn(payments, p.id, i);
    }
    OpenSums(caps, total, owing, |caps|);
    assert owing[..|caps|] == owing && caps[..|caps|] == caps;
  }

  /** Every other plan is untouched. */
  lemma CollectLeavesOtherPlans(q: Plan, payments: seq<Payment>, plan: Id, receipt: Id, owing: seq<int>, amount: int)
    requires PlanInv(q, payments) && q.id != plan
    ensures PlanInv(q, payments + WholeMarked(plan, receipt, owing, amount))
  {
    var marked := WholeMarked(plan, receipt, owing, amount);
    CollectedAppend(payments, marked, q.id);
    MarkedCollects(plan, receipt, owing, amount, q.id);
    forall i | 0 <= i < |q.dues| ensures Paid(q, payments + marked)[i] == Paid(q, payments)[i] {
      PaidOnAppend(payments, marked, q.id, i);
      MarkedPays(plan, receipt, owing, amount, q.id, i);
    }
    assert Paid(q, payments + marked) == Paid(q, payments);
  }

  /**
   One accepted collection writes payments totalling its amount as the column
   holds it, which is its amount exactly when four decimals are enough for it,
   all on its plan and its receipt, and keeps every plan and receipt in order.
   */
  lemma CollectKeepsEverything(s: Shop, company: Id, k: nat, receipt: Id, amount: real)
    requires CollectingInv(s) && k < |s.plans| && AfterCollect(s, company, s.plans[k].id, receipt, amount).Ok?
    ensures var after := AfterCollect(s, company, s.plans[k].id, receipt, amount).value;
      && CollectingInv(after)
      && |after.plans| == |s.plans| && after.plans[k].id == s.plans[k].id && after.plans[k].dues == s.plans[k].dues
      && Collected(after.payments, s.plans[k].id) == Collected(s.payments, s.plans[k].id) + Round(amount)
      && Round(amount) > 0 && (Round(amount) as real == amount <==> IsWhole(amount))
      && UsedOf(after.payments, receipt) == UsedOf(s.payments, receipt) + Round(amount)
      && (forall r :: r != receipt ==> UsedOf(after.payments, r) == UsedOf(s.payments, r))
      && (after.plans[k].status == Settled <==>
            Collected(after.payments, s.plans[k].id) == Sum(Capacities(s.plans[k].dues)))
      && (after.plans[k].status == Active || after.plans[k].status == Settled)
  {
    hide AfterCollect, WholeMarked, Owing, WholeLeft, Sum, Collected, UsedOf, PlanInv;
    hide ReceiptsInv, Capacities, LeavesACrumb, Round, IsWhole;
    var p, m := s.plans[k], Round(amount);
    var owing := Owing(p, s.payments);
    var marked := WholeMarked(p.id, receipt, owing, m);
    var after := AfterCollect(s, company, p.id, receipt, amount).value;
    assert PlanInv(p, s.payments);
    CollectedShape(s, company, k, receipt, amount);
    CollectIsAcceptedIff(s, company, k, receipt, amount);
    CollectKeepsThePlan(p, s.payments, receipt, m);
    forall i | 0 <= i < |after.plans| ensures PlanInv(after.plans[i], after.payments) {
      if i != k {
        assert PlanInv(s.plans[i], s.payments);
        CollectLeavesOtherPlans(s.plans[i], s.payments, p.id, receipt, owing, m);
      }
    }
    UsedAfter(s.payments, p.id, receipt, owing, m);
    MarkedUses(p.id, receipt, owing, m, receipt);
    RoundIsItselfIff(amount);
    RoundStaysWithin(amount, s.receipts[receipt].amount - UsedOf(s.payments, receipt));
    ReceiptsStayWithin(s, receipt, after.payments, m);
    PaymentsStayInOrder(s, after, marked, k);
  }

  lemma UsedAfter(payments: seq<Payment>, plan: Id, receipt: Id, owing: seq<int>, amount: int)
    requires WholeLeft(owing, amount) == 0
    ensures forall r ::
      UsedOf(payments + WholeMarked(plan, receipt, owing, amount), r)
        == UsedOf(payments, r) + if r == receipt then amount else 0
  {
    forall r ensures UsedOf(payments + WholeMarked(plan, receipt, owing, amount), r)
         == UsedOf(payments, r) + if r == receipt then amount else 0
    {
      UsedOfAppend(payments, WholeMarked(plan, receipt, owing, amount), r);
      MarkedUses(plan, receipt, owing, amount, r);
    }
  }

  lemma ReceiptsStayWithin(s: Shop, receipt: Id, payments: seq<Payment>, amount: int)
    requires ReceiptsInv(s) && receipt in s.receipts
    requires amount <= s.receipts[receipt].amount - UsedOf(s.payments, receipt)
    requires forall r :: UsedOf(payments, r) == UsedOf(s.payments, r) + if r == receipt then amount else 0
    ensures forall r :: r in s.receipts ==> UsedOf(payments, r) <= s.receipts[r].amount
  {
  }

  lemma PaymentsStayInOrder(s: Shop, after: Shop, marked: seq<Payment>, k: nat)
    requires ReceiptsInv(s) && k < |s.plans| && after.payments == s.payments + marked
    requires after.receipts == s.receipts && |after.plans| == |s.plans|
    requires forall i :: 0 <= i < |s.plans| ==> after.plans[i].id == s.plans[i].id
    requires forall p :: p in marked ==> p.plan == s.plans[k].id && p.receipt in s.receipts && p.amount > 0
    requires forall r :: r in after.receipts ==> UsedOf(after.payments, r) <= after.receipts[r].amount
    ensures ReceiptsInv(after)
  {
    forall i | 0 <= i < |after.payments|
      ensures after.payments[i].amount > 0 && after.payments[i].receipt in after.receipts
      ensures exists m :: 0 <= m < |after.plans| && after.plans[m].id == after.payments[i].plan
    {
      if i < |s.payments| {
        assert after.payments[i] == s.payments[i];
        var m :| 0 <= m < |s.plans| && s.plans[m].id == s.payments[i].plan;
        assert after.plans[m].id == after.payments[i].plan;
      } else {
        assert after.payments[i] in marked;
        assert after.plans[k].id == after.payments[i].plan;
      }
    }
  }

  /** What is paid follows from what has been collected alone. */
  lemma SameTotalSamePaid(p: Plan, payments: seq<Payment>, q: Plan, others: seq<Payment>)
    requires PlanInv(p, payments) && PlanInv(q, others)
    requires p.dues == q.dues && Collected(payments, p.id) == Collected(others, q.id)
    ensures Paid(p, payments) == Paid(q, others)
  {
  }

  /**
   Collecting a and then b leaves what collecting a + b leaves (the same
   instalments paid, the same receipts used, the same status) exactly when
   rounding the two apart comes to rounding them together.
   */
  lemma CollectingTwiceIsCollectingOnceIff(s: Shop, company: Id, k: nat, receipt: Id, a: real, b: real)
    requires CollectingInv(s) && k < |s.plans|
    requires AfterCollect(s, company, s.plans[k].id, receipt, a + b).Ok?
    requires AfterCollect(s, company, s.plans[k].id, receipt, a).Ok?
    requires var first := AfterCollect(s, company, s.plans[k].id, receipt, a).value;
      AfterCollect(first, company, s.plans[k].id, receipt, b).Ok?
    ensures var id := s.plans[k].id;
      var (once, first) := (AfterCollect(s, company, id, receipt, a + b).value,
                            AfterCollect(s, company, id, receipt, a).value);
      var twice := AfterCollect(first, company, id, receipt, b).value;
      && |twice.plans| == |once.plans| == |s.plans|
      && (Round(a) + Round(b) == Round(a + b) <==> SameCollected(twice, once, k))
  {
    hide AfterCollect, Sum, Collected, UsedOf, PlanInv, ReceiptsInv, Capacities, PaidOn;
    hide Filled, Owing, Round, LeavesACrumb;
    var id := s.plans[k].id;
    var first := AfterCollect(s, company, id, receipt, a).value;
    CollectKeepsEverything(s, company, k, receipt, a);
    CollectKeepsEverything(first, company, k, receipt, b);
    CollectKeepsEverything(s, company, k, receipt, a + b);
    var once := AfterCollect(s, company, id, receipt, a + b).value;
    var twice := AfterCollect(first, company, id, receipt, b).value;
    if Round(a) + Round(b) == Round(a + b) {
      SameTotalSamePaid(twice.plans[k], twice.payments, once.plans[k], once.payments);
    }
  }

  /** Two shops in which the same has been collected on a plan and from every receipt, to the same effect. */
  ghost predicate SameCollected(a: Shop, b: Shop, k: nat)
    requires k < |a.plans| && k < |b.plans|
  {
    && a.plans[k].status == b.plans[k].status
    && Paid(a.plans[k], a.payments) == Paid(b.plans[k], b.payments)
    && forall r :: UsedOf(a.payments, r) == UsedOf(b.payments, r)
  }

  /** Exactly when a and then b are both accepted, in terms of the shop before either. */
  lemma CollectingTwiceIsAcceptedIff(s: Shop, company: Id, k: nat, receipt: Id, a: real, b: real)
    requires CollectingInv(s) && k < |s.plans|
    ensures var p := s.plans[k];
      var (first, owing) := (AfterCollect(s, company, p.id, receipt, a), Owing(p, s.payments));
      first.Ok? && AfterCollect(first.value, company, p.id, receipt, b).Ok? <==>
        && MayCollect(s, company, k, receipt, a) && b > 0.0
        && b <= (s.receipts[receipt].amount - UsedOf(s.payments, receipt) - Round(a)) as real
        && b <= (Sum(Capacities(p.dues)) - Collected(s.payments, p.id) - Round(a)) as real
        && !LeavesACrumb(StillOwing(owing, Round(a)), b)
  {
    hide AfterCollect, Sum, Collected, UsedOf, PlanInv, ReceiptsInv, Capacities, PaidOn;
    hide Filled, Owing, Round, LeavesACrumb, StillOwing;
    var p := s.plans[k];
    CollectIsAcceptedIff(s, company, k, receipt, a);
    if AfterCollect(s, company, p.id, receipt, a).Ok? {
      var first := AfterCollect(s, company, p.id, receipt, a).value;
      CollectKeepsEverything(s, company, k, receipt, a);
      CollectedShape(s, company, k, receipt, a);
      OwingAfter(p, s.payments, receipt, Round(a), first.plans[k]);
      CollectIsAcceptedIff(first, company, k, receipt, b);
      RoundStaysWithin(a, Sum(Capacities(p.dues)) - Collected(s.payments, p.id));
    }
  }

  /** What is still owed once a whole amount has been offered oldest first. */
  function StillOwing(owing: seq<int>, amount: int): (r: seq<int>)
    ensures |r| == |owing|
  {
    seq(|owing|, i requires 0 <= i < |owing| => owing[i] - WholeTake(owing[i], WholeLeft(owing[..i], amount)))
  }

  lemma OwingAfter(p: Plan, payments: seq<Payment>, receipt: Id, amount: int, q: Plan)
    requires q.id == p.id && q.dues == p.dues
    ensures Owing(q, payments + WholeMarked(p.id, receipt, Owing(p, payments), amount))
      == StillOwing(Owing(p, payments), amount)
  {
    var owing := Owing(p, payments);
    var marked := WholeMarked(p.id, receipt, owing, amount);
    forall i | 0 <= i < |owing| ensures Owing(q, payments + marked)[i] == StillOwing(owing, amount)[i] {
      PaidOnAppend(payments, marked, p.id, i);
      MarkedPays(p.id, receipt, owing, amount, p.id, i);
    }
  }

  /**
   So in amounts of four decimals collecting a and then b is collecting a + b: the
   one is accepted exactly when the other is, and they leave the same.
   */
  lemma CollectingTwiceIsCollectingOnce(s: Shop, company: Id, k: nat, receipt: Id, a: real, b: real)
    requires CollectingInv(s) && k < |s.plans| && a > 0.0 && b > 0.0 && IsWhole(a) && IsWhole(b)
    ensures var id := s.plans[k].id;
      var (first, once) := (AfterCollect(s, company, id, receipt, a), AfterCollect(s, company, id, receipt, a + b));
      && (once.Ok? <==> first.Ok? && AfterCollect(first.value, company, id, receipt, b).Ok?)
      && (once.Ok? ==>
            var twice := AfterCollect(first.value, company, id, receipt, b).value;
            |twice.plans| == |once.value.plans| == |s.plans| && SameCollected(twice, once.value, k))
  {
    hide AfterCollect, Sum, Collected, UsedOf, PlanInv, ReceiptsInv, Capacities, PaidOn;
    hide Filled, Owing, StillOwing, SameCollected;
    RoundOfWhole(a.Floor);
    RoundOfWhole(b.Floor);
    RoundOfWhole(a.Floor + b.Floor);
    CollectIsAcceptedIff(s, company, k, receipt, a);
    CollectIsAcceptedIff(s, company, k, receipt, a + b);
    CollectingTwiceIsAcceptedIff(s, company, k, receipt, a, b);
    if AfterCollect(s, company, s.plans[k].id, receipt, a + b).Ok? {
      CollectingTwiceIsCollectingOnceIff(s, company, k, receipt, a, b);
    }
  }

  /** One active plan of one instalment of 100, and one receipt of 100 from its customer. */
  function OnePlanShop(): Shop {
    Shop(Register(Books(Chart([], map[], map[]), [], map[]), map[], [], map[]), [], map[], map[],
         map[1 := CustomerReceipt(1, 1000000, false)],
         [Plan(1, 1, 1, 1, Active, 0, 1, "SAR", [Due(0, 1000000, 0)])], [])
  }

  lemma OnePlanShopIsInOrder()
    ensures CollectingInv(OnePlanShop())
    ensures Capacities(OnePlanShop().plans[0].dues) == [1000000] && Owing(OnePlanShop().plans[0], []) == [1000000]
    ensures Sum([1000000]) == 1000000 && Sum([]) == 0
  {
    var p := OnePlanShop().plans[0];
    assert Capacities(p.dues) == [1000000];
    assert [1000000][..1] == [1000000] && [1000000][..0] == [];
    assert Sum([1000000]) == Sum([]) + 1000000;
    assert Paid(p, []) == [0] == Filled([1000000], 0);
  }

  /** With room for it, anything from half a ten-thousandth up is collected. */
  lemma CollectedInTheShop(s: Shop, amount: real)
    requires CollectingInv(s) && s.receipts == OnePlanShop().receipts && |s.plans| == 1
    requires s.plans[0] == OnePlanShop().plans[0]
    requires Collected(s.payments, 1) == UsedOf(s.payments, 1)
    requires Owing(s.plans[0], s.payments) == [1000000 - UsedOf(s.payments, 1)]
    requires 0.5 <= amount <= (1000000 - UsedOf(s.payments, 1)) as real
    ensures AfterCollect(s, 1, 1, 1, amount).Ok?
  {
    hide AfterCollect, Collected, UsedOf;
    OnePlanShopIsInOrder();
    CollectIsAcceptedIff(s, 1, 0, 1, amount);
    assert forall k :: 0 <= k < 1 ==> Owing(s.plans[0], s.payments)[..k] == [];
  }

  /**
   Amounts of more than four decimals pass every guard and are then rounded as they
   are written, one payment at a time: 0.00004 is refused by the table, 50.00006
   collects 50.0001, and 0.00006 collected twice is not 0.00012 collected once.
   */
  lemma FinerCollectionsPart()
    ensures var s := OnePlanShop();
      && AfterCollect(s, 1, 1, 1, 0.4) == Err(CheckViolated)
      && AfterCollect(s, 1, 1, 1, 500000.6).Ok?
      && UsedOf(AfterCollect(s, 1, 1, 1, 500000.6).value.payments, 1) == 500001
      && AfterCollect(s, 1, 1, 1, 1.2).Ok? && UsedOf(AfterCollect(s, 1, 1, 1, 1.2).value.payments, 1) == 1
      && AfterCollect(s, 1, 1, 1, 0.6).Ok?
      && var first := AfterCollect(s, 1, 1, 1, 0.6).value;
      && AfterCollect(first, 1, 1, 1, 0.6).Ok? && UsedOf(AfterCollect(first, 1, 1, 1, 0.6).value.payments, 1) == 2
  {
    hide AfterCollect, CollectingInv, PlanInv, Owing, Capacities;
    var s := OnePlanShop();
    OnePlanShopIsInOrder();
    CollectedInTheShop(s, 500000.6);
    CollectedInTheShop(s, 1.2);
    CollectedInTheShop(s, 0.6);
    CollectKeepsEverything(s, 1, 0, 1, 500000.6);
    CollectKeepsEverything(s, 1, 0, 1, 1.2);
    CollectKeepsEverything(s, 1, 0, 1, 0.6);
    TooLittleIsRefused(s);
    var first := AfterCollect(s, 1, 1, 1, 0.6).value;
    CollectedShape(s, 1, 0, 1, 0.6);
    OwingAfter(s.plans[0], s.payments, 1, 1, first.plans[0]);
    assert first.plans[0] == s.plans[0];
    CollectedInTheShop(first, 0.6);
    CollectKeepsEverything(first, 1, 0, 1, 0.6);
  }

  lemma TooLittleIsRefused(s: Shop)
    requires s == OnePlanShop()
    ensures AfterCollect(s, 1, 1, 1, 0.4) == Err(CheckViolated)
  {
    OnePlanShopIsInOrder();
    assert [1000000][..0] == [];
    assert PlanIndex(s.plans, 1) == Some(0);
    assert Left([], 0.4) == 0.4 && Take(1000000, 0.4) == 0.4 && Round(0.4) == 0;
    assert Marked(1, 1, [1000000], 0.4) == Err(CheckViolated);
  }
}
