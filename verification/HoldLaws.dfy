/** What orders hold over whole runs of reservations, releases, sweeps, bookings and deliveries. */
module HoldLaws {
  import opened Wrappers
  import opened Rounding
  import opened Posting
  import opened Holds
  import opened Deliveries

  /** A call after which an order holds nothing: its release, a sweep that finds it lapsed, its delivery or return. */
  ghost predicate LetsAllGo(d: Depot, step: Step, order: Id) {
    match step
    case ReleaseOrder(_, released) => released == order
    case Sweep(company, now) => HasLapsed(d.holds, company, order, now)
    case Move(company, id, a, now) =>
      && AfterAdvance(d, company, id, a, now).Ok? && (a.status == Delivered || a.status == Returned)
      && exists k :: ConsignmentIndex(d.consignments, id) == Some(k) && d.consignments[k].order == order
    case _ => false
  }

  /** A call that reserves an item for an order: half a ten-thousandth or more, and no more than nobody holds. */
  ghost predicate Reserves(d: Depot, step: Step, order: Id, item: Item) {
    && step.Reserve? && step.order == order && step.item == item
    && 0.5 <= step.qty <= (step.onHand - ReservedOf(d.holds, item)) as real
  }

  lemma StepHolds(d: Depot, step: Step, order: Id, item: Item)
    requires DepotInv(d) && ((step.Book? || step.Move?) ==> d.clock <= step.now)
    ensures NetOf(After(d, step).holds, order, item)
         == if LetsAllGo(d, step, order) then 0
            else NetOf(d.holds, order, item) + if Reserves(d, step, order, item) then Round(step.qty) else 0
  {
    hide ConsignmentInv, AfterAdvance, AfterBooking, AfterReserve, AfterRelease, AfterExpiry;
    hide NetOf, HoldsInv, HasLapsed, LetsGo, StepTaken;
    match step
    case Book(company, asked, id, now) =>
      if AfterBooking(d, company, asked, id, now).Ok? { BookingKeeps(d, company, asked, id, now); }
    case Move(company, id, a, now) =>
      if AfterAdvance(d, company, id, a, now).Ok? { AdvanceKeepsTheDepot(d, company, id, a, now); }
    case Reserve(company, reserved, of, qty, expires, onHand) =>
      ReserveIsAcceptedIff(d.holds, onHand, company, reserved, of, qty, expires);
      if AfterReserve(d.holds, onHand, company, reserved, of, qty, expires).Ok? {
        ReserveKeepsTheLedger(d.holds, onHand, company, reserved, of, qty, expires);
      }
    case ReleaseOrder(company, released) => ReleaseLetsGoOfEverything(d.holds, company, released, Released);
    case Sweep(company, now) => ExpiryFreesLapsedOrders(d.holds, company, now);
    case _ =>
  }

  /** What an order is promised of an item by the end of a run, given what it holds at the start. */
  ghost function Promised(d: Depot, steps: seq<Step>, order: Id, item: Item, held: int): int
    decreases |steps|
  {
    if steps == [] then held
    else
      var next :=
        if LetsAllGo(d, steps[0], order) then 0
        else if Reserves(d, steps[0], order, item) then held + Round(steps[0].qty)
        else held;
      Promised(After(d, steps[0]), steps[1..], order, item, next)
  }

  /**
   After any run an order holds of an item what was reserved for it since it last
   let go, each to the nearest ten-thousandth, and no other call moves it.
   */
  lemma {:induction false} OrdersHoldWhatTheyWerePromised(d: Depot, steps: seq<Step>, order: Id, item: Item)
    requires DepotInv(d) && InTime(d, steps)
    ensures NetOf(Run(d, steps).holds, order, item) == Promised(d, steps, order, item, NetOf(d.holds, order, item))
    decreases |steps|
  {
    hide After, DepotInv, LetsAllGo, Reserves, NetOf;
    if steps != [] {
      StepHolds(d, steps[0], order, item);
      StepKeeps(d, steps[0]);
      OrdersHoldWhatTheyWerePromised(After(d, steps[0]), steps[1..], order, item);
    }
  }
}
