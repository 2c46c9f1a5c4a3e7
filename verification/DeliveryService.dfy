/**
 Holds and consignments as the program runs them: rows appended in loops and
 consignments updated in place, each method proved to do what Holds and
 Deliveries say.
 */
module DeliveryService {
  import opened Wrappers
  import opened Refusals
  import opened Rounding
  import opened Posting
  import opened Journals
  import opened Holds
  import opened Deliveries

  /** `canAdvance`: a walk along the statuses that may follow. */
  method MayFollow(from: Status, to: Status) returns (ok: bool)
    ensures ok <==> CanAdvance(from, to)
  {
    var next := Flow(from);
    var i := 0;
    while i < |next|
      invariant 0 <= i <= |next|
      invariant to !in next[..i]
    {
      if next[i] == to {
        return true;
      }
      i := i + 1;
    }
    ok := false;
  }

  /** The row one step leaves behind. */
  method Progress(c: Consignment, a: Advance, driver: Option<Id>, now: int) returns (after: Consignment)
    ensures after == Advanced(c, a, driver, now)
  {
    after := c.(status := a.status, driver := driver, failureReason := None);
    match a.status {
      case Assigned => after := after.(assignedAt := Some(now));
      case PickedUp => after := after.(pickedUpAt := Some(now));
      case Delivered =>
        after := after.(deliveredAt := Some(now));
        if c.isCod && a.collectedCod {
          after := after.(codCollectedAt := Some(now));
        }
      case Failed => after := after.(failureReason := Some(a.note));
      case _ =>
    }
    if a.status == Failed || a.status == OutForDelivery {
      after := after.(attempts := after.attempts + 1);
    }
    after := after.(events := after.events + [a.status]);
  }

  class DeliveryDesk {
    var orders: map<Id, SalesOrder>
    var staff: set<Id>
    var consignments: seq<Consignment>
    var holds: seq<Hold>
    var clock: int

    constructor ()
      ensures orders == map[] && staff == {} && consignments == [] && holds == [] && clock == 0
    {
      orders, staff, consignments, holds, clock := map[], {}, [], [], 0;
    }

    function State(): Depot
      reads this
    {
      Depot(orders, staff, consignments, holds, clock)
    }

    // -------------------------------------------------------------------
    // Holds
    // -------------------------------------------------------------------

    /** `Reserve`, alone under its lock. */
    method Reserve(onHand: int, company: Id, order: Id, item: Item, qty: real, expires: Option<int>)
      returns (r: Result<(), Refusal>)
      modifies this`holds
      ensures match AfterReserve(old(holds), onHand, company, order, item, qty, expires)
        case Err(why) => r == Err(why) && holds == old(holds)
        case Ok(after) => r == Ok(()) && holds == after
    {
      if qty <= 0.0 {
        return Err(NothingToHold);
      }
      var available := onHand - ReservedOf(holds, item);
      if (available as real) < qty {
        return Err(NotEnoughFree);
      }
      if Round(qty) <= 0 {
        return Err(CheckViolated);
      }
      holds := holds + [Hold(company, item, Round(qty), Held, order, expires)];
      r := Ok(());
    }

    /** `releaseOrderHolds`: first what is still held, then a row for each. */
    method ReleaseOrderHolds(company: Id, order: Id, reason: Reason)
      modifies this`holds
      ensures holds == AfterRelease(old(holds), company, order, reason)
    {
      hide NetOf, ItemsOf;
      var before := holds;
      var items := ItemsOf(before, order);
      var i := 0;
      while i < |items|
        invariant 0 <= i <= |items|
        invariant holds == before + LettingGo(before, company, order, reason, items[..i])
      {
        assert items[..i + 1][..i] == items[..i];
        var net := NetOf(before, order, items[i]);
        if net > 0 {
          holds := holds + [Hold(company, items[i], -net, reason, order, None)];
        }
        i := i + 1;
      }
      assert items[..i] == items;
    }

    /** `ReleaseOrder`. */
    method ReleaseOrder(company: Id, order: Id)
      modifies this`holds
      ensures holds == AfterRelease(old(holds), company, order, Released)
    {
      ReleaseOrderHolds(company, order, Released);
    }

    /** `ExpireHolds`. */
    method ExpireHolds(company: Id, now: int) returns (freed: nat)
      modifies this`holds
      ensures (holds, freed) == AfterExpiry(old(holds), company, now)
    {
      hide ItemsOf, LettingGo, AfterRelease, Lapsed;
      var lapsed := LapsedOrders(holds, company, now);
      freed := 0;
      var i := 0;
      while i < |lapsed|
        invariant 0 <= i <= |lapsed| && freed == i
        invariant holds == AfterReleases(old(holds), company, lapsed[..i])
      {
        assert lapsed[..i + 1][..i] == lapsed[..i];
        ReleaseOrderHolds(company, lapsed[i], Released);
        freed := freed + 1;
        i := i + 1;
      }
      assert lapsed[..i] == lapsed;
    }

    // -------------------------------------------------------------------
    // Consignments
    // -------------------------------------------------------------------

    /** `BookDelivery`. */
    method BookDelivery(company: Id, asked: NewDelivery, id: Id, now: int) returns (r: Result<(), Refusal>)
      modifies this
      ensures match AfterBooking(old(State()), company, asked, id, now)
        case Err(why) => r == Err(why) && State() == old(State())
        case Ok(after) => r == Ok(()) && State() == after
    {
      if Blank(asked.address) {
        return Err(NoAddress);
      }
      if asked.fee < 0.0 || asked.codAmount < 0.0 {
        return Err(NegativeFee);
      }
      if !asked.isCod && asked.codAmount > 0.0 {
        return Err(CodWithoutCod);
      }
      if asked.order !in orders || orders[asked.order].company != company {
        return Err(OrderNotFound);
      }
      if orders[asked.order].state == Quotation || orders[asked.order].state == OrderCancelled {
        return Err(NothingToDeliver);
      }
      if asked.driver.Some? && asked.driver.value !in staff {
        return Err(NoSuchDriver);
      }
      var status := Pending;
      var assignedAt := None;
      if asked.driver.Some? {
        status := Assigned;
        assignedAt := Some(now);
      }
      var c := Consignment(id, company, asked.order, status, asked.driver, asked.isCod, Round(asked.codAmount),
                           assignedAt, None, None, None, None, 0, []);
      c := c.(events := c.events + [status]);
      assert c == Booked(company, asked, id, now);
      if !RowAllowed(c) {
        return Err(CheckViolated);
      }
      consignments := consignments + [c];
      clock := now;
      r := Ok(());
    }

    /** `AdvanceDelivery`. */
    method AdvanceDelivery(company: Id, id: Id, a: Advance, now: int) returns (r: Result<(), Refusal>)
      modifies this
      ensures match AfterAdvance(old(State()), company, id, a, now)
        case Err(why) => r == Err(why) && State() == old(State())
        case Ok(after) => r == Ok(()) && State() == after
    {
      hide Advanced, RowAllowed, Blank;
      hide ItemsOf, LettingGo, AfterRelease;
      var found := ConsignmentIndex(consignments, id);
      if found.None? {
        return Err(DeliveryNotFound);
      }
      var k := found.value;
      var c := consignments[k];
      if c.company != company {
        return Err(DeliveryNotFound);
      }
      var allowed := MayFollow(c.status, a.status);
      if !allowed {
        return Err(CannotAdvance);
      }
      if a.status == Failed && Blank(a.note) {
        return Err(NoFailureReason);
      }
      var driver := c.driver;
      if a.driver.Some? {
        if a.driver.value !in staff {
          return Err(NoSuchDriver);
        }
        driver := a.driver;
      }
      if a.status == Assigned && driver.None? {
        return Err(NoDriver);
      }

      var after := Progress(c, a, driver, now);
      if !RowAllowed(after) {
        return Err(CheckViolated);
      }
      consignments := consignments[k := after];
      clock := now;
      if a.status == Delivered {
        ReleaseOrderHolds(c.company, c.order, Consumed);
      }
      if a.status == Returned {
        ReleaseOrderHolds(c.company, c.order, Released);
      }
      r := Ok(());
    }
  }
}
