/** Consignments: booking, advancing, and what their history proves (backend/internal/aftersales/delivery.go). */
module Deliveries {
  import opened Wrappers
  import opened Refusals
  import opened Rounding
  import opened Posting
  import opened Journals
  import opened Holds

  /** `Unknown` is whatever else a caller writes. */
  datatype Status =
    | Pending | Assigned | PickedUp | OutForDelivery | Delivered | Failed | Returned | Unknown(text: string)

  datatype OrderState = Quotation | OrderCancelled | Committed

  datatype SalesOrder = SalesOrder(company: Id, state: OrderState)

  datatype Consignment = Consignment(
    id: Id, company: Id, order: Id, status: Status, driver: Option<Id>, isCod: bool, codAmount: int,
    assignedAt: Option<int>, pickedUpAt: Option<int>, deliveredAt: Option<int>, codCollectedAt: Option<int>,
    failureReason: Option<string>, attempts: nat, events: seq<Status>)

  datatype NewDelivery = NewDelivery(
    order: Id, address: string, fee: real, isCod: bool, codAmount: real, driver: Option<Id>)

  datatype Advance = Advance(status: Status, note: string, driver: Option<Id>, collectedCod: bool)

  /** `staff`: users who are not disabled. `clock`: when the last write was. */
  datatype Depot = Depot(
    orders: map<Id, SalesOrder>, staff: set<Id>, consignments: seq<Consignment>, holds: seq<Hold>, clock: int)

  /** `deliveryFlow`. */
  function Flow(from: Status): seq<Status> {
    match from
    case Pending => [Assigned, Returned]
    case Assigned => [PickedUp, Failed, Returned]
    case PickedUp => [OutForDelivery, Failed, Returned]
    case OutForDelivery => [Delivered, Failed]
    case Failed => [Assigned, Returned]
    case Delivered => []
    case Returned => []
    case Unknown(_) => []
  }

  predicate CanAdvance(from: Status, to: Status) {
    to in Flow(from)
  }

  function ConsignmentIndex(consignments: seq<Consignment>, id: Id): (r: Option<nat>)
    ensures r.Some? ==> r.value < |consignments| && consignments[r.value].id == id
    ensures r.None? ==> forall i :: 0 <= i < |consignments| ==> consignments[i].id != id
  {
    FirstWhere(consignments, (c: Consignment) => c.id == id)
  }

  /** The CHECK constraints of a delivery row. */
  predicate RowAllowed(c: Consignment) {
    && (c.status == Failed ==> c.failureReason.Some? && !Blank(c.failureReason.value))
    && (c.status != Pending && c.status != Returned ==> c.driver.Some?)
    && c.codAmount >= 0 && (c.isCod || c.codAmount == 0)
    && !c.status.Unknown?
  }

  // ---------------------------------------------------------------------
  // Booking and advancing
  // ---------------------------------------------------------------------

  function Booked(company: Id, asked: NewDelivery, id: Id, now: int): Consignment {
    var status := if asked.driver.Some? then Assigned else Pending;
    Consignment(id, company, asked.order, status, asked.driver, asked.isCod, Round(asked.codAmount),
                if asked.driver.Some? then Some(now) else None, None, None, None, None, 0, [status])
  }

  /** `BookDelivery`. */
  function AfterBooking(d: Depot, company: Id, asked: NewDelivery, id: Id, now: int): Result<Depot, Refusal> {
    if Blank(asked.address) then Err(NoAddress)
    else if asked.fee < 0.0 || asked.codAmount < 0.0 then Err(NegativeFee)
    else if !asked.isCod && asked.codAmount > 0.0 then Err(CodWithoutCod)
    else if asked.order !in d.orders || d.orders[asked.order].company != company then Err(OrderNotFound)
    else if d.orders[asked.order].state != Committed then Err(NothingToDeliver)
    else if asked.driver.Some? && asked.driver.value !in d.staff then Err(NoSuchDriver)
    else if !RowAllowed(Booked(company, asked, id, now)) then Err(CheckViolated)
    else Ok(d.(consignments := d.consignments + [Booked(company, asked, id, now)], clock := now))
  }

  /** The row after one step: timestamps kept unless set, the failure reason only while it has failed. */
  function Advanced(c: Consignment, a: Advance, driver: Option<Id>, now: int): Consignment {
    c.(status := a.status,
       driver := driver,
       assignedAt := if a.status == Assigned then Some(now) else c.assignedAt,
       pickedUpAt := if a.status == PickedUp then Some(now) else c.pickedUpAt,
       deliveredAt := if a.status == Delivered then Some(now) else c.deliveredAt,
       codCollectedAt := if a.status == Delivered && c.isCod && a.collectedCod then Some(now) else c.codCollectedAt,
       failureReason := if a.status == Failed then Some(a.note) else None,
       attempts := c.attempts + if a.status == Failed || a.status == OutForDelivery then 1 else 0,
       events := c.events + [a.status])
  }

  /** Delivered goods consume their order's holds; returned ones release them. */
  function HoldsAfter(holds: seq<Hold>, c: Consignment, status: Status): seq<Hold> {
    if status == Delivered then AfterRelease(holds, c.company, c.order, Consumed)
    else if status == Returned then AfterRelease(holds, c.company, c.order, Released)
    else holds
  }

  /** `AdvanceDelivery`. */
  function AfterAdvance(d: Depot, company: Id, id: Id, a: Advance, now: int): Result<Depot, Refusal> {
    match ConsignmentIndex(d.consignments, id)
    case None => Err(DeliveryNotFound)
    case Some(k) =>
      var c := d.consignments[k];
      if c.company != company then Err(DeliveryNotFound)
      else if !CanAdvance(c.status, a.status) then Err(CannotAdvance)
      else if a.status == Failed && Blank(a.note) then Err(NoFailureReason)
      else if a.driver.Some? && a.driver.value !in d.staff then Err(NoSuchDriver)
      else
        var driver := if a.driver.Some? then a.driver else c.driver;
        if a.status == Assigned && driver.None? then Err(NoDriver)
        else if !RowAllowed(Advanced(c, a, driver, now)) then Err(CheckViolated)
        else Ok(d.(consignments := d.consignments[k := Advanced(c, a, driver, now)],
                   holds := HoldsAfter(d.holds, c, a.status), clock := now))
  }

  // ---------------------------------------------------------------------
  // What every consignment keeps
  // ---------------------------------------------------------------------

  /** A history starts where booking starts, and every step is one the flow allows. */
  ghost predicate IsPath(events: seq<Status>) {
    && events != [] && (events[0] == Pending || events[0] == Assigned)
    && forall i :: 0 < i < |events| ==> CanAdvance(events[i - 1], events[i])
  }

  function CountOf(events: seq<Status>, status: Status): nat {
    if events == [] then 0
    else CountOf(events[..|events| - 1], status) + if events[|events| - 1] == status then 1 else 0
  }

  /** While it is on its way, and once it is there, it was picked up no earlier than last assigned. */
  ghost predicate TimesInOrder(c: Consignment, clock: int) {
    && (c.status == Assigned ==> c.assignedAt.Some? && c.assignedAt.value <= clock)
    && (c.status == PickedUp || c.status == OutForDelivery || c.status == Delivered ==>
          c.assignedAt.Some? && c.pickedUpAt.Some? && c.assignedAt.value <= c.pickedUpAt.value <= clock)
    && (c.status == Delivered ==> c.deliveredAt.Some? && c.pickedUpAt.value <= c.deliveredAt.value <= clock)
  }

  ghost predicate ConsignmentInv(c: Consignment, clock: int) {
    && IsPath(c.events) && c.events[|c.events| - 1] == c.status
    && c.attempts == CountOf(c.events, OutForDelivery) + CountOf(c.events, Failed)
    && RowAllowed(c)
    && (c.failureReason.Some? <==> c.status == Failed)
    && (c.codCollectedAt.Some? ==> c.isCod && c.status == Delivered && c.codCollectedAt == c.deliveredAt)
    && TimesInOrder(c, clock)
  }

  ghost predicate DepotInv(d: Depot) {
    && HoldsInv(d.holds)
    && (forall i :: 0 <= i < |d.consignments| ==> ConsignmentInv(d.consignments[i], d.clock))
  }

  /** The flow read from its ends: what each status can be reached from. */
  lemma WaysInto(from: Status, to: Status)
    ensures CanAdvance(from, to) <==>
      match to
      case Assigned => from == Pending || from == Failed
      case PickedUp => from == Assigned
      case OutForDelivery => from == PickedUp
      case Delivered => from == OutForDelivery
      case Failed => from == Assigned || from == PickedUp || from == OutForDelivery
      case Returned => from == Pending || from == Assigned || from == PickedUp || from == Failed
      case _ => false
  {
  }

  lemma LaterClocksKeepTimes(c: Consignment, clock: int, now: int)
    requires ConsignmentInv(c, clock) && clock <= now
    ensures ConsignmentInv(c, now)
  {
  }

  /** One step the flow allows keeps a consignment in order; the table's checks have nothing left to refuse. */
  lemma AdvancingKeeps(c: Consignment, a: Advance, driver: Option<Id>, clock: int, now: int)
    requires ConsignmentInv(c, clock) && clock <= now && CanAdvance(c.status, a.status)
    requires a.status == Failed ==> !Blank(a.note)
    requires a.status == Assigned ==> driver.Some?
    requires c.driver.Some? ==> driver.Some?
    ensures ConsignmentInv(Advanced(c, a, driver, now), now)
  {
  }

  /** Exactly when a booking is accepted. */
  lemma BookingIsAcceptedIff(d: Depot, company: Id, asked: NewDelivery, id: Id, now: int)
    ensures AfterBooking(d, company, asked, id, now).Ok? <==>
      && (exists i :: 0 <= i < |asked.address| && !IsSpace(asked.address[i]))
      && asked.fee >= 0.0 && asked.codAmount >= 0.0 && (asked.isCod || asked.codAmount == 0.0)
      && asked.order in d.orders && d.orders[asked.order] == SalesOrder(company, Committed)
      && (asked.driver != None ==> asked.driver.value in d.staff)
  {
    hide IsSpace;
  }

  /** What a booking adds: one consignment as it was asked for, with its driver where one is named, and nothing else. */
  lemma BookingKeeps(d: Depot, company: Id, asked: NewDelivery, id: Id, now: int)
    requires DepotInv(d) && d.clock <= now && AfterBooking(d, company, asked, id, now).Ok?
    ensures var after := AfterBooking(d, company, asked, id, now).value;
      && DepotInv(after) && after.holds == d.holds && after.orders == d.orders && after.staff == d.staff
      && after.clock == now
      && |after.consignments| == |d.consignments| + 1 && after.consignments[..|d.consignments|] == d.consignments
      && var c := after.consignments[|d.consignments|];
      && c.id == id && c.company == company && c.order == asked.order && c.driver == asked.driver
      && c.isCod == asked.isCod && NearestTo(c.codAmount, asked.codAmount)
      && c.status == (if asked.driver == None then Pending else Assigned) && c.events == [c.status]
      && c.assignedAt == (if asked.driver == None then None else Some(now))
      && c.pickedUpAt == None && c.deliveredAt == None && c.codCollectedAt == None
      && c.failureReason == None && c.attempts == 0
  {
    var c := Booked(company, asked, id, now);
    assert CountOf([], OutForDelivery) == 0 && CountOf([], Failed) == 0;
    assert [c.status][..0] == [];
    forall i | 0 <= i < |d.consignments| ensures ConsignmentInv(d.consignments[i], now) {
      LaterClocksKeepTimes(d.consignments[i], d.clock, now);
    }
  }

  /** Exactly when a step is accepted: the row's own constraints never have to refuse one. */
  lemma AdvanceIsAcceptedIff(d: Depot, company: Id, k: nat, a: Advance, now: int)
    requires DepotInv(d) && k < |d.consignments| && d.clock <= now
    requires ConsignmentIndex(d.consignments, d.consignments[k].id) == Some(k)
    ensures var c := d.consignments[k];
      AfterAdvance(d, company, c.id, a, now).Ok? <==>
        && c.company == company && CanAdvance(c.status, a.status)
        && (a.status == Failed ==> !Blank(a.note))
        && (a.driver.Some? ==> a.driver.value in d.staff)
        && (a.status == Assigned ==> a.driver.Some? || c.driver.Some?)
  {
  }

  /** What one step does to a consignment, and all it does. */
  ghost predicate StepTaken(c: Consignment, after: Consignment, a: Advance, now: int) {
    && CanAdvance(c.status, a.status) && after.status == a.status && after.events == c.events + [a.status]
    && after.id == c.id && after.company == c.company && after.order == c.order
    && after.isCod == c.isCod && after.codAmount == c.codAmount
    && after.driver == (if a.driver == None then c.driver else a.driver)
    && after.assignedAt == (if a.status == Assigned then Some(now) else c.assignedAt)
    && after.pickedUpAt == (if a.status == PickedUp then Some(now) else c.pickedUpAt)
    && after.deliveredAt == (if a.status == Delivered then Some(now) else c.deliveredAt)
    && (a.status == Delivered && c.isCod && a.collectedCod ==> after.codCollectedAt == Some(now))
    && (!(a.status == Delivered && c.isCod && a.collectedCod) ==> after.codCollectedAt == c.codCollectedAt)
    && (a.status == Failed ==> after.failureReason == Some(a.note))
    && (a.status != Failed ==> after.failureReason == None)
    && (a.status == Failed || a.status == OutForDelivery ==> after.attempts == c.attempts + 1)
    && (a.status != Failed && a.status != OutForDelivery ==> after.attempts == c.attempts)
  }

  lemma AdvancedTakesTheStep(c: Consignment, a: Advance, now: int)
    requires CanAdvance(c.status, a.status)
    ensures StepTaken(c, Advanced(c, a, if a.driver.Some? then a.driver else c.driver, now), a, now)
  {
  }

  /**
   One accepted step: the consignment stays in order, every other is untouched,
   and the holds of its order are let go of exactly when it is delivered or comes
   back, nobody else's ever.
   */
  lemma {:induction false} AdvanceKeepsTheDepot(d: Depot, company: Id, id: Id, a: Advance, now: int)
    requires DepotInv(d) && d.clock <= now && AfterAdvance(d, company, id, a, now).Ok?
    ensures ConsignmentIndex(d.consignments, id).Some?
    ensures var after := AfterAdvance(d, company, id, a, now).value;
      var k := ConsignmentIndex(d.consignments, id).value;
      && DepotInv(after)
      && |after.consignments| == |d.consignments|
      && StepTaken(d.consignments[k], after.consignments[k], a, now)
      && (forall i :: 0 <= i < |d.consignments| && i != k ==> after.consignments[i] == d.consignments[i])
      && (forall order, item :: NetOf(after.holds, order, item)
            == if order == d.consignments[k].order && (a.status == Delivered || a.status == Returned) then 0
               else NetOf(d.holds, order, item))
      && |d.holds| <= |after.holds| && after.holds[..|d.holds|] == d.holds
      && (forall r :: r in after.holds[|d.holds|..] ==>
            && (a.status == Delivered || a.status == Returned)
            && LetsGo(r, d.holds, company, d.consignments[k].order,
                      if a.status == Delivered then Consumed else Released))
      && after.orders == d.orders && after.staff == d.staff && after.clock == now
  {
    hide StepTaken, HoldsInv, ConsignmentInv, Advanced, RowAllowed, AfterRelease, NetOf, LetsGo;
    var k := ConsignmentIndex(d.consignments, id).value;
    var c := d.consignments[k];
    var driver := if a.driver.Some? then a.driver else c.driver;
    assert ConsignmentInv(c, d.clock);
    AdvancingKeeps(c, a, driver, d.clock, now);
    AdvancedTakesTheStep(c, a, now);
    ReleaseLetsGoOfEverything(d.holds, c.company, c.order, Consumed);
    ReleaseLetsGoOfEverything(d.holds, c.company, c.order, Released);
    forall i | 0 <= i < |d.consignments| ensures ConsignmentInv(d.consignments[i], now) {
      LaterClocksKeepTimes(d.consignments[i], d.clock, now);
    }
  }

  /** No step is accepted once a consignment is delivered or returned. */
  lemma NoStepLeadsOut(d: Depot, company: Id, k: nat, a: Advance, now: int)
    requires k < |d.consignments| && ConsignmentIndex(d.consignments, d.consignments[k].id) == Some(k)
    requires d.consignments[k].status == Delivered || d.consignments[k].status == Returned
    ensures AfterAdvance(d, company, d.consignments[k].id, a, now).Err?
  {
  }

  /**
   A delivered consignment's history ends assigned, picked up, out for delivery,
   delivered: whatever failed before, it was picked up after its last assignment.
   */
  lemma DeliveriesEndTheSameWay(events: seq<Status>)
    requires IsPath(events) && events[|events| - 1] == Delivered
    ensures |events| >= 4
    ensures events[|events| - 4..] == [Assigned, PickedUp, OutForDelivery, Delivered]
  {
    var n := |events|;
    assert n > 1 && CanAdvance(events[n - 2], events[n - 1]);
    assert events[n - 2] == OutForDelivery;
    assert n > 2 && CanAdvance(events[n - 3], events[n - 2]);
    assert events[n - 3] == PickedUp;
    assert n > 3 && CanAdvance(events[n - 4], events[n - 3]);
  }

  // ---------------------------------------------------------------------
  // Every run
  // ---------------------------------------------------------------------

  datatype Step =
    | Book(company: Id, asked: NewDelivery, newId: Id, now: int)
    | Move(company: Id, id: Id, advance: Advance, now: int)
    | Reserve(company: Id, order: Id, item: Item, qty: real, expires: Option<int>, onHand: int)
    | ReleaseOrder(company: Id, order: Id)
    | Sweep(company: Id, now: int)
    | Staff(staff: set<Id>)
    | Orders(orders: map<Id, SalesOrder>)

  /** A refused call changes nothing. */
  function After(d: Depot, step: Step): Depot {
    match step
    case Book(company, asked, id, now) =>
      if AfterBooking(d, company, asked, id, now).Ok? then AfterBooking(d, company, asked, id, now).value else d
    case Move(company, id, a, now) =>
      if AfterAdvance(d, company, id, a, now).Ok? then AfterAdvance(d, company, id, a, now).value else d
    case Reserve(company, order, item, qty, expires, onHand) =>
      var r := AfterReserve(d.holds, onHand, company, order, item, qty, expires);
      if r.Ok? then d.(holds := r.value) else d
    case ReleaseOrder(company, order) => d.(holds := AfterRelease(d.holds, company, order, Released))
    case Sweep(company, now) => d.(holds := AfterExpiry(d.holds, company, now).0)
    case Staff(staff) => d.(staff := staff)
    case Orders(orders) => d.(orders := orders)
  }

  /** The clock does not run backwards. */
  ghost predicate InTime(d: Depot, steps: seq<Step>)
    decreases |steps|
  {
    steps == [] ||
      (((steps[0].Book? || steps[0].Move?) ==> d.clock <= steps[0].now) && InTime(After(d, steps[0]), steps[1..]))
  }

  function Run(d: Depot, steps: seq<Step>): Depot
    decreases |steps|
  {
    if steps == [] then d else Run(After(d, steps[0]), steps[1..])
  }

  lemma StepKeeps(d: Depot, step: Step)
    requires DepotInv(d) && ((step.Book? || step.Move?) ==> d.clock <= step.now)
    ensures DepotInv(After(d, step))
  {
    hide ConsignmentInv;
    match step
    case Book(company, asked, id, now) =>
      if AfterBooking(d, company, asked, id, now).Ok? { BookingKeeps(d, company, asked, id, now); }
    case Move(company, id, a, now) =>
      if AfterAdvance(d, company, id, a, now).Ok? { AdvanceKeepsTheDepot(d, company, id, a, now); }
    case Reserve(company, order, item, qty, expires, onHand) =>
      if AfterReserve(d.holds, onHand, company, order, item, qty, expires).Ok? {
        ReserveKeepsTheLedger(d.holds, onHand, company, order, item, qty, expires);
      }
    case ReleaseOrder(company, order) => ReleaseLetsGoOfEverything(d.holds, company, order, Released);
    case Sweep(company, now) => ExpiryFreesLapsedOrders(d.holds, company, now);
    case _ =>
  }

  /** Nothing booked and nothing held is a place to start. */
  lemma StartsInOrder(orders: map<Id, SalesOrder>, staff: set<Id>, clock: int)
    ensures DepotInv(Depot(orders, staff, [], [], clock))
  {
  }

  /**
   Every consignment after every run: its log is a path of the flow ending where
   it stands, its attempts are counted, a reason is given exactly while it has
   failed, whoever carries it is named, cash is marked only on a delivered
   cash-on-delivery consignment, and a delivered one was picked up after its last
   assignment.
   */
  lemma {:induction false} ConsignmentsStayInOrder(d: Depot, steps: seq<Step>, k: nat)
    requires DepotInv(d) && InTime(d, steps) && k < |Run(d, steps).consignments|
    ensures var (c, clock) := (Run(d, steps).consignments[k], Run(d, steps).clock);
      && ConsignmentInv(c, clock)
      && (c.status != Pending && c.status != Returned ==> c.driver != None)
      && (c.status == Failed <==> c.failureReason != None)
      && (c.status == Failed ==> exists i :: 0 <= i < |c.failureReason.value| && !IsSpace(c.failureReason.value[i]))
      && c.codAmount >= 0 && (c.isCod || c.codAmount == 0)
      && (c.status == Delivered ==>
            |c.events| >= 4 && c.events[|c.events| - 4..] == [Assigned, PickedUp, OutForDelivery, Delivered])
    decreases |steps|
  {
    hide After, HoldsInv;
    if steps != [] {
      StepKeeps(d, steps[0]);
      ConsignmentsStayInOrder(After(d, steps[0]), steps[1..], k);
    } else {
      assert ConsignmentInv(d.consignments[k], d.clock);
      if d.consignments[k].status == Delivered {
        DeliveriesEndTheSameWay(d.consignments[k].events);
      }
    }
  }

  /** What a consignment becomes: its log is only added to, and once it is over it stays as it is. */
  ghost predicate Follows(c: Consignment, later: Consignment) {
    && later.id == c.id && |c.events| <= |later.events| && later.events[..|c.events|] == c.events
    && (c.status == Delivered || c.status == Returned ==> later == c)
  }

  ghost predicate AllFollow(d: Depot, later: Depot) {
    && |d.consignments| <= |later.consignments|
    && forall k :: 0 <= k < |d.consignments| ==> Follows(d.consignments[k], later.consignments[k])
  }

  lemma StepFollows(d: Depot, step: Step)
    ensures AllFollow(d, After(d, step))
  {
    hide AfterRelease, AfterReserve, AfterExpiry, ReservedOf;
  }

  lemma {:induction false} RunFollows(d: Depot, steps: seq<Step>, k: nat)
    requires k < |d.consignments|
    ensures k < |Run(d, steps).consignments| && Follows(d.consignments[k], Run(d, steps).consignments[k])
    decreases |steps|
  {
    hide After;
    if steps != [] {
      StepFollows(d, steps[0]);
      assert Follows(d.consignments[k], After(d, steps[0]).consignments[k]);
      RunFollows(After(d, steps[0]), steps[1..], k);
      var (c, next, later) :=
        (d.consignments[k], After(d, steps[0]).consignments[k], Run(d, steps).consignments[k]);
      assert later.events[..|next.events|][..|c.events|] == later.events[..|c.events|];
    }
  }

  /**
   After every run, whatever was booked, moved, held or released on the way, every log
   is as it was with more at the end.
   */
  lemma LogsOnlyGrow(d: Depot, steps: seq<Step>, k: nat)
    requires k < |d.consignments|
    ensures k < |Run(d, steps).consignments|
    ensures var (c, later) := (d.consignments[k], Run(d, steps).consignments[k]);
      later.id == c.id && |c.events| <= |later.events| && later.events[..|c.events|] == c.events
  {
    RunFollows(d, steps, k);
  }

  /**
   A consignment delivered or returned is for ever exactly what it was: no run of any
   calls changes anything of it.
   */
  lemma DeliveredIsForEver(d: Depot, steps: seq<Step>, k: nat)
    requires k < |d.consignments| && (d.consignments[k].status == Delivered || d.consignments[k].status == Returned)
    ensures k < |Run(d, steps).consignments| && Run(d, steps).consignments[k] == d.consignments[k]
  {
    RunFollows(d, steps, k);
  }

  /** A booking that was accepted stands, whatever runs on: the same consignment, its log begun where it was booked. */
  lemma BookingsStand(d: Depot, company: Id, asked: NewDelivery, id: Id, now: int, steps: seq<Step>)
    requires DepotInv(d) && d.clock <= now && AfterBooking(d, company, asked, id, now).Ok?
    ensures var (k, later) := (|d.consignments|, Run(After(d, Book(company, asked, id, now)), steps));
      && k < |later.consignments| && later.consignments[k].id == id && later.consignments[k].events != []
      && later.consignments[k].events[0] == (if asked.driver == None then Pending else Assigned)
  {
    hide Run, AfterBooking, DepotInv;
    BookingKeeps(d, company, asked, id, now);
    RunFollows(After(d, Book(company, asked, id, now)), steps, |d.consignments|);
  }

  /**
   The cash on a delivery is marked exactly when the step that delivered it said so,
   at the moment it did, and stays so whatever runs on.
   */
  lemma DeliveryMarksTheCash(d: Depot, company: Id, id: Id, a: Advance, now: int, steps: seq<Step>)
    requires DepotInv(d) && d.clock <= now && a.status == Delivered
    requires AfterAdvance(d, company, id, a, now).Ok?
    ensures ConsignmentIndex(d.consignments, id) != None
    ensures var k := ConsignmentIndex(d.consignments, id).value;
      var later := Run(After(d, Move(company, id, a, now)), steps);
      && k < |later.consignments| && later.consignments[k].status == Delivered
      && later.consignments[k].deliveredAt == Some(now)
      && later.consignments[k].codCollectedAt
         == if d.consignments[k].isCod && a.collectedCod then Some(now) else None
  {
    hide Run, AfterAdvance, HoldsInv;
    AdvanceKeepsTheDepot(d, company, id, a, now);
    var k := ConsignmentIndex(d.consignments, id).value;
    assert ConsignmentInv(d.consignments[k], d.clock);
    DeliveredIsForEver(After(d, Move(company, id, a, now)), steps, k);
  }
}
