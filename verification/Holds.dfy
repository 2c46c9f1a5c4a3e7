/**
 The stock reservation ledger (backend/internal/aftersales/delivery.go): signed
 rows that are only ever added, whose sums say who holds what.

 Quantities are counted in the column's ten-thousandths; what a caller asks for
 may be any decimal, and writing it rounds.
 */
module Holds {
  import opened Wrappers
  import opened Refusals
  import opened Rounding
  import opened Posting

  datatype Reason = Held | Released | Consumed

  datatype Item = Item(variant: Id, warehouse: Id)

  datatype Hold = Hold(company: Id, item: Item, qty: int, reason: Reason, order: Id, expires: Option<int>)

  /** What an order holds of an item, net of what it has let go. */
  function NetOf(rows: seq<Hold>, order: Id, item: Item): int {
    if rows == [] then 0
    else
      var r := rows[|rows| - 1];
      NetOf(rows[..|rows| - 1], order, item) + if r.order == order && r.item == item then r.qty else 0
  }

  /** `stock_reserved`: what all orders hold of an item. */
  function ReservedOf(rows: seq<Hold>, item: Item): int {
    if rows == [] then 0
    else
      var r := rows[|rows| - 1];
      ReservedOf(rows[..|rows| - 1], item) + if r.item == item then r.qty else 0
  }

  /** The items an order's rows name, each once. */
  function ItemsOf(rows: seq<Hold>, order: Id): (items: seq<Item>)
    ensures forall i, j :: 0 <= i < j < |items| ==> items[i] != items[j]
    ensures forall r :: r in rows && r.order == order ==> r.item in items
  {
    if rows == [] then []
    else
      var r := rows[|rows| - 1];
      var items := ItemsOf(rows[..|rows| - 1], order);
      assert forall q :: q in rows ==> q in rows[..|rows| - 1] || q == r;
      if r.order == order && r.item !in items then items + [r.item] else items
  }

  /** The rows that let go of whatever is still held of some items. */
  function LettingGo(rows: seq<Hold>, company: Id, order: Id, reason: Reason, items: seq<Item>): seq<Hold> {
    if items == [] then []
    else
      var item := items[|items| - 1];
      var net := NetOf(rows, order, item);
      LettingGo(rows, company, order, reason, items[..|items| - 1])
        + if net > 0 then [Hold(company, item, -net, reason, order, None)] else []
  }

  /** `releaseOrderHolds`. */
  function AfterRelease(rows: seq<Hold>, company: Id, order: Id, reason: Reason): seq<Hold> {
    rows + LettingGo(rows, company, order, reason, ItemsOf(rows, order))
  }

  /** A held row of the company whose deadline has passed. */
  predicate Lapsed(r: Hold, company: Id, now: int) {
    r.company == company && r.reason == Held && r.expires.Some? && r.expires.value < now
  }

  /** The orders with a lapsed row, each once. */
  function LapsedOrders(rows: seq<Hold>, company: Id, now: int): (orders: seq<Id>)
    ensures forall i, j :: 0 <= i < j < |orders| ==> orders[i] != orders[j]
    ensures forall o :: o in orders <==> exists r :: r in rows && Lapsed(r, company, now) && r.order == o
  {
    if rows == [] then []
    else
      var r := rows[|rows| - 1];
      var orders := LapsedOrders(rows[..|rows| - 1], company, now);
      assert forall q :: q in rows <==> q in rows[..|rows| - 1] || q == r;
      if Lapsed(r, company, now) && r.order !in orders then orders + [r.order] else orders
  }

  function AfterReleases(rows: seq<Hold>, company: Id, orders: seq<Id>): seq<Hold> {
    if orders == [] then rows
    else AfterRelease(AfterReleases(rows, company, orders[..|orders| - 1]), company, orders[|orders| - 1], Released)
  }

  /** `ExpireHolds`: everything an order holds, once any of its rows has lapsed. */
  function AfterExpiry(rows: seq<Hold>, company: Id, now: int): (seq<Hold>, nat) {
    var orders := LapsedOrders(rows, company, now);
    (AfterReleases(rows, company, orders), |orders|)
  }

  /** `Reserve`, with what is on hand of the item. */
  function AfterReserve(rows: seq<Hold>, onHand: int, company: Id, order: Id, item: Item, qty: real,
                        expires: Option<int>)
    : Result<seq<Hold>, Refusal>
  {
    if qty <= 0.0 then Err(NothingToHold)
    else if (onHand - ReservedOf(rows, item)) as real < qty then Err(NotEnoughFree)
    else if Round(qty) <= 0 then Err(CheckViolated)
    else Ok(rows + [Hold(company, item, Round(qty), Held, order, expires)])
  }

  // ---------------------------------------------------------------------
  // What the ledger keeps
  // ---------------------------------------------------------------------

  ghost predicate NoneOwed(rows: seq<Hold>) {
    forall order, item :: NetOf(rows, order, item) >= 0
  }

  /** The CHECK on a row: holding is positive, letting go is negative. */
  ghost predicate SignsMatch(rows: seq<Hold>) {
    forall i :: 0 <= i < |rows| ==> if rows[i].reason == Held then rows[i].qty > 0 else rows[i].qty < 0
  }

  ghost predicate HoldsInv(rows: seq<Hold>) {
    NoneOwed(rows) && SignsMatch(rows)
  }

  lemma {:induction false} NetOfAppend(a: seq<Hold>, b: seq<Hold>, order: Id, item: Item)
    ensures NetOf(a + b, order, item) == NetOf(a, order, item) + NetOf(b, order, item)
  {
    if b == [] {
      assert a + b == a;
    } else {
      assert (a + b)[..|a + b| - 1] == a + b[..|b| - 1];
      NetOfAppend(a, b[..|b| - 1], order, item);
    }
  }

  lemma {:induction false} ReservedOfAppend(a: seq<Hold>, b: seq<Hold>, item: Item)
    ensures ReservedOf(a + b, item) == ReservedOf(a, item) + ReservedOf(b, item)
  {
    if b == [] {
      assert a + b == a;
    } else {
      assert (a + b)[..|a + b| - 1] == a + b[..|b| - 1];
      ReservedOfAppend(a, b[..|b| - 1], item);
    }
  }

  lemma OneRow(r: Hold, order: Id, item: Item)
    ensures NetOf([r], order, item) == if r.order == order && r.item == item then r.qty else 0
    ensures ReservedOf([r], item) == if r.item == item then r.qty else 0
  {
  }

  /** Letting go takes exactly the net of each item named, from its own order only. */
  lemma {:induction false} LettingGoTakesTheNet(rows: seq<Hold>, company: Id, order: Id, reason: Reason,
                                                items: seq<Item>, other: Id, item: Item)
    requires forall i, j :: 0 <= i < j < |items| ==> items[i] != items[j]
    ensures NetOf(LettingGo(rows, company, order, reason, items), other, item)
         == if other == order && item in items && NetOf(rows, order, item) > 0 then -NetOf(rows, order, item) else 0
  {
    if items != [] {
      var n := |items| - 1;
      var before := LettingGo(rows, company, order, reason, items[..n]);
      LettingGoTakesTheNet(rows, company, order, reason, items[..n], other, item);
      var row := Hold(company, items[n], -NetOf(rows, order, items[n]), reason, order, None);
      NetOfAppend(before, [row], other, item);
      OneRow(row, other, item);
      assert before + [] == before;
      assert items[n] !in items[..n];
      assert item in items <==> item in items[..n] || item == items[n];
    }
  }

  /** What letting go frees of an item: what its order held of it. */
  lemma {:induction false} LettingGoFreesTheNet(rows: seq<Hold>, company: Id, order: Id, reason: Reason,
                                                items: seq<Item>, item: Item)
    requires forall i, j :: 0 <= i < j < |items| ==> items[i] != items[j]
    ensures ReservedOf(LettingGo(rows, company, order, reason, items), item)
         == if item in items && NetOf(rows, order, item) > 0 then -NetOf(rows, order, item) else 0
  {
    if items != [] {
      var n := |items| - 1;
      var before := LettingGo(rows, company, order, reason, items[..n]);
      LettingGoFreesTheNet(rows, company, order, reason, items[..n], item);
      var row := Hold(company, items[n], -NetOf(rows, order, items[n]), reason, order, None);
      ReservedOfAppend(before, [row], item);
      OneRow(row, order, item);
      assert before + [] == before;
      assert items[n] !in items[..n];
      assert item in items <==> item in items[..n] || item == items[n];
    }
  }

  /** A row that lets go of something its order held: whose it is, why, and for good. */
  ghost predicate LetsGo(r: Hold, rows: seq<Hold>, company: Id, order: Id, reason: Reason) {
    && r.company == company && r.order == order && r.reason == reason && r.expires == None
    && r.qty < 0 && r.qty == -NetOf(rows, order, r.item)
  }

  lemma {:induction false} LettingGoRows(rows: seq<Hold>, company: Id, order: Id, reason: Reason, items: seq<Item>)
    ensures forall r :: r in LettingGo(rows, company, order, reason, items) ==> LetsGo(r, rows, company, order, reason)
    ensures reason != Held ==> SignsMatch(LettingGo(rows, company, order, reason, items))
  {
    if items != [] {
      LettingGoRows(rows, company, order, reason, items[..|items| - 1]);
    }
  }

  lemma {:induction false} UnnamedItemsNetNothing(rows: seq<Hold>, order: Id, item: Item)
    requires item !in ItemsOf(rows, order)
    ensures NetOf(rows, order, item) == 0
  {
    if rows != [] {
      var n := |rows| - 1;
      var r := rows[n];
      assert r in rows;
      assert forall i :: i in ItemsOf(rows[..n], order) ==> i in ItemsOf(rows, order);
      UnnamedItemsNetNothing(rows[..n], order, item);
    }
  }

  /**
   A release leaves its order holding nothing of anything, leaves every other
   order exactly as it was, and frees of every item just what its order held; the
   rows it adds say whose they are and why.
   */
  lemma ReleaseLetsGoOfEverything(rows: seq<Hold>, company: Id, order: Id, reason: Reason)
    requires HoldsInv(rows) && reason != Held
    ensures var after := AfterRelease(rows, company, order, reason);
      && HoldsInv(after)
      && |rows| <= |after| && after[..|rows|] == rows
      && (forall r :: r in after[|rows|..] ==> LetsGo(r, rows, company, order, reason))
      && (forall item :: NetOf(after, order, item) == 0)
      && (forall other, item :: other != order ==> NetOf(after, other, item) == NetOf(rows, other, item))
      && (forall item :: ReservedOf(after, item) == ReservedOf(rows, item) - NetOf(rows, order, item))
  {
    var letting := LettingGo(rows, company, order, reason, ItemsOf(rows, order));
    forall other, item
      ensures NetOf(rows + letting, other, item) == if other == order then 0 else NetOf(rows, other, item)
    {
      NetOfAppend(rows, letting, other, item);
      LettingGoTakesTheNet(rows, company, order, reason, ItemsOf(rows, order), other, item);
      if item !in ItemsOf(rows, order) {
        UnnamedItemsNetNothing(rows, order, item);
      }
    }
    forall item ensures ReservedOf(rows + letting, item) == ReservedOf(rows, item) - NetOf(rows, order, item) {
      ReservedOfAppend(rows, letting, item);
      LettingGoFreesTheNet(rows, company, order, reason, ItemsOf(rows, order), item);
      if item !in ItemsOf(rows, order) {
        UnnamedItemsNetNothing(rows, order, item);
      }
    }
    LettingGoRows(rows, company, order, reason, ItemsOf(rows, order));
    assert (rows + letting)[|rows|..] == letting;
  }

  lemma {:induction false} NothingHeldNothingLetGo(rows: seq<Hold>, company: Id, order: Id, reason: Reason,
                                                   items: seq<Item>)
    requires forall item :: NetOf(rows, order, item) <= 0
    ensures LettingGo(rows, company, order, reason, items) == []
  {
    if items != [] {
      NothingHeldNothingLetGo(rows, company, order, reason, items[..|items| - 1]);
    }
  }

  /** Releasing again, for whatever reason, appends no rows. */
  lemma ReleasingAgainDoesNothing(rows: seq<Hold>, company: Id, order: Id, reason: Reason,
                                                     company': Id, reason': Reason)
    requires HoldsInv(rows) && reason != Held
    ensures var after := AfterRelease(rows, company, order, reason);
      AfterRelease(after, company', order, reason') == after
  {
    var after := AfterRelease(rows, company, order, reason);
    ReleaseLetsGoOfEverything(rows, company, order, reason);
    NothingHeldNothingLetGo(after, company', order, reason', ItemsOf(after, order));
  }

  /** Exactly when a reservation is accepted: half a ten-thousandth or more, and no more than nobody holds. */
  lemma ReserveIsAcceptedIff(rows: seq<Hold>, onHand: int, company: Id, order: Id, item: Item, qty: real,
                             expires: Option<int>)
    ensures AfterReserve(rows, onHand, company, order, item, qty, expires).Ok?
      <==> 0.5 <= qty <= (onHand - ReservedOf(rows, item)) as real
  {
    hide ReservedOf;
  }

  /**
   A reservation that is accepted adds one row that says whose it is and until when,
   for the quantity to the nearest ten-thousandth; it is fully covered by stock
   nobody holds, adds to its own order and item alone, and keeps the ledger in order.
   */
  lemma ReserveKeepsTheLedger(rows: seq<Hold>, onHand: int, company: Id, order: Id, item: Item, qty: real,
                              expires: Option<int>)
    requires HoldsInv(rows)
    requires AfterReserve(rows, onHand, company, order, item, qty, expires).Ok?
    ensures var after := AfterReserve(rows, onHand, company, order, item, qty, expires).value;
      && HoldsInv(after) && ReservedOf(after, item) <= onHand
      && |after| == |rows| + 1 && after[..|rows|] == rows
      && var row := after[|rows|];
      && row.company == company && row.order == order && row.item == item && row.reason == Held
      && row.expires == expires && NearestTo(row.qty, qty)
      && (forall other, i :: NetOf(after, other, i)
            == NetOf(rows, other, i) + if other == order && i == item then row.qty else 0)
      && (forall i :: ReservedOf(after, i) == ReservedOf(rows, i) + if i == item then row.qty else 0)
  {
    var row := Hold(company, item, Round(qty), Held, order, expires);
    forall other, i ensures NetOf(rows + [row], other, i)
            == NetOf(rows, other, i) + if other == order && i == item then row.qty else 0
    {
      NetOfAppend(rows, [row], other, i);
      OneRow(row, other, i);
    }
    forall i ensures ReservedOf(rows + [row], i) == ReservedOf(rows, i) + if i == item then row.qty else 0 {
      ReservedOfAppend(rows, [row], i);
      OneRow(row, order, i);
    }
  }

  lemma {:induction false} ReleasesLetGoOfEverything(rows: seq<Hold>, company: Id, orders: seq<Id>)
    requires HoldsInv(rows)
    ensures var after := AfterReleases(rows, company, orders);
      && HoldsInv(after)
      && (forall order, item :: NetOf(after, order, item) == if order in orders then 0 else NetOf(rows, order, item))
      && (forall item :: ReservedOf(after, item) <= ReservedOf(rows, item))
      && |rows| <= |after| && after[..|rows|] == rows
      && (forall r :: r in after[|rows|..] ==>
            r.company == company && r.order in orders && r.reason == Released && r.expires == None && r.qty < 0)
  {
    if orders != [] {
      var n := |orders| - 1;
      var (before, after) := (AfterReleases(rows, company, orders[..n]), AfterReleases(rows, company, orders));
      ReleasesLetGoOfEverything(rows, company, orders[..n]);
      ReleaseLetsGoOfEverything(before, company, orders[n], Released);
      assert forall o :: o in orders <==> o in orders[..n] || o == orders[n];
      assert after[..|before|][..|rows|] == after[..|rows|];
      assert after[|rows|..] == before[|rows|..] + after[|before|..];
    }
  }

  /** A row of the company's holding for an order, with a deadline that has passed. */
  ghost predicate HasLapsed(rows: seq<Hold>, company: Id, order: Id, now: int) {
    exists r :: r in rows && r.order == order && r.company == company && r.reason == Held
      && r.expires != None && r.expires.value < now
  }

  /**
   After the expiry sweep no order with a lapsed row holds anything at all, every
   other order holds what it held, and the count is how many orders had one. The rows
   it adds let go for good, for those orders alone.
   */
  lemma ExpiryFreesLapsedOrders(rows: seq<Hold>, company: Id, now: int)
    requires HoldsInv(rows)
    ensures var (after, freed) := AfterExpiry(rows, company, now);
      && HoldsInv(after)
      && (forall order, item :: NetOf(after, order, item)
            == if HasLapsed(rows, company, order, now) then 0 else NetOf(rows, order, item))
      && (forall item :: ReservedOf(after, item) <= ReservedOf(rows, item))
      && |rows| <= |after| && after[..|rows|] == rows
      && (forall r :: r in after[|rows|..] ==>
            && r.company == company && HasLapsed(rows, company, r.order, now)
            && r.reason == Released && r.expires == None && r.qty < 0)
      && freed == |LapsedOrders(rows, company, now)|
      && (forall o :: o in LapsedOrders(rows, company, now) <==> HasLapsed(rows, company, o, now))
  {
    ReleasesLetGoOfEverything(rows, company, LapsedOrders(rows, company, now));
    forall o ensures o in LapsedOrders(rows, company, now) <==> HasLapsed(rows, company, o, now) {
      assert forall r :: Lapsed(r, company, now) <==>
        r.company == company && r.reason == Held && r.expires != None && r.expires.value < now;
    }
  }

  ghost predicate NoneHeld(rows: seq<Hold>) {
    forall i :: 0 <= i < |rows| ==> rows[i].reason != Held
  }

  lemma {:induction false} LettingGoIsNotHolding(rows: seq<Hold>, company: Id, order: Id, reason: Reason,
                                                 items: seq<Item>)
    requires reason != Held
    ensures NoneHeld(LettingGo(rows, company, order, reason, items))
  {
    if items != [] {
      LettingGoIsNotHolding(rows, company, order, reason, items[..|items| - 1]);
    }
  }

  lemma {:induction false} OnlyHeldRowsLapse(rows: seq<Hold>, more: seq<Hold>, company: Id, now: int)
    requires NoneHeld(more)
    ensures LapsedOrders(rows + more, company, now) == LapsedOrders(rows, company, now)
  {
    if more == [] {
      assert rows + more == rows;
    } else {
      var n := |more| - 1;
      assert (rows + more)[..|rows + more| - 1] == rows + more[..n];
      OnlyHeldRowsLapse(rows, more[..n], company, now);
    }
  }

  lemma {:induction false} ReleasesKeepTheLapsed(rows: seq<Hold>, company: Id, orders: seq<Id>, now: int)
    ensures LapsedOrders(AfterReleases(rows, company, orders), company, now) == LapsedOrders(rows, company, now)
  {
    if orders != [] {
      var n := |orders| - 1;
      var before := AfterReleases(rows, company, orders[..n]);
      ReleasesKeepTheLapsed(rows, company, orders[..n], now);
      LettingGoIsNotHolding(before, company, orders[n], Released, ItemsOf(before, orders[n]));
      OnlyHeldRowsLapse(before, LettingGo(before, company, orders[n], Released, ItemsOf(before, orders[n])), company,
                        now);
    }
  }

  lemma {:induction false} ReleasingTheReleasedDoesNothing(rows: seq<Hold>, company: Id, orders: seq<Id>)
    requires forall order, item :: order in orders ==> NetOf(rows, order, item) == 0
    ensures AfterReleases(rows, company, orders) == rows
  {
    if orders != [] {
      var n := |orders| - 1;
      ReleasingTheReleasedDoesNothing(rows, company, orders[..n]);
      NothingHeldNothingLetGo(rows, company, orders[n], Released, ItemsOf(rows, orders[n]));
      assert rows + [] == rows;
    }
  }

  /**
   The count is of orders with a lapsed row, not of holds freed: a second sweep
   writes nothing and counts every one of them again.
   */
  lemma SweepingAgainCountsAgain(rows: seq<Hold>, company: Id, now: int)
    requires HoldsInv(rows)
    ensures var (after, freed) := AfterExpiry(rows, company, now);
      AfterExpiry(after, company, now) == (after, freed)
  {
    var orders := LapsedOrders(rows, company, now);
    ReleasesLetGoOfEverything(rows, company, orders);
    ReleasesKeepTheLapsed(rows, company, orders, now);
    ReleasingTheReleasedDoesNothing(AfterReleases(rows, company, orders), company, orders);
  }

  // ---------------------------------------------------------------------
  // What the sweep's count is worth
  // ---------------------------------------------------------------------

  /** The sweep takes something from an order. */
  ghost predicate LosesSomething(before: seq<Hold>, after: seq<Hold>, order: Id) {
    exists item :: NetOf(after, order, item) < NetOf(before, order, item)
  }

  ghost predicate StillHolds(rows: seq<Hold>, order: Id) {
    exists item :: NetOf(rows, order, item) > 0
  }

  /** Of some orders, those that still hold something. */
  ghost function Holders(rows: seq<Hold>, orders: seq<Id>): (h: seq<Id>)
    ensures |h| <= |orders|
    ensures forall o :: o in h <==> o in orders && StillHolds(rows, o)
  {
    if orders == [] then []
    else
      var o := orders[|orders| - 1];
      assert forall q :: q in orders <==> q in orders[..|orders| - 1] || q == o;
      Holders(rows, orders[..|orders| - 1]) + if StillHolds(rows, o) then [o] else []
  }

  lemma {:induction false} AllHoldIff(rows: seq<Hold>, orders: seq<Id>)
    ensures |Holders(rows, orders)| == |orders| <==> forall o :: o in orders ==> StillHolds(rows, o)
  {
    hide StillHolds;
    if orders != [] {
      var n := |orders| - 1;
      AllHoldIff(rows, orders[..n]);
      assert forall q :: q in orders <==> q in orders[..n] || q == orders[n];
    }
  }

  /**
   Exactly when the sweep's count is the number of orders it takes something from:
   when every order with a lapsed row still holds something. It is never less.
   */
  lemma SweepCountsWhatItFreesIff(rows: seq<Hold>, company: Id, now: int)
    requires HoldsInv(rows)
    ensures var (after, freed) := AfterExpiry(rows, company, now);
      var freedOrders := Holders(rows, LapsedOrders(rows, company, now));
      && (forall o :: o in freedOrders <==> LosesSomething(rows, after, o))
      && |freedOrders| <= freed
      && (freed == |freedOrders| <==> forall o :: o in LapsedOrders(rows, company, now) ==> StillHolds(rows, o))
  {
    var orders := LapsedOrders(rows, company, now);
    var after := AfterExpiry(rows, company, now).0;
    ReleasesLetGoOfEverything(rows, company, orders);
    AllHoldIff(rows, orders);
    forall o ensures o in Holders(rows, orders) <==> LosesSomething(rows, after, o) {
      if item :| NetOf(rows, o, item) > 0 {
        assert o in orders ==> NetOf(after, o, item) < NetOf(rows, o, item);
      }
    }
  }

  /** How many of some items an order still holds. */
  function HeldAmong(rows: seq<Hold>, order: Id, items: seq<Item>): nat {
    if items == [] then 0
    else HeldAmong(rows, order, items[..|items| - 1]) + if NetOf(rows, order, items[|items| - 1]) > 0 then 1 else 0
  }

  /** How many items some orders still hold between them. */
  function HeldBy(rows: seq<Hold>, orders: seq<Id>): nat {
    if orders == [] then 0
    else
      var o := orders[|orders| - 1];
      HeldBy(rows, orders[..|orders| - 1]) + HeldAmong(rows, o, ItemsOf(rows, o))
  }

  lemma {:induction false} ARowForEachItemHeld(rows: seq<Hold>, company: Id, order: Id, reason: Reason,
                                               items: seq<Item>)
    ensures |LettingGo(rows, company, order, reason, items)| == HeldAmong(rows, order, items)
    ensures forall r :: r in LettingGo(rows, company, order, reason, items) ==> r.order == order
  {
    if items != [] {
      ARowForEachItemHeld(rows, company, order, reason, items[..|items| - 1]);
    }
  }

  lemma {:induction false} RowsOfOthersNameNothing(rows: seq<Hold>, more: seq<Hold>, order: Id)
    requires forall r :: r in more ==> r.order != order
    ensures ItemsOf(rows + more, order) == ItemsOf(rows, order)
  {
    if more == [] {
      assert rows + more == rows;
    } else {
      var n := |more| - 1;
      assert (rows + more)[..|rows + more| - 1] == rows + more[..n];
      assert more[n] in more && forall r :: r in more[..n] ==> r in more;
      RowsOfOthersNameNothing(rows, more[..n], order);
    }
  }

  lemma {:induction false} ReleasesNameNothingElse(rows: seq<Hold>, company: Id, orders: seq<Id>, order: Id)
    requires order !in orders
    ensures ItemsOf(AfterReleases(rows, company, orders), order) == ItemsOf(rows, order)
  {
    if orders != [] {
      var n := |orders| - 1;
      var before := AfterReleases(rows, company, orders[..n]);
      assert orders[n] in orders && forall o :: o in orders[..n] ==> o in orders;
      ReleasesNameNothingElse(rows, company, orders[..n], order);
      ARowForEachItemHeld(before, company, orders[n], Released, ItemsOf(before, orders[n]));
      RowsOfOthersNameNothing(before, LettingGo(before, company, orders[n], Released, ItemsOf(before, orders[n])),
                              order);
    }
  }

  lemma {:induction false} SameNetsSameHeld(rows: seq<Hold>, after: seq<Hold>, order: Id, items: seq<Item>)
    requires forall item :: NetOf(after, order, item) == NetOf(rows, order, item)
    ensures HeldAmong(after, order, items) == HeldAmong(rows, order, items)
  {
    if items != [] {
      SameNetsSameHeld(rows, after, order, items[..|items| - 1]);
    }
  }

  lemma {:induction false} ReleasesAppendARowForEachHold(rows: seq<Hold>, company: Id, orders: seq<Id>)
    requires HoldsInv(rows) && forall i, j :: 0 <= i < j < |orders| ==> orders[i] != orders[j]
    ensures |AfterReleases(rows, company, orders)| == |rows| + HeldBy(rows, orders)
  {
    if orders != [] {
      var n := |orders| - 1;
      var (before, o) := (AfterReleases(rows, company, orders[..n]), orders[n]);
      ReleasesAppendARowForEachHold(rows, company, orders[..n]);
      ReleasesLetGoOfEverything(rows, company, orders[..n]);
      ReleasesNameNothingElse(rows, company, orders[..n], o);
      SameNetsSameHeld(rows, before, o, ItemsOf(rows, o));
      ARowForEachItemHeld(before, company, o, Released, ItemsOf(before, o));
    }
  }

  /** The rows the sweep appends: one for every item an order with a lapsed row still holds. */
  lemma SweepAppendsARowForEachHold(rows: seq<Hold>, company: Id, now: int)
    requires HoldsInv(rows)
    ensures var (after, freed) := AfterExpiry(rows, company, now);
      var held := HeldBy(rows, LapsedOrders(rows, company, now));
      && |after| == |rows| + held
      && (freed == |after| - |rows| <==> held == |LapsedOrders(rows, company, now)|)
  {
    ReleasesAppendARowForEachHold(rows, company, LapsedOrders(rows, company, now));
  }

  /** One unit held until the first of the month, and let go of before that. */
  function LetGoInTime(): seq<Hold> {
    [Hold(1, Item(1, 1), 1, Held, 1, Some(1)), Hold(1, Item(1, 1), -1, Released, 1, None)]
  }

  /** The case: nothing is held, nothing is written, and the sweep reports one. */
  lemma SweepReportsWhatItDidNotFree()
    ensures HoldsInv(LetGoInTime())
    ensures AfterExpiry(LetGoInTime(), 1, 5) == (LetGoInTime(), 1)
  {
    hide AfterReleases;
    var rows := LetGoInTime();
    var (held, freed) := (rows[0], rows[1]);
    assert rows[..1] == [held] && [held][..0] == [];
    assert LapsedOrders([held], 1, 5) == [1] && LapsedOrders(rows, 1, 5) == [1];
    forall order, item ensures NetOf(rows, order, item) == 0 {
      NetOfAppend([held], [freed], order, item);
      OneRow(held, order, item);
      OneRow(freed, order, item);
      assert rows == [held] + [freed];
    }
    ReleasingTheReleasedDoesNothing(rows, 1, [1]);
  }
}
