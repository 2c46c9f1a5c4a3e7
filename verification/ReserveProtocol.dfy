/**
 Concurrent reservations: `Reserve` takes an advisory lock, reads what is free,
 inserts its row and commits, with any other work going on between those steps.
 */
module ReserveProtocol {
  import opened Wrappers
  import opened Rounding
  import opened Posting
  import opened Holds

  datatype Phase = Idle | Waiting | LockTaken | Checked | Inserted

  /** One caller, with the reservation it is making. */
  datatype Caller = Caller(phase: Phase, company: Id, order: Id, item: Item, qty: real, expires: Option<int>)

  /** Committed rows, stock, who holds each advisory lock, and where every caller stands. */
  datatype World = World(rows: seq<Hold>, onHand: map<Item, int>, locks: map<int, nat>, callers: seq<Caller>)

  datatype Step =
    | Call(who: nat, company: Id, order: Id, item: Item, qty: real, expires: Option<int>)
    | TakeLock(who: nat)
    | Read(who: nat)
    | Insert(who: nat)
    | Commit(who: nat)
    | RollBack(who: nat)
    | Release(company: Id, order: Id, reason: Reason)
    | Expire(company: Id, now: int)
    | StockIn(item: Item, arriving: nat)

  function OnHand(w: World, item: Item): int {
    if item in w.onHand then w.onHand[item] else 0
  }

  function RowOfCaller(c: Caller): Hold {
    Hold(c.company, c.item, Round(c.qty), Held, c.order, c.expires)
  }

  predicate Holding(c: Caller) {
    c.phase == LockTaken || c.phase == Checked || c.phase == Inserted
  }

  function SetPhase(w: World, who: nat, phase: Phase): World
    requires who < |w.callers|
  {
    w.(callers := w.callers[who := w.callers[who].(phase := phase)])
  }

  /** End of a transaction: back to idle, its lock given up. */
  function Done(w: World, who: nat, hash: Item -> int): World
    requires who < |w.callers|
  {
    SetPhase(w, who, Idle).(locks := w.locks - {hash(w.callers[who].item)})
  }

  /** One step; what cannot happen yet changes nothing. `hash` is the lock's key, and may collide. */
  function Next(w: World, hash: Item -> int, step: Step): World {
    match step
    case Call(who, company, order, item, qty, expires) =>
      if who < |w.callers| && w.callers[who].phase == Idle && qty > 0.0
      then w.(callers := w.callers[who := Caller(Waiting, company, order, item, qty, expires)]) else w
    case TakeLock(who) =>
      if who < |w.callers| && w.callers[who].phase == Waiting && hash(w.callers[who].item) !in w.locks
      then SetPhase(w, who, LockTaken).(locks := w.locks[hash(w.callers[who].item) := who]) else w
    case Read(who) =>
      if who < |w.callers| && w.callers[who].phase == LockTaken then
        var c := w.callers[who];
        if (OnHand(w, c.item) - ReservedOf(w.rows, c.item)) as real < c.qty
        then Done(w, who, hash) else SetPhase(w, who, Checked)
      else w
    case Insert(who) =>
      if who < |w.callers| && w.callers[who].phase == Checked then
        if Round(w.callers[who].qty) <= 0 then Done(w, who, hash) else SetPhase(w, who, Inserted)
      else w
    case Commit(who) =>
      if who < |w.callers| && w.callers[who].phase == Inserted
      then Done(w, who, hash).(rows := w.rows + [RowOfCaller(w.callers[who])]) else w
    case RollBack(who) =>
      if who < |w.callers| && Holding(w.callers[who]) then Done(w, who, hash) else w
    case Release(company, order, reason) =>
      if reason != Held then w.(rows := AfterRelease(w.rows, company, order, reason)) else w
    case Expire(company, now) => w.(rows := AfterExpiry(w.rows, company, now).0)
    case StockIn(item, arriving) => w.(onHand := w.onHand[item := OnHand(w, item) + arriving])
  }

  function Run(w: World, hash: Item -> int, steps: seq<Step>): World
    decreases |steps|
  {
    if steps == [] then w else Run(Next(w, hash, steps[0]), hash, steps[1..])
  }

  /** Nothing is promised twice. */
  ghost predicate NothingOversold(w: World) {
    forall item :: ReservedOf(w.rows, item) <= OnHand(w, item)
  }

  /** Whoever is past the lock holds it. */
  ghost predicate LocksHeld(w: World, hash: Item -> int) {
    forall i :: 0 <= i < |w.callers| && Holding(w.callers[i]) ==>
      hash(w.callers[i].item) in w.locks && w.locks[hash(w.callers[i].item)] == i
  }

  /** Whoever has been told there is enough still has enough. */
  ghost predicate ChecksStand(w: World) {
    forall i :: 0 <= i < |w.callers| && (w.callers[i].phase == Checked || w.callers[i].phase == Inserted) ==>
      w.callers[i].qty <= (OnHand(w, w.callers[i].item) - ReservedOf(w.rows, w.callers[i].item)) as real
  }

  ghost predicate Inv(w: World, hash: Item -> int) {
    && HoldsInv(w.rows) && NothingOversold(w) && LocksHeld(w, hash) && ChecksStand(w)
    && (forall i :: 0 <= i < |w.callers| && w.callers[i].phase != Idle ==> w.callers[i].qty > 0.0)
    && (forall i :: 0 <= i < |w.callers| && w.callers[i].phase == Inserted ==> Round(w.callers[i].qty) > 0)
  }

  /** Two callers past the lock are never after the same item. */
  lemma OneAtATime(w: World, hash: Item -> int, i: nat, j: nat)
    requires LocksHeld(w, hash) && i < |w.callers| && j < |w.callers| && i != j
    requires Holding(w.callers[i]) && Holding(w.callers[j])
    ensures hash(w.callers[i].item) != hash(w.callers[j].item) && w.callers[i].item != w.callers[j].item
  {
  }

  /** Rows that only free stock keep every promise and every check. */
  lemma FreeingKeeps(w: World, hash: Item -> int, rows: seq<Hold>)
    requires Inv(w, hash) && HoldsInv(rows)
    requires forall item :: ReservedOf(rows, item) <= ReservedOf(w.rows, item)
    ensures Inv(w.(rows := rows), hash)
  {
  }

  /**
   A commit does what reserving in one go at that moment would do, whatever
   happened since the caller looked; it spends its own check and nobody else's.
   */
  lemma CommitKeeps(w: World, hash: Item -> int, who: nat)
    requires Inv(w, hash) && who < |w.callers| && w.callers[who].phase == Inserted
    ensures Inv(Next(w, hash, Commit(who)), hash)
    ensures var c := w.callers[who];
      AfterReserve(w.rows, OnHand(w, c.item), c.company, c.order, c.item, c.qty, c.expires)
      == Result.Ok(Next(w, hash, Commit(who)).rows)
  {
    var c := w.callers[who];
    var after := Next(w, hash, Commit(who));
    var free := OnHand(w, c.item);
    assert AfterReserve(w.rows, free, c.company, c.order, c.item, c.qty, c.expires) == Result.Ok(after.rows);
    ReserveKeepsTheLedger(w.rows, free, c.company, c.order, c.item, c.qty, c.expires);
    forall i | 0 <= i < |after.callers| && Holding(after.callers[i])
      ensures hash(after.callers[i].item) in after.locks && after.locks[hash(after.callers[i].item)] == i
      ensures after.callers[i] == w.callers[i] && w.callers[i].item != c.item
    {
      OneAtATime(w, hash, i, who);
    }
    forall item ensures ReservedOf(after.rows, item) <= OnHand(after, item) {
      assert ReservedOf(w.rows, item) <= OnHand(w, item);
    }
  }

  /** Ending a transaction without a row keeps everything. */
  lemma GivingUpKeeps(w: World, hash: Item -> int, who: nat)
    requires Inv(w, hash) && who < |w.callers| && Holding(w.callers[who])
    ensures Inv(Done(w, who, hash), hash)
  {
  }

  /** A caller may move on as long as it holds its lock, has enough and has something to write. */
  lemma MovingOnKeeps(w: World, hash: Item -> int, who: nat, c: Caller)
    requires Inv(w, hash) && who < |w.callers| && (c.phase != Idle ==> c.qty > 0.0)
    requires Holding(c) ==> Holding(w.callers[who]) && c.item == w.callers[who].item
    requires c.phase == Checked || c.phase == Inserted ==>
      c.qty <= (OnHand(w, c.item) - ReservedOf(w.rows, c.item)) as real
    requires c.phase == Inserted ==> Round(c.qty) > 0
    ensures Inv(w.(callers := w.callers[who := c]), hash)
  {
    hide Round, HoldsInv;
    var after := w.(callers := w.callers[who := c]);
    assert forall item :: ReservedOf(w.rows, item) <= OnHand(w, item) && OnHand(after, item) == OnHand(w, item);
  }

  lemma TakeLockKeeps(w: World, hash: Item -> int, who: nat)
    requires Inv(w, hash)
    ensures Inv(Next(w, hash, TakeLock(who)), hash)
  {
    hide Round, HoldsInv;
    var after := Next(w, hash, TakeLock(who));
    assert forall item :: ReservedOf(w.rows, item) <= OnHand(w, item) && OnHand(after, item) == OnHand(w, item);
  }

  lemma CallerStepKeeps(w: World, hash: Item -> int, step: Step)
    requires Inv(w, hash) && (step.Call? || step.Read? || step.Insert?)
    ensures Inv(Next(w, hash, step), hash)
  {
    hide Round, HoldsInv, NothingOversold, LocksHeld;
    var who := step.who;
    if who < |w.callers| {
      var c := w.callers[who];
      match step
      case Call(_, company, order, item, qty, expires) =>
        if c.phase == Idle && qty > 0.0 {
          MovingOnKeeps(w, hash, who, Caller(Waiting, company, order, item, qty, expires));
        }
      case Read(_) =>
        if c.phase == LockTaken {
          if (OnHand(w, c.item) - ReservedOf(w.rows, c.item)) as real < c.qty {
            GivingUpKeeps(w, hash, who);
          } else {
            MovingOnKeeps(w, hash, who, c.(phase := Checked));
          }
        }
      case Insert(_) =>
        if c.phase == Checked {
          if Round(c.qty) <= 0 {
            GivingUpKeeps(w, hash, who);
          } else {
            MovingOnKeeps(w, hash, who, c.(phase := Inserted));
          }
        }
    }
  }

  lemma StockInKeeps(w: World, hash: Item -> int, item: Item, qty: nat)
    requires Inv(w, hash)
    ensures Inv(Next(w, hash, StockIn(item, qty)), hash)
  {
  }

  lemma StepKeeps(w: World, hash: Item -> int, step: Step)
    requires Inv(w, hash)
    ensures Inv(Next(w, hash, step), hash)
  {
    match step
    case Commit(who) =>
      if who < |w.callers| && w.callers[who].phase == Inserted { CommitKeeps(w, hash, who); }
    case RollBack(who) =>
      if who < |w.callers| && Holding(w.callers[who]) { GivingUpKeeps(w, hash, who); }
    case Release(company, order, reason) =>
      if reason != Held {
        ReleaseLetsGoOfEverything(w.rows, company, order, reason);
        FreeingKeeps(w, hash, AfterRelease(w.rows, company, order, reason));
      }
    case Expire(company, now) =>
      ExpiryFreesLapsedOrders(w.rows, company, now);
      FreeingKeeps(w, hash, AfterExpiry(w.rows, company, now).0);
    case StockIn(item, qty) => StockInKeeps(w, hash, item, qty);
    case TakeLock(who) => TakeLockKeeps(w, hash, who);
    case _ => CallerStepKeeps(w, hash, step);
  }

  /**
   However the steps of any number of callers interleave, with releases, expiry
   sweeps and deliveries of stock between them, and whatever lock keys collide:
   what is reserved of an item never exceeds what is on hand, and no order's net
   hold ever falls below nothing.
   */
  lemma {:induction false} NothingIsEverOversold(w: World, hash: Item -> int, steps: seq<Step>)
    requires Inv(w, hash)
    ensures Inv(Run(w, hash, steps), hash)
    ensures NothingOversold(Run(w, hash, steps)) && NoneOwed(Run(w, hash, steps).rows)
    decreases |steps|
  {
    if steps != [] {
      StepKeeps(w, hash, steps[0]);
      NothingIsEverOversold(Next(w, hash, steps[0]), hash, steps[1..]);
    }
  }

  lemma IdleCallersWait(w: World, hash: Item -> int, who: nat)
    requires who < |w.callers| && w.callers[who].phase == Idle
    ensures Next(w, hash, TakeLock(who)) == Next(w, hash, Read(who)) == w
    ensures Next(w, hash, Insert(who)) == Next(w, hash, Commit(who)) == w
  {
  }

  /** A caller that may have its lock looks at what is free, and writes its row only if there is enough. */
  lemma LockedCallersReserve(w: World, hash: Item -> int, who: nat)
    requires who < |w.callers| && w.callers[who].phase == LockTaken && w.callers[who].qty > 0.0
    ensures var c := w.callers[who];
      var later := Next(Next(Next(w, hash, Read(who)), hash, Insert(who)), hash, Commit(who));
      var reserved := AfterReserve(w.rows, OnHand(w, c.item), c.company, c.order, c.item, c.qty, c.expires);
      later == Done(w, who, hash).(rows := if reserved.Ok? then reserved.value else w.rows)
  {
    hide Round, ReservedOf, AfterRelease, AfterExpiry;
    var c := w.callers[who];
    var w1 := Next(w, hash, Read(who));
    if (OnHand(w, c.item) - ReservedOf(w.rows, c.item)) as real < c.qty {
      assert w1 == Done(w, who, hash);
      IdleCallersWait(w1, hash, who);
    } else if Round(c.qty) <= 0 {
      assert Next(w1, hash, Insert(who)) == Done(w, who, hash);
      IdleCallersWait(Done(w, who, hash), hash, who);
    } else {
      var w2 := Next(w1, hash, Insert(who));
      assert w2 == SetPhase(w, who, Inserted);
      assert Done(w2, who, hash) == Done(w, who, hash);
    }
  }

  /** A caller nobody gets in the way of does exactly what reserving in one go does, refusals included. */
  lemma AloneItReservesInOneGo(w: World, hash: Item -> int, who: nat, company: Id, order: Id, item: Item, qty: real,
                               expires: Option<int>)
    requires who < |w.callers| && w.callers[who].phase == Idle && hash(item) !in w.locks
    ensures var later := Run(w, hash, [Call(who, company, order, item, qty, expires),
                                       TakeLock(who), Read(who), Insert(who), Commit(who)]);
      var reserved := AfterReserve(w.rows, OnHand(w, item), company, order, item, qty, expires);
      && later.rows == (if reserved.Ok? then reserved.value else w.rows)
      && later.onHand == w.onHand && later.locks == w.locks
      && |later.callers| == |w.callers| && later.callers[who].phase == Idle
      && forall i :: 0 <= i < |w.callers| && i != who ==> later.callers[i] == w.callers[i]
  {
    hide Round, ReservedOf, AfterRelease, AfterExpiry, Run;
    var called := Call(who, company, order, item, qty, expires);
    FiveSteps(w, hash, called, TakeLock(who), Read(who), Insert(who), Commit(who));
    if qty <= 0.0 {
      assert Next(w, hash, called) == w;
      IdleCallersWait(w, hash, who);
    } else {
      var w2 := Next(Next(w, hash, called), hash, TakeLock(who));
      assert w2.locks - {hash(item)} == w.locks && OnHand(w2, item) == OnHand(w, item);
      LockedCallersReserve(w2, hash, who);
    }
  }

  /** What goes on between a caller's steps is the ledger's own: releases and sweeps let go, and stock arrives. */
  lemma OtherWorkIsDone(w: World, hash: Item -> int, company: Id, order: Id, reason: Reason, now: int, item: Item,
                        arriving: nat)
    requires HoldsInv(w.rows) && reason != Held
    ensures NetOf(Next(w, hash, Release(company, order, reason)).rows, order, item) == 0
    ensures HasLapsed(w.rows, company, order, now) ==>
      NetOf(Next(w, hash, Expire(company, now)).rows, order, item) == 0
    ensures OnHand(Next(w, hash, StockIn(item, arriving)), item) == OnHand(w, item) + arriving
  {
    hide HasLapsed, AfterRelease, AfterExpiry, NetOf;
    ReleaseLetsGoOfEverything(w.rows, company, order, reason);
    ExpiryFreesLapsedOrders(w.rows, company, now);
  }

  lemma FiveSteps(w: World, hash: Item -> int, a: Step, b: Step, c: Step, d: Step, e: Step)
    ensures Run(w, hash, [a, b, c, d, e])
         == Next(Next(Next(Next(Next(w, hash, a), hash, b), hash, c), hash, d), hash, e)
  {
    hide Next;
    assert [a, b, c, d, e][1..] == [b, c, d, e];
    FourSteps(Next(w, hash, a), hash, b, c, d, e);
  }

  /** Any number of idle callers over an empty ledger and any stock is a place to start. */
  lemma StartsInOrder(onHand: map<Item, int>, callers: seq<Caller>, hash: Item -> int)
    requires forall item :: item in onHand ==> onHand[item] >= 0
    requires forall i :: 0 <= i < |callers| ==> callers[i].phase == Idle
    ensures Inv(World([], onHand, map[], callers), hash)
  {
  }

  /**
   The lock is what the promise rests on. Two callers who have both read the one
   unit free, as only a missing lock would let them, and both go on, oversell it.
   */
  lemma WithoutTheLockItOversells(hash: Item -> int)
    ensures var c := Caller(Checked, 1, 1, Item(1, 1), 1.0, None);
      var w := World([], map[Item(1, 1) := 1], map[], [c, c.(order := 2)]);
      && HoldsInv(w.rows) && NothingOversold(w) && ChecksStand(w)
      && !NothingOversold(Run(w, hash, [Insert(0), Insert(1), Commit(0), Commit(1)]))
  {
    hide Round, AfterRelease, AfterExpiry, HoldsInv;
    RoundOfWhole(1);
    var c := Caller(Checked, 1, 1, Item(1, 1), 1.0, None);
    var d := c.(order := 2);
    var w0 := World([], map[Item(1, 1) := 1], map[], [c, d]);
    FourSteps(w0, hash, Insert(0), Insert(1), Commit(0), Commit(1));
    assert Next(w0, hash, Insert(0)).callers == [c.(phase := Inserted), d];
    var w2 := Next(Next(w0, hash, Insert(0)), hash, Insert(1));
    assert w2.callers == [c.(phase := Inserted), d.(phase := Inserted)];
    var (first, second) := (RowOfCaller(c), RowOfCaller(d));
    var w4 := Next(Next(w2, hash, Commit(0)), hash, Commit(1));
    assert w4.rows == [first] + [second];
    ReservedOfAppend([first], [second], Item(1, 1));
    OneRow(first, 1, Item(1, 1));
    OneRow(second, 2, Item(1, 1));
    assert ReservedOf(w4.rows, Item(1, 1)) == 2 && OnHand(w4, Item(1, 1)) == 1;
    EmptyLedgersAreInOrder();
  }

  lemma EmptyLedgersAreInOrder()
    ensures HoldsInv([])
  {
  }

  lemma FourSteps(w: World, hash: Item -> int, a: Step, b: Step, c: Step, d: Step)
    ensures Run(w, hash, [a, b, c, d]) == Next(Next(Next(Next(w, hash, a), hash, b), hash, c), hash, d)
  {
    hide Next;
    assert [a, b, c, d][1..] == [b, c, d] && [b, c, d][1..] == [c, d] && [c, d][1..] == [d] && [d][1..] == [];
    var w1 := Next(w, hash, a);
    var w2 := Next(w1, hash, b);
    var w3 := Next(w2, hash, c);
    assert Run(w3, hash, [d]) == Next(w3, hash, d);
    assert Run(w1, hash, [b, c, d]) == Run(w2, hash, [c, d]) == Run(w3, hash, [d]);
  }
}
