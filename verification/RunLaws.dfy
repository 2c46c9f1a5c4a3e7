/** What every run promises: of the books, the register of journals, the plans and the income they earn. */
module RunLaws {
  import opened Wrappers
  import opened Rounding
  import opened Sums
  import opened Posting
  import opened PostingLaws
  import opened Rules
  import opened Journals
  import opened Balances
  import opened LedgerInvariants
  import opened Reversals
  import opened BaseBalances
  import opened Plans
  import opened PlanLaws
  import opened Collecting
  import opened Runs

  /**
   The books after any run from nothing: every company's trial balance is zero,
   no key has two entries, every entry has two lines or more in balance, and
   every company's entries are numbered one to n with none missing.
   */
  lemma BooksAlwaysBalance(steps: seq<Step>, company: Id)
    requires AllAllowed(NewShop(), steps)
    ensures var books := Run(NewShop(), steps).register.books;
      && TrialBalanceDifference(books.entries, company) == 0
      && OneEntryAKey(books.entries)
      && (forall i :: 0 <= i < |books.entries| ==> EntryInv(books.entries[i]))
      && (company in books.nextNo ==>
            books.nextNo[company] >= 1 && NumbersOf(books.entries, company) == OneTo(books.nextNo[company] - 1))
  {
    hide After, AllAllowed, Run, CollectingInv, JournalsGapFree, OneOfEach, EntryInv;
    NewShopIsInOrder();
    RunKeeps(NewShop(), steps);
    TrialBalanceIsZero(Run(NewShop(), steps).register.books.entries, company);
  }

  /** And so are every company's journals. */
  lemma JournalsAreNumbered(steps: seq<Step>, company: Id)
    requires AllAllowed(NewShop(), steps)
    ensures var register := Run(NewShop(), steps).register;
      company in register.nextJournalNo ==>
        && register.nextJournalNo[company] >= 1
        && JournalNumbersOf(register.journals, company) == OneTo(register.nextJournalNo[company] - 1)
  {
    hide After, AllAllowed, Run, BooksInv, CollectingInv, OneOfEach, JournalInv, ReversesOne;
    NewShopIsInOrder();
    RunKeeps(NewShop(), steps);
  }

  /**
   Record a journal, let anything at all happen, reverse it: an account in a store
   is left with no trace of it precisely when the journal's lines, allocated by
   their columns, come to the same there.
   */
  lemma ReversalUndoesAcrossAnyRun(
      s: Shop, company: Id, j: NewJournal, id: Id, steps: seq<Step>,
      reason: string, uuid: Id, today: int, newId: Id, account: Id, store: Option<Id>, columns: Columns)
    requires ShopInv(s) && Fresh(s.register, id)
    requires JournalByUuid(s.register.journals, company, j.uuid).None? && AfterRecord(s.register, company, j, id).Ok?
    requires AllAllowed(After(s, RecordJournal(company, j, id)), steps)
    requires var later := Run(After(s, RecordJournal(company, j, id)), steps).register;
      && Fresh(later, newId) && ReversalOf(later.journals, id).None?
      && AfterReverse(later, company, id, reason, uuid, today, newId).Ok?
    ensures var recorded := After(s, RecordJournal(company, j, id));
      var later := Run(recorded, steps);
      var undone := After(later, ReverseJournal(company, id, reason, uuid, today, newId));
      Balance(undone.register.books.entries, account, store, columns)
        - Balance(later.register.books.entries, account, store, columns)
      == -(Balance(recorded.register.books.entries, account, store, columns)
           - Balance(s.register.books.entries, account, store, columns))
      <==> columns == InTransaction || BalanceSurvives(LedgerLines(j.lines), account, store)
  {
    hide AfterRecord, AfterReverse, RegisterInv, CollectingInv, AllAllowed, Run;
    var recorded := After(s, RecordJournal(company, j, id));
    RecordStepKeeps(s, company, j, id);
    RunKeeps(recorded, steps);
    ReversingUndoesRecording(s.register, company, j, id, Run(recorded, steps).register, reason, uuid, today, newId,
                             account, store, columns);
  }

  /** What `Post` answers is where its key is found from then on. */
  lemma PostedIsFound(b: Books, e: Entry)
    requires BooksInv(b) && AfterPost(b, e).Ok?
    ensures var (after, receipt) := AfterPost(b, e).value;
      && OneEntryAKey(after.entries)
      && EntryFor(after.entries, e.key) == Some(receipt.entry) && after.entries[receipt.entry].no == receipt.no
  {
    hide AfterPost, Postable, WrittenRows, PeriodFor;
    PostKeepsTheBooks(b, e);
    var (after, receipt) := AfterPost(b, e).value;
    if receipt.alreadyPosted {
      ReplayIsFound(b, e);
    } else {
      PostAppendsOneEntry(b, e);
      assert after.entries[|b.entries|].key == e.key;
    }
  }

  lemma ReplayIsFound(b: Books, e: Entry)
    requires AfterPost(b, e).Ok? && AfterPost(b, e).value.1.alreadyPosted
    ensures EntryFor(b.entries, e.key).Some?
    ensures var i := EntryFor(b.entries, e.key).value;
      AfterPost(b, e).value == (b, Receipt(i, b.entries[i].no, true))
  {
  }

  /**
   Posting again under a key already posted, after any run and with whatever
   lines: it is refused exactly when its own lines or its period are, and
   otherwise answers with the first entry and its number, and writes nothing.
   */
  lemma PostingAgainPostsNothing(s: Shop, e: Entry, steps: seq<Step>, again: Entry)
    requires ShopInv(s) && AfterPost(s.register.books, e).Ok?
    requires AllAllowed(After(s, PostEntry(e)), steps) && again.key == e.key
    ensures var later := Run(After(s, PostEntry(e)), steps).register.books;
      && (AfterPost(later, again).Ok? <==> Postable(again).Ok? && PeriodFor(later.chart, again).Ok?)
      && (AfterPost(later, again).Ok? ==>
            AfterPost(later, again).value == (later, AfterPost(s.register.books, e).value.1.(alreadyPosted := true)))
  {
    hide RegisterInv, CollectingInv, AllAllowed, Run, BooksInv, Postable, PeriodFor, WrittenRows, EntryFor, AfterPost;
    var (books, receipt) := AfterPost(s.register.books, e).value;
    RegisterHasBooks(s.register);
    PostStepKeeps(s, e);
    PostedIsFound(s.register.books, e);
    RunKeeps(After(s, PostEntry(e)), steps);
    var later := Run(After(s, PostEntry(e)), steps).register;
    RegisterHasBooks(later);
    KeysOfBooks(later.books);
    FoundStaysFound(books.entries, later.books.entries, e.key);
    assert later.books.entries[..|books.entries|][receipt.entry] == later.books.entries[receipt.entry];
    TakenKeysAreReplays(later.books, again);
  }

  /** The same after posting by a rule: from then on its key is taken. */
  lemma PostingAfterARulePostsNothing(
      s: Shop, e: Entry, country: string, txn: Transaction, steps: seq<Step>, again: Entry)
    requires ShopInv(s) && AfterPostByRule(s.register.books, s.rules, e, country, txn).Ok?
    requires AllAllowed(After(s, PostRule(e, country, txn)), steps) && again.key == e.key
    ensures var later := Run(After(s, PostRule(e, country, txn)), steps).register.books;
      && (AfterPost(later, again).Ok? <==> Postable(again).Ok? && PeriodFor(later.chart, again).Ok?)
      && (AfterPost(later, again).Ok? ==>
            AfterPost(later, again).value
            == (later, AfterPostByRule(s.register.books, s.rules, e, country, txn).value.1.(alreadyPosted := true)))
  {
    hide AfterPost, AfterPostByRule, ShopInv, AllAllowed, Run, Postable, PeriodFor;
    var posted := PostByRuleIsAPost(s.register.books, s.rules, e, country, txn);
    assert After(s, PostRule(e, country, txn)) == After(s, PostEntry(posted));
    PostingAgainPostsNothing(s, posted, steps, again);
  }

  lemma TakenKeysAreReplays(b: Books, e: Entry)
    requires EntryFor(b.entries, e.key).Some?
    ensures AfterPost(b, e).Ok? <==> Postable(e).Ok? && PeriodFor(b.chart, e).Ok?
    ensures var i := EntryFor(b.entries, e.key).value;
      AfterPost(b, e).Ok? ==> AfterPost(b, e).value == (b, Receipt(i, b.entries[i].no, true))
  {
  }

  /**
   Recording again, after any run and with whatever lines, under an identifier
   already recorded: the first journal is the answer and nothing is posted.
   */
  lemma RecordingAgainPostsNothing(
      s: Shop, company: Id, j: NewJournal, id: Id, steps: seq<Step>, again: NewJournal, newId: Id)
    requires ShopInv(s) && Fresh(s.register, id) && AfterRecord(s.register, company, j, id).Ok?
    requires AllAllowed(After(s, RecordJournal(company, j, id)), steps)
    requires again.uuid == j.uuid && Validated(again).None?
    ensures var later := Run(After(s, RecordJournal(company, j, id)), steps).register;
      AfterRecord(later, company, again, newId) == Ok((later, AfterRecord(s.register, company, j, id).value.1))
  {
    hide AfterFiling, RegisterInv, CollectingInv, AllAllowed, Run;
    var (recorded, k) := AfterRecord(s.register, company, j, id).value;
    RegisterStaysInOrder(s);
    RecordKeepsTheRegister(s.register, company, j, id);
    RecordStepKeeps(s, company, j, id);
    RunKeeps(After(s, RecordJournal(company, j, id)), steps);
    var later := Run(After(s, RecordJournal(company, j, id)), steps);
    RegisterStaysInOrder(later);
    assert later.register.journals[..|recorded.journals|][k] == later.register.journals[k];
    assert JournalByUuid(later.register.journals, company, j.uuid) == Some(k);
  }

  lemma RegisterStaysInOrder(s: Shop)
    requires ShopInv(s)
    ensures RegisterInv(s.register) && OneOfEach(s.register.journals)
  {
  }

  /** Reversing again, after any run, for any reason: the first reversal is the answer and nothing is posted. */
  lemma ReversingAgainPostsNothing(
      s: Shop, i: nat, first: (string, Id, int), newId: Id, steps: seq<Step>, again: (string, Id, int), otherId: Id)
    requires ShopInv(s) && i < |s.register.journals| && Fresh(s.register, newId) && !Blank(again.0)
    requires var j := s.register.journals[i];
      && AfterReverse(s.register, j.company, j.id, first.0, first.1, first.2, newId).Ok?
      && AllAllowed(After(s, ReverseJournal(j.company, j.id, first.0, first.1, first.2, newId)), steps)
    ensures var j := s.register.journals[i];
      var later := Run(After(s, ReverseJournal(j.company, j.id, first.0, first.1, first.2, newId)), steps).register;
      AfterReverse(later, j.company, j.id, again.0, again.1, again.2, otherId)
        == Ok((later, AfterReverse(s.register, j.company, j.id, first.0, first.1, first.2, newId).value.1))
  {
    hide AfterReverse, RegisterInv, CollectingInv, AllAllowed, Run;
    var j := s.register.journals[i];
    var step := ReverseJournal(j.company, j.id, first.0, first.1, first.2, newId);
    var (reversed, k) := AfterReverse(s.register, j.company, j.id, first.0, first.1, first.2, newId).value;
    RegisterStaysInOrder(s);
    ReverseKeepsTheRegister(s.register, i, first.0, first.1, first.2, newId);
    ReverseStepKeeps(s, j.company, j.id, first.0, first.1, first.2, newId);
    RunKeeps(After(s, step), steps);
    var later := Run(After(s, step), steps);
    RegisterStaysInOrder(later);
    assert later.register.journals[..|reversed.journals|][k] == later.register.journals[k];
    assert later.register.journals[..|reversed.journals|][..|s.register.journals|][i] == later.register.journals[i];
    assert ReversalOf(later.register.journals, j.id) == Some(k);
    ReverseIsFiling(later.register, i, again.0, again.1, again.2, otherId);
  }

  /**
   Every reversal in every reachable register: it undoes exactly one journal of
   its company, row for row, which is no reversal itself; no other journal
   reverses that one, and nothing ever reverses the reversal.
   */
  lemma ReversalsStayApart(steps: seq<Step>, undo: nat)
    requires AllAllowed(NewShop(), steps) && undo < |Run(NewShop(), steps).register.journals|
    requires Run(NewShop(), steps).register.journals[undo].reverses.Some?
    ensures var r := Run(NewShop(), steps).register;
      && r.journals[undo].entry < |r.books.entries|
      && (exists k ::
            0 <= k < |r.journals| && r.journals[k].entry < |r.books.entries|
            && ReversalInv(r, r.journals[undo], r.journals[k]))
      && (forall k :: 0 <= k < |r.journals| ==>
            && (k != undo ==> r.journals[k].reverses != r.journals[undo].reverses)
            && r.journals[k].reverses != Some(r.journals[undo].id))
  {
    hide After, AllAllowed, Run, BooksInv, CollectingInv;
    NewShopIsInOrder();
    RunKeeps(NewShop(), steps);
    var r := Run(NewShop(), steps).register;
    assert JournalInv(r, r.journals[undo]) && ReversesOne(r, r.journals[undo]);
    forall k | 0 <= k < |r.journals| && r.journals[k].reverses.Some?
      ensures r.journals[k].reverses != Some(r.journals[undo].id)
    {
      assert JournalInv(r, r.journals[k]) && ReversesOne(r, r.journals[k]);
    }
  }

  /**
   Every plan in every reachable shop: paid oldest first, clear then part then
   untouched, active exactly while something may still be owed, settled only
   when nothing is.
   */
  lemma PlansStayInOrder(steps: seq<Step>, k: nat)
    requires AllAllowed(NewShop(), steps) && k < |Run(NewShop(), steps).plans|
    ensures var (s, p) := (Run(NewShop(), steps), Run(NewShop(), steps).plans[k]);
      var caps := Capacities(p.dues);
      && Paid(p, s.payments) == Filled(caps, Collected(s.payments, p.id))
      && ClearThenPartThenUntouched(caps, Paid(p, s.payments))
      && (p.status == Active ==> Sum(Owing(p, s.payments)) > 0)
      && (p.status == Settled ==> forall i :: 0 <= i < |p.dues| ==> Owing(p, s.payments)[i] == 0)
  {
    hide After, AllAllowed, Run, RegisterInv, Sum, Collected, PaidOn;
    NewShopIsInOrder();
    RunKeeps(NewShop(), steps);
    var s := Run(NewShop(), steps);
    var p := s.plans[k];
    assert PlanInv(p, s.payments);
    OwingIsWhatIsOpen(p, s.payments);
    FilledIsClearThenPartThenUntouched(Capacities(p.dues), Collected(s.payments, p.id));
    if p.status == Settled {
      NothingLeftAnywhere(Owing(p, s.payments));
    }
  }

  lemma {:induction false} NothingLeftAnywhere(owing: seq<int>)
    requires NoneNegative(owing) && Sum(owing) == 0
    ensures forall i :: 0 <= i < |owing| ==> owing[i] == 0
  {
    if owing != [] {
      var n := |owing| - 1;
      PrefixesGrow(owing, 0, n);
      NothingLeftAnywhere(owing[..n]);
    }
  }

  /** A call that takes a collection on a plan. */
  ghost predicate Collects(s: Shop, step: Step, plan: Id) {
    && step.CollectOn? && step.plan == plan
    && exists k :: 0 <= k < |s.plans| && s.plans[k].id == plan
         && MayCollect(s, step.company, k, step.receipt, step.amount)
  }

  /** What a run's calls hand over for a plan, each to the nearest unit. */
  ghost function HandedOver(s: Shop, steps: seq<Step>, plan: Id): int
    decreases |steps|
  {
    if steps == [] then 0
    else
      var later := HandedOver(After(s, steps[0]), steps[1..], plan);
      if Collects(s, steps[0], plan) then Round(steps[0].amount) + later else later
  }

  lemma OnlyCollectionsCollect(s: Shop, step: Step)
    requires !step.CollectOn?
    ensures After(s, step).payments == s.payments
  {
    hide AfterPost, AfterPostByRule, AfterRecord, AfterReverse, AfterEarning, Drafted, AfterParking, InPlace, PlanIndex;
  }

  lemma CollectionsCollect(s: Shop, company: Id, k: nat, receipt: Id, amount: real, plan: Id)
    requires CollectingInv(s) && k < |s.plans| && AfterCollect(s, company, s.plans[k].id, receipt, amount).Ok?
    ensures Collected(AfterCollect(s, company, s.plans[k].id, receipt, amount).value.payments, plan)
         == Collected(s.payments, plan) + if plan == s.plans[k].id then Round(amount) else 0
  {
    hide AfterCollect, Collected, Round, WholeMarked, WholeLeft, Owing, ReceiptsInv, PlanInv;
    var p := s.plans[k];
    CollectedShape(s, company, k, receipt, amount);
    MarkedCollects(p.id, receipt, Owing(p, s.payments), Round(amount), plan);
    CollectedAppend(s.payments, WholeMarked(p.id, receipt, Owing(p, s.payments), Round(amount)), plan);
  }

  lemma StepCollects(s: Shop, step: Step, plan: Id)
    requires ShopInv(s)
    ensures Collected(After(s, step).payments, plan)
         == Collected(s.payments, plan) + if Collects(s, step, plan) then Round(step.amount) else 0
  {
    hide RegisterInv, Collected, Round, AfterCollect, MayCollect, ReceiptsInv, PlanInv;
    if !step.CollectOn? {
      OnlyCollectionsCollect(s, step);
    } else {
      hide AfterPost, AfterPostByRule, AfterRecord, AfterReverse, AfterAccrue, AfterOpen, AfterCancel;
      var found := PlanIndex(s.plans, step.plan);
      if found.Some? {
        CollectIsAcceptedIff(s, step.company, found.value, step.receipt, step.amount);
        if AfterCollect(s, step.company, step.plan, step.receipt, step.amount).Ok? {
          CollectionsCollect(s, step.company, found.value, step.receipt, step.amount, plan);
        }
      } else {
        NoPlanCollectsNothing(s, step.company, step.plan, step.receipt, step.amount);
      }
    }
  }

  lemma NoPlanCollectsNothing(s: Shop, company: Id, plan: Id, receipt: Id, amount: real)
    requires PlanIndex(s.plans, plan) == None
    ensures AfterCollect(s, company, plan, receipt, amount).Err?
  {
  }

  /**
   What a plan has collected after any run is what it had and everything the calls
   that were accepted handed over, once each: nothing is lost and nothing else counts.
   */
  lemma {:induction false} CollectedIsWhatWasHandedOver(s: Shop, steps: seq<Step>, plan: Id)
    requires ShopInv(s) && AllAllowed(s, steps)
    ensures Collected(Run(s, steps).payments, plan) == Collected(s.payments, plan) + HandedOver(s, steps, plan)
    decreases |steps|
  {
    hide After, ShopInv, Collected, Collects;
    if steps != [] {
      StepCollects(s, steps[0], plan);
      StepKeeps(s, steps[0]);
      CollectedIsWhatWasHandedOver(After(s, steps[0]), steps[1..], plan);
    }
  }

  lemma StepLeavesItUndone(s: Shop, step: Step, receipt: Id)
    requires Allowed(s, step) && receipt in s.receipts && s.receipts[receipt].undone
    ensures receipt in After(s, step).receipts && After(s, step).receipts[receipt].undone
  {
    hide AfterPost, AfterPostByRule, AfterRecord, AfterReverse, AfterEarning, Drafted, AfterParking, InPlace;
    hide Marked, Left, Owing, UsedOf, PlanIndex, IfClear;
  }

  lemma {:induction false} RunLeavesItUndone(s: Shop, steps: seq<Step>, receipt: Id)
    requires AllAllowed(s, steps) && receipt in s.receipts && s.receipts[receipt].undone
    ensures receipt in Run(s, steps).receipts && Run(s, steps).receipts[receipt].undone
    decreases |steps|
  {
    hide After, Allowed;
    if steps != [] {
      StepLeavesItUndone(s, steps[0], receipt);
      RunLeavesItUndone(After(s, steps[0]), steps[1..], receipt);
    }
  }

  /** A receipt undone pays nothing from then on, on any plan, whatever runs in between. */
  lemma UndoneReceiptsPayNothing(s: Shop, receipt: Id, steps: seq<Step>, company: Id, plan: Id, amount: real)
    requires receipt in s.receipts && AllAllowed(After(s, UndoReceipt(receipt)), steps)
    ensures AfterCollect(Run(After(s, UndoReceipt(receipt)), steps), company, plan, receipt, amount).Err?
  {
    hide Run, AllAllowed, Marked, Left, Owing, UsedOf;
    RunLeavesItUndone(After(s, UndoReceipt(receipt)), steps, receipt);
  }

  /** No receipt is ever spent twice: over all plans and all runs, what cites it never totals more than it holds. */
  lemma ReceiptsAreNeverOverspent(steps: seq<Step>, receipt: Id)
    requires AllAllowed(NewShop(), steps)
    ensures var s := Run(NewShop(), steps);
      if receipt in s.receipts then UsedOf(s.payments, receipt) <= s.receipts[receipt].amount
      else UsedOf(s.payments, receipt) == 0
  {
    hide After, AllAllowed, Run, RegisterInv, PlansInv;
    NewShopIsInOrder();
    RunKeeps(NewShop(), steps);
    var s := Run(NewShop(), steps);
    if receipt !in s.receipts {
      NothingUsedYet(s.payments, receipt);
    }
  }
}
