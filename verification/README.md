# Posting engine, instalment plans and stock reservations

A Dafny model of the parts of the back office where money and stock must add up,
with proofs about every input and every run.

- **The ledger** (`backend/internal/accounting`). `Post` turns named amounts into
  a balanced double-entry journal: it drops zero lines, checks the balance, finds
  the period, answers a key it has already seen with the entry it already has,
  claims the company's next number, and converts the entry by splitting one
  rounded total over each side. `PostByRule` builds the lines from a rule,
  `Record` from what a person typed, and `Reverse` from an entry it reads back
  and flips.
- **Instalment plans** (`backend/internal/aftersales/installments.go`). A schedule
  whose last part takes the remainder, collection oldest first within what a
  receipt still holds, settlement, and finance income earned as instalments fall
  due.
- **Reservations and deliveries** (`backend/internal/aftersales/delivery.go`). An
  append-only ledger of signed holds behind an advisory lock, and the walk of a
  consignment from booking to delivery or return.

## How it is laid out

| files | what they hold |
|---|---|
| `Wrappers`, `Refusals`, `Rounding`, `Sums`, `WholeDivision` | results, reasons for refusal, decimal rounding and division |
| `Allocation`, `AllocationLaws`, `FloorLaws` | `allocate` and `raiseToFloor`, in place, what they guarantee, and what the floor costs whom |
| `Posting`, `PostingLaws` | what one posting does, and when it is accepted |
| `Rules`, `Transfers`, `Journals`, `JournalLaws`, `BaseBalances`, `Reversals` | posting by rule, journals typed by hand, undoing them |
| `Balances`, `LedgerInvariants` | balances, and what every ledger operation keeps |
| `LedgerService` | the ledger as code that updates tables step by step |
| `Plans`, `PlanLaws`, `Openings`, `Collecting`, `Accruals` | plans, schedules, opening, collections, earned income |
| `PlanService` | plans as code that updates tables step by step |
| `Runs`, `RunLaws` | any calls in any order, and what holds after all of them |
| `IncomeRuns`, `IncomeLaws`, `EarningCases` | runs in which plans park and earn as shipped, what holds after those, and two of them in full |
| `Holds`, `ReserveProtocol` | the hold ledger, and `Reserve` run by many callers at once |
| `Deliveries`, `DeliveryService`, `HoldLaws` | consignments and their histories, and what orders hold over whole runs |

Each operation is a function from the tables before the call to the tables after
it, or to the reason it is refused. The classes hold the same tables as fields
and change them the way the program does; each method is proved to do what the
function says, and to leave everything as it was when it refuses, which is what
the rolled-back transaction does. The laws are proved about the functions.

Money is counted in ledger units, hundredths of the currency. What a caller states
may be any decimal: amounts posted or typed, down payments, what is collected,
quantities to hold. What the tables keep is modelled as their columns keep it:
amounts and quantities to four decimals, rates to eight, base amounts in whole units.
Plans and holds are counted in ten-thousandths, so that a column is a whole number.
Division is the decimal library's, to sixteen digits and not exact; rounding is
half away from zero.

New identifiers, the day, the clock, calendar dates, the order of ties in a query
and the stock on hand are parameters. A caller is held to what the database holds
it to: a new identifier is one nothing carries yet, and receipts are written once.
Beyond that a run is any calls at all, under any keys and any posting rules. Only the
laws of finance income ask for more, and say so by `AllEarnAsShipped` and
`AllParkAsShipped`: that accruals are posted by the accrual job alone, from the list
its query returns, and that the opening and accrual rules have the lines the product
ships (`backend/internal/platform/db/migrations/0088_delivery_emi_and_service.sql:629-639`).

## Where the code and its comments part

- `backend/internal/accounting/posting.go:374-375` says the floor moves a share by
  less than a unit. Measured from the rounded shares that is so exactly when there is
  nothing to raise; measured from the exact proportions, exactly when it costs nobody
  two units and everybody who pays had been rounded up
  (`FloorLaws.FloorMovesSharesByAtMostOneUnitIff`, `FloorLaws.FloorStaysWithinAUnitIff`).
  `FloorLaws.FloorCanCostOneShareSeveralUnits` is an input of `allocate` for which the
  paying share ends almost three units below its proportion.
- A reversal is meant to undo exactly what was posted. It reads the amounts back
  from columns of four decimals, so for journals typed finer than that two things
  can go wrong: the reversal is refused for ever (`Reversals.FinerAmountsCanBarReversal`),
  or it is accepted and leaves a unit behind in base (`Reversals.FinerAmountsCanLeaveATrace`).
  `Reversals.JournalsCanBeReversedIff` says exactly when it is accepted, and
  `Reversals.ReversingUndoesRecording` exactly when it takes back what the journal put
  on an account in a store, both in terms of the lines typed.
- `validateJournal` ends with a check for a journal of nothing. No journal reaches
  it (`JournalLaws.AJournalOfNothingIsRefusedEarlier`).
- A schedule is meant to add back to its total. It does exactly when four decimals are
  enough for the down payment asked (`PlanLaws.DraftedAddsBackIff`);
  `Openings.FinerDownPaymentsDoNotAddBack` opens a plan on an invoice of 1.0000 whose
  one instalment is 0.0100 of 0.01004 payable. A down payment that ends exactly half-way
  between two ten-thousandths is refused by the table's own check (`Openings.ColumnsAddUpIff`).
- A collection of more than four decimals passes every guard and is rounded payment by
  payment as it is written. It is refused exactly when less than half a ten-thousandth
  is left for the last instalment it reaches (`Collecting.CollectIsAcceptedIff`), writes
  its amount rounded (`Collecting.CollectKeepsEverything`), and in two parts comes to the
  same as in one exactly when the parts round to the whole
  (`Collecting.CollectingTwiceIsCollectingOnceIff`); `Collecting.FinerCollectionsPart` is
  a case of each.
- The finance charge is parked whole when a plan opens and released in equal
  rounded shares, so a full run releases the charge exactly only when the tenure
  divides it (`IncomeLaws.IncomeFollowsTheMarkup`): a charge of 1.00 over three months
  releases 0.99 (`EarningCases.ThreeThirdsReleaseNinetyNine`). The accrual query looks
  at active plans only, so what a plan paid off early, or cancelled, has not released by
  then it never does (`IncomeLaws.EarningStopsWithThePlan`); that is nothing exactly when
  its rounded shares so far come to the charge
  (`IncomeLaws.EndedPlansHaveReleasedTheirChargeIff`), and 0.67 of the same charge when
  it is cancelled after a month (`EarningCases.CancelledPlansKeepTheRestParked`).
- `ExpireHolds` says it returns how many holds were let go. It counts orders with a
  lapsed row. That is how many it takes something from exactly when each of them still
  holds something (`Holds.SweepCountsWhatItFreesIff`), and how many rows it writes
  exactly when they hold that many items between them (`Holds.SweepAppendsARowForEachHold`).
  `Holds.SweepReportsWhatItDidNotFree` is a ledger for which it reports one and writes
  nothing; it counts the same orders again next time (`Holds.SweepingAgainCountsAgain`).
  An order with one lapsed row loses all its holds (`Holds.ExpiryFreesLapsedOrders`).

## Model

| member | source | states |
|---|---|---|
| AllocationLaws.AllocationIsExact | backend/internal/accounting/posting.go:376-423 | shares exist exactly when every part is positive and there is a unit for each; then one share a part, none below a unit, summing to the total, and the repair's early return is not taken |
| AllocationLaws.RaisingIsExact | backend/internal/accounting/posting.go:431-461 | for every list of shares: all end on the floor or above and none rises further, the sum is kept whenever there is a unit for each, the early return is taken exactly when there is not, and the rounds are at most the shares above the floor |
| AllocationLaws.RepaymentKeepsTheSum | backend/internal/accounting/posting.go:441-460 | the sum of the shares less the unpaid deficit never changes while the largest pay |
| AllocationLaws.RoundsAreBounded | backend/internal/accounting/posting.go:441-460 | each round empties a share or ends the repair |
| AllocationLaws.RaisingIsLargestFirst | backend/internal/accounting/posting.go:425-461 | the repair is the only list of that sum, on the floor, above nobody's lifted share, in which nobody pays while somebody ahead still has something to spare |
| FloorLaws.FloorMovesSharesByAtMostOneUnitIff | backend/internal/accounting/posting.go:373-375 | of every allocation that is accepted, measured from its rounded shares: the floor moves none of them by a unit exactly when there is nothing to raise, and none by more than one exactly when one share at most is raised or nobody has more than one to spare |
| FloorLaws.RepaidInOneStep | backend/internal/accounting/posting.go:441-460 | the paying loop in one step: every share pays what those ahead of it cannot, up to what it has to spare |
| FloorLaws.FloorStaysWithinAUnitIff | backend/internal/accounting/posting.go:373-461 | measured from the exact proportions: the floor leaves every share of an accepted allocation within less than a unit exactly when it costs nobody two units and everybody who pays had been rounded up |
| AllocationLaws.SharesStayWithinAUnit | backend/internal/accounting/posting.go:412-421 | before the floor every share is strictly within one unit of its exact proportion, whatever the quotient's last digit |
| FloorLaws.FloorCanCostOneShareSeveralUnits | backend/internal/accounting/posting.go:373-375 | an input of `allocate` for which one share pays three units and ends almost three below its proportion |
| AllocationLaws.PrefixesFollowTheProportions | backend/internal/accounting/posting.go:412-421 | before the floor, every prefix of the shares is within half a unit of its proportion, up to the quotient's last digit |
| AllocationLaws.FloorStaysNearProportion | backend/internal/accounting/posting.go:412-461 | after the floor, a raised share is within one unit of its proportion, no other has risen, and the others gave up exactly one unit for each share raised |
| AllocationLaws.NoConversionIsTheIdentity | backend/internal/accounting/posting.go:202-210 | one side of whole amounts, allocated their own total: each leg gets its own amount and the floor changes nothing |
| PostingLaws.NoConversionKeepsEveryRow | backend/internal/accounting/posting.go:197-235 | an entry of whole amounts at rate one: only an account that does not stand can stop its rows, and every row's base amount is its own amount, on its own side |
| Allocation.Allocate | backend/internal/accounting/posting.go:376-423 | the loop over cumulative targets computes the specified shares |
| Allocation.ProportionalShares | backend/internal/accounting/posting.go:409-421 | each share is the step between two successive rounded targets |
| Allocation.RaiseToFloor | backend/internal/accounting/posting.go:431-461 | the in-place repair leaves the specified shares, in the specified number of rounds |
| Allocation.LiftToFloor | backend/internal/accounting/posting.go:432-440 | shares below the floor are put on it and the deficit is what that cost |
| Allocation.TakeFromLargest | backend/internal/accounting/posting.go:441-460 | the paying loop ends, with the specified shares |
| Allocation.LargestIndex | backend/internal/accounting/posting.go:442-447 | the first of the largest shares |
| PostingLaws.KeptLinesAreSound | backend/internal/accounting/posting.go:247-284 | what is kept is positive, on a side and names one account, and dropping zero lines moves neither total |
| PostingLaws.SideTotalsAreTotals | backend/internal/accounting/posting.go:304-324 | the two running totals are the sums of the amounts taken on each side, which between them are all the lines |
| PostingLaws.BothSidesAreNamed | backend/internal/accounting/posting.go:247-284 | positive lines that balance sit on both sides, so that neither side is allocated to nobody |
| PostingLaws.PostingRecordsItsLines | backend/internal/accounting/posting.go:144-238 | for every accepted new posting: a row for every line that is not for nothing, in order, on its own account or its role's, in its own store or else the entry's, with its subledger, currency, rate and amount in their columns; each side's base amounts are its allocation of one total, and both come to the debits times the rate, one when none is given, to the nearest unit |
| PostingLaws.RowsAreWrittenIff | backend/internal/accounting/posting.go:190-235 | exactly when the rows can be written: accounts stand, the total has a unit a leg, and no figure vanishes in its column |
| PostingLaws.PostIsAcceptedIff | backend/internal/accounting/posting.go:144-238 | exactly when a posting under a new key is accepted, in terms of the lines, the rate, the period and the chart handed to it: every line that is not for nothing is half a ten-thousandth or more, on a side, and names one account one way, which stands; there are two of them or more and they balance; the rate shows in eight decimals; the period may take the entry; and the debits times the rate reach a unit a leg, to the nearest unit |
| PostingLaws.LinesAreKeptIff | backend/internal/accounting/posting.go:247-284 | lines are refused exactly when one that is not for nothing has a fault, and otherwise those not for nothing are kept, in order |
| PostingLaws.PostAppendsABalancedEntry | backend/internal/accounting/posting.go:144-238 | an accepted new posting appends one entry of two lines or more, whose base columns both come to the debits times the rate to the nearest unit, under its own key, day and company and the next number, in a period that may take it, and touches no other entry or counter |
| PostingLaws.ReplayWritesNothing | backend/internal/accounting/posting.go:545-583 | a known key writes nothing, burns no number and answers with the entry already there |
| LedgerService.CollectUsable | backend/internal/accounting/posting.go:247-284 | the loop keeps the specified lines or gives the first refusal |
| LedgerService.SideTotals | backend/internal/accounting/posting.go:304-314 | the running totals of the two sides |
| LedgerService.CollectAmounts | backend/internal/accounting/posting.go:316-324 | the amounts of one side, in order |
| LedgerService.SwapSides | backend/internal/accounting/posting.go:291-302 | every line on its other side, nothing else changed |
| LedgerService.ResolveAccounts | backend/internal/accounting/posting.go:614-702 | an account for every line, or the refusal for roles first |
| LedgerService.AllocateSides | backend/internal/accounting/posting.go:197-210 | one converted total split over both sides |
| LedgerService.Ledger.InsertEntry | backend/internal/accounting/posting.go:545-583 | the entry already under the key, or a new header under the company's next number; for a company without a counter, nothing |
| LedgerService.Ledger.InsertRows | backend/internal/accounting/posting.go:212-235 | two counters hand each line its share; it stops exactly when a row fails the table's constraints |
| LedgerService.Ledger.WriteLines | backend/internal/accounting/posting.go:190-235 | accounts, shares and rows of a header that has just been written; refused, at most that header with some of its rows is left for the caller to roll back, and nothing that stood has changed |
| LedgerService.Ledger.Post | backend/internal/accounting/posting.go:144-238 | the books gain the one balanced entry and the one number the call is due, or none for a known key; refused, at most its own header and number are left for the caller to roll back, and nothing that stood has changed |
| Rules.ResolveRule | backend/internal/accounting/rules.go:88-122 | a rule in force on the day that no other in force outranks; none exactly when none is in force |
| Rules.TheClosestNewestRuleWins | backend/internal/accounting/rules.go:88-122 | of the rules with the key, for everybody or this country, from the day or before and not ended by it: the country's own where there is one, and of no lower version than any other that applies as closely; none exactly when none applies |
| Rules.BuiltLinesAreWorthTheirTemplate | backend/internal/accounting/rules.go:132-176 | debits less credits of what is built are the signed sum of the named amounts and group totals |
| Rules.BuildsIff | backend/internal/accounting/rules.go:132-189 | exactly when a rule builds: every side reads, every group and amount named is there, and every line or member names an account |
| Rules.GroupsBuildALineEach | backend/internal/accounting/rules.go:132-176 | a line for every member of a group, in order: its role or account, its amount, and the template's side |
| Rules.PostByRuleIsAcceptedIff | backend/internal/accounting/rules.go:197-218 | exactly when posting by any rule is accepted under a new key: one is in force, it builds, and what it builds may post |
| Rules.PostByRuleRecordsWhatTheRuleBuilds | backend/internal/accounting/rules.go:197-218 | what posting by rule appends: an entry under the version of the rule that wins on its day, with a row for every line that rule builds that is not for nothing, worth their debits times the rate to the nearest unit |
| Rules.PostingByRuleNeedsBalancedFigures | backend/internal/accounting/rules.go:197-218 | nothing is posted by a rule unless the figures it names cancel |
| Rules.FlippedRuleBuildsFlippedLines | backend/internal/accounting/rules.go:132-189 | building the side-flipped rule gives the flipped lines, or the same refusal |
| LedgerService.Build | backend/internal/accounting/rules.go:132-176 | the loop builds the specified lines or gives the first refusal |
| LedgerService.Ledger.PostByRule | backend/internal/accounting/rules.go:197-218 | the same, with the lines the rule in force builds |
| JournalLaws.ValidatedJournalsArePostable | backend/internal/accounting/manual.go:366-425 | every journal that passes validation passes `usableLines` and the balance check line for line |
| JournalLaws.AJournalOfNothingIsRefusedEarlier | backend/internal/accounting/manual.go:417-425 | the last check of the validation is never the one that refuses |
| JournalLaws.BlankTextIsSpaces | backend/internal/accounting/manual.go:367 | a reason is blank exactly when it is made of the characters trimming takes away |
| JournalLaws.RecordIsAcceptedIff | backend/internal/accounting/manual.go:132-240 | exactly when a journal under a new identifier is recorded, in terms of what was typed: a reason, a day in an open period, two to two hundred lines each with one positive side of half a ten-thousandth or more on an account that stands, in balance, and a unit a leg to the nearest unit |
| JournalLaws.RecordWritesWhatWasTyped | backend/internal/accounting/manual.go:132-240 | what recording writes: one entry on the journal's day with a row for every typed line, in order, on its account and in its store, its debit and credit in their columns, in the company's currency at par; both base columns come to the total typed, to the nearest unit; and one register row under the company's next number |
| JournalLaws.FilingAddsOneJournal | backend/internal/accounting/manual.go:158-232 | one entry is posted and one register row points at it |
| JournalLaws.TotalsReadBack | backend/internal/accounting/posting.go:732-773 | an entry's lines read back with the totals of its stored columns |
| JournalLaws.EntriesReadBackCut | backend/internal/accounting/posting.go:732-773 | an entry reads back as its lines, in order, with every amount as its column holds it |
| JournalLaws.FlippedEntryUndoesTheTransaction | backend/internal/accounting/manual.go:296-330 | posting the flipped lines moves the same accounts and stores by the opposite transaction amounts, row for row |
| JournalLaws.FlippedRowsTurnRound | backend/internal/accounting/manual.go:296-330 | row for row: the stored debit and credit change places, and account, store and subledger stay |
| JournalLaws.FlippedEntryUndoesTheBaseIff | backend/internal/accounting/manual.go:296-330 | and by the opposite base amounts exactly when the entry's base columns are what its stored amounts are allocated |
| JournalLaws.StandsAtParIff | backend/internal/accounting/posting.go:376-423 | a newly posted entry is in that state exactly when cutting its amounts to four decimals moves no base share |
| BaseBalances.EntriesNetTheirShares | backend/internal/accounting/posting.go:197-235 | an entry whose lines name their accounts puts on each account in each store what its legs there are allocated |
| BaseBalances.FlippedEntriesNet | backend/internal/accounting/manual.go:296-330 | its flipped entry takes off each what the stored amounts are allocated |
| BaseBalances.ReadBackNets | backend/internal/accounting/posting.go:732-773 | and those are what its lines, cut to their columns, are allocated there |
| Reversals.ReverseIsAcceptedIff | backend/internal/accounting/manual.go:248-362 | exactly when a journal not yet reversed can be reversed, in terms of its stored rows |
| Reversals.JournalsCanBeReversedIff | backend/internal/accounting/manual.go:248-362 | the same for any recorded journal at any later moment, in terms of the lines that were typed |
| Reversals.ReversePostsTheOpposite | backend/internal/accounting/manual.go:296-330 | a reversal appends one balanced entry opposite to its original in the transaction columns, whose base total is that of the stored columns |
| Reversals.ReverseWritesTheOpposite | backend/internal/accounting/manual.go:248-362 | what a new reversal writes: one entry on the day of the reversal, naming the entry it reverses, with every row turned round in the company's currency, and one register row naming its journal under the company's next number |
| Reversals.ReversalRestoresTheBaseIff | backend/internal/accounting/manual.go:296-330 | the reversal is opposite in the base columns, row for row, exactly when cutting the typed amounts to four decimals moves no base share |
| Reversals.ReversingUndoesRecording | backend/internal/accounting/manual.go:296-330 | what the reversal adds to an account in a store is what the journal added, taken back, exactly when its lines, allocated by their columns, come to the same there; in the transaction columns always |
| Reversals.FourDecimalJournalsCanBeReversed | backend/internal/accounting/manual.go:296-330 | every journal typed to four decimals meets the condition for being reversed, and for its reversal to take back what it put on every account |
| Reversals.FiveDecimalJournalIsRecorded | backend/internal/accounting/manual.go:132-240 | a journal whose lines balance but whose columns do not is recorded |
| Reversals.FinerAmountsCanBarReversal | backend/internal/accounting/manual.go:248-362 | and can never be reversed, whatever the reason, the day or what was posted since |
| Reversals.SixDecimalJournalCanBeReversed | backend/internal/accounting/manual.go:248-362 | another is recorded and reversed on the spot, and leaves the account it debited one unit below where it was in base |
| Reversals.FinerAmountsCanLeaveATrace | backend/internal/accounting/manual.go:296-330 | it put 149 units on that account, and every reversal of it, whenever made, takes off 150 |
| LedgerInvariants.TrialBalanceIsZero | backend/internal/accounting/posting.go:197-235 | entries in balance leave every company's trial balance at zero |
| LedgerInvariants.PostKeepsTheBooks | backend/internal/accounting/posting.go:144-238 | one posting keeps every entry balanced, one entry a key and the numbers of every company one to n, and only adds at the end |
| RunLaws.JournalsAreNumbered | backend/internal/accounting/manual.go:158-232 | after any run every company's journals are numbered one to n with none missing |
| LedgerInvariants.RecordKeepsTheRegister | backend/internal/accounting/manual.go:132-240 | recording keeps the register; a known identifier answers with its journal and changes nothing |
| LedgerInvariants.ReverseKeepsTheRegister | backend/internal/accounting/manual.go:248-362 | reversing keeps the register: a reversal is never reversed, a journal already reversed answers with its one reversal and changes nothing |
| LedgerService.ValidateJournal | backend/internal/accounting/manual.go:366-425 | the loop finds the first fault, or none |
| LedgerService.Ledger.FileJournal | backend/internal/accounting/manual.go:158-232 | one number, one entry and one register row that names it; refused, only its own company's counters and its own header can have moved |
| LedgerService.Ledger.Record | backend/internal/accounting/manual.go:132-240 | one more journal standing on one more entry, or the journal already recorded and nothing more, or, refused, the register as it was |
| LedgerService.Ledger.ReadLines | backend/internal/accounting/posting.go:732-773 | an entry's lines, row by row |
| LedgerService.Ledger.Reverse | backend/internal/accounting/manual.go:248-362 | one more journal standing on the opposite of its original's entry, or the reversal already made and nothing more, or, refused, the register as it was |
| WholeDivision.CutDownIsWholeDivision | backend/internal/aftersales/installments.go:151-152 | for every tenure the column can hold, the sixteen-digit quotient cut to two decimals is the exact whole-number quotient |
| WholeDivision.CutDownFits | backend/internal/aftersales/installments.go:151-152 | over any amount, what is cut down comes, taken so often, to no more than the amount rounded, and one unit more each to more than the amount |
| WholeDivision.RoundingIsWholeDivision | backend/internal/aftersales/installments.go:481 | and rounded to two decimals it is the exact quotient rounded half up |
| PlanLaws.ScheduleAddsBack | backend/internal/aftersales/installments.go:146-204 | for every total: the schedule sums to it as its column holds it, which is the total exactly when four decimals are enough; every instalment is positive, all but the last are equal, and the last is at least as large, by at most a unit a month, by less when the total is whole |
| PlanLaws.BaseIsWholeDivision | backend/internal/aftersales/installments.go:149-152 | over a whole total an instalment is the exact whole-number quotient |
| PlanLaws.OpenedAsQuoted | backend/internal/aftersales/installments.go:673-703 | the running schedule of a plan has the instalments, charge, final payment and total the closed form quotes, the last two as their columns hold them, falls due month by month, and is its invoice's customer's |
| PlanLaws.QuotesAddUp | backend/internal/aftersales/installments.go:673-703 | exactly when a plan is quoted, and what a quote says: the charge is the rate of what is financed, to the nearest unit, what is payable is the two together, an instalment is as many whole units as fit in as often as there are months, and the final payment is the rest |
| PlanLaws.DraftedFigures | backend/internal/aftersales/installments.go:146-204 | the same of every plan agreed, from its invoice and its request: its charge is the rate of what is financed, to the nearest unit, and its schedule comes to the two together as its column holds it, in the invoice's currency |
| PlanLaws.DraftedAddsBackIff | backend/internal/aftersales/installments.go:146-204 | an agreed schedule comes to what is payable exactly when four decimals are enough for the down payment asked |
| Openings.FinerDownPaymentsDoNotAddBack | backend/internal/aftersales/installments.go:101-236 | a request that is accepted and whose one instalment is less than what is payable |
| Openings.ColumnsAddUpIff | backend/internal/platform/db/migrations/0088_delivery_emi_and_service.sql:481-483 | the financed amount and the down payment, each rounded, add up to the invoice exactly when the down payment does not end half-way between two ten-thousandths |
| Openings.SomethingToSpreadIff | backend/internal/aftersales/installments.go:149-156 | an instalment is positive exactly when the total is a unit a month, to the quotient's last digit |
| Openings.OpenIsAcceptedIff | backend/internal/aftersales/installments.go:101-236 | exactly when a plan is opened under the rule the product ships, in terms of the request, the invoice, the other plans, the rules, the day and the chart |
| Openings.OpeningParksTheCharge | backend/internal/aftersales/installments.go:206-231 | opening adds one plan and, for a charge, one entry under the plan's key and on the starting day, whose two rows put the whole charge onto the receivable and into deferred income |
| Transfers.TransferBuilds | backend/internal/platform/db/migrations/0088_delivery_emi_and_service.sql:629-639 | a shipped two-line rule builds one debit and one credit of the named figure |
| Transfers.TransferIsAcceptedIff | backend/internal/accounting/rules.go:197-218 | exactly when posting by such a rule is accepted: a rule in force, a period that may take it, and both roles on accounts that stand |
| IncomeLaws.EveryChargeIsParkedOnce | backend/internal/aftersales/installments.go:206-231 | after any run that parks as shipped every plan with a charge has exactly one entry under its key, its company's and worth the whole charge |
| PlanService.PlanDesk.InsertSchedule | backend/internal/aftersales/installments.go:186-204 | the loop over months inserts the specified schedule, and fails exactly when an instalment is not positive |
| PlanService.PlanDesk.ParkMarkup | backend/internal/aftersales/installments.go:206-231 | a positive charge is posted by the rule in force under the plan's key, and nothing for none; refused, at most its own header and number are left for the caller to roll back; the register of journals is untouched |
| PlanService.PlanDesk.OpenPlan | backend/internal/aftersales/installments.go:101-236 | one more plan with the quoted schedule and its charge parked, or, refused, every table as it was |
| PlanLaws.TakingKeepsFilling | backend/internal/aftersales/installments.go:361-382 | one more collection on a schedule filled oldest first leaves it filled oldest first, to the new total |
| PlanLaws.FilledIsClearThenPartThenUntouched | backend/internal/aftersales/installments.go:329-382 | such a schedule is clear up to some instalment and untouched after it |
| PlanLaws.MarkedUses | backend/internal/aftersales/installments.go:361-382 | of a whole amount: the payments written are positive, cite one receipt and come to what was collected less what is left over |
| PlanLaws.MarkedAsRounded | backend/internal/aftersales/installments.go:361-382 | of any amount: the payments written are those of the amount rounded, which is not nothing |
| PlanLaws.MarkedUnlessACrumb | backend/internal/aftersales/installments.go:361-382 | they can be written exactly when less than half a ten-thousandth is never what is left for an instalment that owes |
| PlanLaws.WholeAmountsAreMarked | backend/internal/aftersales/installments.go:361-382 | those of a whole amount always can |
| Collecting.CollectIsAcceptedIff | backend/internal/aftersales/installments.go:244-390 | exactly when a collection of any amount is accepted: an active plan, its customer's receipt still standing, within what the receipt has left and what the plan still owes, and no part of it rounding to nothing |
| Collecting.CancelIsAcceptedIff | backend/internal/aftersales/installments.go:706-731 | exactly when a plan is cancelled: a reason, an active plan, its own company; and its status is all that changes |
| Collecting.CollectKeepsThePlan | backend/internal/aftersales/installments.go:361-420 | what is paid stays one oldest-first allocation of all that was collected, and the plan settles exactly when nothing is left |
| Collecting.CollectKeepsEverything | backend/internal/aftersales/installments.go:244-401 | one collection of any amount writes payments totalling its amount rounded, which is its amount exactly when four decimals are enough, on its plan and receipt, and every plan and receipt stays in order |
| Collecting.CollectingTwiceIsCollectingOnce | backend/internal/aftersales/installments.go:361-390 | in amounts of four decimals, collecting a and then b is accepted exactly when a + b is, and leaves the same instalments paid, receipts used and status |
| Collecting.CollectingRounds | backend/internal/aftersales/installments.go:244-401 | a collection that is accepted does what collecting its amount rounded would have done |
| Collecting.CollectingTwiceIsCollectingOnceIff | backend/internal/aftersales/installments.go:361-390 | in any amounts, a and then b leaves what a + b leaves exactly when the two round to the same apart as together |
| Collecting.CollectingTwiceIsAcceptedIff | backend/internal/aftersales/installments.go:244-390 | exactly when a and then b are both accepted, in terms of the shop before either |
| Collecting.FinerCollectionsPart | backend/internal/aftersales/installments.go:361-382 | 0.00004 is refused by the table, 50.00006 collects 50.0001, and 0.00006 twice is not 0.00012 once |
| PlanService.PlanDesk.MarkOff | backend/internal/aftersales/installments.go:361-382 | the loop adds the specified payments and leaves the specified remainder, or stops at one its column rounds to nothing; payments already written stand |
| PlanService.PlanDesk.SettleIfClear | backend/internal/aftersales/installments.go:404-420 | the plan is settled unless something is still owed |
| PlanService.PlanDesk.CollectInstalment | backend/internal/aftersales/installments.go:244-401 | payments of the amount rounded on one plan from one receipt, and the plan settled once clear, or, refused, every table as it was |
| PlanService.PlanDesk.CancelPlan | backend/internal/aftersales/installments.go:706-731 | an active plan is cancelled and nothing else touched, or, refused, every table as it was |
| Accruals.AccrualPostsTheShare | backend/internal/aftersales/installments.go:480-500 | one accrual appends one entry, under the instalment's key and on its day, whose two rows take the share out of deferred income and put it into finance income |
| Accruals.EarnedFollowsTheMarkup | backend/internal/aftersales/installments.go:480-500 | after k instalments what is earned is k rounded shares, within k/2 units of k/tenure of the charge, and over the whole tenure is the charge exactly when the tenure divides it |
| IncomeRuns.EarningKeeps | backend/internal/aftersales/installments.go:480-503 | earning a list of pending instalments adds one entry for each that has a share and touches no other instalment |
| IncomeRuns.AccrueEarnsWhatIsPending | backend/internal/aftersales/installments.go:428-505 | one run of the job earns every pending instalment with a share, once, and counts them |
| IncomeRuns.AccrueEarnsWhatHasFallenDue | backend/internal/aftersales/installments.go:428-505 | after one run of the job an instalment has its entry exactly when it had one, or its plan is this company's, active and charged half a unit a month or more, and its day has come |
| IncomeRuns.AccrueIsAcceptedIff | backend/internal/aftersales/installments.go:428-505 | exactly when the job goes through under the shipped rule: for every pending instalment with a share the rule is in force on its day, the period may take it and both roles stand |
| IncomeRuns.RunKeepsIncome | backend/internal/aftersales/installments.go:428-505 | every run that earns as shipped keeps every instalment's entry worth its plan's share, and adds none to plans that have ended |
| PlanService.PlanDesk.AccrueDue | backend/internal/aftersales/installments.go:428-505 | one entry for each pending instalment with a share, and their count, or, refused, every table as it was |
| Runs.StepKeeps | backend/internal/accounting/posting.go:144-238 | every call, accepted or refused, under any key and any rules, keeps ledger, register, plans and receipts in order and takes nothing back |
| Runs.RunKeeps | backend/internal/accounting/posting.go:144-238 | and so does every run, of any length, in any order |
| RunLaws.BooksAlwaysBalance | backend/internal/platform/db/migrations/0015_posting_engine.sql:304-350 | after any run every trial balance is zero, every entry balances, no key has two entries and every company's entries are numbered one to n |
| RunLaws.ReversalUndoesAcrossAnyRun | backend/internal/accounting/manual.go:296-330 | record, let anything happen, reverse: what the journal put on an account in a store is taken back exactly when its lines, allocated by their columns, come to the same there |
| RunLaws.PostingAgainPostsNothing | backend/internal/accounting/posting.go:545-583 | after any run, a key posted before is refused exactly when its lines or period are, and else answers with the first entry and writes nothing |
| RunLaws.PostingAfterARulePostsNothing | backend/internal/accounting/rules.go:197-218 | the same of a key posted by a rule |
| RunLaws.RecordingAgainPostsNothing | backend/internal/accounting/manual.go:143-156 | after any run, an identifier recorded before answers with the first journal and posts nothing |
| RunLaws.ReversingAgainPostsNothing | backend/internal/accounting/manual.go:265-294 | after any run, a journal reversed before answers with the first reversal and posts nothing |
| RunLaws.ReversalsStayApart | backend/internal/accounting/manual.go:265-294 | every reversal undoes one journal of its company that is no reversal, no journal has two, and no reversal is reversed |
| RunLaws.PlansStayInOrder | backend/internal/aftersales/installments.go:244-420 | after any run, what a plan has been paid is one oldest-first allocation, an active plan owes something and a settled one nothing |
| RunLaws.CollectedIsWhatWasHandedOver | backend/internal/aftersales/installments.go:244-401 | after any run a plan has collected what it had and, once each and to the nearest ten-thousandth, everything handed over by the calls that may collect on it: nothing is lost and nothing else counts |
| RunLaws.ReceiptsAreNeverOverspent | backend/internal/aftersales/installments.go:287-327 | after any run, the payments citing a receipt come to no more than it holds |
| RunLaws.UndoneReceiptsPayNothing | backend/internal/aftersales/installments.go:287-327 | a receipt undone pays nothing from then on, on any plan, after any run |
| IncomeLaws.IncomeFollowsTheMarkup | backend/internal/aftersales/installments.go:428-505 | the bounds on earned income hold of every plan after any run that earns as shipped |
| IncomeLaws.EarningStopsWithThePlan | backend/internal/aftersales/installments.go:430-443 | settled and cancelled plans stay as they are and earn nothing more in any run that earns as shipped |
| IncomeLaws.EndedPlansHaveReleasedTheirChargeIff | backend/internal/aftersales/installments.go:430-443 | a plan that has ended has released its whole charge, after any such run, exactly when the rounded share as often as it had accrued comes to the charge |
| EarningCases.ThreeThirdsReleaseNinetyNine | backend/internal/aftersales/installments.go:480-500 | a run from nothing in which a charge of a hundred units over three months accrues in full and releases ninety-nine |
| EarningCases.CancelledPlansKeepTheRestParked | backend/internal/aftersales/installments.go:430-443 | one in which the plan is cancelled after its first month and, whatever follows, has released thirty-three |
| Holds.ReserveIsAcceptedIff | backend/internal/aftersales/delivery.go:414-456 | exactly when a reservation is accepted: half a ten-thousandth or more, and no more than nobody holds |
| Holds.ReserveKeepsTheLedger | backend/internal/aftersales/delivery.go:414-456 | an accepted reservation adds one held row, its company's, order's and item's, until its deadline, for the quantity to the nearest ten-thousandth; it fits what nobody holds, adds to its own order and item alone, and keeps every net hold from falling below zero |
| Holds.ReleaseLetsGoOfEverything | backend/internal/aftersales/delivery.go:351-404 | after a release its order holds exactly nothing of anything and every other order what it held; of every item just what the order held is free again, and the rows added say whose they are and why |
| Holds.ReleasingAgainDoesNothing | backend/internal/aftersales/delivery.go:351-404 | a second release, for whatever reason, appends no rows |
| Holds.LapsedOrders | backend/internal/aftersales/delivery.go:477-483 | the orders with a lapsed held row, each once |
| Holds.ExpiryFreesLapsedOrders | backend/internal/aftersales/delivery.go:474-508 | after the sweep no order with a held row of the company whose deadline has passed holds anything, every other order holds what it held, the count is of such orders, and every row added releases one of them |
| Holds.SweepCountsWhatItFreesIff | backend/internal/aftersales/delivery.go:468-508 | the count is the number of orders the sweep takes something from exactly when every order with a lapsed row still holds something, and never less |
| Holds.SweepAppendsARowForEachHold | backend/internal/aftersales/delivery.go:474-508 | the sweep appends one row for each item such an order still holds, and the count is that of the rows exactly when they hold as many items as they are orders |
| Holds.SweepReportsWhatItDidNotFree | backend/internal/aftersales/delivery.go:468-508 | a ledger with nothing held, for which the sweep reports one and writes nothing |
| Holds.SweepingAgainCountsAgain | backend/internal/aftersales/delivery.go:468-508 | a second sweep writes nothing and returns the same count |
| HoldLaws.OrdersHoldWhatTheyWerePromised | backend/internal/aftersales/delivery.go:351-508 | after any run of bookings, deliveries, reservations, releases and sweeps an order holds of an item exactly what was reserved for it since it last let go, each to the nearest ten-thousandth |
| ReserveProtocol.NothingIsEverOversold | backend/internal/aftersales/delivery.go:414-456 | however lock, read, insert, commit and rollback of any number of callers interleave with releases, sweeps and arriving stock, nothing is reserved beyond what is on hand and no net hold is negative, even when lock keys collide |
| ReserveProtocol.StepKeeps | backend/internal/aftersales/delivery.go:423-453 | each step keeps the invariant: whoever was told there is enough still has enough |
| ReserveProtocol.CommitKeeps | backend/internal/aftersales/delivery.go:435-453 | a commit does what reserving in one go at that moment would do, whatever happened since the caller looked; it spends its own check and nobody else's |
| ReserveProtocol.AloneItReservesInOneGo | backend/internal/aftersales/delivery.go:414-456 | a caller nobody gets in the way of does exactly what reserving in one go does, refusals included, and gives its lock back |
| ReserveProtocol.OtherWorkIsDone | backend/internal/aftersales/delivery.go:351-508 | between a caller's steps a release or a sweep leaves its orders holding nothing, and stock that arrives is there |
| ReserveProtocol.WithoutTheLockItOversells | backend/internal/aftersales/delivery.go:424-432 | two callers past the check without the lock oversell the last unit |
| DeliveryService.DeliveryDesk.Reserve | backend/internal/aftersales/delivery.go:414-456 | one more held row, positive and within what is free, or, refused, the ledger as it was |
| DeliveryService.DeliveryDesk.ReleaseOrderHolds | backend/internal/aftersales/delivery.go:351-404 | the loop appends the negative of each positive net hold |
| DeliveryService.DeliveryDesk.ReleaseOrder | backend/internal/aftersales/delivery.go:459-466 | the order holds nothing of anything; every other order holds what it held |
| DeliveryService.DeliveryDesk.ExpireHolds | backend/internal/aftersales/delivery.go:474-508 | every order with a lapsed row is released in turn, and counted once |
| DeliveryService.MayFollow | backend/internal/aftersales/delivery.go:24-41 | the walk finds a status exactly when the flow allows it |
| DeliveryService.Progress | backend/internal/aftersales/delivery.go:251-289 | the switch over the new status sets the specified times, reason, attempts and log |
| Deliveries.WaysInto | backend/internal/aftersales/delivery.go:24-41 | the flow read from its ends: the statuses each can be reached from |
| Deliveries.AdvanceIsAcceptedIff | backend/internal/aftersales/delivery.go:209-317 | exactly when a step is accepted; the row's own constraints never have to refuse one |
| Deliveries.AdvanceKeepsTheDepot | backend/internal/aftersales/delivery.go:209-317 | one step is logged and sets its own time, its driver, its reason and its attempt and nothing else; the cash is marked collected exactly when a cash-on-delivery consignment is delivered and the caller says so; every other consignment stays, and its order's holds are let go of exactly on delivery, as consumed, or on return, as released |
| Deliveries.BookingIsAcceptedIff | backend/internal/aftersales/delivery.go:104-188 | exactly when a booking is accepted: an address, no negative figure, cash only on cash on delivery, a committed order of the company, and a driver on the staff where one is named |
| Deliveries.BookingKeeps | backend/internal/aftersales/delivery.go:104-188 | a booking adds one consignment as it was asked for, assigned to its driver where one is named and pending otherwise, and nothing else |
| Deliveries.NoStepLeadsOut | backend/internal/aftersales/delivery.go:24-32 | no step is accepted once a consignment is delivered or returned |
| Deliveries.DeliveredIsForEver | backend/internal/aftersales/delivery.go:24-32 | after any run of any calls a consignment delivered or returned is exactly what it was |
| Deliveries.LogsOnlyGrow | backend/internal/aftersales/delivery.go:209-317 | after any run every consignment's log is what it was with more at the end |
| Deliveries.BookingsStand | backend/internal/aftersales/delivery.go:104-188 | after any run from an accepted booking on, its consignment stands and its log begins where it was booked |
| Deliveries.DeliveriesEndTheSameWay | backend/internal/aftersales/delivery.go:24-32 | a delivered history ends assigned, picked up, out for delivery, delivered |
| Deliveries.ConsignmentsStayInOrder | backend/internal/aftersales/delivery.go:104-317 | after any run each consignment's log is a path of the flow ending at its status, its attempts are the log's, a reason stands exactly while it has failed, its carrier is named, and cash is marked only on a delivered cash-on-delivery consignment |
| Deliveries.DeliveryMarksTheCash | backend/internal/aftersales/delivery.go:251-289 | after any run from an accepted delivery on, the consignment is delivered at that moment and its cash is marked then exactly when it is cash on delivery and the step said it was collected |
| DeliveryService.DeliveryDesk.BookDelivery | backend/internal/aftersales/delivery.go:104-188 | one more consignment with a log of its one booking, or, refused, every table as it was |
| DeliveryService.DeliveryDesk.AdvanceDelivery | backend/internal/aftersales/delivery.go:209-317 | one consignment one logged step further, its order's holds let go of on delivery or return, or, refused, every table as it was |

## Left out

- HTTP handlers, SQL text, row-level security, audit rows and the wording of errors: a call answers with a result or a named reason.
- Text that is only carried: memos, descriptions, notes, the formats of document numbers for journals, plans and deliveries, and the trimming of stored text.
- Overflow of numeric columns and of counters; the formats of source types and currencies; foreign keys other than accounts, periods, customers, orders and staff.
- The decimal library itself is not part of this model; its sixteen-digit division and half-away rounding are, on amounts counted in hundredths.
- Waivers, late fees and `installment_state`: no code here writes a waiver, so a plan's waived amounts are constants, and the status for defaulted plans is never written.
- Calendar arithmetic: due dates are a function of the month given with the plan.
- The order of ties when pending instalments are sorted by date is left open; rows grouped by item are taken in order of first appearance.
- `stock_on_hand` is a parameter of a reservation and, between concurrent callers, a figure that only rises.
- Openings imported from a file (`backend/internal/portability/commit.go:347-423`), which write `journal_entry` and `journal_line` without `Post`: they are not among the calls of a run.
- Concurrency other than `Reserve`: every other transaction, releases included, is one atomic step.
- Hold rows written without an order, and the deletion of users who drive.
- Finance income under opening or accrual rules of another shape, or with accruals posted by hand: what a plan then parks or an instalment earns is whatever was posted. Every other law holds of those runs too.
- `Available`, listings, repairs, warranties, serial numbers, tax tables, backup, rate limiting and the user interface.
