/** Why a call is refused. Wording and error codes are not modelled, the branch taken is. */
module Refusals {

  datatype Refusal =
    // posting an entry
    | NegativeLine | NotASide | NamesNoAccount | NamesRoleAndAccount | TooFewLines
    | Unbalanced | NegativeRate
    | NoPeriod | PeriodShut | NoCompany
    | RoleUnmapped | AccountNotPostable
    | EmptyPart | TotalTooSmall | CheckViolated
    // posting by rule
    | NoRuleNamed | NoRuleInForce | BadRuleSide | MissingGroup | MissingAmount
    // manual journals
    | NoReason | NoDate | TooManyLines | NoAccount | NegativeAmount | NotOneSide
    | JournalOfNothing | JournalNotFound | IsAReversal | NothingToReverse | UuidTaken
    // instalment plans
    | BadTenure | NegativeDownPayment | NegativeMarkupRate | InvoiceNotFound | WrongCustomer
    | DownPaymentTooLarge | NothingToSpread | InvoiceHasPlan
    | NothingCollected | PlanNotFound | PlanNotActive | ReceiptReversed | ReceiptSpent
    | MoreThanOwed
    // stock holds and deliveries
    | NothingToHold | NotEnoughFree
    | NoAddress | NegativeFee | CodWithoutCod | OrderNotFound | NothingToDeliver
    | NoSuchDriver | DeliveryNotFound | CannotAdvance | NoFailureReason | NoDriver
}
