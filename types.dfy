/** The enumerations the core shares between its files. */
module Types {

  /** PaymentMethod: the five payment methods a checkout can offer. */
  datatype PaymentMethod = Card | MobileMoney | BankTransfer | ApplePay | GooglePay

  /** The string literal JavaScript uses for each payment method. */
  function MethodName(m: PaymentMethod): (name: string)
    ensures name != ""
  {
    match m
    case Card => "card"
    case MobileMoney => "mobile_money"
    case BankTransfer => "bank_transfer"
    case ApplePay => "apple_pay"
    case GooglePay => "google_pay"
  }

  /** Distinct methods have distinct literals. */
  lemma MethodNameInjective(m1: PaymentMethod, m2: PaymentMethod)
    ensures MethodName(m1) == MethodName(m2) ==> m1 == m2
  {
  }
}
