/** The loan document of the off-chain ledger (`loanSchema`): one record per
    loan-specific account (LSA), with its append-only list of repayments,
    two terminal dates and the auto-repayment flag. Dates are milliseconds
    since the epoch (the schema's `Date`), `paymentDate` is in seconds. */
module LoanModel {
  import opened Wrappers

  /** The closed `paymentType` enumeration. */
  datatype PaymentType = Regular | MicroLiquidation | AutoRepayment

  /** The string the schema stores for each payment type. */
  function PaymentTypeName(t: PaymentType): string
  {
    match t
    case Regular => "regular"
    case MicroLiquidation => "microLiquidation"
    case AutoRepayment => "autoRepayment"
  }

  /** The schema's `enum` check: which stored strings are payment types. */
  function ParsePaymentType(s: string): (r: Option<PaymentType>)
    ensures r.Some? ==> PaymentTypeName(r.value) == s
  {
    if s == "regular" then Some(Regular)
    else if s == "microLiquidation" then Some(MicroLiquidation)
    else if s == "autoRepayment" then Some(AutoRepayment)
    else None
  }

  /** Exactly the three names are accepted, and each names one type. */
  lemma PaymentTypeEnum(s: string)
    ensures ParsePaymentType(s).Some? <==> s in {"regular", "microLiquidation", "autoRepayment"}
    ensures forall t: PaymentType :: ParsePaymentType(PaymentTypeName(t)) == Some(t)
  {
  }

  /** One entry of `repayments`; `amount` is a decimal integer string. */
  datatype Repayment = Repayment(txHash: string, amount: string, paymentDate: int, paymentType: PaymentType)

  datatype AutoRepaymentState = AutoRepaymentState(enabled: bool, enabledAt: Option<int>)

  /** A saved loan document. `createdAt` / `updatedAt` come from the schema's
      `timestamps` option. */
  datatype LoanRecord = LoanRecord(
    wallet: string,
    lsaAddress: string,
    deposit: string,
    loan: string,
    collateral: string,
    estimatedMonthlyPayment: string,
    priceAtBuy: real,
    repayments: seq<Repayment>,
    salt: string,
    earlyCloseDate: Option<int>,
    fullyLiquidatedDate: Option<int>,
    autoRepayment: AutoRepaymentState,
    createdAt: int,
    updatedAt: int)

  /** What `new Loan({...})` is given: every path may be left out. */
  datatype LoanFields = LoanFields(
    wallet: Option<string>,
    lsaAddress: Option<string>,
    deposit: Option<string>,
    loan: Option<string>,
    collateral: Option<string>,
    estimatedMonthlyPayment: Option<string>,
    priceAtBuy: Option<real>,
    salt: Option<string>)

  /** The required paths of the schema, in declaration order. */
  datatype SchemaPath =
    | WalletPath | LsaAddressPath | DepositPath | LoanPath | CollateralPath
    | EstimatedMonthlyPaymentPath | PriceAtBuyPath | SaltPath

  /** A required `String` path is satisfied by a non-empty string only. */
  predicate RequiredString(o: Option<string>) { o.Some? && |o.value| > 0 }

  /** The required paths `fields` fails, in schema order. */
  function MissingPaths(f: LoanFields): (m: seq<SchemaPath>)
    ensures |m| == 0 <==>
      RequiredString(f.wallet) && RequiredString(f.lsaAddress) && RequiredString(f.deposit)
      && RequiredString(f.loan) && RequiredString(f.collateral)
      && RequiredString(f.estimatedMonthlyPayment) && f.priceAtBuy.Some? && RequiredString(f.salt)
  {
    (if RequiredString(f.wallet) then [] else [WalletPath])
    + (if RequiredString(f.lsaAddress) then [] else [LsaAddressPath])
    + (if RequiredString(f.deposit) then [] else [DepositPath])
    + (if RequiredString(f.loan) then [] else [LoanPath])
    + (if RequiredString(f.collateral) then [] else [CollateralPath])
    + (if RequiredString(f.estimatedMonthlyPayment) then [] else [EstimatedMonthlyPaymentPath])
    + (if f.priceAtBuy.Some? then [] else [PriceAtBuyPath])
    + (if RequiredString(f.salt) then [] else [SaltPath])
  }

  /** A saved record satisfies every required path of the schema. */
  predicate SatisfiesSchema(r: LoanRecord) {
    |r.wallet| > 0 && |r.lsaAddress| > 0 && |r.deposit| > 0 && |r.loan| > 0
    && |r.collateral| > 0 && |r.estimatedMonthlyPayment| > 0 && |r.salt| > 0
  }

  /** `new Loan(fields).save()` at time `nowMs`: validation rejects the document
      when a required path is missing; otherwise the defaults are filled in
      (no repayments, both terminal dates null, auto-repayment disabled with no
      `enabledAt`) and both timestamps are the save time. */
  function NewLoanDocument(f: LoanFields, nowMs: int): (r: Result<LoanRecord, seq<SchemaPath>>)
    ensures r.Err? <==> |MissingPaths(f)| > 0
    ensures r.Err? ==> r.error == MissingPaths(f)
    ensures r.Ok? ==> SatisfiesSchema(r.value)
    ensures r.Ok? ==>
      && Some(r.value.wallet) == f.wallet && Some(r.value.lsaAddress) == f.lsaAddress
      && Some(r.value.deposit) == f.deposit && Some(r.value.loan) == f.loan
      && Some(r.value.collateral) == f.collateral
      && Some(r.value.estimatedMonthlyPayment) == f.estimatedMonthlyPayment
      && Some(r.value.priceAtBuy) == f.priceAtBuy && Some(r.value.salt) == f.salt
    ensures r.Ok? ==>
      && r.value.repayments == []
      && r.value.earlyCloseDate == None && r.value.fullyLiquidatedDate == None
      && r.value.autoRepayment == AutoRepaymentState(false, None)
      && r.value.createdAt == nowMs && r.value.updatedAt == nowMs
  {
    var missing := MissingPaths(f);
    if |missing| > 0 then Err(missing)
    else Ok(LoanRecord(
      f.wallet.value, f.lsaAddress.value, f.deposit.value, f.loan.value, f.collateral.value,
      f.estimatedMonthlyPayment.value, f.priceAtBuy.value, [], f.salt.value,
      None, None, AutoRepaymentState(false, None), nowMs, nowMs))
  }

  /** The audit document of a loan's opening transaction (`LoanInitTx`). */
  datatype LoanInitTx = LoanInitTx(lsaAddress: string, loanInitTx: string)
}
