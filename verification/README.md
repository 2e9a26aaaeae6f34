# loan-app: the off-chain loan ledger, its event reconciler and the auto-repayment scheduler

This project models the core of the loan service of Bank of Crypto Assets in
Dafny. The service keeps an off-chain copy of every on-chain loan. One record
is kept per loan-specific account (LSA). Each record holds the list of its
repayments, the two terminal dates and the auto-repayment flag.

The model covers these parts:

- **Loan schema** (`LoanModel`): the stored record, the `paymentType`
  enumeration and validation of required fields with the schema's defaults.
- **Loan repository** (`LoanRepository`): exact-match queries and the five
  single-record writes, over a `Ledger` object that holds the records in
  insertion order.
- **Event reconciler** (`Reconciler`): the seven chain-event handlers.
  - Each handler is a pure plan (`Plan…`) plus the method of the `Listeners`
    object that performs it. Every method is proved equal to its plan.
  - Run-level invariants cover any sequence of events. Records are only
    appended. Identities never change. Repayment lists only grow. Audit
    records stay aligned with loan records.
- **Auto-repayment scheduler** (`AutoRepayment`): the due-date rule, the
  per-loan decision, and the cron cycle as a loop over the flagged loans.
- **Instalment arithmetic** (`FixedPointMath`): `calculateEMI` on
  arbitrary-precision integers with truncating division.
  - Two scale conventions are assumed, not checked, by the code: the rate is
    given at the internal scale (`10^rDecimals == fixedScale`), and the power
    helper answers at that scale. Under them the instalment is proved within
    one unit of the real-valued annuity formula, with the compounding factor
    read from the power helper's answer (the exact `(1 + R)^n` when that
    helper is exact).
  - Without the first convention, the power is taken of the wrong base.
- **`serializeBigInt`** (`BigIntSerialize`).
- **Date helpers** (`DateUtil`): the month table, `monthsToSeconds`, and the
  `DD MON YYYY` label.
- **Configuration** (`Configuration`): typed environment reads, the section
  loaders, validation and the lazily created shared instance.
- **JavaScript string built-ins** (`JsText`): the ones the core relies on.
  These are `toString` of a `bigint`, `BigInt(string)`, `parseInt`, `trim`,
  `split`, `join` and `toLowerCase`, each with the properties the core uses.

The model treats these as inputs:

- Chain reads: the loan view, the BTC price, receipts, transactions and
  blocks.
- The wall clock.
- The process environment.
- The checksumming of addresses.
- The fixed-point `pow` helper and the internal scale.

Where the code and its type declarations disagree, the model follows the code:

- **Contract addresses.** `src/types/config.ts` declares contract-address
  fields and an auth section that `loadConfig` never builds. The
  configuration model has the four addresses `loadConfig` reads.
- **Auto-repayment address.** `loadConfig` has no auto-repayment address, but
  the repayment handler reads one. The listener therefore takes that address
  as an `Option`. `Reconciler.LoanRepaidNeedsAutoRepaymentAddress` proves
  that without it no repayment event is ever recorded.

The repository file shows only `getUserByLsa`, `getUserByWallet`,
`getAllLoans` and `createLoan`. `getLoansWithAutoRepaymentEnabled`,
`addRepayment`, `updateEarlyCloseDate`, `updateLiquidationDate`,
`enableAutoRepayment` and `disableAutoRepayment` are imported by their callers
but are not part of this model's source. They are modelled from their call
sites:

- A write goes to the first record with that LSA and stamps `updatedAt`.
- Enabling the flag records `enabledAt`.
- Disabling the flag keeps `enabledAt`.

## Model

| member | source | states |
|---|---|---|
| LoanModel.ParsePaymentType | src/models/Loan.ts:42-46 | a stored string accepted as a payment type is that type's name |
| LoanModel.PaymentTypeEnum | src/models/Loan.ts:42-46 | exactly `regular`, `microLiquidation` and `autoRepayment` are accepted, and every type reads back from its own name |
| LoanModel.MissingPaths | src/models/Loan.ts:5-52 | no path is reported missing iff all seven required strings are non-empty and `priceAtBuy` is present |
| LoanModel.NewLoanDocument | src/models/Loan.ts:3-76 | validation fails iff a required path is missing and reports those paths. A saved record is schema-valid and carries exactly the given fields. It starts with no repayments, null terminal dates and auto-repayment off with no `enabledAt`, and both timestamps are the save time |
| LoanRepository.FirstIndexByLsa | src/repository/loan.ts:4-8 | the index found holds the address and no earlier record does; none is found iff no record holds it |
| LoanRepository.FindByLsa | src/repository/loan.ts:4-8 | the record found is stored and has the address; nothing is found iff no stored record has it |
| LoanRepository.Filter | src/repository/loan.ts:10-14 | the result holds all and only the stored records that pass, each as many times as it is stored, and is no longer than the store |
| LoanRepository.FindByWallet | src/repository/loan.ts:10-14 | all and only the stored records of the wallet, with their multiplicities |
| LoanRepository.WithAutoRepaymentEnabled | src/services/autoRepaymentScheduler.ts:57-58 | all and only the stored records whose auto-repayment flag is set, with their multiplicities |
| LoanRepository.FilterConcat | src/repository/loan.ts:10-14 | filtering distributes over concatenation, so results keep store order |
| LoanRepository.DuplicateLsaShadowed | src/repository/loan.ts:4-8 | a second record with an existing LSA is stored, but the lookup still returns the first one |
| LoanRepository.FirstIndexUnique | src/repository/loan.ts:4-8 | a matching index with no match before it is the one the lookup returns |
| LoanRepository.UpdateFrame | src/services/listeners.ts:403-409 | a write adds and removes no record. Every record keeps its identity and its earlier repayments. Every record other than the LSA's first is untouched |
| LoanRepository.UpdateKeepsLookup | src/services/listeners.ts:403-409 | after a write, the lookup by the same LSA returns the same position |
| LoanRepository.PushRepaymentAppends | src/services/listeners.ts:403-409 | `addRepayment` appends exactly the new entry to the target record's repayments |
| LoanRepository.UpdateKeepsSchema | src/services/listeners.ts:403-409 | writes keep every stored record schema-valid |
| LoanRepository.CreateLoanAlwaysRejected | src/repository/loan.ts:20-41 | the document `createLoan` builds always fails validation, on `estimatedMonthlyPayment`, `priceAtBuy` and `salt` |
| LoanRepository.Ledger.constructor | src/models/Loan.ts:78 | an empty, valid store |
| LoanRepository.Ledger.GetUserByLsa | src/repository/loan.ts:4-8 | a stored record with exactly that LSA; none only when no record has it |
| LoanRepository.Ledger.GetUserByWallet | src/repository/loan.ts:10-14 | all and only the stored records of the wallet, with their multiplicities |
| LoanRepository.Ledger.GetAllLoans | src/repository/loan.ts:16-18 | the whole store, record by record in insertion order |
| LoanRepository.Ledger.GetLoansWithAutoRepaymentEnabled | src/services/autoRepaymentScheduler.ts:57-58 | all and only the stored records whose flag is set, with their multiplicities |
| LoanRepository.Ledger.CreateLoan | src/repository/loan.ts:20-41 | as written: always rejected, and the store is unchanged |
| LoanRepository.Ledger.CreateLoanComplete | src/services/listeners.ts:332-342 | with every field passed: one record appended iff validation passes, otherwise no change. The store stays valid |
| LoanRepository.Ledger.AddRepayment | src/services/listeners.ts:403-409 | the store becomes the push of the repayment on the LSA's first record and stays schema-valid |
| LoanRepository.Ledger.UpdateEarlyCloseDate | src/services/listeners.ts:499-502 | the store becomes the LSA's first record with `earlyCloseDate` set; validity kept |
| LoanRepository.Ledger.UpdateLiquidationDate | src/services/listeners.ts:545-548 | the store becomes the LSA's first record with `fullyLiquidatedDate` set; validity kept |
| LoanRepository.Ledger.EnableAutoRepayment | src/services/listeners.ts:587-589 | the flag of the LSA's first record is set and `enabledAt` is the write time; validity kept |
| LoanRepository.Ledger.DisableAutoRepayment | src/services/listeners.ts:626-628 | the flag of the LSA's first record is cleared; validity kept |
| Reconciler.InvalidArgumentsNoWrite | src/services/listeners.ts:311-318 | an event failing its field check is dropped and changes nothing |
| Reconciler.UnknownLoanNoWrite | src/services/listeners.ts:376-382 | an event naming an LSA the ledger does not hold changes nothing |
| Reconciler.LoanCreatedStoresViewRecord | src/services/listeners.ts:300-365 | a valid event with successful chain reads appends one record and one audit record. The amounts come from the on-chain view, the price from the BTC read and the salt from the block time. This holds with the corrected `createLoan` |
| Reconciler.LoanCreatedIgnoresEventAmounts | src/services/listeners.ts:311-342 | the event's own amounts only gate the handler; they never reach the record (with the corrected `createLoan`) |
| Reconciler.ClassifyPaymentIgnoresCase | src/services/listeners.ts:395-401 | the payment type does not depend on the letter case of either address |
| Reconciler.LoanRepaidAppendsOne | src/services/listeners.ts:367-424 | one entry is appended to the LSA's first record, with the hash, decimal amount and block time. It is `autoRepayment` iff the transaction went to the auto-repayment contract, else `regular`. Nothing else changes |
| Reconciler.LoanRepaidNeedsAutoRepaymentAddress | src/services/listeners.ts:395-397 | with no auto-repayment address configured, a repayment event never changes the store |
| Reconciler.LoanRepaidStep | src/services/listeners.ts:403-409 | a handled repayment of a known LSA is exactly one `addRepayment` write |
| Reconciler.LoanRepaidReplayAppendsTwice | src/services/listeners.ts:367-424 | the same repayment log delivered twice is recorded twice; nothing deduplicates by hash |
| Reconciler.MicroLiquidationAppendsOne | src/services/listeners.ts:426-469 | a micro-liquidation appends one `microLiquidation` entry for the debt covered to the record named by `user`; no other record and no audit record changes |
| Reconciler.TerminalDatesInMilliseconds | src/services/listeners.ts:471-563 | closing and full liquidation set their date to the block time times 1000 and touch nothing else but `updatedAt` |
| Reconciler.AutoRepaymentToggles | src/services/listeners.ts:565-641 | creation sets the flag and `enabledAt`; cancellation clears the flag and keeps `enabledAt` |
| Reconciler.StepExtends | src/services/listeners.ts:228-298 | one handled event only appends records, keeps identities and earlier repayments, and only grows the audit log |
| Reconciler.StepKeepsAligned | src/services/listeners.ts:332-349 | one handled event keeps audit records and loan records in one-to-one LSA correspondence, with the corrected `createLoan` |
| Reconciler.ExtendsTransitive | src/services/listeners.ts:228-298 | growth of the store composes |
| Reconciler.RunExtends | src/services/listeners.ts:228-298 | over any sequence of events the store only grows in that sense |
| Reconciler.RunKeepsAligned | src/services/listeners.ts:228-298 | over any sequence of events, audit and loan records stay aligned, with the corrected `createLoan` |
| Reconciler.Listeners.constructor | src/services/listeners.ts:228-232 | a listener over a valid ledger with an empty audit log |
| Reconciler.Listeners.OnLogs | src/services/listeners.ts:228-298 | only the last log of a batch is handled; an empty batch changes nothing |
| Reconciler.LoanCreatedAsWrittenStoresNothing | src/services/listeners.ts:332-349 | with `createLoan` as written, the loan-created handler passes validation only the five fields `createLoan` keeps, and the store, audit records included, is unchanged; every other event is handled as with the corrected `createLoan` |
| Reconciler.Listeners.HandleLoanCreatedEvent | src/services/listeners.ts:300-365 | the new state is the loan-created plan applied to the old one, with the corrected `createLoan` |
| Reconciler.Listeners.HandleLoanRepaidEvent | src/services/listeners.ts:367-424 | the new state is the repayment plan applied to the old one |
| Reconciler.Listeners.HandleMicroLiquidationEvent | src/services/listeners.ts:426-469 | the new state is the micro-liquidation plan applied to the old one |
| Reconciler.Listeners.HandleLoanClosedEvent | src/services/listeners.ts:471-515 | the new state is the loan-closed plan applied to the old one |
| Reconciler.Listeners.HandleFullLiquidationEvent | src/services/listeners.ts:517-563 | the new state is the full-liquidation plan applied to the old one |
| Reconciler.Listeners.HandleAutoRepaymentCreated | src/services/listeners.ts:565-602 | the new state is the toggle plan applied to the old one |
| Reconciler.Listeners.HandleAutoRepaymentCancelled | src/services/listeners.ts:604-641 | the new state is the toggle plan applied to the old one |
| AutoRepayment.NextDueDate | src/services/autoRepaymentScheduler.ts:119-131 | thirty days after the last repayment, or after the creation second (milliseconds rounded down) when there is none |
| AutoRepayment.TerminalLoanNeverSubmitted | src/services/autoRepaymentScheduler.ts:111-116 | a closed or liquidated loan is skipped at any time |
| AutoRepayment.SubmittedIffDue | src/services/autoRepaymentScheduler.ts:134-164 | a payment is submitted iff the loan is open, due within 24 hours or overdue, and its amount parses as a `bigint` |
| AutoRepayment.SubmittedCallUsesRecord | src/services/autoRepaymentScheduler.ts:147-164 | the call pays the parsed stored amount from the record's wallet to its LSA, and is overdue iff the due date has passed |
| AutoRepayment.NotDueHours | src/services/autoRepaymentScheduler.ts:134-144 | a not-due loan is more than a day away, and the reported hours are rounded down |
| AutoRepayment.FirstInstalmentWindow | src/services/autoRepaymentScheduler.ts:127-139 | without repayments, the first payment goes out exactly from one day before the thirtieth day after creation |
| AutoRepayment.RepaymentResetsDueDate | src/services/autoRepaymentScheduler.ts:122-125 | a recorded repayment moves the due date to thirty days after its block time |
| AutoRepayment.ScheduledAmountIsViewAmount | src/services/autoRepaymentScheduler.ts:160-164 | a record stored by the loan-created handler is paid, when due, for exactly the monthly payment the chain reported; with the corrected `createLoan`, since as written no such record is stored |
| AutoRepayment.LiquidatedLoanSkipped | src/services/autoRepaymentScheduler.ts:111-116 | after a recorded full liquidation the loan is skipped by every cycle |
| AutoRepayment.CancelledLoanNotVisited | src/services/autoRepaymentScheduler.ts:57-58 | after a recorded cancellation the record is not among those a cycle visits |
| AutoRepayment.AutoRepaymentScheduler.constructor | src/services/autoRepaymentScheduler.ts:22 | no job is scheduled |
| AutoRepayment.AutoRepaymentScheduler.Start | src/services/autoRepaymentScheduler.ts:27-36 | a new job is scheduled and its handle kept; earlier jobs stay active |
| AutoRepayment.AutoRepaymentScheduler.Stop | src/services/autoRepaymentScheduler.ts:41-47 | the job of the kept handle, if any, is stopped and the handle cleared |
| AutoRepayment.AutoRepaymentScheduler.CheckAndExecuteRepayments | src/services/autoRepaymentScheduler.ts:52-90 | one report per flagged loan, in store order. Each is that loan's decision at the time read just before it, and one loan's failure does not stop the rest |
| FixedPointMath.NatDivBounds | src/utils/math.ts:13 | the quotient is the largest multiple of the divisor not above the dividend |
| FixedPointMath.TruncDivBounds | src/utils/math.ts:34 | `bigint` division leaves a remainder smaller than the divisor with the dividend's sign |
| FixedPointMath.TruncDivNegate | src/utils/math.ts:34 | truncating division is odd in the dividend |
| FixedPointMath.TruncDivExact | src/utils/math.ts:36 | an exact division is unaffected by truncation |
| FixedPointMath.BigPow10 | src/utils/math.ts:12 | `10n ** BigInt(e)` succeeds iff `e` is non-negative, and is then ten to that power |
| FixedPointMath.BigDiv | src/utils/math.ts:13 | `bigint` division succeeds iff the divisor is non-zero |
| FixedPointMath.ZeroRateEvenSplit | src/utils/math.ts:11-14 | at rate zero the instalment is the principal split evenly over the months, in the principal's scale |
| FixedPointMath.CalculateEMIDefinedIff | src/utils/math.ts:4-41 | exactly when the computation succeeds, per branch, and that a negative exponent comes from a negative decimal count |
| FixedPointMath.PowOnlyAtOnePlusR | src/utils/math.ts:17-20 | the power helper is consulted only at one plus the rate |
| FixedPointMath.CalculateEMIClosedForm | src/utils/math.ts:25-40 | the instalment is `P·r·v·f / (v − f)` truncated; the descale factor is the product of the three scales, with the power's scale cancelling exactly |
| FixedPointMath.CalculateEMINonNegative | src/utils/math.ts:25-34 | a positive rate, a non-negative principal and a power above one give a non-negative instalment |
| FixedPointMath.TruncatedAnnuityBound | src/utils/math.ts:25-40 | the truncated closed form is within one unit of the annuity `P·R·G/(G−1)` in the descale factor, for P, R and G read at any positive scales |
| FixedPointMath.InstalmentMatchesAnnuity | src/utils/math.ts:4-41 | when the rate is at the internal scale and the power helper answers at it: `fixedScale + r` is 1 + R, and the instalment is within one unit of `P·R·G/(G−1)` in the descale factor, with P at `10^principalDecimals`, R at `10^rDecimals` and G the power's answer |
| FixedPointMath.AnnuityAtScales | src/utils/math.ts:25-40 | the same bound, once the power helper has answered |
| FixedPointMath.OnePlusRate | src/utils/math.ts:17 | `fixedScale + r` read at `fixedScale` is one plus the rate read at `fixedScale` |
| FixedPointMath.InstalmentMatchesExactAnnuity | src/utils/math.ts:4-41 | when, in addition, the power helper is exact: the instalment is within one unit of the textbook annuity `P·R·(1+R)^n/((1+R)^n−1)` |
| FixedPointMath.RateScaleMismatch | src/utils/math.ts:17 | a rate at a scale other than the internal one makes `fixedScale + r` differ from 1 + R, so the power is of the wrong base |
| FixedPointMath.AnnuityIdentity | src/utils/math.ts:25-36 | the exact quotient of numerator and denominator is the annuity scaled by the descale factor |
| BigIntSerialize.Serialize | src/utils/bigint.ts:1-18 | a `bigint` becomes its decimal string. Arrays and objects keep their shape (length, keys). Other primitives come back unchanged |
| BigIntSerialize.SerializeComponents | src/utils/bigint.ts:5-16 | elements and fields are serialised position by position and key by key |
| BigIntSerialize.SerializeBigIntFree | src/utils/bigint.ts:1-18 | the output holds no `bigint` at any depth |
| BigIntSerialize.SerializeFixesBigIntFree | src/utils/bigint.ts:1-18 | a value with no `bigint` comes back unchanged |
| BigIntSerialize.SerializeIdempotent | src/utils/bigint.ts:1-18 | serialising twice is serialising once |
| BigIntSerialize.SerializedBigIntParses | src/utils/bigint.ts:2-4 | the string a `bigint` becomes reads back as the same `bigint` |
| DateUtil.MonthMapShape | src/utils/date.ts:1-14 | the table is defined on exactly months 0 to 11, with twelve distinct three-letter upper-case labels |
| DateUtil.MonthLabel | src/utils/date.ts:19 | a month in the table gets a three-letter label |
| DateUtil.MonthsToSecondsAdditive | src/utils/date.ts:24-28 | month lengths add up, zero months is zero seconds, and one month is 30 days of 86 400 s (2 592 000 s) |
| DateUtil.PadStart2 | src/utils/date.ts:18 | padding keeps strings of length two or more; shorter ones become two characters ending in the original, padded with zeros |
| DateUtil.DayPartTwoDigits | src/utils/date.ts:18 | every day number up to 99 prints as two digits whose value is the day |
| DateUtil.DateStringRoundTrip | src/utils/date.ts:16-22 | splitting the label at spaces gives back the day, the table's month label and the year |
| Configuration.GetEnvString | src/config/index.ts:91-102 | a set value as it is, else the default, else a missing-key error |
| Configuration.GetEnvNumber | src/config/index.ts:104-121 | a set value that `parseInt` reads gives that number, else a not-a-number error; an unset one gives the default or a missing-key error |
| Configuration.GetEnvBoolean | src/config/index.ts:123-134 | a set value is true iff it lower-cases to `true`; an unset one gives the default or an error |
| Configuration.GetEnvArray | src/config/index.ts:136-147 | a set value always gives a list; an unset one gives the default or an error |
| Configuration.GetEnvArrayItems | src/config/index.ts:146 | one item per comma plus one, each the trimmed piece between commas and holding no comma |
| Configuration.FirstUnset | src/config/index.ts:40-56 | no key is reported iff all are set; a reported key is one of them and unset |
| Configuration.LoadServer | src/config/index.ts:33-38 | fails iff a set `PORT` does not parse; otherwise every field is its read value or default |
| Configuration.LoadDatabase | src/config/index.ts:40-43 | succeeds iff both keys are set, with their values; otherwise names the first unset one |
| Configuration.LoadDeribit | src/config/index.ts:45-56 | succeeds iff all six keys are set, with their values; otherwise names the first unset one |
| Configuration.LoadCoinGecko | src/config/index.ts:58-61 | never fails; unset keys read as empty |
| Configuration.LoadContractAddresses | src/config/index.ts:67-72 | succeeds iff all four addresses are set, with their values; otherwise names the first unset one |
| Configuration.LoadRpc | src/config/index.ts:63-73 | the URL keys, then the chain id, then the addresses, each failing with its own error |
| Configuration.LoadProtocol | src/config/index.ts:75-79 | the interest rate first, then the two fees, each failing with its own error |
| Configuration.LoadConfigSucceedsIff | src/config/index.ts:32-89 | loading succeeds iff every required key is set and every set numeric key parses; a failure names a read that fails |
| Configuration.LoadConfigServerDefaults | src/config/index.ts:33-38 | unset server keys give port 3000 on `0.0.0.0` in `development` |
| Configuration.Validate | src/config/index.ts:149-166 | passes iff the port is in 1..65535 and the environment name is one of the three; the port is checked first |
| Configuration.DefaultServerValid | src/config/index.ts:149-166 | the server defaults pass validation |
| Configuration.Config.constructor | src/config/index.ts:9-11 | the object holds the loaded configuration |
| Configuration.ConfigRegistry.constructor | src/config/index.ts:6 | no instance yet |
| Configuration.ConfigRegistry.GetInstance | src/config/index.ts:13-18 | the first successful call loads and keeps a fresh object; later calls return the same object; a failed load keeps the slot empty |
| JsText.NatToDecimal | src/services/listeners.ts:335-339 | `toString` of a non-negative `bigint` is a non-empty digit string with no leading zero |
| JsText.NatToDecimalValue | src/services/listeners.ts:335-339 | the decimal text of `n` has the value `n` |
| JsText.IntToDecimalInjective | src/services/listeners.ts:406 | distinct amounts are stored as distinct strings |
| JsText.SignOfDecimal | src/utils/bigint.ts:3 | the text starts with `-` iff the number is negative |
| JsText.TrimStart | src/config/index.ts:146 | a suffix of the input that starts with no whitespace |
| JsText.TrimEnd | src/config/index.ts:146 | a prefix of the input that ends with no whitespace |
| JsText.TrimStartDropsWhitespace | src/config/index.ts:146 | only whitespace is dropped from the front |
| JsText.TrimEndDropsWhitespace | src/config/index.ts:146 | only whitespace is dropped from the back |
| JsText.TrimOffset | src/config/index.ts:146 | the trimmed string is a slice of the input |
| JsText.TrimRemovesWhitespace | src/config/index.ts:146 | everything around the trimmed slice is whitespace |
| JsText.TrimEnds | src/config/index.ts:146 | a non-empty trimmed string neither starts nor ends with whitespace |
| JsText.TrimOfTrimmed | src/config/index.ts:146 | a string with no whitespace at either end is its own trim |
| JsText.TrimIdempotent | src/config/index.ts:146 | trimming twice is trimming once |
| JsText.DigitPrefix | src/config/index.ts:114 | the longest prefix of digits |
| JsText.ParseIntOfDecimal | src/config/index.ts:114 | `parseInt` reads back the decimal text of any integer |
| JsText.ParseIntOfDigits | src/config/index.ts:114 | `parseInt` of a digit string is its value |
| JsText.ParseIntOfNegative | src/config/index.ts:114 | `parseInt` of a minus sign followed by digits is the negated value |
| JsText.DigitPrefixAll | src/config/index.ts:114 | a digit string is its own digit prefix |
| JsText.RadixLiteral | src/services/autoRepaymentScheduler.ts:163 | a literal is read iff it is non-empty and every character is a digit of the radix |
| JsText.ParseBigIntOfDecimal | src/services/autoRepaymentScheduler.ts:163 | `BigInt` reads back the decimal text of any integer |
| JsText.ParseBigIntOfDigits | src/services/autoRepaymentScheduler.ts:163 | `BigInt` of a canonical digit string is its value |
| JsText.ParseBigIntOfNegative | src/services/autoRepaymentScheduler.ts:163 | `BigInt` of a minus sign followed by digits is the negated value |
| JsText.Split | src/config/index.ts:146 | `split` always gives at least one piece |
| JsText.SplitCount | src/config/index.ts:146 | one piece per separator plus one |
| JsText.SplitPiecesFree | src/config/index.ts:146 | no piece holds the separator |
| JsText.JoinSplit | src/config/index.ts:146 | joining the pieces gives back the input |
| JsText.SplitPrefix | src/utils/date.ts:21 | a separator-free prefix is glued onto the first piece |
| JsText.SplitJoin | src/utils/date.ts:21 | splitting a join of separator-free pieces gives back the pieces |
| JsText.ToLower | src/config/index.ts:133 | lower-casing keeps the length |
| JsText.ToLowerIdempotent | src/services/listeners.ts:396-397 | lower-casing twice is lower-casing once |

## Left out

- Chain access (the view call, the BTC price, receipts, transactions, blocks, submitting a repayment) is not modelled. Each read is an input, and `None` stands for a call that threw.
- Logging is not modelled. The `try`/`catch` around each handler appears only as the event being dropped.
- Concurrency is not modelled: the handlers are asynchronous and not serialised. The model handles events one at a time, in delivery order.
- Cron timing is not modelled. `checkAndExecuteRepayments` is run when called, with the clock reading before each loan as a parameter.
- The `Date` conversion from a Unix timestamp to a local day, month and year depends on the time zone. `DateUtil.DateString` takes those three numbers as given.
- viem's `getAddress` (checksumming by Keccak hash) is a function parameter of the reconciler.
- `src/utils/bigint.ts`'s `pow` and `fixedScale` are parameters of `FixedPointMath.CalculateEMI`. The file shown holds only `serializeBigInt`.
- The repository writes and `getLoansWithAutoRepaymentEnabled` are not part of this model's source. They are modelled from their call sites, as described above.
- `saveLoanInitTx` is not modelled as a validation. The stored receipt is JSON text and never empty, so the insert of the audit record always succeeds.
- JavaScript numbers are not modelled as floating point. `priceAtBuy` is a `real`. Ports, chain ids, rates and timestamps are integers, and no rounding is modelled.
- `parseInt` is modelled only for decimal radix: optional leading whitespace, a sign, then digits. `BigInt(string)` covers decimal, `0x`, `0o` and `0b` literals with surrounding whitespace. Neither models exponent or separator syntax.
- `BigIntSerialize.Serialize` does not model object key order from `for…in`, inherited properties, or objects other than plain records (such as `Date` or class instances). An object is a map from its own keys.
- `toLowerCase` is modelled on ASCII letters only.
- `Config.getConfig`, `Config.server` and `Config.database` are not modelled. They are field reads of the stored configuration.
- `loadConfig` never calls `validate`; the model keeps the two separate, as the source does.
- AutoRepayment.AutoRepaymentScheduler.Start: a second `start` without `stop` leaves the earlier job running without a handle. This is stated but not prevented, as in the source.
- FixedPointMath.InstalmentMatchesAnnuity: the annuity bound holds only under two scale conventions that `calculateEMI` assumes without checking: `10^rDecimals == fixedScale` and a power answer at scale `fixedScale`. `FixedPointMath.RateScaleMismatch` shows what the first one guards against. How close the power helper is to `(1 + R)^n` is not modelled, because that helper is not part of this model; `FixedPointMath.InstalmentMatchesExactAnnuity` takes its exactness as a hypothesis.
- Reconciler.Listeners.HandleLoanCreatedEvent: the listener class, `Reconciler.Step` and the lemmas about a stored loan-created record use the corrected `createLoan` (`LoanRepository.Ledger.CreateLoanComplete`). With `createLoan` as written, `Reconciler.StepAsWritten` and `Reconciler.LoanCreatedAsWrittenStoresNothing` show that the loan-created event stores nothing.
- AutoRepayment.ProcessLoan: what the chain does with a submitted repayment is only reported back. The success or failure of the receipt changes nothing in the store.

## Findings

| source | as written | input that shows it | evidently intended | confidence | as-written member | corrected member |
|---|---|---|---|---|---|---|
| src/repository/loan.ts:20-41 | `createLoan` builds the document from `wallet`, `lsaAddress`, `collateral`, `deposit` and `loan` only. The `estimatedMonthlyPayment`, `salt` and `btcPrice` its caller passes are dropped, so the schema's required `estimatedMonthlyPayment`, `priceAtBuy` and `salt` are always missing and `save()` rejects every loan | any valid `Loan__LoanCreated` event whose chain reads succeed: nothing is stored, and `saveLoanInitTx` is never reached | store every field the listener passes, with `btcPrice` as `priceAtBuy` | not executed | LoanRepository.CreateLoanAlwaysRejected | LoanRepository.Ledger.CreateLoanComplete |
