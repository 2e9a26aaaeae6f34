/** The chain event reconciler (`Listeners`): seven subscriptions, each of
    which hands the last log of a delivered batch to its handler; a handler
    checks the event's fields, looks the loan up by its LSA, and applies one
    write to the ledger, or drops the event.

    Chain reads (the `getLoanByLsa` view call, the BTC price, the receipt, the
    transaction and the block) are inputs: `ChainReads` holds what each call
    returned, `None` where it threw. A thrown error anywhere in a handler is
    caught and logged, so it shows here as a dropped event. */
module Reconciler {
  import opened Wrappers
  import opened JsText
  import opened LoanModel
  import opened LoanRepository

  // ---------------------------------------------------------------------------
  // Events and chain reads
  // ---------------------------------------------------------------------------

  /** The decoded `args` of each subscribed event; a field may be absent. */
  datatype EventArgs =
    | LoanCreated(borrower: Option<string>, lsa: Option<string>, loanAmount: Option<int>, collateralAmount: Option<int>)
    | LoanRepaid(lsa: Option<string>, amountRepaid: Option<int>)
    | MicroLiquidationCall(user: Option<string>, debtToCover: Option<int>, liquidator: Option<string>)
    | LoanClosed(lsa: Option<string>)
    | LiquidationCall(user: Option<string>, debtToCover: Option<int>, liquidator: Option<string>)
    | AutoRepaymentCreated(lsa: Option<string>, user: Option<string>)
    | AutoRepaymentCancelled(lsa: Option<string>, user: Option<string>)

  datatype Log = Log(args: EventArgs, transactionHash: string, blockNumber: int)

  /** The `getLoanByLSA` view result (the `DataTypes.LoanData` tuple). */
  datatype LoanView = LoanView(
    borrower: string,
    depositAmount: nat,
    loanAmount: nat,
    collateralAmount: nat,
    estimatedMonthlyPayment: nat,
    duration: nat,
    createdAt: nat,
    insuranceID: nat,
    lastPaymentTimestamp: nat,
    status: nat)

  /** A transaction as `getTransaction` returns it; `to` is null for a
      contract creation. */
  datatype Transaction = Transaction(to: Option<string>)

  datatype ChainReads = ChainReads(
    loanView: Option<LoanView>,
    btcPrice: Option<real>,
    receiptJson: Option<string>,
    transaction: Option<Transaction>,
    blockTimestamp: Option<nat>)

  /** JavaScript truthiness of an address field: present and non-empty. */
  predicate PresentAddress(a: Option<string>) { a.Some? && a.value != "" }

  /** JavaScript truthiness of a `bigint` field: present and not `0n`. */
  predicate PresentAmount(v: Option<int>) { v.Some? && v.value != 0 }

  // ---------------------------------------------------------------------------
  // What a handler does, as a value
  // ---------------------------------------------------------------------------

  datatype DropReason = InvalidArguments | UnknownLoan | ChainReadFailed | AutoRepaymentAddressUnset

  /** The single write a handler decides on, or why it writes nothing. */
  datatype Action =
    | Drop(reason: DropReason)
    | Insert(fields: LoanFields, initTx: LoanInitTx)
    | Write(lsa: string, update: Update)

  /** The loan ledger together with the loan-opening audit records. */
  datatype Store = Store(loans: seq<LoanRecord>, initTxs: seq<LoanInitTx>)

  /** `regular` unless the transaction was sent to the auto-repayment contract
      (addresses compared case-insensitively). */
  function ClassifyPayment(to: Option<string>, autoRepaymentAddress: string): PaymentType
  {
    if to.Some? && ToLower(to.value) == ToLower(autoRepaymentAddress) then AutoRepayment else Regular
  }

  /** The loan-created handler: validate, read the loan back from the chain,
      and insert a record built from the view result. */
  function PlanLoanCreated(ev: Log, chain: ChainReads, checksum: string -> string): Action
    requires ev.args.LoanCreated?
  {
    var a := ev.args;
    if !(PresentAddress(a.borrower) && PresentAddress(a.lsa)
         && PresentAmount(a.collateralAmount) && PresentAmount(a.loanAmount)) then
      Drop(InvalidArguments)
    else if chain.loanView.None? || chain.btcPrice.None? || chain.receiptJson.None?
            || chain.blockTimestamp.None? then
      Drop(ChainReadFailed)
    else
      var v := chain.loanView.value;
      Insert(
        LoanFields(
          wallet := Some(checksum(a.borrower.value)),
          lsaAddress := Some(checksum(a.lsa.value)),
          deposit := Some(IntToDecimal(v.depositAmount)),
          loan := Some(IntToDecimal(v.loanAmount)),
          collateral := Some(IntToDecimal(v.collateralAmount)),
          estimatedMonthlyPayment := Some(IntToDecimal(v.estimatedMonthlyPayment)),
          priceAtBuy := Some(chain.btcPrice.value),
          salt := Some(IntToDecimal(chain.blockTimestamp.value))),
        LoanInitTx(checksum(a.lsa.value), chain.receiptJson.value))
  }

  function PlanLoanRepaid(ev: Log, chain: ChainReads, autoRepaymentAddress: Option<string>, loans: seq<LoanRecord>): Action
    requires ev.args.LoanRepaid?
  {
    var a := ev.args;
    if !(PresentAddress(a.lsa) && PresentAmount(a.amountRepaid)) then Drop(InvalidArguments)
    else if FindByLsa(loans, a.lsa.value).None? then Drop(UnknownLoan)
    else if chain.transaction.None? || chain.blockTimestamp.None? then Drop(ChainReadFailed)
    else if autoRepaymentAddress.None? then Drop(AutoRepaymentAddressUnset)
    else
      var kind := ClassifyPayment(chain.transaction.value.to, autoRepaymentAddress.value);
      Write(a.lsa.value, PushRepayment(Repayment(
        ev.transactionHash, IntToDecimal(a.amountRepaid.value), chain.blockTimestamp.value, kind)))
  }

  function PlanMicroLiquidation(ev: Log, chain: ChainReads, loans: seq<LoanRecord>): Action
    requires ev.args.MicroLiquidationCall?
  {
    var a := ev.args;
    if !(PresentAddress(a.user) && PresentAmount(a.debtToCover)) then Drop(InvalidArguments)
    else if FindByLsa(loans, a.user.value).None? then Drop(UnknownLoan)
    else if chain.blockTimestamp.None? then Drop(ChainReadFailed)
    else
      Write(a.user.value, PushRepayment(Repayment(
        ev.transactionHash, IntToDecimal(a.debtToCover.value), chain.blockTimestamp.value, MicroLiquidation)))
  }

  function PlanLoanClosed(ev: Log, chain: ChainReads, loans: seq<LoanRecord>): Action
    requires ev.args.LoanClosed?
  {
    var a := ev.args;
    if !PresentAddress(a.lsa) then Drop(InvalidArguments)
    else if FindByLsa(loans, a.lsa.value).None? then Drop(UnknownLoan)
    else if chain.blockTimestamp.None? then Drop(ChainReadFailed)
    else Write(a.lsa.value, SetEarlyCloseDate(chain.blockTimestamp.value * 1000))
  }

  function PlanFullLiquidation(ev: Log, chain: ChainReads, loans: seq<LoanRecord>): Action
    requires ev.args.LiquidationCall?
  {
    var a := ev.args;
    if !(PresentAddress(a.user) && PresentAmount(a.debtToCover)) then Drop(InvalidArguments)
    else if FindByLsa(loans, a.user.value).None? then Drop(UnknownLoan)
    else if chain.blockTimestamp.None? then Drop(ChainReadFailed)
    else Write(a.user.value, SetLiquidationDate(chain.blockTimestamp.value * 1000))
  }

  function PlanAutoRepaymentToggle(ev: Log, loans: seq<LoanRecord>): Action
    requires ev.args.AutoRepaymentCreated? || ev.args.AutoRepaymentCancelled?
  {
    var lsa := ev.args.lsa;
    if !PresentAddress(lsa) then Drop(InvalidArguments)
    else if FindByLsa(loans, lsa.value).None? then Drop(UnknownLoan)
    else if ev.args.AutoRepaymentCreated? then Write(lsa.value, Update.EnableAutoRepayment)
    else Write(lsa.value, Update.DisableAutoRepayment)
  }

  /** The handler of whichever subscription delivered `ev`. */
  function Plan(ev: Log, chain: ChainReads, autoRepaymentAddress: Option<string>,
                checksum: string -> string, loans: seq<LoanRecord>): Action
  {
    match ev.args
    case LoanCreated(_, _, _, _) => PlanLoanCreated(ev, chain, checksum)
    case LoanRepaid(_, _) => PlanLoanRepaid(ev, chain, autoRepaymentAddress, loans)
    case MicroLiquidationCall(_, _, _) => PlanMicroLiquidation(ev, chain, loans)
    case LoanClosed(_) => PlanLoanClosed(ev, chain, loans)
    case LiquidationCall(_, _, _) => PlanFullLiquidation(ev, chain, loans)
    case AutoRepaymentCreated(_, _) => PlanAutoRepaymentToggle(ev, loans)
    case AutoRepaymentCancelled(_, _) => PlanAutoRepaymentToggle(ev, loans)
  }

  /** The store after performing `action` at `nowMs`. An insert that fails
      validation writes nothing, and the audit record is saved only after the
      loan record was. */
  function ApplyAction(st: Store, action: Action, nowMs: int): Store
  {
    match action
    case Drop(_) => st
    case Insert(f, tx) =>
      (match NewLoanDocument(f, nowMs)
       case Ok(rec) => Store(st.loans + [rec], st.initTxs + [tx])
       case Err(_) => st)
    case Write(a, u) => Store(UpdateByLsa(st.loans, a, u, nowMs), st.initTxs)
  }

  /** One handled event. */
  function Step(st: Store, ev: Log, chain: ChainReads, autoRepaymentAddress: Option<string>,
                checksum: string -> string, nowMs: int): Store
  {
    ApplyAction(st, Plan(ev, chain, autoRepaymentAddress, checksum, st.loans), nowMs)
  }

  /** The address an event names its loan by (`user` for the lending pool's
      liquidation events). */
  function LoanKey(args: EventArgs): Option<string>
  {
    match args
    case LoanCreated(_, lsa, _, _) => lsa
    case LoanRepaid(lsa, _) => lsa
    case MicroLiquidationCall(user, _, _) => user
    case LoanClosed(lsa) => lsa
    case LiquidationCall(user, _, _) => user
    case AutoRepaymentCreated(lsa, _) => lsa
    case AutoRepaymentCancelled(lsa, _) => lsa
  }

  // ---------------------------------------------------------------------------
  // What the handlers guarantee
  // ---------------------------------------------------------------------------

  /** The handler's field check, per event: every address present and
      non-empty, every amount present and non-zero (the liquidator is not
      checked). */
  predicate ArgsValid(args: EventArgs)
  {
    match args
    case LoanCreated(borrower, lsa, loanAmount, collateralAmount) =>
      PresentAddress(borrower) && PresentAddress(lsa) && PresentAmount(collateralAmount) && PresentAmount(loanAmount)
    case LoanRepaid(lsa, amountRepaid) => PresentAddress(lsa) && PresentAmount(amountRepaid)
    case MicroLiquidationCall(user, debtToCover, _) => PresentAddress(user) && PresentAmount(debtToCover)
    case LoanClosed(lsa) => PresentAddress(lsa)
    case LiquidationCall(user, debtToCover, _) => PresentAddress(user) && PresentAmount(debtToCover)
    case AutoRepaymentCreated(lsa, _) => PresentAddress(lsa)
    case AutoRepaymentCancelled(lsa, _) => PresentAddress(lsa)
  }

  /** An event that fails its field check changes nothing. */
  lemma InvalidArgumentsNoWrite(st: Store, ev: Log, chain: ChainReads, addr: Option<string>,
                                checksum: string -> string, nowMs: int)
    requires !ArgsValid(ev.args)
    ensures Plan(ev, chain, addr, checksum, st.loans) == Drop(InvalidArguments)
    ensures Step(st, ev, chain, addr, checksum, nowMs) == st
  {
  }

  /** An event about an LSA the ledger does not hold changes nothing; only the
      loan-created event may add a record. */
  lemma UnknownLoanNoWrite(st: Store, ev: Log, chain: ChainReads, addr: Option<string>,
                           checksum: string -> string, nowMs: int)
    requires !ev.args.LoanCreated? && LoanKey(ev.args).Some?
    requires FindByLsa(st.loans, LoanKey(ev.args).value).None?
    ensures Step(st, ev, chain, addr, checksum, nowMs) == st
  {
    var a := LoanKey(ev.args).value;
    assert UpdateByLsa(st.loans, a, Update.DisableAutoRepayment, nowMs) == st.loans;
  }

  /** A valid loan-created event whose chain reads all succeed stores exactly
      one new record, built from the on-chain view (not from the event's own
      amounts), the BTC price and the block timestamp, and one audit record of
      the receipt, when both checksummed addresses are non-empty. */
  lemma LoanCreatedStoresViewRecord(st: Store, ev: Log, chain: ChainReads, addr: Option<string>,
                                    checksum: string -> string, nowMs: int)
    requires ev.args.LoanCreated? && ArgsValid(ev.args)
    requires chain.loanView.Some? && chain.btcPrice.Some? && chain.receiptJson.Some? && chain.blockTimestamp.Some?
    requires |checksum(ev.args.borrower.value)| > 0 && |checksum(ev.args.lsa.value)| > 0
    ensures var st' := Step(st, ev, chain, addr, checksum, nowMs);
            var v := chain.loanView.value;
            && |st'.loans| == |st.loans| + 1 && st'.loans[..|st.loans|] == st.loans
            && st'.initTxs == st.initTxs + [LoanInitTx(checksum(ev.args.lsa.value), chain.receiptJson.value)]
            && var rec := st'.loans[|st.loans|];
            && rec.wallet == checksum(ev.args.borrower.value)
            && rec.lsaAddress == checksum(ev.args.lsa.value)
            && rec.deposit == IntToDecimal(v.depositAmount)
            && rec.loan == IntToDecimal(v.loanAmount)
            && rec.collateral == IntToDecimal(v.collateralAmount)
            && rec.estimatedMonthlyPayment == IntToDecimal(v.estimatedMonthlyPayment)
            && rec.priceAtBuy == chain.btcPrice.value
            && rec.salt == IntToDecimal(chain.blockTimestamp.value)
            && rec.repayments == [] && rec.earlyCloseDate.None? && rec.fullyLiquidatedDate.None?
            && !rec.autoRepayment.enabled && rec.createdAt == nowMs
  {
    var act := Plan(ev, chain, addr, checksum, st.loans);
    var st' := Step(st, ev, chain, addr, checksum, nowMs);
    assert |MissingPaths(act.fields)| == 0;
    var rec := NewLoanDocument(act.fields, nowMs).value;
    assert st'.loans == st.loans + [rec];
    assert st'.loans[..|st.loans|] == st.loans;
  }

  /** The event's own `loanAmount` and `collateralAmount` only gate the
      handler: two valid events for the same borrower and LSA plan the same
      insert. */
  lemma LoanCreatedIgnoresEventAmounts(ev1: Log, ev2: Log, chain: ChainReads, addr: Option<string>,
                                       checksum: string -> string, loans: seq<LoanRecord>)
    requires ev1.args.LoanCreated? && ev2.args.LoanCreated?
    requires ArgsValid(ev1.args) && ArgsValid(ev2.args)
    requires ev1.args.borrower == ev2.args.borrower && ev1.args.lsa == ev2.args.lsa
    ensures Plan(ev1, chain, addr, checksum, loans) == Plan(ev2, chain, addr, checksum, loans)
  {
  }

  /** What the deployed listener inserts: `createLoan` as written forwards only
      the wallet, the LSA and the three amounts to the model, dropping the
      instalment, the price and the salt the listener passes it. */
  function AsWrittenAction(action: Action): Action
  {
    match action
    case Insert(f, tx) => Insert(f.(estimatedMonthlyPayment := None, priceAtBuy := None, salt := None), tx)
    case Drop(_) => action
    case Write(_, _) => action
  }

  /** One handled event, with the deployed `createLoan`. */
  function StepAsWritten(st: Store, ev: Log, chain: ChainReads, autoRepaymentAddress: Option<string>,
                         checksum: string -> string, nowMs: int): Store
  {
    ApplyAction(st, AsWrittenAction(Plan(ev, chain, autoRepaymentAddress, checksum, st.loans)), nowMs)
  }

  /** With `createLoan` as written, the loan-created handler hands validation
      exactly the five fields `CreateLoanFields` builds from the view; it
      rejects them, the save throws before the audit record is written, and
      the store is unchanged. Every other event is handled as by `Step`. */
  lemma LoanCreatedAsWrittenStoresNothing(st: Store, ev: Log, chain: ChainReads, addr: Option<string>,
                                          checksum: string -> string, nowMs: int)
    ensures ev.args.LoanCreated? ==> StepAsWritten(st, ev, chain, addr, checksum, nowMs) == st
    ensures var act := Plan(ev, chain, addr, checksum, st.loans);
            ev.args.LoanCreated? && act.Insert? ==>
              var v := chain.loanView.value;
              AsWrittenAction(act).fields
                == CreateLoanFields(checksum(ev.args.borrower.value), checksum(ev.args.lsa.value),
                                    IntToDecimal(v.collateralAmount), IntToDecimal(v.depositAmount),
                                    IntToDecimal(v.loanAmount))
    ensures !ev.args.LoanCreated? ==> StepAsWritten(st, ev, chain, addr, checksum, nowMs) == Step(st, ev, chain, addr, checksum, nowMs)
  {
    var act := Plan(ev, chain, addr, checksum, st.loans);
    if ev.args.LoanCreated? && act.Insert? {
      var v := chain.loanView.value;
      CreateLoanAlwaysRejected(checksum(ev.args.borrower.value), checksum(ev.args.lsa.value),
                               IntToDecimal(v.collateralAmount), IntToDecimal(v.depositAmount),
                               IntToDecimal(v.loanAmount), nowMs);
    }
  }

  /** Case-insensitive address comparison: lower-casing either address first
      does not change the classification. */
  lemma {:induction false} ClassifyPaymentIgnoresCase(to: string, autoRepaymentAddress: string)
    ensures ClassifyPayment(Some(ToLower(to)), autoRepaymentAddress) == ClassifyPayment(Some(to), autoRepaymentAddress)
    ensures ClassifyPayment(Some(to), ToLower(autoRepaymentAddress)) == ClassifyPayment(Some(to), autoRepaymentAddress)
  {
    ToLowerIdempotent(to);
    ToLowerIdempotent(autoRepaymentAddress);
  }

  /** A repayment is recorded for a valid event of a known LSA once the chain
      reads succeed and the auto-repayment address is configured: exactly one
      entry, appended to that LSA's first record, carrying the log's hash, the
      decimal amount, the block time, and `autoRepayment` exactly when the
      transaction was sent to the auto-repayment contract. */
  lemma LoanRepaidAppendsOne(st: Store, ev: Log, chain: ChainReads, addr: Option<string>,
                             checksum: string -> string, nowMs: int)
    requires ev.args.LoanRepaid? && ArgsValid(ev.args)
    requires FindByLsa(st.loans, ev.args.lsa.value).Some?
    requires chain.transaction.Some? && chain.blockTimestamp.Some? && addr.Some?
    ensures var st' := Step(st, ev, chain, addr, checksum, nowMs);
            var i := FirstIndexByLsa(st.loans, ev.args.lsa.value).value;
            var to := chain.transaction.value.to;
            && |st'.loans| == |st.loans| && st'.initTxs == st.initTxs
            && (forall k :: 0 <= k < |st.loans| && k != i ==> st'.loans[k] == st.loans[k])
            && |st'.loans[i].repayments| == |st.loans[i].repayments| + 1
            && st'.loans[i].repayments[..|st.loans[i].repayments|] == st.loans[i].repayments
            && var rep := st'.loans[i].repayments[|st.loans[i].repayments|];
            && rep.txHash == ev.transactionHash
            && rep.amount == IntToDecimal(ev.args.amountRepaid.value)
            && rep.paymentDate == chain.blockTimestamp.value
            && (rep.paymentType == AutoRepayment <==> to.Some? && ToLower(to.value) == ToLower(addr.value))
            && (rep.paymentType == Regular <==> !(to.Some? && ToLower(to.value) == ToLower(addr.value)))
  {
    var a := ev.args.lsa.value;
    var i := FirstIndexByLsa(st.loans, a).value;
    var st' := Step(st, ev, chain, addr, checksum, nowMs);
    var n := |st.loans[i].repayments|;
    assert st'.loans[i].repayments[..n] == st.loans[i].repayments;
  }

  /** Without a configured auto-repayment address the repayment handler fails
      before writing, so no repayment event is ever recorded. */
  lemma LoanRepaidNeedsAutoRepaymentAddress(st: Store, ev: Log, chain: ChainReads,
                                            checksum: string -> string, nowMs: int)
    requires ev.args.LoanRepaid?
    ensures Step(st, ev, chain, None, checksum, nowMs) == st
  {
  }

  /** A repayment log of a known LSA is one `addRepayment` write. */
  lemma LoanRepaidStep(st: Store, ev: Log, chain: ChainReads, addr: Option<string>,
                       checksum: string -> string, nowMs: int)
    requires ev.args.LoanRepaid? && ArgsValid(ev.args)
    requires FindByLsa(st.loans, ev.args.lsa.value).Some?
    requires chain.transaction.Some? && chain.blockTimestamp.Some? && addr.Some?
    ensures Step(st, ev, chain, addr, checksum, nowMs).loans
            == UpdateByLsa(st.loans, ev.args.lsa.value,
                 PushRepayment(Repayment(ev.transactionHash, IntToDecimal(ev.args.amountRepaid.value),
                                         chain.blockTimestamp.value,
                                         ClassifyPayment(chain.transaction.value.to, addr.value))),
                 nowMs)
  {
  }

  /** Nothing deduplicates by transaction hash: the same repayment log handled
      twice leaves two identical entries. */
  lemma LoanRepaidReplayAppendsTwice(st: Store, ev: Log, chain: ChainReads, addr: Option<string>,
                                     checksum: string -> string, nowMs: int)
    requires ev.args.LoanRepaid? && ArgsValid(ev.args)
    requires FindByLsa(st.loans, ev.args.lsa.value).Some?
    requires chain.transaction.Some? && chain.blockTimestamp.Some? && addr.Some?
    ensures var st2 := Step(Step(st, ev, chain, addr, checksum, nowMs), ev, chain, addr, checksum, nowMs);
            var i := FirstIndexByLsa(st.loans, ev.args.lsa.value).value;
            var rep := Repayment(ev.transactionHash, IntToDecimal(ev.args.amountRepaid.value), chain.blockTimestamp.value,
                                 ClassifyPayment(chain.transaction.value.to, addr.value));
            st2.loans[i].repayments == st.loans[i].repayments + [rep, rep]
  {
    var a := ev.args.lsa.value;
    var rep := Repayment(ev.transactionHash, IntToDecimal(ev.args.amountRepaid.value), chain.blockTimestamp.value,
                         ClassifyPayment(chain.transaction.value.to, addr.value));
    var st1 := Step(st, ev, chain, addr, checksum, nowMs);
    LoanRepaidStep(st, ev, chain, addr, checksum, nowMs);
    UpdateKeepsLookup(st.loans, a, PushRepayment(rep), nowMs);
    PushRepaymentAppends(st.loans, a, rep, nowMs);
    LoanRepaidStep(st1, ev, chain, addr, checksum, nowMs);
    PushRepaymentAppends(st1.loans, a, rep, nowMs);
  }

  /** A micro-liquidation of a known LSA (named by the event's `user`) appends
      one `microLiquidation` entry for the debt covered. */
  lemma MicroLiquidationAppendsOne(st: Store, ev: Log, chain: ChainReads, addr: Option<string>,
                                   checksum: string -> string, nowMs: int)
    requires ev.args.MicroLiquidationCall? && ArgsValid(ev.args)
    requires FindByLsa(st.loans, ev.args.user.value).Some? && chain.blockTimestamp.Some?
    ensures var st' := Step(st, ev, chain, addr, checksum, nowMs);
            var i := FirstIndexByLsa(st.loans, ev.args.user.value).value;
            && |st'.loans| == |st.loans| && st'.initTxs == st.initTxs
            && st'.loans[i].repayments == st.loans[i].repayments
                 + [Repayment(ev.transactionHash, IntToDecimal(ev.args.debtToCover.value),
                              chain.blockTimestamp.value, MicroLiquidation)]
            && forall k :: 0 <= k < |st.loans| && k != i ==> st'.loans[k] == st.loans[k]
  {
  }

  /** The closed and full-liquidation events stamp the block time in
      milliseconds on the LSA's first record and change nothing else in it
      but `updatedAt`. */
  lemma TerminalDatesInMilliseconds(st: Store, ev: Log, chain: ChainReads, addr: Option<string>,
                                    checksum: string -> string, nowMs: int)
    requires (ev.args.LoanClosed? || ev.args.LiquidationCall?) && ArgsValid(ev.args)
    requires FindByLsa(st.loans, LoanKey(ev.args).value).Some? && chain.blockTimestamp.Some?
    ensures var st' := Step(st, ev, chain, addr, checksum, nowMs);
            var i := FirstIndexByLsa(st.loans, LoanKey(ev.args).value).value;
            var ms := chain.blockTimestamp.value * 1000;
            && |st'.loans| == |st.loans|
            && (ev.args.LoanClosed? ==> st'.loans[i] == st.loans[i].(earlyCloseDate := Some(ms), updatedAt := nowMs))
            && (ev.args.LiquidationCall? ==> st'.loans[i] == st.loans[i].(fullyLiquidatedDate := Some(ms), updatedAt := nowMs))
  {
  }

  /** The auto-repayment events toggle the flag of a known LSA: creation sets
      it and records when, cancellation clears it and keeps `enabledAt`. */
  lemma AutoRepaymentToggles(st: Store, ev: Log, chain: ChainReads, addr: Option<string>,
                             checksum: string -> string, nowMs: int)
    requires (ev.args.AutoRepaymentCreated? || ev.args.AutoRepaymentCancelled?) && ArgsValid(ev.args)
    requires FindByLsa(st.loans, ev.args.lsa.value).Some?
    ensures var st' := Step(st, ev, chain, addr, checksum, nowMs);
            var i := FirstIndexByLsa(st.loans, ev.args.lsa.value).value;
            && |st'.loans| == |st.loans|
            && (ev.args.AutoRepaymentCreated? ==>
                  st'.loans[i] == st.loans[i].(autoRepayment := AutoRepaymentState(true, Some(nowMs)), updatedAt := nowMs))
            && (ev.args.AutoRepaymentCancelled? ==>
                  st'.loans[i] == st.loans[i].(autoRepayment := AutoRepaymentState(false, st.loans[i].autoRepayment.enabledAt),
                                               updatedAt := nowMs))
  {
    var a := ev.args.lsa.value;
    if ev.args.AutoRepaymentCreated? {
      assert Step(st, ev, chain, addr, checksum, nowMs).loans == UpdateByLsa(st.loans, a, EnableAutoRepayment, nowMs);
    } else {
      assert Step(st, ev, chain, addr, checksum, nowMs).loans == UpdateByLsa(st.loans, a, DisableAutoRepayment, nowMs);
    }
  }

  // ---------------------------------------------------------------------------
  // Invariants over any sequence of handled events
  // ---------------------------------------------------------------------------

  /** One delivered log with what the chain answered and the wall clock. */
  datatype Delivery = Delivery(log: Log, chain: ChainReads, nowMs: int)

  /** The store after handling `ds` in order. */
  function Run(st: Store, ds: seq<Delivery>, addr: Option<string>, checksum: string -> string): Store
    decreases |ds|
  {
    if |ds| == 0 then st
    else Run(Step(st, ds[0].log, ds[0].chain, addr, checksum, ds[0].nowMs), ds[1..], addr, checksum)
  }

  /** `st'` extends `st`: records are only added at the end, every record
      keeps its identity and its earlier repayments, and the audit records
      only grow. */
  predicate Extends(st: Store, st': Store)
  {
    && |st.loans| <= |st'.loans|
    && (forall k :: 0 <= k < |st.loans| ==>
          SameIdentity(st'.loans[k], st.loans[k]) && st.loans[k].repayments <= st'.loans[k].repayments)
    && st.initTxs <= st'.initTxs
  }

  /** Audit records and loan records correspond one to one, by LSA. */
  predicate Aligned(st: Store)
  {
    |st.loans| == |st.initTxs|
    && forall k :: 0 <= k < |st.loans| ==> st.initTxs[k].lsaAddress == st.loans[k].lsaAddress
  }

  lemma StepExtends(st: Store, ev: Log, chain: ChainReads, addr: Option<string>,
                    checksum: string -> string, nowMs: int)
    ensures Extends(st, Step(st, ev, chain, addr, checksum, nowMs))
  {
    var act := Plan(ev, chain, addr, checksum, st.loans);
    if act.Write? {
      UpdateFrame(st.loans, act.lsa, act.update, nowMs);
    }
  }

  /** Each handled event keeps audit and loan records in step: an audit record
      is saved exactly when a loan record is, for the same LSA. */
  lemma StepKeepsAligned(st: Store, ev: Log, chain: ChainReads, addr: Option<string>,
                         checksum: string -> string, nowMs: int)
    requires Aligned(st)
    ensures Aligned(Step(st, ev, chain, addr, checksum, nowMs))
  {
    var act := Plan(ev, chain, addr, checksum, st.loans);
    if act.Write? {
      UpdateFrame(st.loans, act.lsa, act.update, nowMs);
    } else if act.Insert? {
      assert act.fields.lsaAddress == Some(act.initTx.lsaAddress);
    }
  }

  lemma ExtendsTransitive(a: Store, b: Store, c: Store)
    requires Extends(a, b) && Extends(b, c)
    ensures Extends(a, c)
  {
    forall k | 0 <= k < |a.loans|
      ensures a.loans[k].repayments <= c.loans[k].repayments
    {
      assert a.loans[k].repayments <= b.loans[k].repayments;
      assert b.loans[k].repayments <= c.loans[k].repayments;
    }
  }

  /** Over any sequence of events, the ledger is append-only in the sense of
      `Extends`. */
  lemma {:induction false} RunExtends(st: Store, ds: seq<Delivery>, addr: Option<string>, checksum: string -> string)
    ensures Extends(st, Run(st, ds, addr, checksum))
    decreases |ds|
  {
    if |ds| > 0 {
      var st1 := Step(st, ds[0].log, ds[0].chain, addr, checksum, ds[0].nowMs);
      StepExtends(st, ds[0].log, ds[0].chain, addr, checksum, ds[0].nowMs);
      RunExtends(st1, ds[1..], addr, checksum);
      ExtendsTransitive(st, st1, Run(st1, ds[1..], addr, checksum));
    }
  }

  /** Starting from aligned stores (the empty one included), audit and loan
      records stay in one-to-one correspondence. */
  lemma {:induction false} RunKeepsAligned(st: Store, ds: seq<Delivery>, addr: Option<string>, checksum: string -> string)
    requires Aligned(st)
    ensures Aligned(Run(st, ds, addr, checksum))
    decreases |ds|
  {
    if |ds| > 0 {
      StepKeepsAligned(st, ds[0].log, ds[0].chain, addr, checksum, ds[0].nowMs);
      RunKeepsAligned(Step(st, ds[0].log, ds[0].chain, addr, checksum, ds[0].nowMs), ds[1..], addr, checksum);
    }
  }

  // ---------------------------------------------------------------------------
  // The listener object
  // ---------------------------------------------------------------------------

  class Listeners {
    const ledger: Ledger
    /** `rpcConfig.contractAddresses.autoRepayment`; `None` when the
        configuration has no such entry. */
    const autoRepaymentAddress: Option<string>
    /** viem's `getAddress`: an address in checksummed form. */
    const checksum: string -> string
    /** The `LoanInitTx` collection. */
    var initTxLog: seq<LoanInitTx>

    ghost predicate Valid()
      reads this, ledger
    {
      ledger.Valid()
    }

    function State(): Store
      reads this, ledger
    {
      Store(ledger.loans, initTxLog)
    }

    constructor (ledger: Ledger, autoRepaymentAddress: Option<string>, checksum: string -> string)
      requires ledger.Valid()
      ensures Valid()
      ensures this.ledger == ledger && this.autoRepaymentAddress == autoRepaymentAddress
      ensures this.checksum == checksum && initTxLog == []
    {
      this.ledger := ledger;
      this.autoRepaymentAddress := autoRepaymentAddress;
      this.checksum := checksum;
      initTxLog := [];
    }

    /** `init`'s subscription callback: only the last log of the batch is
        handled; an empty batch makes the handler fail on `undefined` and
        writes nothing. */
    method OnLogs(batch: seq<Log>, chain: ChainReads, nowMs: int)
      requires Valid()
      modifies this, ledger
      ensures Valid()
      ensures |batch| == 0 ==> State() == old(State())
      ensures |batch| > 0 ==>
        State() == Step(old(State()), batch[|batch| - 1], chain, autoRepaymentAddress, checksum, nowMs)
    {
      if |batch| == 0 {
        return;
      }
      var ev := batch[|batch| - 1];
      match ev.args
      case LoanCreated(_, _, _, _) => HandleLoanCreatedEvent(ev, chain, nowMs);
      case LoanRepaid(_, _) => HandleLoanRepaidEvent(ev, chain, nowMs);
      case MicroLiquidationCall(_, _, _) => HandleMicroLiquidationEvent(ev, chain, nowMs);
      case LoanClosed(_) => HandleLoanClosedEvent(ev, chain, nowMs);
      case LiquidationCall(_, _, _) => HandleFullLiquidationEvent(ev, chain, nowMs);
      case AutoRepaymentCreated(_, _) => HandleAutoRepaymentCreated(ev, nowMs);
      case AutoRepaymentCancelled(_, _) => HandleAutoRepaymentCancelled(ev, nowMs);
    }

    method HandleLoanCreatedEvent(ev: Log, chain: ChainReads, nowMs: int)
      requires Valid() && ev.args.LoanCreated?
      modifies this, ledger
      ensures Valid()
      ensures State() == ApplyAction(old(State()), PlanLoanCreated(ev, chain, checksum), nowMs)
    {
      var a := ev.args;
      if !(PresentAddress(a.borrower) && PresentAddress(a.lsa)
           && PresentAmount(a.collateralAmount) && PresentAmount(a.loanAmount)) {
        return;
      }
      if chain.loanView.None? || chain.btcPrice.None? || chain.receiptJson.None? || chain.blockTimestamp.None? {
        return;
      }
      var loanData := chain.loanView.value;
      var createdAt := IntToDecimal(chain.blockTimestamp.value);
      var fields := LoanFields(
        Some(checksum(a.borrower.value)), Some(checksum(a.lsa.value)),
        Some(IntToDecimal(loanData.depositAmount)), Some(IntToDecimal(loanData.loanAmount)),
        Some(IntToDecimal(loanData.collateralAmount)),
        Some(IntToDecimal(loanData.estimatedMonthlyPayment)),
        Some(chain.btcPrice.value), Some(createdAt));
      var created := ledger.CreateLoanComplete(fields, nowMs);
      if created.Err? {
        return;
      }
      initTxLog := initTxLog + [LoanInitTx(checksum(a.lsa.value), chain.receiptJson.value)];
    }

    method HandleLoanRepaidEvent(ev: Log, chain: ChainReads, nowMs: int)
      requires Valid() && ev.args.LoanRepaid?
      modifies ledger
      ensures Valid()
      ensures State() == ApplyAction(old(State()), PlanLoanRepaid(ev, chain, autoRepaymentAddress, old(ledger.loans)), nowMs)
    {
      var a := ev.args;
      if !(PresentAddress(a.lsa) && PresentAmount(a.amountRepaid)) {
        return;
      }
      var lsaDetails := ledger.GetUserByLsa(a.lsa.value);
      if lsaDetails.None? {
        return;
      }
      if chain.transaction.None? || chain.blockTimestamp.None? {
        return;
      }
      if autoRepaymentAddress.None? {
        return;
      }
      var paymentType := if chain.transaction.value.to.Some?
                            && ToLower(chain.transaction.value.to.value) == ToLower(autoRepaymentAddress.value)
                         then AutoRepayment else Regular;
      ledger.AddRepayment(a.lsa.value,
        Repayment(ev.transactionHash, IntToDecimal(a.amountRepaid.value), chain.blockTimestamp.value, paymentType),
        nowMs);
    }

    method HandleMicroLiquidationEvent(ev: Log, chain: ChainReads, nowMs: int)
      requires Valid() && ev.args.MicroLiquidationCall?
      modifies ledger
      ensures Valid()
      ensures State() == ApplyAction(old(State()), PlanMicroLiquidation(ev, chain, old(ledger.loans)), nowMs)
    {
      var a := ev.args;
      if !(PresentAddress(a.user) && PresentAmount(a.debtToCover)) {
        return;
      }
      var lsa := a.user.value;
      var lsaDetails := ledger.GetUserByLsa(lsa);
      if lsaDetails.None? {
        return;
      }
      if chain.blockTimestamp.None? {
        return;
      }
      ledger.AddRepayment(lsa,
        Repayment(ev.transactionHash, IntToDecimal(a.debtToCover.value), chain.blockTimestamp.value, MicroLiquidation),
        nowMs);
    }

    method HandleLoanClosedEvent(ev: Log, chain: ChainReads, nowMs: int)
      requires Valid() && ev.args.LoanClosed?
      modifies ledger
      ensures Valid()
      ensures State() == ApplyAction(old(State()), PlanLoanClosed(ev, chain, old(ledger.loans)), nowMs)
    {
      if !PresentAddress(ev.args.lsa) {
        return;
      }
      var lsa := ev.args.lsa.value;
      var lsaDetails := ledger.GetUserByLsa(lsa);
      if lsaDetails.None? {
        return;
      }
      if chain.blockTimestamp.None? {
        return;
      }
      var closeDate := chain.blockTimestamp.value * 1000;
      ledger.UpdateEarlyCloseDate(lsa, closeDate, nowMs);
    }

    method HandleFullLiquidationEvent(ev: Log, chain: ChainReads, nowMs: int)
      requires Valid() && ev.args.LiquidationCall?
      modifies ledger
      ensures Valid()
      ensures State() == ApplyAction(old(State()), PlanFullLiquidation(ev, chain, old(ledger.loans)), nowMs)
    {
      var a := ev.args;
      if !(PresentAddress(a.user) && PresentAmount(a.debtToCover)) {
        return;
      }
      var lsa := a.user.value;
      var lsaDetails := ledger.GetUserByLsa(lsa);
      if lsaDetails.None? {
        return;
      }
      if chain.blockTimestamp.None? {
        return;
      }
      var liquidationDate := chain.blockTimestamp.value * 1000;
      ledger.UpdateLiquidationDate(lsa, liquidationDate, nowMs);
    }

    method HandleAutoRepaymentCreated(ev: Log, nowMs: int)
      requires Valid() && ev.args.AutoRepaymentCreated?
      modifies ledger
      ensures Valid()
      ensures State() == ApplyAction(old(State()), PlanAutoRepaymentToggle(ev, old(ledger.loans)), nowMs)
    {
      if !PresentAddress(ev.args.lsa) {
        return;
      }
      var lsa := ev.args.lsa.value;
      var lsaDetails := ledger.GetUserByLsa(lsa);
      if lsaDetails.None? {
        return;
      }
      ledger.EnableAutoRepayment(lsa, nowMs);
    }

    method HandleAutoRepaymentCancelled(ev: Log, nowMs: int)
      requires Valid() && ev.args.AutoRepaymentCancelled?
      modifies ledger
      ensures Valid()
      ensures State() == ApplyAction(old(State()), PlanAutoRepaymentToggle(ev, old(ledger.loans)), nowMs)
    {
      if !PresentAddress(ev.args.lsa) {
        return;
      }
      var lsa := ev.args.lsa.value;
      var lsaDetails := ledger.GetUserByLsa(lsa);
      if lsaDetails.None? {
        return;
      }
      ledger.DisableAutoRepayment(lsa, nowMs);
    }
  }
}
