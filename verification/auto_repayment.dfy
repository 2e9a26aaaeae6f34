/** The auto-repayment scheduler: on every cron tick it walks the loans whose
    auto-repayment flag is set and, for each one that is open and due within
    a day (or overdue), submits the stored monthly payment on chain.

    The wall clock, the repayment transaction and its receipt are inputs: the
    cycle is given the second-resolution time read before each loan and what
    the chain answered for it. */
module AutoRepayment {
  import opened Wrappers
  import opened JsText
  import opened LoanModel
  import opened LoanRepository
  import Reconciler

  /** One month of the repayment schedule, in seconds (30 days). */
  const DAYS_30_IN_SECONDS: int := 30 * 24 * 60 * 60

  /** How early before the due date a payment is submitted, in seconds. */
  const HOURS_24_IN_SECONDS: int := 24 * 60 * 60

  /** When the next instalment falls due, in seconds: thirty days after the
      last recorded repayment, or after the record's creation (stored in
      milliseconds) when there is none. */
  function NextDueDate(loan: LoanRecord): (due: int)
    ensures |loan.repayments| > 0 ==>
      due - DAYS_30_IN_SECONDS == loan.repayments[|loan.repayments| - 1].paymentDate
    ensures |loan.repayments| == 0 ==>
      (due - DAYS_30_IN_SECONDS) * 1000 <= loan.createdAt < (due - DAYS_30_IN_SECONDS + 1) * 1000
  {
    if |loan.repayments| > 0 then
      loan.repayments[|loan.repayments| - 1].paymentDate + DAYS_30_IN_SECONDS
    else
      loan.createdAt / 1000 + DAYS_30_IN_SECONDS
  }

  /** `executeAutoRepayment(lsaAddress, wallet, amount)`. */
  datatype RepaymentCall = RepaymentCall(lsa: string, wallet: string, amount: int)

  /** What the chain did with a submitted repayment. */
  datatype ChainOutcome = SubmitThrew | ReceiptThrew | Mined(success: bool)

  /** What processing one loan came to. */
  datatype LoanReport =
    | SkippedTerminal
    | NotDue(hoursUntilDue: int)
    | AmountRejected
    | Submitted(call: RepaymentCall, overdue: bool, outcome: ChainOutcome)

  /** `processLoan(loan, currentTime)` with the chain answering `outcome`. */
  function ProcessLoan(loan: LoanRecord, currentTime: int, outcome: ChainOutcome): LoanReport
  {
    if loan.earlyCloseDate.Some? || loan.fullyLiquidatedDate.Some? then SkippedTerminal
    else
      var secondsUntilDue := NextDueDate(loan) - currentTime;
      if secondsUntilDue > HOURS_24_IN_SECONDS then NotDue(secondsUntilDue / 60 / 60)
      else match ParseBigInt(loan.estimatedMonthlyPayment)
        case None => AmountRejected
        case Some(amount) =>
          Submitted(RepaymentCall(loan.lsaAddress, loan.wallet, amount), secondsUntilDue < 0, outcome)
  }

  // ---------------------------------------------------------------------------
  // What one decision guarantees
  // ---------------------------------------------------------------------------

  /** A closed or fully liquidated loan is never paid, whatever the time. */
  lemma TerminalLoanNeverSubmitted(loan: LoanRecord, currentTime: int, outcome: ChainOutcome)
    requires loan.earlyCloseDate.Some? || loan.fullyLiquidatedDate.Some?
    ensures ProcessLoan(loan, currentTime, outcome) == SkippedTerminal
  {
  }

  /** A payment is submitted exactly for an open loan due within 24 hours
      (overdue included) whose stored amount is an integer literal. */
  lemma SubmittedIffDue(loan: LoanRecord, currentTime: int, outcome: ChainOutcome)
    ensures ProcessLoan(loan, currentTime, outcome).Submitted? <==>
      && loan.earlyCloseDate.None? && loan.fullyLiquidatedDate.None?
      && NextDueDate(loan) - currentTime <= HOURS_24_IN_SECONDS
      && ParseBigInt(loan.estimatedMonthlyPayment).Some?
  {
  }

  /** The submitted call pays the stored monthly amount from the record's own
      wallet to its own LSA, and is marked overdue exactly when the due date
      has passed; an overdue loan is still paid. */
  lemma SubmittedCallUsesRecord(loan: LoanRecord, currentTime: int, outcome: ChainOutcome)
    requires ProcessLoan(loan, currentTime, outcome).Submitted?
    ensures var r := ProcessLoan(loan, currentTime, outcome);
            && r.call.lsa == loan.lsaAddress && r.call.wallet == loan.wallet
            && ParseBigInt(loan.estimatedMonthlyPayment) == Some(r.call.amount)
            && (r.overdue <==> currentTime > NextDueDate(loan))
            && r.outcome == outcome
  {
  }

  /** A loan reported not due is more than a day away, and the hours are
      rounded down. */
  lemma NotDueHours(loan: LoanRecord, currentTime: int, outcome: ChainOutcome)
    requires ProcessLoan(loan, currentTime, outcome).NotDue?
    ensures var h := ProcessLoan(loan, currentTime, outcome).hoursUntilDue;
            var s := NextDueDate(loan) - currentTime;
            && s > HOURS_24_IN_SECONDS && h >= 24
            && h * 3600 <= s < (h + 1) * 3600
  {
    var s := NextDueDate(loan) - currentTime;
    assert s / 60 / 60 == s / 3600;
  }

  /** The first instalment of a loan created at `createdAtMs` with no
      repayments is submitted from one day before its thirtieth day on. */
  lemma FirstInstalmentWindow(loan: LoanRecord, currentTime: int, outcome: ChainOutcome)
    requires |loan.repayments| == 0
    requires loan.earlyCloseDate.None? && loan.fullyLiquidatedDate.None?
    requires ParseBigInt(loan.estimatedMonthlyPayment).Some?
    ensures ProcessLoan(loan, currentTime, outcome).Submitted? <==>
              currentTime >= loan.createdAt / 1000 + DAYS_30_IN_SECONDS - HOURS_24_IN_SECONDS
  {
  }

  /** A recorded repayment moves the next due date to thirty days after its
      block time. */
  lemma RepaymentResetsDueDate(loans: seq<LoanRecord>, a: string, rep: Repayment, nowMs: int)
    requires FindByLsa(loans, a).Some?
    ensures var i := FirstIndexByLsa(loans, a).value;
            NextDueDate(UpdateByLsa(loans, a, PushRepayment(rep), nowMs)[i]) == rep.paymentDate + DAYS_30_IN_SECONDS
  {
  }

  /** A record the loan-created handler stores is paid, when due, for exactly
      the monthly payment the chain reported. */
  lemma ScheduledAmountIsViewAmount(st: Reconciler.Store, ev: Reconciler.Log, chain: Reconciler.ChainReads,
                                    addr: Option<string>, checksum: string -> string, nowMs: int,
                                    currentTime: int, outcome: ChainOutcome)
    requires ev.args.LoanCreated? && Reconciler.ArgsValid(ev.args)
    requires chain.loanView.Some? && chain.btcPrice.Some? && chain.receiptJson.Some? && chain.blockTimestamp.Some?
    requires |checksum(ev.args.borrower.value)| > 0 && |checksum(ev.args.lsa.value)| > 0
    requires currentTime >= nowMs / 1000 + DAYS_30_IN_SECONDS - HOURS_24_IN_SECONDS
    ensures var st' := Reconciler.Step(st, ev, chain, addr, checksum, nowMs);
            var r := ProcessLoan(st'.loans[|st.loans|], currentTime, outcome);
            && r.Submitted?
            && r.call == RepaymentCall(checksum(ev.args.lsa.value), checksum(ev.args.borrower.value),
                                       chain.loanView.value.estimatedMonthlyPayment)
  {
    Reconciler.LoanCreatedStoresViewRecord(st, ev, chain, addr, checksum, nowMs);
    ParseBigIntOfDecimal(chain.loanView.value.estimatedMonthlyPayment);
  }

  /** Once the full-liquidation event is recorded, the loan is skipped by
      every later cycle. */
  lemma LiquidatedLoanSkipped(st: Reconciler.Store, ev: Reconciler.Log, chain: Reconciler.ChainReads,
                              addr: Option<string>, checksum: string -> string, nowMs: int,
                              currentTime: int, outcome: ChainOutcome)
    requires ev.args.LiquidationCall? && Reconciler.ArgsValid(ev.args)
    requires FindByLsa(st.loans, ev.args.user.value).Some? && chain.blockTimestamp.Some?
    ensures var st' := Reconciler.Step(st, ev, chain, addr, checksum, nowMs);
            var i := FirstIndexByLsa(st.loans, ev.args.user.value).value;
            ProcessLoan(st'.loans[i], currentTime, outcome) == SkippedTerminal
  {
    Reconciler.TerminalDatesInMilliseconds(st, ev, chain, addr, checksum, nowMs);
  }

  /** Once the cancellation event is recorded, the record is no longer among
      those a cycle visits. */
  lemma CancelledLoanNotVisited(st: Reconciler.Store, ev: Reconciler.Log, chain: Reconciler.ChainReads,
                                addr: Option<string>, checksum: string -> string, nowMs: int)
    requires ev.args.AutoRepaymentCancelled? && Reconciler.ArgsValid(ev.args)
    requires FindByLsa(st.loans, ev.args.lsa.value).Some?
    ensures var st' := Reconciler.Step(st, ev, chain, addr, checksum, nowMs);
            var i := FirstIndexByLsa(st.loans, ev.args.lsa.value).value;
            st'.loans[i] !in WithAutoRepaymentEnabled(st'.loans)
  {
    Reconciler.AutoRepaymentToggles(st, ev, chain, addr, checksum, nowMs);
  }

  // ---------------------------------------------------------------------------
  // The scheduler object
  // ---------------------------------------------------------------------------

  class AutoRepaymentScheduler {
    const cronSchedule: string
    /** The handle of the job `start` scheduled last, if not stopped. */
    var cronJob: Option<nat>
    /** Every cron job scheduled and not stopped. */
    var activeJobs: set<nat>
    var nextJobId: nat

    ghost predicate Valid()
      reads this
    {
      && (cronJob.Some? ==> cronJob.value in activeJobs)
      && forall j :: j in activeJobs ==> j < nextJobId
    }

    constructor (cronSchedule: string)
      ensures Valid() && this.cronSchedule == cronSchedule
      ensures cronJob.None? && activeJobs == {}
    {
      this.cronSchedule := cronSchedule;
      cronJob := None;
      activeJobs := {};
      nextJobId := 0;
    }

    /** `start`: schedules a new job and keeps its handle. A job scheduled by
        an earlier `start` is not stopped and keeps running without a handle. */
    method Start()
      requires Valid()
      modifies this
      ensures Valid()
      ensures cronJob == Some(old(nextJobId)) && old(nextJobId) !in old(activeJobs)
      ensures activeJobs == old(activeJobs) + {old(nextJobId)}
    {
      cronJob := Some(nextJobId);
      activeJobs := activeJobs + {nextJobId};
      nextJobId := nextJobId + 1;
    }

    /** `stop`: stops the job of the last `start`, if any, and forgets it. */
    method Stop()
      requires Valid()
      modifies this
      ensures Valid()
      ensures cronJob.None?
      ensures old(cronJob).None? ==> activeJobs == old(activeJobs)
      ensures old(cronJob).Some? ==> activeJobs == old(activeJobs) - {old(cronJob).value}
    {
      if cronJob.Some? {
        activeJobs := activeJobs - {cronJob.value};
        cronJob := None;
      }
    }

    /** `checkAndExecuteRepayments`: one report per loan with the flag set, in
        store order; each loan is decided at the time `clock(i)` read just
        before it and meets the chain's answer `chain(i)`. A failure on one
        loan does not stop the others. */
    method CheckAndExecuteRepayments(ledger: Ledger, clock: nat -> int, chain: nat -> ChainOutcome)
      returns (reports: seq<LoanReport>)
      ensures var loans := WithAutoRepaymentEnabled(ledger.loans);
              && |reports| == |loans|
              && forall i :: 0 <= i < |loans| ==> reports[i] == ProcessLoan(loans[i], clock(i), chain(i))
    {
      var loansWithAutoRepayment := ledger.GetLoansWithAutoRepaymentEnabled();
      assert loansWithAutoRepayment == WithAutoRepaymentEnabled(ledger.loans);
      reports := [];
      if |loansWithAutoRepayment| == 0 {
        return;
      }
      var i := 0;
      while i < |loansWithAutoRepayment|
        invariant 0 <= i <= |loansWithAutoRepayment|
        invariant |reports| == i
        invariant forall k :: 0 <= k < i ==>
                    reports[k] == ProcessLoan(loansWithAutoRepayment[k], clock(k), chain(k))
      {
        var now := clock(i);
        reports := reports + [ProcessLoan(loansWithAutoRepayment[i], now, chain(i))];
        i := i + 1;
      }
    }
  }
}
