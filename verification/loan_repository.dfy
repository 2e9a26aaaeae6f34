/** The loan repository: exact-match queries over the stored loan records and
    the writes the event reconciler performs. The store is a `Ledger` object
    holding the records in insertion order; `findOne` is the first match in
    that order. */
module LoanRepository {
  import opened Wrappers
  import opened LoanModel

  // ---------------------------------------------------------------------------
  // Queries
  // ---------------------------------------------------------------------------

  /** Position of the first record whose `lsaAddress` is exactly `a`. */
  function FirstIndexByLsa(loans: seq<LoanRecord>, a: string): (r: Option<nat>)
    ensures r.Some? ==> r.value < |loans| && loans[r.value].lsaAddress == a
    ensures r.Some? ==> forall k :: 0 <= k < r.value ==> loans[k].lsaAddress != a
    ensures r.None? <==> forall k :: 0 <= k < |loans| ==> loans[k].lsaAddress != a
    decreases |loans|
  {
    if |loans| == 0 then None
    else if loans[0].lsaAddress == a then Some(0)
    else match FirstIndexByLsa(loans[1..], a)
      case None => None
      case Some(k) => Some(k + 1)
  }

  /** `getUserByLsa`: `findOne({ lsaAddress })`. */
  function FindByLsa(loans: seq<LoanRecord>, a: string): (r: Option<LoanRecord>)
    ensures r.Some? ==> r.value in loans && r.value.lsaAddress == a
    ensures r.None? <==> forall k :: 0 <= k < |loans| ==> loans[k].lsaAddress != a
  {
    match FirstIndexByLsa(loans, a)
    case None => None
    case Some(i) => Some(loans[i])
  }

  /** The records satisfying `keep`, in store order. */
  function Filter(loans: seq<LoanRecord>, keep: LoanRecord -> bool): (r: seq<LoanRecord>)
    ensures |r| <= |loans|
    ensures forall x :: x in r <==> x in loans && keep(x)
    ensures forall x :: multiset(r)[x] == if keep(x) then multiset(loans)[x] else 0
    decreases |loans|
  {
    if |loans| == 0 then []
    else
      assert loans == [loans[0]] + loans[1..];
      if keep(loans[0]) then [loans[0]] + Filter(loans[1..], keep)
      else Filter(loans[1..], keep)
  }

  /** `getUserByWallet`: `find({ wallet })`, all and only the records of `w`. */
  function FindByWallet(loans: seq<LoanRecord>, w: string): (r: seq<LoanRecord>)
    ensures forall x :: x in r <==> x in loans && x.wallet == w
    ensures forall x :: multiset(r)[x] == if x.wallet == w then multiset(loans)[x] else 0
  {
    Filter(loans, (x: LoanRecord) => x.wallet == w)
  }

  /** `getLoansWithAutoRepaymentEnabled`: the records whose flag is set. */
  function WithAutoRepaymentEnabled(loans: seq<LoanRecord>): (r: seq<LoanRecord>)
    ensures forall x :: x in r <==> x in loans && x.autoRepayment.enabled
    ensures forall x :: multiset(r)[x] == if x.autoRepayment.enabled then multiset(loans)[x] else 0
  {
    Filter(loans, (x: LoanRecord) => x.autoRepayment.enabled)
  }

  /** Filtering distributes over concatenation, so it keeps the store order:
      the records a later insert adds come after all earlier matches. */
  lemma {:induction false} FilterConcat(a: seq<LoanRecord>, b: seq<LoanRecord>, keep: LoanRecord -> bool)
    ensures Filter(a + b, keep) == Filter(a, keep) + Filter(b, keep)
    decreases |a|
  {
    if |a| > 0 {
      assert (a + b)[1..] == a[1..] + b;
      FilterConcat(a[1..], b, keep);
    } else {
      assert a + b == b;
    }
  }

  /** Nothing in the store keeps two records from sharing an `lsaAddress`:
      a record appended after another of the same address is stored, yet the
      lookup by address still answers with the earlier one. */
  lemma DuplicateLsaShadowed(loans: seq<LoanRecord>, x: LoanRecord, y: LoanRecord)
    requires FindByLsa(loans, y.lsaAddress) == Some(x)
    ensures y in loans + [y]
    ensures FindByLsa(loans + [y], y.lsaAddress) == Some(x)
  {
    var i := FirstIndexByLsa(loans, y.lsaAddress).value;
    var s := loans + [y];
    assert s[i] == loans[i];
    assert forall k :: 0 <= k < i ==> s[k] == loans[k];
    assert FirstIndexByLsa(s, y.lsaAddress) == Some(i) by {
      FirstIndexUnique(s, y.lsaAddress, i);
    }
  }

  /** The first index is the one before which no record matches. */
  lemma FirstIndexUnique(loans: seq<LoanRecord>, a: string, i: nat)
    requires i < |loans| && loans[i].lsaAddress == a
    requires forall k :: 0 <= k < i ==> loans[k].lsaAddress != a
    ensures FirstIndexByLsa(loans, a) == Some(i)
  {
  }

  // ---------------------------------------------------------------------------
  // Writes
  // ---------------------------------------------------------------------------

  /** The five single-record writes the reconciler issues (`addRepayment`,
      `updateEarlyCloseDate`, `updateLiquidationDate`, `enableAutoRepayment`,
      `disableAutoRepayment`). */
  datatype Update =
    | PushRepayment(repayment: Repayment)
    | SetEarlyCloseDate(closeDateMs: int)
    | SetLiquidationDate(liquidationDateMs: int)
    | EnableAutoRepayment
    | DisableAutoRepayment

  /** One record after `u`, written at `nowMs` (which also becomes `updatedAt`). */
  function ApplyUpdate(rec: LoanRecord, u: Update, nowMs: int): LoanRecord
  {
    match u
    case PushRepayment(rep) => rec.(repayments := rec.repayments + [rep], updatedAt := nowMs)
    case SetEarlyCloseDate(d) => rec.(earlyCloseDate := Some(d), updatedAt := nowMs)
    case SetLiquidationDate(d) => rec.(fullyLiquidatedDate := Some(d), updatedAt := nowMs)
    case EnableAutoRepayment => rec.(autoRepayment := AutoRepaymentState(true, Some(nowMs)), updatedAt := nowMs)
    case DisableAutoRepayment => rec.(autoRepayment := rec.autoRepayment.(enabled := false), updatedAt := nowMs)
  }

  /** The store after applying `u` to the first record of `a`; unchanged when
      `a` has no record. */
  function UpdateByLsa(loans: seq<LoanRecord>, a: string, u: Update, nowMs: int): seq<LoanRecord>
  {
    match FirstIndexByLsa(loans, a)
    case None => loans
    case Some(i) => loans[i := ApplyUpdate(loans[i], u, nowMs)]
  }

  /** The identity and the schema-required fields of a record. */
  predicate SameIdentity(x: LoanRecord, y: LoanRecord) {
    x.wallet == y.wallet && x.lsaAddress == y.lsaAddress && x.deposit == y.deposit
    && x.loan == y.loan && x.collateral == y.collateral
    && x.estimatedMonthlyPayment == y.estimatedMonthlyPayment
    && x.priceAtBuy == y.priceAtBuy && x.salt == y.salt && x.createdAt == y.createdAt
  }

  /** What every write keeps: no record is added or removed, every record keeps
      its identity, each repayment list only grows at its end, and every record
      but the target is untouched. */
  lemma UpdateFrame(loans: seq<LoanRecord>, a: string, u: Update, nowMs: int)
    ensures |UpdateByLsa(loans, a, u, nowMs)| == |loans|
    ensures forall k :: 0 <= k < |loans| ==>
              SameIdentity(UpdateByLsa(loans, a, u, nowMs)[k], loans[k])
              && loans[k].repayments <= UpdateByLsa(loans, a, u, nowMs)[k].repayments
    ensures forall k :: 0 <= k < |loans| && Some(k) != FirstIndexByLsa(loans, a) ==>
              UpdateByLsa(loans, a, u, nowMs)[k] == loans[k]
  {
  }

  /** A write never moves the lookup: the record `getUserByLsa` answers
      with is at the same position afterwards. */
  lemma UpdateKeepsLookup(loans: seq<LoanRecord>, a: string, u: Update, nowMs: int)
    ensures FirstIndexByLsa(UpdateByLsa(loans, a, u, nowMs), a) == FirstIndexByLsa(loans, a)
  {
    UpdateFrame(loans, a, u, nowMs);
    var after := UpdateByLsa(loans, a, u, nowMs);
    match FirstIndexByLsa(loans, a)
    case None =>
    case Some(i) =>
      assert after[i].lsaAddress == a;
      assert forall k :: 0 <= k < i ==> after[k] == loans[k];
      FirstIndexUnique(after, a, i);
  }

  /** A pushed repayment is appended to the target record, after all earlier
      ones, and to no other record. */
  lemma PushRepaymentAppends(loans: seq<LoanRecord>, a: string, rep: Repayment, nowMs: int)
    requires FindByLsa(loans, a).Some?
    ensures var i := FirstIndexByLsa(loans, a).value;
            UpdateByLsa(loans, a, PushRepayment(rep), nowMs)[i].repayments == loans[i].repayments + [rep]
  {
  }

  /** Writes keep every stored record schema-valid. */
  lemma UpdateKeepsSchema(loans: seq<LoanRecord>, a: string, u: Update, nowMs: int)
    requires forall k :: 0 <= k < |loans| ==> SatisfiesSchema(loans[k])
    ensures forall k :: 0 <= k < |loans| ==> SatisfiesSchema(UpdateByLsa(loans, a, u, nowMs)[k])
  {
    UpdateFrame(loans, a, u, nowMs);
  }

  /** The fields `createLoan` passes to the model: only these five. */
  function CreateLoanFields(wallet: string, lsaAddress: string, collateral: string, deposit: string, loan: string): LoanFields
  {
    LoanFields(Some(wallet), Some(lsaAddress), Some(deposit), Some(loan), Some(collateral), None, None, None)
  }

  /** `createLoan` as written can never save: the schema requires
      `estimatedMonthlyPayment`, `priceAtBuy` and `salt`, which it never sets. */
  lemma CreateLoanAlwaysRejected(wallet: string, lsaAddress: string, collateral: string, deposit: string, loan: string, nowMs: int)
    ensures var r := NewLoanDocument(CreateLoanFields(wallet, lsaAddress, collateral, deposit, loan), nowMs);
            r.Err? && EstimatedMonthlyPaymentPath in r.error && PriceAtBuyPath in r.error && SaltPath in r.error
  {
    var f := CreateLoanFields(wallet, lsaAddress, collateral, deposit, loan);
    assert !RequiredString(f.salt);
    assert SaltPath in MissingPaths(f);
    assert EstimatedMonthlyPaymentPath in MissingPaths(f);
    assert PriceAtBuyPath in MissingPaths(f);
  }

  /** The loan store. */
  class Ledger {
    var loans: seq<LoanRecord>

    /** Every stored record passed validation. */
    ghost predicate Valid()
      reads this
    {
      forall k :: 0 <= k < |loans| ==> SatisfiesSchema(loans[k])
    }

    constructor ()
      ensures Valid() && loans == []
    {
      loans := [];
    }

    /** `getUserByLsa`: a stored record of exactly that address, and none
        only when no record has it. */
    function GetUserByLsa(a: string): (r: Option<LoanRecord>)
      reads this
      ensures r.Some? ==> r.value in loans && r.value.lsaAddress == a
      ensures r.None? <==> forall k :: 0 <= k < |loans| ==> loans[k].lsaAddress != a
    {
      FindByLsa(loans, a)
    }

    /** `getUserByWallet`: all and only the records of wallet `w`. */
    function GetUserByWallet(w: string): (r: seq<LoanRecord>)
      reads this
      ensures forall x :: x in r <==> x in loans && x.wallet == w
      ensures forall x :: multiset(r)[x] == if x.wallet == w then multiset(loans)[x] else 0
    {
      FindByWallet(loans, w)
    }

    /** `getAllLoans`: `find()` with no filter. */
    function GetAllLoans(): (r: seq<LoanRecord>)
      reads this
      ensures |r| == |loans| && forall k :: 0 <= k < |r| ==> r[k] == loans[k]
    {
      loans
    }

    /** `getLoansWithAutoRepaymentEnabled`: the records whose flag is set. */
    function GetLoansWithAutoRepaymentEnabled(): (r: seq<LoanRecord>)
      reads this
      ensures forall x :: x in r <==> x in loans && x.autoRepayment.enabled
      ensures forall x :: multiset(r)[x] == if x.autoRepayment.enabled then multiset(loans)[x] else 0
    {
      WithAutoRepaymentEnabled(loans)
    }

    /** `createLoan` as written: builds the document from five fields only, so
        validation always rejects it and nothing is stored. */
    method CreateLoan(wallet: string, lsaAddress: string, collateral: string, deposit: string, loan: string, nowMs: int)
      returns (r: Result<LoanRecord, seq<SchemaPath>>)
      requires Valid()
      modifies this
      ensures Valid()
      ensures r == NewLoanDocument(CreateLoanFields(wallet, lsaAddress, collateral, deposit, loan), nowMs)
      ensures r.Err? && loans == old(loans)
    {
      r := NewLoanDocument(CreateLoanFields(wallet, lsaAddress, collateral, deposit, loan), nowMs);
      CreateLoanAlwaysRejected(wallet, lsaAddress, collateral, deposit, loan, nowMs);
    }

    /** `createLoan` keeping every field its caller passes (the listener's
        `btcPrice` becoming `priceAtBuy`): one new record at the end when
        validation passes, no change otherwise. There is no check for an
        existing record with the same `lsaAddress`. */
    method CreateLoanComplete(f: LoanFields, nowMs: int) returns (r: Result<LoanRecord, seq<SchemaPath>>)
      requires Valid()
      modifies this
      ensures Valid()
      ensures r == NewLoanDocument(f, nowMs)
      ensures r.Ok? ==> loans == old(loans) + [r.value]
      ensures r.Err? ==> loans == old(loans)
    {
      r := NewLoanDocument(f, nowMs);
      if r.Ok? {
        loans := loans + [r.value];
      }
    }

    /** `addRepayment`: appends `rep` to the first record of `a`. */
    method AddRepayment(a: string, rep: Repayment, nowMs: int)
      requires Valid()
      modifies this
      ensures Valid()
      ensures loans == UpdateByLsa(old(loans), a, PushRepayment(rep), nowMs)
    {
      UpdateKeepsSchema(loans, a, PushRepayment(rep), nowMs);
      loans := UpdateByLsa(loans, a, PushRepayment(rep), nowMs);
    }

    /** `updateEarlyCloseDate`: sets the first record's `earlyCloseDate`. */
    method UpdateEarlyCloseDate(a: string, closeDateMs: int, nowMs: int)
      requires Valid()
      modifies this
      ensures Valid()
      ensures loans == UpdateByLsa(old(loans), a, SetEarlyCloseDate(closeDateMs), nowMs)
    {
      UpdateKeepsSchema(loans, a, SetEarlyCloseDate(closeDateMs), nowMs);
      loans := UpdateByLsa(loans, a, SetEarlyCloseDate(closeDateMs), nowMs);
    }

    /** `updateLiquidationDate`: sets the first record's `fullyLiquidatedDate`. */
    method UpdateLiquidationDate(a: string, liquidationDateMs: int, nowMs: int)
      requires Valid()
      modifies this
      ensures Valid()
      ensures loans == UpdateByLsa(old(loans), a, SetLiquidationDate(liquidationDateMs), nowMs)
    {
      UpdateKeepsSchema(loans, a, SetLiquidationDate(liquidationDateMs), nowMs);
      loans := UpdateByLsa(loans, a, SetLiquidationDate(liquidationDateMs), nowMs);
    }

    /** `enableAutoRepayment`: sets the flag and records when. */
    method EnableAutoRepayment(a: string, nowMs: int)
      requires Valid()
      modifies this
      ensures Valid()
      ensures loans == UpdateByLsa(old(loans), a, Update.EnableAutoRepayment, nowMs)
    {
      UpdateKeepsSchema(loans, a, Update.EnableAutoRepayment, nowMs);
      loans := UpdateByLsa(loans, a, Update.EnableAutoRepayment, nowMs);
    }

    /** `disableAutoRepayment`: clears the flag. */
    method DisableAutoRepayment(a: string, nowMs: int)
      requires Valid()
      modifies this
      ensures Valid()
      ensures loans == UpdateByLsa(old(loans), a, Update.DisableAutoRepayment, nowMs)
    {
      UpdateKeepsSchema(loans, a, Update.DisableAutoRepayment, nowMs);
      loans := UpdateByLsa(loans, a, Update.DisableAutoRepayment, nowMs);
    }
  }
}
