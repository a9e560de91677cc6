/** src/pages/user/Withdrawal.tsx: the eligibility flag, the validation
    cascade of the submit handler, the request body it sends and the
    `isSubmitting`/`error`/`success` state around the request. `parsed` is
    `parseFloat` of the amount text; the clock and the request's outcome are
    parameters. */
module WithdrawalForm {
  import opened Base
  import opened Models
  import opened Persistence
  import WithdrawRoutes

  /** The form's inputs. */
  datatype Fields = Fields(amount: string, parsed: JsNumber, withdrawalMethod: string, accountNumber: string, accountName: string)

  /** The body of POST /withdraw as the page sends it. */
  datatype Payload = Payload(amount: JsNumber, withdrawalMethod: string, accountNumber: string, accountName: string)

  /** Eligible once the clock is strictly past the eligibility date. */
  predicate IsEligible(now: int, eligibilityDate: int)
  {
    now > eligibilityDate
  }

  /** `parseFloat(amount) <= 0` and `parseFloat(amount) > limit`: false for NaN. */
  predicate AtMostZero(x: JsNumber) { x.Num? && x.value <= 0.0 }
  predicate Exceeds(x: JsNumber, limit: real) { x.Num? && x.value > limit }

  /** The checks of `handleSubmit`, in order; `balance` is the signed-in
      user's balance, `None` when there is no user or no balance. */
  function Validate(f: Fields, balance: Option<real>, isEligible: bool): Result<Payload, string>
  {
    if f.amount == "" || AtMostZero(f.parsed) then Failure("Please enter a valid amount")
    else if Exceeds(f.parsed, OrZero(balance)) then Failure("Withdrawal amount cannot exceed your available balance")
    else if f.withdrawalMethod == "" then Failure("Please select a withdrawal method")
    else if f.accountNumber == "" then Failure("Please enter your account number")
    else if f.accountName == "" then Failure("Please enter your account name")
    else if !isEligible then Failure("You are not yet eligible for withdrawal")
    else Success(Payload(f.parsed, f.withdrawalMethod, f.accountNumber, f.accountName))
  }

  /** The form submits exactly when every check passes, and then sends its
      own fields; a numeric amount sent is positive and within the balance,
      a missing balance counting as 0. */
  lemma ValidationPasses(f: Fields, balance: Option<real>, isEligible: bool)
    ensures Validate(f, balance, isEligible).Success? <==>
      && f.amount != "" && !AtMostZero(f.parsed) && !Exceeds(f.parsed, OrZero(balance))
      && f.withdrawalMethod != "" && f.accountNumber != "" && f.accountName != "" && isEligible
    ensures Validate(f, balance, isEligible).Success? ==>
      Validate(f, balance, isEligible).value == Payload(f.parsed, f.withdrawalMethod, f.accountNumber, f.accountName)
    ensures Validate(f, balance, isEligible).Success? && f.parsed.Num? ==>
      0.0 < f.parsed.value <= OrZero(balance)
    ensures balance.None? && f.parsed.Num? && f.parsed.value > 0.0 && f.amount != "" ==>
      Validate(f, balance, isEligible) == Failure("Withdrawal amount cannot exceed your available balance")
  {
  }

  /** The first failing check decides the message: an ineligible user whose
      form also lacks an account number is told about the account number,
      and an amount over the balance is reported before anything else
      missing. */
  lemma FirstFailureWins(f: Fields, balance: Option<real>)
    ensures f.amount != "" && !AtMostZero(f.parsed) && !Exceeds(f.parsed, OrZero(balance))
            && f.withdrawalMethod != "" && f.accountNumber == "" ==>
      Validate(f, balance, false) == Failure("Please enter your account number")
    ensures f.amount != "" && !AtMostZero(f.parsed) && Exceeds(f.parsed, OrZero(balance)) ==>
      Validate(f, balance, false) == Failure("Withdrawal amount cannot exceed your available balance")
    ensures f.amount == "" ==> Validate(f, balance, true) == Failure("Please enter a valid amount")
  {
  }

  /** A text that parses to NaN passes both amount checks. */
  lemma NaNAmountPasses(f: Fields, balance: Option<real>)
    requires f.amount != "" && f.parsed == NaN
    requires f.withdrawalMethod != "" && f.accountNumber != "" && f.accountName != ""
    ensures Validate(f, balance, true) == Success(Payload(NaN, f.withdrawalMethod, f.accountNumber, f.accountName))
  {
  }

  /** The route reads `amount`, `method` and `accountDetails` from the body;
      the page's body has no `accountDetails`, so it arrives empty. */
  function AsReceived(p: Payload): (string, string)
  {
    (p.withdrawalMethod, "")
  }

  /** As written, no submission from this page is ever stored: whatever the
      server's state, the route answers with an error and creates no
      withdrawal. */
  lemma FormNeverStoresWithdrawal(r: Rules, db: Db, caller: UserId, p: Payload, now: int)
    requires caller < |db.users| && p.amount.Num?
    ensures var o := WithdrawRoutes.SubmitWithdrawal(r, db, caller, p.amount.value, AsReceived(p).0, AsReceived(p).1, now);
      o.reply.Err? && o.db == db
  {
  }

  /** The account details the page evidently means to send: the account
      name and number together. */
  function AccountDetails(p: Payload): (d: string)
    ensures p.accountName != "" ==> d != ""
  {
    p.accountName + " " + p.accountNumber
  }

  /** With the account details sent, a validated form from an eligible user
      with the balance, for at least the minimum amount, is stored: the
      withdrawal is created with those details and the balance debited. */
  lemma FormStoresWithdrawal(db: Db, caller: UserId, f: Fields, balance: Option<real>, now: int)
    requires caller < |db.users|
    requires Validate(f, balance, true).Success? && f.parsed.Num?
    requires WithdrawRoutes.CheckEligibility(db.users[caller], now).None?
    requires f.parsed.value >= MinAmount && f.withdrawalMethod in PaymentMethods
    requires db.users[caller].balance >= f.parsed.value
    ensures var p := Validate(f, balance, true).value;
      var o := WithdrawRoutes.SubmitWithdrawal(Intended, db, caller, p.amount.value, p.withdrawalMethod, AccountDetails(p), now);
      && o.reply == Ok(201)
      && o.db.withdrawals == db.withdrawals + [NewWithdrawal(caller, f.parsed.value, f.withdrawalMethod, AccountDetails(p))]
      && o.db.users[caller].balance == db.users[caller].balance - f.parsed.value
  {
    ValidationPasses(f, balance, true);
  }

  const SubmittedMessage :=
    "Your withdrawal request has been submitted successfully. It will be processed by our admin team shortly."

  /** The page's eligibility and submission state; dates are in
      milliseconds. */
  class WithdrawalPage {
    var isEligible: bool
    var eligibilityDate: Option<int>
    var error: Option<string>
    var success: Option<string>
    var isSubmitting: bool

    constructor ()
      ensures !isEligible && eligibilityDate == None
      ensures error == None && success == None && !isSubmitting
    {
      isEligible, eligibilityDate := false, None;
      error, success, isSubmitting := None, None, false;
    }

    /** The mount effect: records the eligibility date and whether the clock
        is already past it. */
    method CheckEligibility(now: int, date: int)
      modifies this
      ensures eligibilityDate == Some(date) && isEligible == IsEligible(now, date)
      ensures error == old(error) && success == old(success) && isSubmitting == old(isSubmitting)
    {
      eligibilityDate := Some(date);
      isEligible := now > date;
    }

    /** The checks, then `isSubmitting` on and the error cleared; the body
        to send, if any. */
    method BeginSubmit(f: Fields, balance: Option<real>) returns (sent: Option<Payload>)
      modifies this
      ensures isEligible == old(isEligible) && eligibilityDate == old(eligibilityDate)
      ensures success == old(success)
      ensures match Validate(f, balance, isEligible)
        case Failure(m) => sent == None && error == Some(m) && isSubmitting == old(isSubmitting)
        case Success(p) => sent == Some(p) && error == None && isSubmitting
    {
      if f.amount == "" || AtMostZero(f.parsed) {
        error := Some("Please enter a valid amount");
        return None;
      }
      if Exceeds(f.parsed, OrZero(balance)) {
        error := Some("Withdrawal amount cannot exceed your available balance");
        return None;
      }
      if f.withdrawalMethod == "" {
        error := Some("Please select a withdrawal method");
        return None;
      }
      if f.accountNumber == "" {
        error := Some("Please enter your account number");
        return None;
      }
      if f.accountName == "" {
        error := Some("Please enter your account name");
        return None;
      }
      if !isEligible {
        error := Some("You are not yet eligible for withdrawal");
        return None;
      }
      isSubmitting := true;
      error := None;
      sent := Some(Payload(f.parsed, f.withdrawalMethod, f.accountNumber, f.accountName));
    }

    /** The request's outcome, then `isSubmitting` off. */
    method FinishSubmit(reply: ApiReply)
      requires isSubmitting
      modifies this
      ensures !isSubmitting
      ensures isEligible == old(isEligible) && eligibilityDate == old(eligibilityDate)
      ensures reply.Answered? ==> success == Some(SubmittedMessage) && error == old(error)
      ensures reply.Refused? ==>
        success == old(success)
        && error == Some(MessageOr(reply.message, "Failed to submit withdrawal request. Please try again."))
    {
      if reply.Answered? {
        success := Some(SubmittedMessage);
      } else {
        error := Some(MessageOr(reply.message, "Failed to submit withdrawal request. Please try again."));
      }
      isSubmitting := false;
    }

    /** `handleSubmit`: a request is in flight only between the two halves,
        so `isSubmitting` is false once the handler returns. */
    method HandleSubmit(f: Fields, balance: Option<real>, reply: ApiReply)
      returns (sent: Option<Payload>)
      requires !isSubmitting
      modifies this
      ensures !isSubmitting
      ensures isEligible == old(isEligible) && eligibilityDate == old(eligibilityDate)
      ensures var v := Validate(f, balance, isEligible);
        && sent == (if v.Success? then Some(v.value) else None)
        && (v.Failure? ==> error == Some(v.error) && success == old(success))
        && (v.Success? && reply.Answered? ==> error == None && success == Some(SubmittedMessage))
        && (v.Success? && reply.Refused? ==>
              error == Some(MessageOr(reply.message, "Failed to submit withdrawal request. Please try again."))
              && success == old(success))
    {
      sent := BeginSubmit(f, balance);
      if sent.Some? {
        FinishSubmit(reply);
      }
    }
  }
}
