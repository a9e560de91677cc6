/** backend/routes/withdraw.js: the thirty-day eligibility rule, submitting a
    withdrawal (the balance is debited at submission), the admin's approval or
    rejection (a rejection refunds) and the withdrawal statistics. */
module WithdrawRoutes {
  import opened Base
  import opened Models
  import opened Persistence
  import opened RequestStats
  import opened Ledger

  /** The waiting period, in days, after the first approved deposit. */
  const WaitingDays: int := 30

  /** `checkWithdrawalEligibility`: None when the user may withdraw, otherwise
      the refusal. Whole days are `Math.floor` of the elapsed milliseconds;
      with a positive divisor that is Dafny's `/`. */
  function CheckEligibility(u: User, now: int): Option<Error>
  {
    if u.firstDepositDate.None? then Some(NoDeposit)
    else
      var days := (now - u.firstDepositDate.value) / MsPerDay;
      if days < WaitingDays then Some(WaitDays(WaitingDays - days)) else None
  }

  /** POST /withdraw. The checks run in order: eligibility, then balance, then
      the withdrawal schema; the debit is saved before the ledger entry is
      written. */
  function SubmitWithdrawal(r: Rules, db: Db, caller: UserId, amount: real, paymentMethod: string,
                            accountDetails: string, now: int): Outcome
    requires caller < |db.users|
  {
    var u := db.users[caller];
    var refusal := CheckEligibility(u, now);
    if refusal.Some? then Outcome(Err(refusal.value), db)
    else if u.balance < amount then Outcome(Err(InsufficientBalance), db)
    else
      var w := NewWithdrawal(caller, amount, paymentMethod, accountDetails);
      if !WithdrawalValid(w) then Outcome(Err(SchemaViolation), db)
      else
        var debited := u.(balance := u.balance - amount);
        var saved := db.(withdrawals := db.withdrawals + [w], users := db.users[caller := debited]);
        var entry := Transaction(caller, "withdraw", amount, "pending", debited.balance,
                                 WithdrawalRef(|db.withdrawals|), None, now);
        if !TransactionValid(r, entry) then Outcome(Err(SchemaViolation), saved)
        else Outcome(Ok(201), saved.(ledger := saved.ledger + [entry]))
  }

  /** The closing `withdrawal.save()`. */
  function PersistWithdrawal(db: Db, id: nat, w: Withdrawal): Outcome
    requires id < |db.withdrawals|
  {
    if WithdrawalValid(w) then Outcome(Ok(200), db.(withdrawals := db.withdrawals[id := w]))
    else Outcome(Err(SchemaViolation), db)
  }

  /** PATCH /withdraw/:id. A rejection refunds the amount before its ledger
      entry is written; an approval only writes its entry. */
  function ProcessWithdrawal(r: Rules, db: Db, id: int, admin: UserId, status: string, note: string,
                             now: int): Outcome
  {
    if !(0 <= id < |db.withdrawals|) then Outcome(Err(WithdrawalNotFound), db)
    else
      var w := db.withdrawals[id];
      if w.status != "pending" then Outcome(Err(AlreadyProcessed), db)
      else if w.user >= |db.users| then Outcome(Err(UserNotFound), db)
      else
        var stamped := w.(status := status, adminNote := note, processedBy := Some(admin), processedAt := Some(now));
        var u := db.users[w.user];
        if status == "rejected" then
          var refunded := u.(balance := u.balance + w.amount);
          var saved := db.(users := db.users[w.user := refunded]);
          var entry := Transaction(w.user, "withdraw", w.amount, "failed", refunded.balance,
                                   WithdrawalRef(id), Some(admin), now);
          if !TransactionValid(r, entry) then Outcome(Err(SchemaViolation), saved)
          else PersistWithdrawal(saved.(ledger := saved.ledger + [entry]), id, stamped)
        else if status == "approved" then
          var entry := Transaction(w.user, "withdraw", w.amount, "completed", u.balance,
                                   WithdrawalRef(id), Some(admin), now);
          if !TransactionValid(r, entry) then Outcome(Err(SchemaViolation), db)
          else PersistWithdrawal(db.(ledger := db.ledger + [entry]), id, stamped)
        else PersistWithdrawal(db, id, stamped)
  }

  method PostWithdrawal(s: Store, caller: UserId, amount: real, paymentMethod: string, accountDetails: string,
                        now: int) returns (reply: Reply)
    requires caller < |s.users|
    requires s.Valid()
    modifies s
    ensures s.Valid()
    ensures Outcome(reply, s.State()) == SubmitWithdrawal(s.rules, old(s.State()), caller, amount, paymentMethod, accountDetails, now)
  {
    SubmitWithdrawalKeepsDbValid(s.rules, s.State(), caller, amount, paymentMethod, accountDetails, now);
    var user := s.users[caller];
    var refusal := CheckEligibility(user, now);
    if refusal.Some? {
      return Err(refusal.value);
    }
    if user.balance < amount {
      return Err(InsufficientBalance);
    }
    var id := s.CreateWithdrawal(NewWithdrawal(caller, amount, paymentMethod, accountDetails));
    if id.None? {
      return Err(SchemaViolation);
    }
    user := user.(balance := user.balance - amount);
    s.SaveUser(caller, user);
    var ok := s.CreateTransaction(Transaction(caller, "withdraw", amount, "pending", user.balance, WithdrawalRef(id.value), None, now));
    if !ok {
      return Err(SchemaViolation);
    }
    return Ok(201);
  }

  method PatchWithdrawal(s: Store, id: int, admin: UserId, status: string, note: string, now: int)
    returns (reply: Reply)
    requires s.Valid()
    modifies s
    ensures s.Valid()
    ensures Outcome(reply, s.State()) == ProcessWithdrawal(s.rules, old(s.State()), id, admin, status, note, now)
  {
    ProcessWithdrawalKeepsDbValid(s.rules, s.State(), id, admin, status, note, now);
    if !(0 <= id < |s.withdrawals|) {
      return Err(WithdrawalNotFound);
    }
    var withdrawal := s.withdrawals[id];
    if withdrawal.status != "pending" {
      return Err(AlreadyProcessed);
    }
    if withdrawal.user >= |s.users| {
      return Err(UserNotFound);
    }
    var owner := withdrawal.user;
    var user := s.users[owner];
    withdrawal := withdrawal.(status := status, adminNote := note, processedBy := Some(admin), processedAt := Some(now));
    if status == "rejected" {
      user := user.(balance := user.balance + withdrawal.amount);
      s.SaveUser(owner, user);
      var ok := s.CreateTransaction(Transaction(owner, "withdraw", withdrawal.amount, "failed", user.balance, WithdrawalRef(id), Some(admin), now));
      if !ok {
        return Err(SchemaViolation);
      }
    } else if status == "approved" {
      var ok := s.CreateTransaction(Transaction(owner, "withdraw", withdrawal.amount, "completed", user.balance, WithdrawalRef(id), Some(admin), now));
      if !ok {
        return Err(SchemaViolation);
      }
    }
    var saved := s.SaveWithdrawal(id, withdrawal);
    if !saved {
      return Err(SchemaViolation);
    }
    return Ok(200);
  }

  function WithdrawalRequests(ws: seq<Withdrawal>): seq<Request>
  {
    Requests(ws, (w: Withdrawal) => w.status, (w: Withdrawal) => w.amount)
  }

  /** GET /withdraw/stats over a valid database. */
  lemma WithdrawalStatsPartition(r: Rules, db: Db)
    requires DbValid(r, db)
    ensures var st := Summarize(WithdrawalRequests(db.withdrawals));
      && st.total == |db.withdrawals|
      && st.pending + st.approved + CountStatus(WithdrawalRequests(db.withdrawals), "rejected") == st.total
      && st.totalAmount == ApprovedSum(WithdrawalRequests(db.withdrawals)) >= MinAmount * st.approved as real
  {
    SummaryPartition(WithdrawalRequests(db.withdrawals));
  }

  // ---------------------------------------------------------------- eligibility

  /** Eligible exactly when a first deposit is recorded and at least thirty
      whole days, in milliseconds, have elapsed since it. */
  lemma EligibleAfterThirtyDays(u: User, now: int)
    ensures CheckEligibility(u, now).None? <==>
              u.firstDepositDate.Some? && now - u.firstDepositDate.value >= WaitingDays * MsPerDay
    ensures u.firstDepositDate.None? ==> CheckEligibility(u, now) == Some(NoDeposit)
  {
    if u.firstDepositDate.Some? {
      var e := now - u.firstDepositDate.value;
      DaysBound(e);
    }
  }

  lemma DaysBound(e: int)
    ensures e / MsPerDay >= WaitingDays <==> e >= WaitingDays * MsPerDay
  {
    var d, m := e / MsPerDay, e % MsPerDay;
    assert e == d * MsPerDay + m && 0 <= m < MsPerDay;
    if d >= WaitingDays {
      MulMonotone(WaitingDays, d, MsPerDay);
    } else {
      MulMonotone(d + 1, WaitingDays, MsPerDay);
    }
  }

  /** The days still to wait lie between 1 and 30 when the first deposit is not
      in the future, and are 30 minus the whole days elapsed. */
  lemma WaitIsAtMostThirtyDays(u: User, now: int)
    requires u.firstDepositDate.Some? && u.firstDepositDate.value <= now
    requires CheckEligibility(u, now).Some?
    ensures CheckEligibility(u, now) == Some(WaitDays(WaitingDays - (now - u.firstDepositDate.value) / MsPerDay))
    ensures 1 <= CheckEligibility(u, now).value.days <= WaitingDays
  {
  }

  /** Twenty-nine days and a little less than a day after the first deposit
      one more day is due; at exactly thirty days the user is eligible. */
  lemma EligibilityAtTheBoundary(u: User, first: int)
    requires u.firstDepositDate == Some(first)
    ensures CheckEligibility(u, first + 30 * MsPerDay - 1) == Some(WaitDays(1))
    ensures CheckEligibility(u, first + 30 * MsPerDay) == None
  {
    assert (30 * MsPerDay - 1) / MsPerDay == 29;
    assert (30 * MsPerDay) / MsPerDay == 30;
  }

  // ---------------------------------------------------------------- submission

  /** An ineligible user, or one whose balance is below the amount, is refused
      with nothing written; eligibility is checked first. */
  lemma SubmissionRefusals(r: Rules, db: Db, caller: UserId, amount: real, paymentMethod: string,
                           accountDetails: string, now: int)
    requires caller < |db.users|
    ensures var o := SubmitWithdrawal(r, db, caller, amount, paymentMethod, accountDetails, now);
      && (CheckEligibility(db.users[caller], now).Some? ==>
            o == Outcome(Err(CheckEligibility(db.users[caller], now).value), db))
      && (CheckEligibility(db.users[caller], now).None? && db.users[caller].balance < amount ==>
            o == Outcome(Err(InsufficientBalance), db))
  {
  }

  /** A submission that passes the checks creates the pending withdrawal and
      debits exactly the amount, whatever the ledger schema then does; the
      balance never goes below zero. The reply is 201 exactly when the pending
      entry is admitted. */
  lemma SubmissionDebits(r: Rules, db: Db, caller: UserId, amount: real, paymentMethod: string,
                         accountDetails: string, now: int)
    requires caller < |db.users|
    requires CheckEligibility(db.users[caller], now).None? && db.users[caller].balance >= amount
    requires WithdrawalValid(NewWithdrawal(caller, amount, paymentMethod, accountDetails))
    ensures var o := SubmitWithdrawal(r, db, caller, amount, paymentMethod, accountDetails, now);
      && o.db.users == db.users[caller := db.users[caller].(balance := db.users[caller].balance - amount)]
      && o.db.users[caller].balance >= 0.0
      && o.db.withdrawals == db.withdrawals + [NewWithdrawal(caller, amount, paymentMethod, accountDetails)]
      && o.db.deposits == db.deposits
      && (o.reply.Ok? <==> "withdraw" in r.transactionTypes && "pending" in r.transactionStatuses)
      && (o.reply.Ok? ==> o.reply == Ok(201))
      && o.db.ledger == (if o.reply.Ok?
                         then db.ledger + [Transaction(caller, "withdraw", amount, "pending",
                                                       db.users[caller].balance - amount,
                                                       WithdrawalRef(|db.withdrawals|), None, now)]
                         else db.ledger)
  {
  }

  /** With the ledger admitting the handlers' labels, rejecting a freshly
      submitted withdrawal restores the balance it debited. */
  lemma SubmitThenRejectRestores(db: Db, caller: UserId, amount: real, paymentMethod: string,
                                 accountDetails: string, admin: UserId, note: string, now: int, later: int)
    requires DbValid(Intended, db) && caller < |db.users|
    requires SubmitWithdrawal(Intended, db, caller, amount, paymentMethod, accountDetails, now).reply.Ok?
    ensures var o1 := SubmitWithdrawal(Intended, db, caller, amount, paymentMethod, accountDetails, now);
      var o2 := ProcessWithdrawal(Intended, o1.db, |db.withdrawals|, admin, "rejected", note, later);
      && o2.reply == Ok(200)
      && o2.db.users[caller].balance == db.users[caller].balance
      && o2.db.withdrawals[|db.withdrawals|].status == "rejected"
  {
  }

  // ---------------------------------------------------------------- processing

  /** Only a pending withdrawal can be processed. An approval leaves every
      balance as it was; no decision changes any withdrawal's amount, and
      no decision touches any other withdrawal. */
  lemma ProcessingEffects(r: Rules, db: Db, id: int, admin: UserId, status: string, note: string, now: int)
    ensures var o := ProcessWithdrawal(r, db, id, admin, status, note, now);
      && |o.db.withdrawals| == |db.withdrawals|
      && (forall i :: 0 <= i < |db.withdrawals| ==> o.db.withdrawals[i].amount == db.withdrawals[i].amount)
      && (forall i :: 0 <= i < |db.withdrawals| && i != id ==> o.db.withdrawals[i] == db.withdrawals[i])
      && (0 <= id < |db.withdrawals| && db.withdrawals[id].status != "pending" ==> o == Outcome(Err(AlreadyProcessed), db))
      && (status == "approved" ==> o.db.users == db.users)
      && o.db.deposits == db.deposits
  {
  }

  /** A rejection refunds exactly the withdrawn amount to its owner and to no
      one else, whether or not its ledger entry is admitted. */
  lemma RejectionRefunds(r: Rules, db: Db, id: int, admin: UserId, note: string, now: int)
    requires 0 <= id < |db.withdrawals| && db.withdrawals[id].status == "pending"
    requires db.withdrawals[id].user < |db.users|
    ensures var w := db.withdrawals[id];
      var o := ProcessWithdrawal(r, db, id, admin, "rejected", note, now);
      o.db.users == db.users[w.user := db.users[w.user].(balance := db.users[w.user].balance + w.amount)]
  {
  }

  /** Every withdrawal handler keeps the database valid and leaves the
      first-deposit dates alone. */
  lemma SubmitWithdrawalKeepsDbValid(r: Rules, db: Db, caller: UserId, amount: real, paymentMethod: string,
                                     accountDetails: string, now: int)
    requires DbValid(r, db) && caller < |db.users|
    ensures var o := SubmitWithdrawal(r, db, caller, amount, paymentMethod, accountDetails, now);
      DbValid(r, o.db) && FirstDepositDatesKept(db, o.db)
  {
  }

  lemma ProcessWithdrawalKeepsDbValid(r: Rules, db: Db, id: int, admin: UserId, status: string, note: string, now: int)
    requires DbValid(r, db)
    ensures var o := ProcessWithdrawal(r, db, id, admin, status, note, now);
      DbValid(r, o.db) && FirstDepositDatesKept(db, o.db)
  {
    if 0 <= id < |db.withdrawals| && db.withdrawals[id].status == "pending" && db.withdrawals[id].user < |db.users| {
      if status == "rejected" {
        RejectionKeepsDbValid(r, db, id, admin, note, now);
      } else if status == "approved" {
        ApprovalKeepsDbValid(r, db, id, admin, note, now);
      } else {
        var w := db.withdrawals[id];
        var stamped := w.(status := status, adminNote := note, processedBy := Some(admin), processedAt := Some(now));
        if WithdrawalValid(stamped) {
          WithdrawalWriteKeepsDbValid(r, db, id, stamped);
        }
      }
    }
  }

  lemma RejectionKeepsDbValid(r: Rules, db: Db, id: nat, admin: UserId, note: string, now: int)
    requires DbValid(r, db) && id < |db.withdrawals|
    requires db.withdrawals[id].status == "pending" && db.withdrawals[id].user < |db.users|
    ensures var o := ProcessWithdrawal(r, db, id, admin, "rejected", note, now);
      DbValid(r, o.db) && FirstDepositDatesKept(db, o.db)
  {
    var w := db.withdrawals[id];
    var stamped := w.(status := "rejected", adminNote := note, processedBy := Some(admin), processedAt := Some(now));
    var u := db.users[w.user];
    var refunded := u.(balance := u.balance + w.amount);
    var saved := db.(users := db.users[w.user := refunded]);
    UserWriteKeepsDbValid(r, db, w.user, refunded);
    var entry := Transaction(w.user, "withdraw", w.amount, "failed", refunded.balance,
                             WithdrawalRef(id), Some(admin), now);
    if TransactionValid(r, entry) {
      LedgerAppendKeepsDbValid(r, saved, entry);
      if WithdrawalValid(stamped) {
        WithdrawalWriteKeepsDbValid(r, saved.(ledger := saved.ledger + [entry]), id, stamped);
      }
    }
  }

  lemma ApprovalKeepsDbValid(r: Rules, db: Db, id: nat, admin: UserId, note: string, now: int)
    requires DbValid(r, db) && id < |db.withdrawals|
    requires db.withdrawals[id].status == "pending" && db.withdrawals[id].user < |db.users|
    ensures var o := ProcessWithdrawal(r, db, id, admin, "approved", note, now);
      DbValid(r, o.db) && FirstDepositDatesKept(db, o.db)
  {
    var w := db.withdrawals[id];
    var stamped := w.(status := "approved", adminNote := note, processedBy := Some(admin), processedAt := Some(now));
    var entry := Transaction(w.user, "withdraw", w.amount, "completed", db.users[w.user].balance,
                             WithdrawalRef(id), Some(admin), now);
    if TransactionValid(r, entry) {
      LedgerAppendKeepsDbValid(r, db, entry);
      if WithdrawalValid(stamped) {
        WithdrawalWriteKeepsDbValid(r, db.(ledger := db.ledger + [entry]), id, stamped);
      }
    }
  }

  // ---------------------------------------------------------------- findings

  /** As written, the pending entry's type 'withdraw' is outside the ledger
      schema: a submission that passes every check is answered 500 after the
      withdrawal is created and the balance debited. */
  lemma SubmissionDebitsThenFails(db: Db, caller: UserId, amount: real, paymentMethod: string,
                                  accountDetails: string, now: int)
    requires caller < |db.users|
    requires CheckEligibility(db.users[caller], now).None? && db.users[caller].balance >= amount
    requires WithdrawalValid(NewWithdrawal(caller, amount, paymentMethod, accountDetails))
    ensures var o := SubmitWithdrawal(AsWritten, db, caller, amount, paymentMethod, accountDetails, now);
      && o.reply == Err(SchemaViolation)
      && o.db.users[caller].balance == db.users[caller].balance - amount
      && |o.db.withdrawals| == |db.withdrawals| + 1
      && o.db.ledger == db.ledger
  {
  }

  /** As written, a rejection refunds and is then answered 500 with the
      withdrawal still pending, so each further rejection refunds again. */
  lemma RejectionRefundsRepeatedly(db: Db, id: int, admin: UserId, note: string, now: int, later: int)
    requires 0 <= id < |db.withdrawals| && db.withdrawals[id].status == "pending"
    requires db.withdrawals[id].user < |db.users|
    ensures var w := db.withdrawals[id];
      var o1 := ProcessWithdrawal(AsWritten, db, id, admin, "rejected", note, now);
      var o2 := ProcessWithdrawal(AsWritten, o1.db, id, admin, "rejected", note, later);
      && o1.reply == Err(SchemaViolation) && o2.reply == Err(SchemaViolation)
      && o1.db.withdrawals == db.withdrawals
      && o2.db.users[w.user].balance == db.users[w.user].balance + w.amount + w.amount
  {
  }

  /** With 'withdraw' and 'failed' admitted, a rejection is recorded once:
      a second attempt is refused and the refund is not repeated. */
  lemma RejectionRefundsOnce(db: Db, id: int, admin: UserId, note: string, now: int, later: int)
    requires DbValid(Intended, db)
    requires 0 <= id < |db.withdrawals| && db.withdrawals[id].status == "pending"
    ensures var w := db.withdrawals[id];
      var o1 := ProcessWithdrawal(Intended, db, id, admin, "rejected", note, now);
      var o2 := ProcessWithdrawal(Intended, o1.db, id, admin, "rejected", note, later);
      && o1.reply == Ok(200)
      && o2 == Outcome(Err(AlreadyProcessed), o1.db)
      && o2.db.users[w.user].balance == db.users[w.user].balance + w.amount
  {
  }

  /** With 'withdraw' admitted, an approval is recorded: the withdrawal
      becomes `approved`, one `completed` entry carries its amount and the
      owner's unchanged balance, and no balance moves. */
  lemma ApprovalRecorded(db: Db, id: int, admin: UserId, note: string, now: int)
    requires DbValid(Intended, db)
    requires 0 <= id < |db.withdrawals| && db.withdrawals[id].status == "pending"
    ensures var w := db.withdrawals[id];
      var o := ProcessWithdrawal(Intended, db, id, admin, "approved", note, now);
      && o.reply == Ok(200)
      && o.db.withdrawals == db.withdrawals[id := w.(status := "approved", adminNote := note,
                                                     processedBy := Some(admin), processedAt := Some(now))]
      && o.db.users == db.users
      && o.db.ledger == db.ledger + [Transaction(w.user, "withdraw", w.amount, "completed", db.users[w.user].balance,
                                                 WithdrawalRef(id), Some(admin), now)]
  {
  }

  /** As written, no withdrawal can be approved either: the completed entry's
      type is refused and the withdrawal stays pending. */
  lemma ApprovalAlwaysFails(db: Db, id: int, admin: UserId, note: string, now: int)
    requires 0 <= id < |db.withdrawals| && db.withdrawals[id].status == "pending"
    requires db.withdrawals[id].user < |db.users|
    ensures ProcessWithdrawal(AsWritten, db, id, admin, "approved", note, now) == Outcome(Err(SchemaViolation), db)
  {
  }
}
