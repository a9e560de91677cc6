/** backend/routes/deposit.js: submitting a deposit, the admin's approval or
    rejection, the manual credit path and the deposit statistics.

    Each handler is a function from the database before the request to the
    reply and the database after it, and a method that performs the same
    writes one at a time on a `Store`. */
module DepositRoutes {
  import opened Base
  import opened Models
  import opened Persistence
  import opened RequestStats

  /** POST /deposit. `proof` is the stored path of the uploaded file, None
      when the request carries none. The pending ledger entry records the
      requester's balance as it was when the request arrived. */
  function SubmitDeposit(r: Rules, db: Db, caller: UserId, amount: real, paymentMethod: string,
                         proof: Option<string>, now: int): Outcome
    requires caller < |db.users|
  {
    if proof.None? then Outcome(Err(NoProof), db)
    else
      var d := NewDeposit(caller, amount, paymentMethod, proof.value);
      if !DepositValid(r, d) then Outcome(Err(SchemaViolation), db)
      else
        var created := db.(deposits := db.deposits + [d]);
        var entry := Transaction(caller, "deposit", amount, "pending", db.users[caller].balance,
                                 DepositRef(|db.deposits|), None, now);
        if !TransactionValid(r, entry) then Outcome(Err(SchemaViolation), created)
        else Outcome(Ok(201), created.(ledger := created.ledger + [entry]))
  }

  /** The decision fields the handler assigns before it branches. */
  function Stamped(d: Deposit, status: string, note: string, admin: UserId, now: int): Deposit
  {
    d.(status := status, adminNote := note, processedBy := Some(admin), processedAt := Some(now))
  }

  /** `user.balance += amount`, and the first-deposit date when it is unset. */
  function Credited(u: User, amount: real, now: int): User
  {
    u.(balance := u.balance + amount,
       firstDepositDate := if u.firstDepositDate.None? then Some(now) else u.firstDepositDate)
  }

  /** The closing `deposit.save()`. */
  function PersistDeposit(r: Rules, db: Db, id: nat, d: Deposit): Outcome
    requires id < |db.deposits|
  {
    if DepositValid(r, d) then Outcome(Ok(200), db.(deposits := db.deposits[id := d]))
    else Outcome(Err(SchemaViolation), db)
  }

  /** PATCH /deposit/:id. `approvedAmount` is None when the body lacks it. */
  function ProcessDeposit(r: Rules, db: Db, id: int, admin: UserId, status: string, note: string,
                          approvedAmount: Option<real>, now: int): Outcome
  {
    if !(0 <= id < |db.deposits|) then Outcome(Err(DepositNotFound), db)
    else
      var d := db.deposits[id];
      if d.status != "pending" then Outcome(Err(AlreadyProcessed), db)
      else if d.user >= |db.users| then Outcome(Err(UserNotFound), db)
      else
        var stamped := Stamped(d, status, note, admin, now);
        if status == "approved" then
          if approvedAmount.None? || approvedAmount.value <= 0.0 then Outcome(Err(InvalidApprovedAmount), db)
          else
            var a := approvedAmount.value;
            var approved := stamped.(amount := a);
            if r.minimumBeforeCredit && !DepositValid(r, approved) then Outcome(Err(InvalidApprovedAmount), db)
            else
              var u := Credited(db.users[d.user], a, now);
              var saved := db.(users := db.users[d.user := u]);
              var entry := Transaction(d.user, "deposit", a, "completed", u.balance, DepositRef(id), Some(admin), now);
              if !TransactionValid(r, entry) then Outcome(Err(SchemaViolation), saved)
              else PersistDeposit(r, saved.(ledger := saved.ledger + [entry]), id, approved)
        else if status == "rejected" then
          var entry := Transaction(d.user, "deposit", d.amount, "failed", db.users[d.user].balance,
                                   DepositRef(id), Some(admin), now);
          if !TransactionValid(r, entry) then Outcome(Err(SchemaViolation), db)
          else PersistDeposit(r, db.(ledger := db.ledger + [entry]), id, stamped)
        else PersistDeposit(r, db, id, stamped)
  }

  /** The deposit record the manual path creates. */
  function ManualDeposit(target: UserId, amount: real, admin: UserId, note: string, now: int): Deposit
  {
    Deposit(target, amount, "manual", "manual-update", "approved",
            if note == "" then "Manual balance update" else note, Some(admin), Some(now))
  }

  /** POST /deposit/update-balance/:userId: the deposit record is created
      first, then the balance is credited; no ledger entry is written. */
  function CreditManually(r: Rules, db: Db, target: int, admin: UserId, amount: real, note: string,
                          now: int): Outcome
  {
    if !(0 <= target < |db.users|) then Outcome(Err(UserNotFound), db)
    else
      var d := ManualDeposit(target, amount, admin, note, now);
      if !DepositValid(r, d) then Outcome(Err(SchemaViolation), db)
      else
        Outcome(Ok(200), db.(deposits := db.deposits + [d],
                             users := db.users[target := Credited(db.users[target], amount, now)]))
  }

  method PostDeposit(s: Store, caller: UserId, amount: real, paymentMethod: string, proof: Option<string>,
                     now: int) returns (reply: Reply)
    requires caller < |s.users|
    requires s.Valid()
    modifies s
    ensures s.Valid()
    ensures Outcome(reply, s.State()) == SubmitDeposit(s.rules, old(s.State()), caller, amount, paymentMethod, proof, now)
  {
    SubmitDepositKeepsDbValid(s.rules, s.State(), caller, amount, paymentMethod, proof, now);
    if proof.None? {
      return Err(NoProof);
    }
    var balance := s.users[caller].balance;
    var id := s.CreateDeposit(NewDeposit(caller, amount, paymentMethod, proof.value));
    if id.None? {
      return Err(SchemaViolation);
    }
    var ok := s.CreateTransaction(Transaction(caller, "deposit", amount, "pending", balance, DepositRef(id.value), None, now));
    if !ok {
      return Err(SchemaViolation);
    }
    return Ok(201);
  }

  method PatchDeposit(s: Store, id: int, admin: UserId, status: string, note: string,
                      approvedAmount: Option<real>, now: int) returns (reply: Reply)
    requires s.Valid()
    modifies s
    ensures s.Valid()
    ensures Outcome(reply, s.State()) == ProcessDeposit(s.rules, old(s.State()), id, admin, status, note, approvedAmount, now)
  {
    ProcessDepositKeepsDbValid(s.rules, s.State(), id, admin, status, note, approvedAmount, now);
    if !(0 <= id < |s.deposits|) {
      return Err(DepositNotFound);
    }
    var deposit := s.deposits[id];
    if deposit.status != "pending" {
      return Err(AlreadyProcessed);
    }
    if deposit.user >= |s.users| {
      return Err(UserNotFound);
    }
    var owner := deposit.user;
    var user := s.users[owner];
    deposit := deposit.(status := status, adminNote := note, processedBy := Some(admin), processedAt := Some(now));
    if status == "approved" {
      if approvedAmount.None? || approvedAmount.value <= 0.0 {
        return Err(InvalidApprovedAmount);
      }
      var a := approvedAmount.value;
      if s.rules.minimumBeforeCredit && !DepositValid(s.rules, deposit.(amount := a)) {
        return Err(InvalidApprovedAmount);
      }
      user := user.(balance := user.balance + a);
      if user.firstDepositDate.None? {
        user := user.(firstDepositDate := Some(now));
      }
      deposit := deposit.(amount := a);
      s.SaveUser(owner, user);
      var ok := s.CreateTransaction(Transaction(owner, "deposit", a, "completed", user.balance, DepositRef(id), Some(admin), now));
      if !ok {
        return Err(SchemaViolation);
      }
    } else if status == "rejected" {
      var ok := s.CreateTransaction(Transaction(owner, "deposit", deposit.amount, "failed", user.balance, DepositRef(id), Some(admin), now));
      if !ok {
        return Err(SchemaViolation);
      }
    }
    var saved := s.SaveDeposit(id, deposit);
    if !saved {
      return Err(SchemaViolation);
    }
    return Ok(200);
  }

  method PostUpdateBalance(s: Store, target: int, admin: UserId, amount: real, note: string, now: int)
    returns (reply: Reply)
    requires s.Valid()
    modifies s
    ensures s.Valid()
    ensures Outcome(reply, s.State()) == CreditManually(s.rules, old(s.State()), target, admin, amount, note, now)
  {
    CreditManuallyKeepsDbValid(s.rules, s.State(), target, admin, amount, note, now);
    if !(0 <= target < |s.users|) {
      return Err(UserNotFound);
    }
    var user := s.users[target];
    var id := s.CreateDeposit(Deposit(target, amount, "manual", "manual-update", "approved",
                                      if note == "" then "Manual balance update" else note, Some(admin), Some(now)));
    if id.None? {
      return Err(SchemaViolation);
    }
    user := user.(balance := user.balance + amount);
    if user.firstDepositDate.None? {
      user := user.(firstDepositDate := Some(now));
    }
    s.SaveUser(target, user);
    return Ok(200);
  }

  // ---------------------------------------------------------------- statistics

  function DepositRequests(ds: seq<Deposit>): seq<Request>
  {
    Requests(ds, (d: Deposit) => d.status, (d: Deposit) => d.amount)
  }

  /** GET /deposit/stats over a valid database: the counts partition the
      deposits and the total is the sum of the approved amounts. */
  lemma DepositStatsPartition(r: Rules, db: Db)
    requires DbValid(r, db)
    ensures var st := Summarize(DepositRequests(db.deposits));
      && st.total == |db.deposits|
      && st.pending + st.approved + CountStatus(DepositRequests(db.deposits), "rejected") == st.total
      && st.totalAmount == ApprovedSum(DepositRequests(db.deposits)) >= MinAmount * st.approved as real
  {
    SummaryPartition(DepositRequests(db.deposits));
  }

  // ---------------------------------------------------------------- properties

  /** Without a file nothing is created; with one, the deposit is created
      `pending` and a `pending` entry records the requested amount and the
      unchanged balance. */
  lemma SubmitDepositEffects(r: Rules, db: Db, caller: UserId, amount: real, paymentMethod: string,
                             proof: Option<string>, now: int)
    requires caller < |db.users|
    requires "deposit" in r.transactionTypes && "pending" in r.transactionStatuses
    ensures var o := SubmitDeposit(r, db, caller, amount, paymentMethod, proof, now);
      && (proof.None? ==> o == Outcome(Err(NoProof), db))
      && (o.reply.Ok? <==> proof.Some? && DepositValid(r, NewDeposit(caller, amount, paymentMethod, proof.value)))
      && (o.reply.Ok? ==>
            o.db == db.(deposits := db.deposits + [NewDeposit(caller, amount, paymentMethod, proof.value)],
                        ledger := db.ledger + [Transaction(caller, "deposit", amount, "pending", db.users[caller].balance,
                                                           DepositRef(|db.deposits|), None, now)]))
      && (!o.reply.Ok? ==> o.db == db)
  {
  }

  /** Only a pending deposit can be processed; otherwise nothing changes. */
  lemma ProcessingNeedsPending(r: Rules, db: Db, id: int, admin: UserId, status: string, note: string,
                               approvedAmount: Option<real>, now: int)
    requires 0 <= id < |db.deposits| && db.deposits[id].status != "pending"
    ensures ProcessDeposit(r, db, id, admin, status, note, approvedAmount, now) == Outcome(Err(AlreadyProcessed), db)
  {
  }

  /** A successful decision leaves the requested status behind, so processing
      the same deposit again answers "already processed" and changes nothing. */
  lemma ReprocessingFails(r: Rules, db: Db, id: int, admin: UserId, status: string, note: string,
                          approvedAmount: Option<real>, now: int,
                          status2: string, note2: string, approvedAmount2: Option<real>, now2: int)
    requires status != "pending"
    requires ProcessDeposit(r, db, id, admin, status, note, approvedAmount, now).reply.Ok?
    ensures var o := ProcessDeposit(r, db, id, admin, status, note, approvedAmount, now);
      ProcessDeposit(r, o.db, id, admin, status2, note2, approvedAmount2, now2) == Outcome(Err(AlreadyProcessed), o.db)
  {
  }

  /** An approval without a positive approved amount answers 400 before any write. */
  lemma ApprovalNeedsPositiveAmount(r: Rules, db: Db, id: int, admin: UserId, note: string,
                                    approvedAmount: Option<real>, now: int)
    requires 0 <= id < |db.deposits| && db.deposits[id].status == "pending" && db.deposits[id].user < |db.users|
    requires approvedAmount.None? || approvedAmount.value <= 0.0
    ensures ProcessDeposit(r, db, id, admin, "approved", note, approvedAmount, now) == Outcome(Err(InvalidApprovedAmount), db)
  {
  }

  /** An accepted approval credits exactly the approved amount and appends one
      `deposit`/`completed` entry carrying that amount and the credited balance.
      The deposit becomes `approved` with the approved amount exactly when the
      amount meets the schema minimum; otherwise it stays untouched. */
  lemma ApprovalCredits(r: Rules, db: Db, id: int, admin: UserId, note: string, a: real, now: int)
    requires DbValid(r, db)
    requires "deposit" in r.transactionTypes && "completed" in r.transactionStatuses
    requires 0 <= id < |db.deposits| && db.deposits[id].status == "pending"
    requires a > 0.0 && (r.minimumBeforeCredit ==> a >= MinAmount)
    ensures var d := db.deposits[id];
      var o := ProcessDeposit(r, db, id, admin, "approved", note, Some(a), now);
      && o.db.users == db.users[d.user := Credited(db.users[d.user], a, now)]
      && o.db.users[d.user].balance == db.users[d.user].balance + a
      && o.db.ledger == db.ledger + [Transaction(d.user, "deposit", a, "completed", o.db.users[d.user].balance,
                                                 DepositRef(id), Some(admin), now)]
      && (o.reply.Ok? <==> a >= MinAmount)
      && (o.reply.Ok? ==> o.db.deposits[id] == Stamped(d, "approved", note, admin, now).(amount := a))
      && (!o.reply.Ok? ==> o.db.deposits == db.deposits && o.reply == Err(SchemaViolation))
  {
  }

  /** A rejection never changes a balance; the entry it writes carries the
      requested amount and the owner's current balance. */
  lemma RejectionKeepsBalance(r: Rules, db: Db, id: int, admin: UserId, note: string,
                              approvedAmount: Option<real>, now: int)
    requires DbValid(r, db) && "deposit" in r.transactionTypes
    requires 0 <= id < |db.deposits| && db.deposits[id].status == "pending"
    ensures var d := db.deposits[id];
      var o := ProcessDeposit(r, db, id, admin, "rejected", note, approvedAmount, now);
      && o.db.users == db.users
      && (o.db.ledger == db.ledger || o.db.ledger == db.ledger + [Transaction(d.user, "deposit", d.amount, "failed",
                                                                  db.users[d.user].balance, DepositRef(id), Some(admin), now)])
      && (o.reply.Ok? <==> "failed" in r.transactionStatuses)
  {
  }

  /** The manual path never writes the ledger, and a refused deposit record
      leaves every balance untouched. */
  lemma ManualCreditEffects(r: Rules, db: Db, target: int, admin: UserId, amount: real, note: string, now: int)
    ensures var o := CreditManually(r, db, target, admin, amount, note, now);
      && o.db.ledger == db.ledger
      && (o.reply.Ok? <==> 0 <= target < |db.users| && DepositValid(r, ManualDeposit(target, amount, admin, note, now)))
      && (!o.reply.Ok? ==> o.db == db)
      && (o.reply.Ok? ==> o.db.users[target].balance == db.users[target].balance + amount
                          && o.db.deposits == db.deposits + [ManualDeposit(target, amount, admin, note, now)])
      && (o.reply.Ok? ==> o.db.users[target].firstDepositDate ==
                            (if db.users[target].firstDepositDate.None? then Some(now)
                             else db.users[target].firstDepositDate))
      && |o.db.users| == |db.users|
      && (forall j :: 0 <= j < |db.users| && j != target ==> o.db.users[j] == db.users[j])
  {
  }

  /** A decision that changes a balance also sets an unset first-deposit
      date to the time of the decision. */
  lemma CreditSetsFirstDepositDate(r: Rules, db: Db, id: int, admin: UserId, status: string, note: string,
                                   approvedAmount: Option<real>, now: int)
    ensures var o := ProcessDeposit(r, db, id, admin, status, note, approvedAmount, now);
      forall u :: 0 <= u < |db.users| && o.db.users[u].balance != db.users[u].balance ==>
        o.db.users[u].firstDepositDate == if db.users[u].firstDepositDate.None? then Some(now)
                                           else db.users[u].firstDepositDate
  {
  }

  /** Every deposit handler keeps the database valid, and writes a
      first-deposit date only where none is set. */
  lemma SubmitDepositKeepsDbValid(r: Rules, db: Db, caller: UserId, amount: real, paymentMethod: string,
                                  proof: Option<string>, now: int)
    requires DbValid(r, db) && caller < |db.users|
    ensures var o := SubmitDeposit(r, db, caller, amount, paymentMethod, proof, now);
      DbValid(r, o.db) && FirstDepositDatesKept(db, o.db)
  {
  }

  lemma ProcessDepositKeepsDbValid(r: Rules, db: Db, id: int, admin: UserId, status: string, note: string,
                                   approvedAmount: Option<real>, now: int)
    requires DbValid(r, db)
    ensures var o := ProcessDeposit(r, db, id, admin, status, note, approvedAmount, now);
      DbValid(r, o.db) && FirstDepositDatesKept(db, o.db)
  {
    if 0 <= id < |db.deposits| && db.deposits[id].status == "pending" && db.deposits[id].user < |db.users| {
      if status == "approved" {
        if approvedAmount.Some? && approvedAmount.value > 0.0 {
          ApprovalKeepsDbValid(r, db, id, admin, note, approvedAmount.value, now);
        }
      } else if status == "rejected" {
        RejectionKeepsDbValid(r, db, id, admin, note, approvedAmount, now);
      } else {
        var stamped := Stamped(db.deposits[id], status, note, admin, now);
        if DepositValid(r, stamped) {
          DepositWriteKeepsDbValid(r, db, id, stamped);
        }
      }
    }
  }

  lemma ApprovalKeepsDbValid(r: Rules, db: Db, id: nat, admin: UserId, note: string, a: real, now: int)
    requires DbValid(r, db) && id < |db.deposits|
    requires db.deposits[id].status == "pending" && db.deposits[id].user < |db.users| && a > 0.0
    ensures var o := ProcessDeposit(r, db, id, admin, "approved", note, Some(a), now);
      DbValid(r, o.db) && FirstDepositDatesKept(db, o.db)
  {
    var d := db.deposits[id];
    var approved := Stamped(d, "approved", note, admin, now).(amount := a);
    var u := Credited(db.users[d.user], a, now);
    var saved := db.(users := db.users[d.user := u]);
    UserWriteKeepsDbValid(r, db, d.user, u);
    var entry := Transaction(d.user, "deposit", a, "completed", u.balance, DepositRef(id), Some(admin), now);
    if TransactionValid(r, entry) {
      LedgerAppendKeepsDbValid(r, saved, entry);
      if DepositValid(r, approved) {
        DepositWriteKeepsDbValid(r, saved.(ledger := saved.ledger + [entry]), id, approved);
      }
    }
  }

  lemma RejectionKeepsDbValid(r: Rules, db: Db, id: nat, admin: UserId, note: string,
                              approvedAmount: Option<real>, now: int)
    requires DbValid(r, db) && id < |db.deposits|
    requires db.deposits[id].status == "pending" && db.deposits[id].user < |db.users|
    ensures var o := ProcessDeposit(r, db, id, admin, "rejected", note, approvedAmount, now);
      DbValid(r, o.db) && FirstDepositDatesKept(db, o.db)
  {
    var d := db.deposits[id];
    var stamped := Stamped(d, "rejected", note, admin, now);
    var entry := Transaction(d.user, "deposit", d.amount, "failed", db.users[d.user].balance,
                             DepositRef(id), Some(admin), now);
    if TransactionValid(r, entry) {
      LedgerAppendKeepsDbValid(r, db, entry);
      if DepositValid(r, stamped) {
        DepositWriteKeepsDbValid(r, db.(ledger := db.ledger + [entry]), id, stamped);
      }
    }
  }

  lemma CreditManuallyKeepsDbValid(r: Rules, db: Db, target: int, admin: UserId, amount: real, note: string, now: int)
    requires DbValid(r, db)
    ensures var o := CreditManually(r, db, target, admin, amount, note, now);
      DbValid(r, o.db) && FirstDepositDatesKept(db, o.db)
  {
  }

  // ---------------------------------------------------------------- findings

  /** As written, approving a pending deposit with an amount below the schema
      minimum credits the balance and writes a completed entry, then the
      deposit save is refused: the deposit stays pending, and approving it
      again credits the user a second time. */
  lemma ApprovalBelowMinimumCreditsTwice(db: Db, id: int, admin: UserId, note: string, a: real, now: int)
    requires DbValid(AsWritten, db)
    requires 0 <= id < |db.deposits| && db.deposits[id].status == "pending"
    requires 0.0 < a < MinAmount
    ensures var u := db.deposits[id].user;
      var o1 := ProcessDeposit(AsWritten, db, id, admin, "approved", note, Some(a), now);
      var o2 := ProcessDeposit(AsWritten, o1.db, id, admin, "approved", note, Some(a), now);
      && o1.reply == Err(SchemaViolation) && o2.reply == Err(SchemaViolation)
      && o1.db.deposits[id].status == "pending"
      && o2.db.users[u].balance == db.users[u].balance + a + a
      && |o2.db.ledger| == |db.ledger| + 2
  {
    var u := db.deposits[id].user;
    var o1 := ProcessDeposit(AsWritten, db, id, admin, "approved", note, Some(a), now);
    assert o1.db.deposits == db.deposits;
    assert o1.db.users[u].balance == db.users[u].balance + a;
  }

  /** Checking the minimum before any write: a low amount is refused with
      nothing changed, and an amount at or above it is approved. */
  lemma ApprovalBelowMinimumRefused(db: Db, id: int, admin: UserId, note: string, a: real, now: int)
    requires DbValid(Intended, db)
    requires 0 <= id < |db.deposits| && db.deposits[id].status == "pending"
    ensures 0.0 < a < MinAmount ==>
      ProcessDeposit(Intended, db, id, admin, "approved", note, Some(a), now) == Outcome(Err(InvalidApprovedAmount), db)
    ensures a >= MinAmount ==>
      var o := ProcessDeposit(Intended, db, id, admin, "approved", note, Some(a), now);
      o.reply == Ok(200) && o.db.deposits[id].status == "approved" && o.db.deposits[id].amount == a
  {
  }

  /** As written, the rejection entry's status 'failed' is outside the ledger
      schema, so no deposit can be rejected: the reply is 500 and the deposit
      stays pending. */
  lemma RejectionAlwaysFails(db: Db, id: int, admin: UserId, note: string, approvedAmount: Option<real>, now: int)
    requires 0 <= id < |db.deposits| && db.deposits[id].status == "pending" && db.deposits[id].user < |db.users|
    ensures ProcessDeposit(AsWritten, db, id, admin, "rejected", note, approvedAmount, now) == Outcome(Err(SchemaViolation), db)
  {
  }

  /** With 'failed' admitted, a rejection records the decision and the failed
      entry, and leaves every balance as it was. */
  lemma RejectionRecorded(db: Db, id: int, admin: UserId, note: string, approvedAmount: Option<real>, now: int)
    requires DbValid(Intended, db)
    requires 0 <= id < |db.deposits| && db.deposits[id].status == "pending"
    ensures var d := db.deposits[id];
      var o := ProcessDeposit(Intended, db, id, admin, "rejected", note, approvedAmount, now);
      && o.reply == Ok(200)
      && o.db.deposits == db.deposits[id := Stamped(d, "rejected", note, admin, now)]
      && o.db.users == db.users
      && o.db.ledger == db.ledger + [Transaction(d.user, "deposit", d.amount, "failed", db.users[d.user].balance,
                                                 DepositRef(id), Some(admin), now)]
  {
  }

  /** As written, the manual deposit's method 'manual' is outside the deposit
      schema, so the manual credit never changes anything. */
  lemma ManualCreditAlwaysFails(db: Db, target: int, admin: UserId, amount: real, note: string, now: int)
    ensures CreditManually(AsWritten, db, target, admin, amount, note, now).db == db
    ensures 0 <= target < |db.users| ==>
      CreditManually(AsWritten, db, target, admin, amount, note, now).reply == Err(SchemaViolation)
  {
  }

  /** With 'manual' admitted, any amount at or above the minimum is credited
      and recorded as an approved deposit. */
  lemma ManualCreditCredits(db: Db, target: int, admin: UserId, amount: real, note: string, now: int)
    requires 0 <= target < |db.users| && amount >= MinAmount
    ensures var o := CreditManually(Intended, db, target, admin, amount, note, now);
      && o.reply == Ok(200)
      && o.db.users[target].balance == db.users[target].balance + amount
      && o.db.deposits[|db.deposits|].status == "approved"
      && o.db.ledger == db.ledger
  {
  }
}
