/** The persisted records of backend/models and the validity predicates their
    schemas enforce on every create and save. */
module Models {
  import opened Base

  /** Users, deposits and withdrawals are identified by their position in
      insertion order. */
  type UserId = nat

  datatype Role = Customer | Admin

  /** The User schema is not part of this model; these are the fields the
      route handlers read and write. */
  datatype User = User(
    name: string,
    email: string,
    role: Role,
    status: string,
    balance: real,
    firstDepositDate: Option<int>)

  datatype Deposit = Deposit(
    user: UserId,
    amount: real,
    paymentMethod: string,
    screenshot: string,
    status: string,
    adminNote: string,
    processedBy: Option<UserId>,
    processedAt: Option<int>)

  datatype Withdrawal = Withdrawal(
    user: UserId,
    amount: real,
    paymentMethod: string,
    accountDetails: string,
    status: string,
    adminNote: string,
    processedBy: Option<UserId>,
    processedAt: Option<int>)

  /** The `reference` of a ledger entry: the deposit or withdrawal it reports. */
  datatype Ref = NoRef | DepositRef(deposit: nat) | WithdrawalRef(withdrawal: nat)

  /** A ledger entry. `kind` is the schema's `type` field and `balance` the
      user's balance after the event; `createdAt` is the creation timestamp. */
  datatype Transaction = Transaction(
    user: UserId,
    kind: string,
    amount: real,
    status: string,
    balance: real,
    reference: Ref,
    processedBy: Option<UserId>,
    createdAt: int)

  /** The schemas' `min` on deposit and withdrawal amounts. */
  const MinAmount: real := 100.0
  const PaymentMethods: set<string> := {"easypaisa", "jazzcash", "binance"}
  const RequestStatuses: set<string> := {"pending", "approved", "rejected"}
  const TransactionTypes: set<string> := {"deposit", "withdrawal", "profit", "manual", "referral"}
  const TransactionStatuses: set<string> := {"pending", "approved", "rejected", "completed"}

  /** The enumerations the schema layer enforces, plus one handler rule.
      `AsWritten` is the repository as it stands. `Intended` widens the
      enumerations with the values the handlers and the frontend types use
      ('manual', 'withdraw', 'failed') and checks the deposit minimum before an
      approval writes anything. */
  datatype Rules = Rules(
    depositMethods: set<string>,
    transactionTypes: set<string>,
    transactionStatuses: set<string>,
    minimumBeforeCredit: bool)

  const AsWritten: Rules := Rules(PaymentMethods, TransactionTypes, TransactionStatuses, false)
  const Intended: Rules :=
    Rules(PaymentMethods + {"manual"}, TransactionTypes + {"withdraw"}, TransactionStatuses + {"failed"}, true)

  /** A string field marked `required` refuses the empty string. */
  predicate DepositValid(r: Rules, d: Deposit)
  {
    && d.amount >= MinAmount
    && d.paymentMethod in r.depositMethods
    && d.screenshot != ""
    && d.status in RequestStatuses
  }

  predicate WithdrawalValid(w: Withdrawal)
  {
    && w.amount >= MinAmount
    && w.paymentMethod in PaymentMethods
    && w.accountDetails != ""
    && w.status in RequestStatuses
  }

  /** `amount` carries no sign restriction and `balance` is always present. */
  predicate TransactionValid(r: Rules, t: Transaction)
  {
    t.kind in r.transactionTypes && t.status in r.transactionStatuses
  }

  /** `Deposit.create` with the schema defaults for the fields not given. */
  function NewDeposit(user: UserId, amount: real, paymentMethod: string, screenshot: string): Deposit
  {
    Deposit(user, amount, paymentMethod, screenshot, "pending", "", None, None)
  }

  function NewWithdrawal(user: UserId, amount: real, paymentMethod: string, accountDetails: string): Withdrawal
  {
    Withdrawal(user, amount, paymentMethod, accountDetails, "pending", "", None, None)
  }

  /** The four collections of the database. */
  datatype Db = Db(
    users: seq<User>,
    deposits: seq<Deposit>,
    withdrawals: seq<Withdrawal>,
    ledger: seq<Transaction>)

  /** Every stored record satisfies its schema and refers to an existing user. */
  predicate DbValid(r: Rules, db: Db)
  {
    && (forall i :: 0 <= i < |db.deposits| ==>
          DepositValid(r, db.deposits[i]) && db.deposits[i].user < |db.users|)
    && (forall i :: 0 <= i < |db.withdrawals| ==>
          WithdrawalValid(db.withdrawals[i]) && db.withdrawals[i].user < |db.users|)
    && (forall i :: 0 <= i < |db.ledger| ==>
          TransactionValid(r, db.ledger[i]) && db.ledger[i].user < |db.users|)
  }

  /** Replacing one user keeps every reference valid. */
  lemma UserWriteKeepsDbValid(r: Rules, db: Db, i: nat, u: User)
    requires DbValid(r, db) && i < |db.users|
    ensures DbValid(r, db.(users := db.users[i := u]))
  {
  }

  /** Appending a valid entry for an existing user keeps the database valid. */
  lemma LedgerAppendKeepsDbValid(r: Rules, db: Db, t: Transaction)
    requires DbValid(r, db) && TransactionValid(r, t) && t.user < |db.users|
    ensures DbValid(r, db.(ledger := db.ledger + [t]))
  {
  }

  /** Replacing a deposit by a valid one of an existing user keeps the database valid. */
  lemma DepositWriteKeepsDbValid(r: Rules, db: Db, id: nat, d: Deposit)
    requires DbValid(r, db) && id < |db.deposits| && DepositValid(r, d) && d.user < |db.users|
    ensures DbValid(r, db.(deposits := db.deposits[id := d]))
  {
  }

  /** Replacing a withdrawal by a valid one of an existing user keeps the database valid. */
  lemma WithdrawalWriteKeepsDbValid(r: Rules, db: Db, id: nat, w: Withdrawal)
    requires DbValid(r, db) && id < |db.withdrawals| && WithdrawalValid(w) && w.user < |db.users|
    ensures DbValid(r, db.(withdrawals := db.withdrawals[id := w]))
  {
  }

  /** Once set, no user's first-deposit date changes, and no user disappears. */
  predicate FirstDepositDatesKept(before: Db, after: Db)
  {
    && |before.users| <= |after.users|
    && forall i :: 0 <= i < |before.users| && before.users[i].firstDepositDate.Some? ==>
         after.users[i].firstDepositDate == before.users[i].firstDepositDate
  }

  lemma DatesKeptTransitive(a: Db, b: Db, c: Db)
    requires FirstDepositDatesKept(a, b) && FirstDepositDatesKept(b, c)
    ensures FirstDepositDatesKept(a, c)
  {
  }

  /** The labels the handlers write that the declared schemas refuse, and the
      values the schemas do enforce. */
  lemma DeclaredSchemaFacts(d: Deposit, w: Withdrawal, t: Transaction)
    ensures t.kind == "withdraw" ==> !TransactionValid(AsWritten, t)
    ensures t.status == "failed" ==> !TransactionValid(AsWritten, t)
    ensures d.paymentMethod == "manual" ==> !DepositValid(AsWritten, d)
    ensures (d.paymentMethod == "easypaisa" && d.amount >= 100.0 && d.screenshot != "" && d.status == "pending")
              ==> DepositValid(AsWritten, d)
    ensures d.amount < 100.0 ==> !DepositValid(AsWritten, d)
    ensures (w.paymentMethod == "bank" || w.amount < 100.0 || w.accountDetails == "") ==> !WithdrawalValid(w)
    ensures (t.kind in {"deposit", "profit", "manual"} && t.status in {"pending", "completed"})
              ==> TransactionValid(AsWritten, t)
  {
  }

  /** The defaults: a fresh deposit or withdrawal is `pending` with an empty note. */
  lemma DefaultsArePending(user: UserId, amount: real, paymentMethod: string, proof: string)
    ensures NewDeposit(user, amount, paymentMethod, proof).status == "pending"
    ensures NewDeposit(user, amount, paymentMethod, proof).adminNote == ""
    ensures NewWithdrawal(user, amount, paymentMethod, proof).status == "pending"
    ensures DepositValid(AsWritten, NewDeposit(user, amount, paymentMethod, proof)) <==>
              (amount >= 100.0 && paymentMethod in PaymentMethods && proof != "")
    ensures WithdrawalValid(NewWithdrawal(user, amount, paymentMethod, proof)) <==>
              (amount >= 100.0 && paymentMethod in PaymentMethods && proof != "")
  {
  }
}
