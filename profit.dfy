/** backend/services/profitService.js: the per-user profit estimate from
    completed deposits, and the daily job that credits every user with a
    share of their balance. */
module ProfitService {
  import opened Base
  import opened Models
  import opened Persistence
  import opened Ledger

  datatype DailyProfit = DailyProfit(dailyProfit: real, totalDeposits: real)

  function CompletedDepositsOf(user: UserId): Query
  {
    Query(Some(user), Some("deposit"), Some("completed"), None, None)
  }

  /** `calculateDailyProfit`: None when the user has no completed deposit
      entry; otherwise their sum and thirty per cent of it spread over thirty
      days. */
  function CalculateDailyProfit(ledger: seq<Transaction>, user: UserId): Option<DailyProfit>
  {
    var deposits := Find(ledger, CompletedDepositsOf(user));
    if |deposits| == 0 then None
    else
      var total := SumAmounts(deposits);
      Some(DailyProfit(total * 0.30 / 30.0, total))
  }

  lemma CalculateDailyProfitCases(ledger: seq<Transaction>, user: UserId)
    ensures CalculateDailyProfit(ledger, user).None? <==>
      forall t :: t in ledger ==> t.user != user || t.kind != "deposit" || t.status != "completed"
    ensures CalculateDailyProfit(ledger, user).Some? ==>
      && CalculateDailyProfit(ledger, user).value.totalDeposits == SumAmounts(Find(ledger, CompletedDepositsOf(user)))
      && CalculateDailyProfit(ledger, user).value.dailyProfit
           == CalculateDailyProfit(ledger, user).value.totalDeposits / 100.0
  {
    var deposits := Find(ledger, CompletedDepositsOf(user));
    if |deposits| > 0 {
      assert deposits[0] in deposits;
    }
  }

  /** 0.30 / 365: thirty per cent a year, per day. */
  const DailyRate: real := 0.30 / 365.0

  function Profit(u: User): real
  {
    u.balance * DailyRate
  }

  /** The user after the job's credit: only a positive profit is credited. */
  function Credit(u: User): User
  {
    if Profit(u) > 0.0 then u.(balance := u.balance + Profit(u)) else u
  }

  /** The profit entry, written with the balance the credit will produce. */
  function ProfitEntry(id: UserId, u: User, now: int): Transaction
  {
    Transaction(id, "profit", Profit(u), "completed", u.balance + Profit(u), NoRef, None, now)
  }

  /** A database failure outside the model, at the entry save or at the user
      save of one user; a write the job never attempts cannot fail. */
  datatype Fault = NoFault | EntryFails(at: nat) | UserSaveFails(at: nat)

  /** One iteration for user `i`: the entry is saved, then the balance. */
  function Step(r: Rules, db: Db, i: nat, fault: Fault, now: int): (o: Outcome)
    requires i < |db.users|
    ensures |o.db.users| == |db.users|
  {
    var u := db.users[i];
    if !(Profit(u) > 0.0) then Outcome(Ok(200), db)
    else if fault == EntryFails(i) then Outcome(Err(StoreFault), db)
    else
      var entry := ProfitEntry(i, u, now);
      if !TransactionValid(r, entry) then Outcome(Err(SchemaViolation), db)
      else
        var logged := db.(ledger := db.ledger + [entry]);
        if fault == UserSaveFails(i) then Outcome(Err(StoreFault), logged)
        else Outcome(Ok(200), logged.(users := logged.users[i := Credit(u)]))
  }

  /** The loop from user `i` on; the first error ends the job. */
  function RunFrom(r: Rules, db: Db, i: nat, fault: Fault, now: int): (o: Outcome)
    requires i <= |db.users|
    ensures |o.db.users| == |db.users|
    decreases |db.users| - i
  {
    if i == |db.users| then Outcome(Ok(200), db)
    else
      var o := Step(r, db, i, fault, now);
      if o.reply.Err? then o
      else RunFrom(r, o.db, i + 1, fault, now)
  }

  /** `processDailyProfits`. */
  function ProcessDailyProfits(r: Rules, db: Db, fault: Fault, now: int): Outcome
  {
    RunFrom(r, db, 0, fault, now)
  }

  method RunDailyProfits(s: Store, fault: Fault, now: int) returns (reply: Reply)
    requires s.Valid()
    modifies s
    ensures s.Valid()
    ensures Outcome(reply, s.State()) == ProcessDailyProfits(s.rules, old(s.State()), fault, now)
  {
    RunKeepsDbValid(s.rules, s.State(), 0, fault, now);
    var i := 0;
    while i < |s.users|
      invariant i <= |s.users|
      invariant RunFrom(s.rules, s.State(), i, fault, now) == ProcessDailyProfits(s.rules, old(s.State()), fault, now)
      decreases |s.users| - i
    {
      var user := s.users[i];
      var profit := user.balance * DailyRate;
      if profit > 0.0 {
        if fault == EntryFails(i) {
          return Err(StoreFault);
        }
        var ok := s.CreateTransaction(Transaction(i, "profit", profit, "completed", user.balance + profit, NoRef, None, now));
        if !ok {
          return Err(SchemaViolation);
        }
        if fault == UserSaveFails(i) {
          return Err(StoreFault);
        }
        user := user.(balance := user.balance + profit);
        s.SaveUser(i, user);
      }
      i := i + 1;
    }
    return Ok(200);
  }

  // ---------------------------------------------------------------- properties

  /** The users from `i` up to `k` credited, the others as they were. */
  function CreditRange(users: seq<User>, i: int, k: int): seq<User>
  {
    seq(|users|, j requires 0 <= j < |users| => if i <= j < k then Credit(users[j]) else users[j])
  }

  /** The profit entry user `id` earns, if any. */
  function EntryOf(id: nat, u: User, now: int): seq<Transaction>
  {
    if Profit(u) > 0.0 then [ProfitEntry(id, u, now)] else []
  }

  /** The profit entries of users `i` up to `k`, in order. */
  function Entries(users: seq<User>, i: nat, k: nat, now: int): seq<Transaction>
    requires i <= k <= |users|
    decreases k - i
  {
    if i == k then [] else EntryOf(i, users[i], now) + Entries(users, i + 1, k, now)
  }

  lemma {:induction false} EntriesFrame(us: seq<User>, vs: seq<User>, i: nat, k: nat, now: int)
    requires i <= k <= |us| && k <= |vs|
    requires forall j :: i <= j < k ==> us[j] == vs[j]
    ensures Entries(us, i, k, now) == Entries(vs, i, k, now)
    decreases k - i
  {
    if i < k {
      assert us[i] == vs[i];
      EntriesFrame(us, vs, i + 1, k, now);
    }
  }

  /** Only a positive balance earns a profit. */
  lemma ProfitSign(u: User)
    ensures Profit(u) > 0.0 <==> u.balance > 0.0
    ensures Credit(u).balance == if u.balance > 0.0 then u.balance * (1.0 + DailyRate) else u.balance
  {
  }

  /** The database after user `i`'s fault-free step. */
  function Advance(db: Db, i: nat, now: int): Db
    requires i < |db.users|
  {
    db.(users := db.users[i := Credit(db.users[i])], ledger := db.ledger + EntryOf(i, db.users[i], now))
  }

  /** The database after the fault-free steps of users `i` up to `k`. */
  function Reached(db: Db, i: nat, k: nat, now: int): Db
    requires i <= k <= |db.users|
  {
    db.(users := CreditRange(db.users, i, k), ledger := db.ledger + Entries(db.users, i, k, now))
  }

  /** A step that meets no fault credits its user and appends its entry, if
      any. */
  lemma StepWithoutFault(r: Rules, db: Db, i: nat, fault: Fault, now: int)
    requires "profit" in r.transactionTypes && "completed" in r.transactionStatuses
    requires i < |db.users|
    requires Profit(db.users[i]) > 0.0 ==> fault != EntryFails(i) && fault != UserSaveFails(i)
    ensures Step(r, db, i, fault, now) == Outcome(Ok(200), Advance(db, i, now))
  {
    if !(Profit(db.users[i]) > 0.0) {
      assert db.users[i := Credit(db.users[i])] == db.users;
      assert db.ledger + EntryOf(i, db.users[i], now) == db.ledger;
    }
  }

  /** Without a fault at user `i`, the run from `i` is the run from `i + 1`
      on the advanced database. */
  lemma RunStep(r: Rules, db: Db, i: nat, fault: Fault, now: int)
    requires "profit" in r.transactionTypes && "completed" in r.transactionStatuses
    requires i < |db.users|
    requires Profit(db.users[i]) > 0.0 ==> fault != EntryFails(i) && fault != UserSaveFails(i)
    ensures RunFrom(r, db, i, fault, now) == RunFrom(r, Advance(db, i, now), i + 1, fault, now)
  {
    StepWithoutFault(r, db, i, fault, now);
  }

  lemma CreditRangeShift(users: seq<User>, i: nat, k: nat)
    requires i < k <= |users|
    ensures CreditRange(users[i := Credit(users[i])], i + 1, k) == CreditRange(users, i, k)
  {
  }

  /** Advancing past user `i`, then reaching `k`, is reaching `k` from `i`. */
  lemma NextReaches(db: Db, i: nat, k: nat, now: int)
    requires i < k <= |db.users|
    ensures Reached(Advance(db, i, now), i + 1, k, now) == Reached(db, i, k, now)
  {
    var next := Advance(db, i, now);
    CreditRangeShift(db.users, i, k);
    AdvanceLedger(db, i, k, now);
    var lhs, rhs := Reached(next, i + 1, k, now), Reached(db, i, k, now);
    assert lhs.users == rhs.users;
  }

  /** The entry of user `i` followed by those of `i + 1` up to `k` are the
      entries of `i` up to `k`. */
  lemma AdvanceLedger(db: Db, i: nat, k: nat, now: int)
    requires i < k <= |db.users|
    ensures var next := Advance(db, i, now);
      next.ledger + Entries(next.users, i + 1, k, now) == db.ledger + Entries(db.users, i, k, now)
  {
    var next := Advance(db, i, now);
    var e, rest := EntryOf(i, db.users[i], now), Entries(db.users, i + 1, k, now);
    EntriesFrame(next.users, db.users, i + 1, k, now);
    assert Entries(db.users, i, k, now) == e + rest;
    assert (db.ledger + e) + rest == db.ledger + (e + rest);
  }

  /** Without a fault before `k`, running from `i` reaches `k` with users `i`
      up to `k` credited and their entries appended, and nothing else
      changed. */
  lemma {:induction false} RunReaches(r: Rules, db: Db, i: nat, k: nat, fault: Fault, now: int)
    requires "profit" in r.transactionTypes && "completed" in r.transactionStatuses
    requires i <= k <= |db.users|
    requires forall j :: i <= j < k && Profit(db.users[j]) > 0.0 ==> fault != EntryFails(j) && fault != UserSaveFails(j)
    ensures RunFrom(r, db, i, fault, now) == RunFrom(r, Reached(db, i, k, now), k, fault, now)
    decreases k - i
  {
    if i == k {
      assert CreditRange(db.users, i, k) == db.users;
      assert db.ledger + Entries(db.users, i, k, now) == db.ledger;
    } else {
      RunStep(r, db, i, fault, now);
      var next := Advance(db, i, now);
      forall j | i + 1 <= j < k && Profit(next.users[j]) > 0.0
        ensures fault != EntryFails(j) && fault != UserSaveFails(j)
      {
        assert next.users[j] == db.users[j];
      }
      RunReaches(r, next, i + 1, k, fault, now);
      NextReaches(db, i, k, now);
    }
  }

  /** Without a fault every user with a positive balance is credited exactly
      their profit, one entry each, in user order. */
  lemma JobCreditsEveryone(r: Rules, db: Db, now: int)
    requires "profit" in r.transactionTypes && "completed" in r.transactionStatuses
    ensures ProcessDailyProfits(r, db, NoFault, now) == Outcome(Ok(200), Reached(db, 0, |db.users|, now))
  {
    RunReaches(r, db, 0, |db.users|, NoFault, now);
  }

  /** A fault at user `k` ends the job with an error: the users before `k`
      keep their credits, `k` and the rest are not credited; a failed user
      save leaves `k`'s entry in the ledger without the credit it reports. */
  lemma JobStopsAtFault(r: Rules, db: Db, k: nat, fault: Fault, now: int)
    requires "profit" in r.transactionTypes && "completed" in r.transactionStatuses
    requires k < |db.users| && Profit(db.users[k]) > 0.0
    requires fault == EntryFails(k) || fault == UserSaveFails(k)
    ensures var o := ProcessDailyProfits(r, db, fault, now);
      && o.reply == Err(StoreFault)
      && o.db.users == CreditRange(db.users, 0, k)
      && o.db.ledger == db.ledger + Entries(db.users, 0, k, now)
                          + (if fault.UserSaveFails? then [ProfitEntry(k, db.users[k], now)] else [])
      && o.db.deposits == db.deposits && o.db.withdrawals == db.withdrawals
  {
    RunReaches(r, db, 0, k, fault, now);
    assert Reached(db, 0, k, now).users[k] == db.users[k];
  }

  /** The job keeps no record of its last run: two fault-free runs compound,
      a positive balance b becoming b (1 + r)^2 with r the daily rate. */
  lemma TwoRunsCompound(r: Rules, db: Db, now: int, later: int, id: nat)
    requires "profit" in r.transactionTypes && "completed" in r.transactionStatuses
    requires id < |db.users| && db.users[id].balance > 0.0
    ensures var once := ProcessDailyProfits(r, db, NoFault, now).db;
      var twice := ProcessDailyProfits(r, once, NoFault, later).db;
      twice.users[id].balance == db.users[id].balance * (1.0 + DailyRate) * (1.0 + DailyRate)
  {
    JobCreditsEveryone(r, db, now);
    var once := ProcessDailyProfits(r, db, NoFault, now).db;
    JobCreditsEveryone(r, once, later);
    ProfitSign(db.users[id]);
    ProfitSign(once.users[id]);
  }

  /** The job keeps the database valid and leaves every first-deposit date. */
  lemma {:induction false} RunKeepsDbValid(r: Rules, db: Db, i: nat, fault: Fault, now: int)
    requires DbValid(r, db) && i <= |db.users|
    ensures var o := RunFrom(r, db, i, fault, now);
      DbValid(r, o.db) && FirstDepositDatesKept(db, o.db) && |o.db.users| == |db.users|
    decreases |db.users| - i
  {
    if i < |db.users| {
      var o := Step(r, db, i, fault, now);
      StepKeepsDbValid(r, db, i, fault, now);
      if o.reply.Ok? {
        var rest := RunFrom(r, o.db, i + 1, fault, now);
        assert RunFrom(r, db, i, fault, now) == rest;
        RunKeepsDbValid(r, o.db, i + 1, fault, now);
        DatesKeptTransitive(db, o.db, rest.db);
      }
    }
  }

  /** One step keeps the database valid and leaves every first-deposit date. */
  lemma StepKeepsDbValid(r: Rules, db: Db, i: nat, fault: Fault, now: int)
    requires DbValid(r, db) && i < |db.users|
    ensures var o := Step(r, db, i, fault, now);
      DbValid(r, o.db) && FirstDepositDatesKept(db, o.db)
  {
    var u := db.users[i];
    var entry := ProfitEntry(i, u, now);
    if Profit(u) > 0.0 && fault != EntryFails(i) && TransactionValid(r, entry) {
      LedgerAppendKeepsDbValid(r, db, entry);
      var logged := db.(ledger := db.ledger + [entry]);
      UserWriteKeepsDbValid(r, logged, i, Credit(u));
    }
  }
}
