/** backend/routes/admin.js: the manual balance adjustment, the dashboard
    aggregates, the paginated user listing and the creation of a further
    admin. */
module AdminRoutes {
  import opened Base
  import opened Models
  import opened Persistence
  import opened Ledger
  import opened RequestStats
  import opened Text
  import DepositRoutes
  import WithdrawRoutes

  // ---------------------------------------------------------------- balance adjustment

  /** The new balance for `type` 'add' or 'subtract', or the refusal. */
  function Adjust(balance: real, kind: string, amount: real): Result<real, Error>
  {
    if kind == "add" then Success(balance + amount)
    else if kind == "subtract" then
      if balance < amount then Failure(InsufficientBalance) else Success(balance - amount)
    else Failure(InvalidOperation)
  }

  /** The ledger amount of an adjustment: positive for 'add', negative otherwise. */
  function SignedAmount(kind: string, amount: real): real
  {
    if kind == "add" then amount else -amount
  }

  /** POST /admin/users/:userId/balance. The balance is saved before the
      `manual`/`completed` entry is written. */
  function AdjustBalance(r: Rules, db: Db, target: int, admin: UserId, kind: string, amount: real, now: int): Outcome
  {
    if !(0 <= target < |db.users|) then Outcome(Err(UserNotFound), db)
    else
      match Adjust(db.users[target].balance, kind, amount)
      case Failure(e) => Outcome(Err(e), db)
      case Success(b) =>
        var saved := db.(users := db.users[target := db.users[target].(balance := b)]);
        var entry := Transaction(target, "manual", SignedAmount(kind, amount), "completed", b, NoRef, Some(admin), now);
        if !TransactionValid(r, entry) then Outcome(Err(SchemaViolation), saved)
        else Outcome(Ok(200), saved.(ledger := saved.ledger + [entry]))
  }

  method PostBalance(s: Store, target: int, admin: UserId, kind: string, amount: real, now: int) returns (reply: Reply)
    requires s.Valid()
    modifies s
    ensures s.Valid()
    ensures Outcome(reply, s.State()) == AdjustBalance(s.rules, old(s.State()), target, admin, kind, amount, now)
  {
    AdjustBalanceKeepsDbValid(s.rules, s.State(), target, admin, kind, amount, now);
    if !(0 <= target < |s.users|) {
      return Err(UserNotFound);
    }
    var user := s.users[target];
    if kind == "add" {
      user := user.(balance := user.balance + amount);
    } else if kind == "subtract" {
      if user.balance < amount {
        return Err(InsufficientBalance);
      }
      user := user.(balance := user.balance - amount);
    } else {
      return Err(InvalidOperation);
    }
    s.SaveUser(target, user);
    var ok := s.CreateTransaction(Transaction(target, "manual", if kind == "add" then amount else -amount, "completed",
                                              user.balance, NoRef, Some(admin), now));
    if !ok {
      return Err(SchemaViolation);
    }
    return Ok(200);
  }

  /** 'add' raises the balance by the amount; 'subtract' is refused exactly
      when the balance is below the amount and otherwise lowers it by the
      amount, so a non-negative balance stays non-negative; any other type is
      refused. */
  lemma AdjustCases(balance: real, kind: string, amount: real)
    ensures kind == "add" ==> Adjust(balance, kind, amount) == Success(balance + amount)
    ensures kind == "subtract" ==>
      (Adjust(balance, kind, amount) == Failure(InsufficientBalance) <==> balance < amount)
    ensures kind == "subtract" && balance >= amount ==> Adjust(balance, kind, amount) == Success(balance - amount)
    ensures kind == "subtract" && Adjust(balance, kind, amount).Success? ==> Adjust(balance, kind, amount).value >= 0.0
    ensures kind != "add" && kind != "subtract" ==> Adjust(balance, kind, amount) == Failure(InvalidOperation)
    ensures Adjust(balance, kind, amount).Success? ==>
      Adjust(balance, kind, amount).value == balance + SignedAmount(kind, amount)
  {
  }

  /** An unknown user or a refused adjustment changes nothing. A successful one
      changes only the target's balance and appends one `manual`/`completed`
      entry whose signed amount is the change and whose balance is the new
      balance. */
  lemma AdjustmentEffects(r: Rules, db: Db, target: int, admin: UserId, kind: string, amount: real, now: int)
    requires "manual" in r.transactionTypes && "completed" in r.transactionStatuses
    ensures var o := AdjustBalance(r, db, target, admin, kind, amount, now);
      && (!(0 <= target < |db.users|) ==> o == Outcome(Err(UserNotFound), db))
      && (o.reply.Err? ==> o.db == db)
      && (o.reply.Ok? <==> 0 <= target < |db.users| && Adjust(db.users[target].balance, kind, amount).Success?)
      && (o.reply.Ok? ==>
            var b := db.users[target].balance + SignedAmount(kind, amount);
            && o.db.users == db.users[target := db.users[target].(balance := b)]
            && o.db.ledger == db.ledger + [Transaction(target, "manual", SignedAmount(kind, amount), "completed",
                                                       b, NoRef, Some(admin), now)]
            && o.db.deposits == db.deposits && o.db.withdrawals == db.withdrawals)
  {
  }

  lemma AdjustBalanceKeepsDbValid(r: Rules, db: Db, target: int, admin: UserId, kind: string, amount: real, now: int)
    requires DbValid(r, db)
    ensures var o := AdjustBalance(r, db, target, admin, kind, amount, now);
      DbValid(r, o.db) && FirstDepositDatesKept(db, o.db)
  {
  }

  // ---------------------------------------------------------------- dashboard

  /** A `$group` of `$sum: '$amount'` and `$sum: 1`, each `|| 0`. */
  datatype Totals = Totals(totalAmount: real, count: nat)

  function CompletedOf(kind: string): Query
  {
    Query(None, Some(kind), Some("completed"), None, None)
  }

  /** The totals over the entries of `kind` with status `completed`; no group
      exists when none matches. */
  function CompletedTotals(ledger: seq<Transaction>, kind: string): Totals
  {
    var matched := Find(ledger, CompletedOf(kind));
    if |matched| == 0 then Totals(OrZero(None), 0)
    else Totals(OrZero(Some(SumAmounts(matched))), |matched|)
  }

  function CountActive(users: seq<User>): (n: nat)
    ensures n <= |users|
  {
    if users == [] then 0
    else CountActive(users[..|users| - 1]) + (if users[|users| - 1].status == "active" then 1 else 0)
  }

  datatype Dashboard = Dashboard(
    totalUsers: nat,
    activeUsers: nat,
    deposits: Totals,
    withdrawals: Totals,
    profits: Totals,
    pendingDeposits: nat,
    pendingWithdrawals: nat,
    recentTransactions: seq<Transaction>)

  /** GET /admin/dashboard. The ledger is kept in creation order, so its newest
      ten entries are the last ten, newest first. */
  function AdminDashboard(db: Db): Dashboard
  {
    var newest := NewestFirst(db.ledger);
    Dashboard(|db.users|, CountActive(db.users),
              CompletedTotals(db.ledger, "deposit"),
              CompletedTotals(db.ledger, "withdraw"),
              CompletedTotals(db.ledger, "profit"),
              CountStatus(DepositRoutes.DepositRequests(db.deposits), "pending"),
              CountStatus(WithdrawRoutes.WithdrawalRequests(db.withdrawals), "pending"),
              if |newest| <= 10 then newest else newest[..10])
  }

  /** The active count is what the user listing keeps for the status filter
      'active'. */
  lemma {:induction false} CountActiveIsFilter(users: seq<User>)
    ensures CountActive(users) == |FilterUsers(users, "", "active")|
  {
    if users != [] {
      CountActiveIsFilter(users[..|users| - 1]);
    }
  }

  /** The user counts are the listing's, and the pending counts are the
      number of deposits and withdrawals whose status is 'pending', as the
      statistics routes report them. */
  lemma DashboardCounts(db: Db)
    ensures var d := AdminDashboard(db);
      && d.totalUsers == |db.users|
      && d.activeUsers == |FilterUsers(db.users, "", "active")| <= d.totalUsers
      && d.pendingDeposits == |set i | 0 <= i < |db.deposits| && db.deposits[i].status == "pending"|
      && d.pendingWithdrawals == |set i | 0 <= i < |db.withdrawals| && db.withdrawals[i].status == "pending"|
      && d.pendingDeposits == Summarize(DepositRoutes.DepositRequests(db.deposits)).pending
      && d.pendingWithdrawals == Summarize(WithdrawRoutes.WithdrawalRequests(db.withdrawals)).pending
  {
    CountActiveIsFilter(db.users);
    PendingDepositsCounted(db.deposits);
    PendingWithdrawalsCounted(db.withdrawals);
  }

  lemma PendingDepositsCounted(ds: seq<Deposit>)
    ensures CountStatus(DepositRoutes.DepositRequests(ds), "pending") == |set i | 0 <= i < |ds| && ds[i].status == "pending"|
  {
    var rs := DepositRoutes.DepositRequests(ds);
    CountStatusCounts(rs, "pending");
    assert Positions(rs, "pending") == set i | 0 <= i < |ds| && ds[i].status == "pending";
  }

  lemma PendingWithdrawalsCounted(ws: seq<Withdrawal>)
    ensures CountStatus(WithdrawRoutes.WithdrawalRequests(ws), "pending") == |set i | 0 <= i < |ws| && ws[i].status == "pending"|
  {
    var rs := WithdrawRoutes.WithdrawalRequests(ws);
    CountStatusCounts(rs, "pending");
    assert Positions(rs, "pending") == set i | 0 <= i < |ws| && ws[i].status == "pending";
  }

  /** Each total is the sum and the count of the matching entries, 0 for both
      when there are none. */
  lemma TotalsAreSumAndCount(ledger: seq<Transaction>, kind: string)
    ensures CompletedTotals(ledger, kind).count == |Find(ledger, CompletedOf(kind))|
    ensures CompletedTotals(ledger, kind).totalAmount == SumAmounts(Find(ledger, CompletedOf(kind)))
    ensures (forall i :: 0 <= i < |ledger| ==> ledger[i].kind != kind || ledger[i].status != "completed") ==>
      CompletedTotals(ledger, kind) == Totals(0.0, 0)
  {
    var matched := Find(ledger, CompletedOf(kind));
    if forall i :: 0 <= i < |ledger| ==> ledger[i].kind != kind || ledger[i].status != "completed" {
      NoneMatch(ledger, CompletedOf(kind));
    }
  }

  /** When no entry satisfies a query, the query finds nothing. */
  lemma {:induction false} NoneMatch(ledger: seq<Transaction>, q: Query)
    requires forall i :: 0 <= i < |ledger| ==> !Matches(q, ledger[i])
    ensures Find(ledger, q) == []
  {
    if ledger != [] {
      NoneMatch(ledger[..|ledger| - 1], q);
    }
  }

  /** The totals are the sum and the count of the matching entries. */
  lemma TotalsOf(ledger: seq<Transaction>, kind: string)
    ensures var matched := Find(ledger, CompletedOf(kind));
      CompletedTotals(ledger, kind) == Totals(SumAmounts(matched), |matched|)
  {
  }

  /** Appending a completed entry of the kind adds its amount and one to the
      totals; any other entry leaves them as they were. */
  lemma TotalsAfterAppend(ledger: seq<Transaction>, kind: string, t: Transaction)
    ensures var before, after := CompletedTotals(ledger, kind), CompletedTotals(ledger + [t], kind);
      if t.kind == kind && t.status == "completed"
      then after == Totals(before.totalAmount + t.amount, before.count + 1)
      else after == before
  {
    var q := CompletedOf(kind);
    var found := Find(ledger, q);
    FindAppend(ledger, t, q);
    TotalsOf(ledger, kind);
    TotalsOf(ledger + [t], kind);
    if Matches(q, t) {
      SumAppend(found, [t]);
      assert [t][..0] == [];
      assert SumAmounts([t]) == t.amount;
    } else {
      assert found + [] == found;
    }
  }

  /** As written, the withdrawal totals look for type 'withdraw', which no
      stored entry can carry, so they are always 0. */
  lemma WithdrawalTotalsAlwaysZero(db: Db)
    requires DbValid(AsWritten, db)
    ensures AdminDashboard(db).withdrawals == Totals(0.0, 0)
  {
    TotalsAreSumAndCount(db.ledger, "withdraw");
  }

  /** With 'withdraw' admitted, an approved withdrawal's completed entry shows
      up in the withdrawal totals. */
  lemma ApprovedWithdrawalCounted(db: Db, id: int, admin: UserId, note: string, now: int)
    requires DbValid(Intended, db)
    requires 0 <= id < |db.withdrawals| && db.withdrawals[id].status == "pending"
    ensures var o := WithdrawRoutes.ProcessWithdrawal(Intended, db, id, admin, "approved", note, now);
      && o.reply == Ok(200)
      && CompletedTotals(o.db.ledger, "withdraw") ==
           Totals(CompletedTotals(db.ledger, "withdraw").totalAmount + db.withdrawals[id].amount,
                  CompletedTotals(db.ledger, "withdraw").count + 1)
  {
    var w := db.withdrawals[id];
    var entry := Transaction(w.user, "withdraw", w.amount, "completed", db.users[w.user].balance,
                             WithdrawalRef(id), Some(admin), now);
    WithdrawRoutes.ApprovalRecorded(db, id, admin, note, now);
    TotalsAfterAppend(db.ledger, "withdraw", entry);
  }

  /** The recent list holds at most ten entries, the newest first. */
  lemma RecentAreNewest(db: Db)
    ensures var recent := AdminDashboard(db).recentTransactions;
      && |recent| == (if |db.ledger| <= 10 then |db.ledger| else 10)
      && forall k :: 0 <= k < |recent| ==> recent[k] == db.ledger[|db.ledger| - 1 - k]
  {
  }

  // ---------------------------------------------------------------- user listing

  /** The filters of GET /admin/users; an empty string stands for an absent
      parameter. */
  predicate UserMatches(u: User, search: string, status: string)
  {
    && (search != "" ==> IncludesIgnoringCase(u.name, search) || IncludesIgnoringCase(u.email, search))
    && (status != "" ==> u.status == status)
  }

  function FilterUsers(users: seq<User>, search: string, status: string): (r: seq<User>)
    ensures |r| <= |users|
    ensures forall u :: u in r <==> u in users && UserMatches(u, search, status)
  {
    if users == [] then []
    else
      var last := users[|users| - 1];
      FilterUsers(users[..|users| - 1], search, status) + (if UserMatches(last, search, status) then [last] else [])
  }

  datatype UserPage = UserPage(users: seq<User>, currentPage: int, totalPages: nat, totalUsers: nat)

  /** GET /admin/users sorted by creation time: `newestFirst` for the default
      order 'desc'. */
  function ListUsers(users: seq<User>, search: string, status: string, newestFirst: bool,
                     page: int, limit: int): UserPage
    requires page >= 1 && limit >= 1
  {
    var matched := FilterUsers(users, search, status);
    var sorted := if newestFirst then NewestFirst(matched) else matched;
    UserPage(PageWindow(sorted, page, limit), page, TotalPages(|matched|, limit), |matched|)
  }

  /** A page holds at most `limit` users, each a match, and `totalUsers`
      counts every match. */
  lemma UserPageContents(users: seq<User>, search: string, status: string, newestFirst: bool,
                         page: int, limit: int)
    requires page >= 1 && limit >= 1
    ensures var p := ListUsers(users, search, status, newestFirst, page, limit);
      && |p.users| <= limit
      && (forall u :: u in p.users ==> u in users && UserMatches(u, search, status))
      && p.totalUsers == |FilterUsers(users, search, status)|
      && (p.totalUsers == 0 <==> p.totalPages == 0)
  {
    var matched := FilterUsers(users, search, status);
    var sorted := if newestFirst then NewestFirst(matched) else matched;
    var p := ListUsers(users, search, status, newestFirst, page, limit);
    assert p.users == PageWindow(sorted, page, limit);
    ListedAreMatched(matched, sorted, newestFirst, page, limit);
    forall u | u in p.users
      ensures u in users && UserMatches(u, search, status)
    {
      assert u in matched;
    }
    NoPagesOnlyWhenEmpty(|matched|, limit);
  }

  /** Users on a page of the (possibly sorted) matches are matches. */
  lemma ListedAreMatched(matched: seq<User>, sorted: seq<User>, newestFirst: bool, page: int, limit: int)
    requires page >= 1 && limit >= 1
    requires sorted == if newestFirst then NewestFirst(matched) else matched
    ensures |PageWindow(sorted, page, limit)| <= limit
    ensures forall u :: u in PageWindow(sorted, page, limit) ==> u in matched
  {
    WindowWithin(sorted, page, limit);
    if newestFirst {
      NewestFirstWithin(matched);
    }
  }

  /** Every match is on page `k / limit + 1` of the sorted matches, and that
      page is within `totalPages`. */
  lemma EveryUserListed(users: seq<User>, search: string, status: string, newestFirst: bool, limit: int, k: int)
    requires limit >= 1 && 0 <= k < |FilterUsers(users, search, status)|
    ensures var matched := FilterUsers(users, search, status);
      var sorted := if newestFirst then NewestFirst(matched) else matched;
      var p := ListUsers(users, search, status, newestFirst, k / limit + 1, limit);
      && k / limit + 1 <= p.totalPages
      && k % limit < |p.users| && p.users[k % limit] == sorted[k]
  {
    var matched := FilterUsers(users, search, status);
    var sorted := if newestFirst then NewestFirst(matched) else matched;
    EveryItemOnItsPage(sorted, limit, k);
  }

  /** Without filters every user is listed. */
  lemma NoFilterKeepsAll(users: seq<User>)
    ensures FilterUsers(users, "", "") == users
  {
    if users != [] {
      NoFilterKeepsAll(users[..|users| - 1]);
      assert users[..|users| - 1] + [users[|users| - 1]] == users;
    }
  }

  // ---------------------------------------------------------------- creating an admin

  /** POST /admin/create: refused when any user already has the email. The
      User schema is not part of this model: a new user starts `active` with a
      zero balance and no first deposit. */
  function CreateAdmin(db: Db, name: string, email: string): Outcome
  {
    if exists i :: 0 <= i < |db.users| && db.users[i].email == email then Outcome(Err(AdminExists), db)
    else Outcome(Ok(201), db.(users := db.users + [User(name, email, Admin, "active", 0.0, None)]))
  }

  /** Adding a user leaves every stored reference valid. */
  lemma CreateAdminKeepsDbValid(r: Rules, db: Db, name: string, email: string)
    requires DbValid(r, db)
    ensures var o := CreateAdmin(db, name, email);
      DbValid(r, o.db) && FirstDepositDatesKept(db, o.db)
  {
  }

  method PostCreateAdmin(s: Store, name: string, email: string) returns (reply: Reply)
    requires s.Valid()
    modifies s
    ensures s.Valid()
    ensures Outcome(reply, s.State()) == CreateAdmin(old(s.State()), name, email)
  {
    CreateAdminKeepsDbValid(s.rules, s.State(), name, email);
    var i := 0;
    while i < |s.users|
      invariant 0 <= i <= |s.users|
      invariant forall j :: 0 <= j < i ==> s.users[j].email != email
    {
      if s.users[i].email == email {
        return Err(AdminExists);
      }
      i := i + 1;
    }
    var id := s.CreateUser(User(name, email, Admin, "active", 0.0, None));
    return Ok(201);
  }

  /** A duplicate email creates nothing; otherwise exactly one admin with that
      email is added, and afterwards the email is taken. */
  lemma CreateAdminEffects(db: Db, name: string, email: string)
    ensures var o := CreateAdmin(db, name, email);
      && (o.reply.Ok? <==> forall i :: 0 <= i < |db.users| ==> db.users[i].email != email)
      && (o.reply.Err? ==> o == Outcome(Err(AdminExists), db))
      && (o.reply.Ok? ==> |o.db.users| == |db.users| + 1 && o.db.users[|db.users|].role == Admin
                          && o.db.users[..|db.users|] == db.users)
      && CreateAdmin(o.db, name, email) == Outcome(Err(AdminExists), o.db)
  {
    var o := CreateAdmin(db, name, email);
    if o.reply.Ok? {
      assert o.db.users[|db.users|].email == email;
    }
  }
}
