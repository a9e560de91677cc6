/** backend/routes/user.js: the user dashboard's withdrawal flag, the
    dashboard statistics with their thirty-day and since-midnight profit
    windows, and the profile update. The caller's role comes from the
    authenticated token and is a parameter. */
module UserRoutes {
  import opened Base
  import opened Models
  import opened Persistence
  import opened Ledger
  import WithdrawRoutes

  /** `isEligibleForWithdrawal`: milliseconds elapsed since the first deposit,
      compared with thirty days' worth. */
  function IsEligibleForWithdrawal(u: User, now: int): bool
  {
    if u.firstDepositDate.Some? then now - u.firstDepositDate.value >= 30 * 24 * 60 * 60 * 1000 else false
  }

  /** The dashboard's flag agrees with the withdrawal route's whole-day rule,
      for every elapsed time. */
  lemma EligibilityRulesAgree(u: User, now: int)
    ensures IsEligibleForWithdrawal(u, now) <==> WithdrawRoutes.CheckEligibility(u, now).None?
    ensures u.firstDepositDate.None? ==> !IsEligibleForWithdrawal(u, now)
  {
    WithdrawRoutes.EligibleAfterThirtyDays(u, now);
  }

  datatype UserDashboard = UserDashboard(user: User, isEligibleForWithdrawal: bool)

  /** GET /users/dashboard. */
  function Dashboard(db: Db, caller: UserId, role: Role, now: int): Result<UserDashboard, Error>
    requires caller < |db.users|
  {
    if role == Admin then Failure(AdminForbidden)
    else Success(UserDashboard(db.users[caller], IsEligibleForWithdrawal(db.users[caller], now)))
  }

  datatype DashboardStats = DashboardStats(totalBalance: real, monthlyProfit: real, dailyProfit: real)

  /** The caller's profit entries created at or after `since`. */
  function ProfitSince(caller: UserId, since: int): Query
  {
    Query(Some(caller), Some("profit"), None, Some(since), None)
  }

  /** The `$group` total, or 0 when no entry matched. */
  function GroupTotal(matched: seq<Transaction>): real
  {
    if |matched| > 0 then SumAmounts(matched) else 0.0
  }

  /** GET /users/dashboard-stats. `startOfToday` is local midnight of the
      current day; thirty days ago is taken as thirty times 86400000 ms. */
  function DashboardStatistics(db: Db, caller: int, role: Role, now: int, startOfToday: int)
    : Result<DashboardStats, Error>
  {
    if role == Admin then Failure(AdminForbidden)
    else if !(0 <= caller < |db.users|) then Failure(UserNotFound)
    else
      Success(DashboardStats(
        OrZero(Some(db.users[caller].balance)),
        GroupTotal(Find(db.ledger, ProfitSince(caller, now - 30 * MsPerDay))),
        GroupTotal(Find(db.ledger, ProfitSince(caller, startOfToday)))))
  }

  /** Admin callers are refused on both user dashboards. */
  lemma AdminsAreForbidden(db: Db, caller: UserId, now: int, startOfToday: int)
    requires caller < |db.users|
    ensures Dashboard(db, caller, Admin, now) == Failure(AdminForbidden)
    ensures DashboardStatistics(db, caller, Admin, now, startOfToday) == Failure(AdminForbidden)
    ensures Dashboard(db, caller, Customer, now).Success?
  {
  }

  /** The statistics report the balance and the sums of the caller's profit
      entries over the two windows, 0 when a window is empty; with
      non-negative profits and midnight within the last thirty days, the
      daily figure never exceeds the monthly one. */
  lemma StatisticsWindows(db: Db, caller: UserId, now: int, startOfToday: int)
    requires caller < |db.users|
    ensures var st := DashboardStatistics(db, caller, Customer, now, startOfToday);
      && st.Success?
      && st.value.totalBalance == db.users[caller].balance
      && st.value.monthlyProfit == SumAmounts(Find(db.ledger, ProfitSince(caller, now - 30 * MsPerDay)))
      && st.value.dailyProfit == SumAmounts(Find(db.ledger, ProfitSince(caller, startOfToday)))
    ensures (now - 30 * MsPerDay <= startOfToday &&
             forall t :: t in db.ledger && t.kind == "profit" ==> t.amount >= 0.0) ==>
      DashboardStatistics(db, caller, Customer, now, startOfToday).value.dailyProfit
        <= DashboardStatistics(db, caller, Customer, now, startOfToday).value.monthlyProfit
  {
    if now - 30 * MsPerDay <= startOfToday && forall t :: t in db.ledger && t.kind == "profit" ==> t.amount >= 0.0 {
      NarrowerFindSumsLess(db.ledger, ProfitSince(caller, startOfToday), ProfitSince(caller, now - 30 * MsPerDay));
    }
  }

  /** PUT /users/profile: a non-empty name or email replaces the stored one. */
  function UpdateProfile(u: User, name: string, email: string): User
  {
    u.(name := if name != "" then name else u.name, email := if email != "" then email else u.email)
  }

  method PutProfile(s: Store, caller: UserId, name: string, email: string) returns (reply: Reply)
    requires caller < |s.users|
    requires s.Valid()
    modifies s
    ensures s.Valid()
    ensures reply == Ok(200)
    ensures s.State() == old(s.State()).(users := old(s.users)[caller := UpdateProfile(old(s.users)[caller], name, email)])
  {
    UserWriteKeepsDbValid(s.rules, s.State(), caller, UpdateProfile(s.users[caller], name, email));
    var user := s.users[caller];
    if name != "" {
      user := user.(name := name);
    }
    if email != "" {
      user := user.(email := email);
    }
    s.SaveUser(caller, user);
    return Ok(200);
  }

  /** Only the name and email can change, each only when supplied; the
      balance, role, status and first-deposit date stay, and updating with
      the same values again changes nothing. */
  lemma ProfileUpdateEffects(u: User, name: string, email: string)
    ensures var v := UpdateProfile(u, name, email);
      && v.balance == u.balance && v.role == u.role && v.status == u.status
      && v.firstDepositDate == u.firstDepositDate
      && (name == "" ==> v.name == u.name) && (name != "" ==> v.name == name)
      && (email == "" ==> v.email == u.email) && (email != "" ==> v.email == email)
      && UpdateProfile(v, name, email) == v
  {
  }
}
