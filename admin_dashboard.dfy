/** src/pages/admin/AdminDashboard.tsx: the search filter over the users
    table, the request the deposit buttons send, the conversion of a target
    balance into an add/subtract adjustment, and the messages and modal
    state the handlers leave behind. Service calls are parameters. */
module AdminPage {
  import opened Base
  import opened Models
  import opened Text
  import AdminRoutes
  import DepositRoutes
  import opened Persistence

  /** A row of the users table as the dashboard fetched it. */
  datatype Listed = Listed(id: nat, name: string, email: string, balance: real)

  /** `filteredUsers`: the rows whose name or email contains the search term,
      ignoring case, in table order. */
  function FilteredUsers(users: seq<Listed>, term: string): (r: seq<Listed>)
    ensures |r| <= |users|
    ensures forall u :: u in r <==> u in users && (IncludesIgnoringCase(u.name, term) || IncludesIgnoringCase(u.email, term))
  {
    if users == [] then []
    else
      var u := users[0];
      (if IncludesIgnoringCase(u.name, term) || IncludesIgnoringCase(u.email, term) then [u] else [])
        + FilteredUsers(users[1..], term)
  }

  /** An empty search term shows the whole table, in order. */
  lemma {:induction false} EmptyTermKeepsAll(users: seq<Listed>)
    ensures FilteredUsers(users, "") == users
  {
    if users != [] {
      EmptyIsIncluded(users[0].name);
      EmptyIsIncluded(users[0].email);
      EmptyTermKeepsAll(users[1..]);
    }
  }

  /** Filtering a table split in two filters each part, keeping table order. */
  lemma {:induction false} FilteredUsersSplit(a: seq<Listed>, b: seq<Listed>, term: string)
    ensures FilteredUsers(a + b, term) == FilteredUsers(a, term) + FilteredUsers(b, term)
  {
    if a == [] {
      assert a + b == b;
    } else {
      assert (a + b)[0] == a[0];
      assert (a + b)[1..] == a[1..] + b;
      FilteredUsersSplit(a[1..], b, term);
    }
  }

  datatype Action = Approve | Reject

  /** The body of PUT /deposit/:id. */
  datatype ProcessRequest = ProcessRequest(status: string, adminNote: string, approvedAmount: Option<JsNumber>)

  const ApprovedAmountMessage := "Please enter a valid approved amount for approval."

  /** `handleDepositAction` before the request: an approval needs an amount
      that is present and not at most 0 (NaN passes, as every comparison
      with it is false); a rejection sends no amount. */
  function DepositRequest(action: Action, approvedAmount: Option<JsNumber>): Result<ProcessRequest, string>
  {
    if action == Approve && (approvedAmount.None? || (approvedAmount.value.Num? && approvedAmount.value.value <= 0.0))
    then Failure(ApprovedAmountMessage)
    else Success(ProcessRequest(if action == Approve then "approved" else "rejected", "Processed by admin",
                                if action == Approve then approvedAmount else None))
  }

  /** The guard refuses exactly the approvals without a positive or NaN
      amount; what is sent maps the action to its status and carries the
      amount only for an approval. */
  lemma DepositRequestCases(action: Action, approvedAmount: Option<JsNumber>)
    ensures DepositRequest(action, approvedAmount).Failure? <==>
      action == Approve && (approvedAmount.None? || (approvedAmount.value.Num? && approvedAmount.value.value <= 0.0))
    ensures action == Reject ==> DepositRequest(action, approvedAmount) == Success(ProcessRequest("rejected", "Processed by admin", None))
    ensures action == Approve && approvedAmount.Some? && approvedAmount.value.Num? && approvedAmount.value.value > 0.0 ==>
      DepositRequest(action, approvedAmount) == Success(ProcessRequest("approved", "Processed by admin", approvedAmount))
  {
  }

  /** A NaN amount passes the page's guard but travels as `null`, and the
      deposit route then answers 400 for a pending deposit. */
  lemma NaNApprovalRefusedByServer(r: Rules, db: Db, id: nat, admin: UserId, now: int)
    requires id < |db.deposits| && db.deposits[id].status == "pending" && db.deposits[id].user < |db.users|
    ensures var req := DepositRequest(Approve, Some(NaN));
      && req.Success?
      && DepositRoutes.ProcessDeposit(r, db, id, admin, req.value.status, req.value.adminNote,
                                      Wire(req.value.approvedAmount.value), now)
         == Outcome(Err(InvalidApprovedAmount), db)
  {
  }

  /** `users.find` on the id. */
  function FindListed(users: seq<Listed>, id: nat): (r: Option<Listed>)
    ensures r.Some? ==> r.value in users && r.value.id == id
    ensures r.None? ==> forall u :: u in users ==> u.id != id
  {
    if users == [] then None
    else if users[0].id == id then Some(users[0])
    else FindListed(users[1..], id)
  }

  /** `find` returns the first row with the id. */
  lemma {:induction false} FindListedFirst(users: seq<Listed>, id: nat, k: int)
    requires 0 <= k < |users| && users[k].id == id
    requires forall j :: 0 <= j < k ==> users[j].id != id
    ensures FindListed(users, id) == Some(users[k])
  {
    if k > 0 {
      FindListedFirst(users[1..], id, k - 1);
    }
  }

  /** The body of POST /admin/users/:userId/balance. */
  datatype BalanceRequest = BalanceRequest(amount: real, kind: string, note: string)

  const BalanceMessage := "Please enter a valid balance amount."
  const BalanceFallback := "Failed to update user balance"

  /** `handleBalanceUpdate` before the request: the error message, no
      request when the target equals the listed balance, or the adjustment
      that moves the listed balance to the target. */
  function BalanceUpdate(users: seq<Listed>, id: nat, target: JsNumber): Result<Option<BalanceRequest>, string>
  {
    if target.NaN? || target.value < 0.0 then Failure(BalanceMessage)
    else
      var current := FindListed(users, id);
      if current.None? then Failure(BalanceFallback)
      else
        var difference := target.value - current.value.balance;
        if difference == 0.0 then Success(None)
        else Success(Some(BalanceRequest(if difference > 0.0 then difference else -difference,
                                         if difference > 0.0 then "add" else "subtract",
                                         "Manual balance update by admin")))
  }

  /** A target that is a number at least 0, for a listed user, never fails;
      the request it sends has a positive amount, and the balance route
      applied to the listed balance lands exactly on the target without
      reaching its insufficient-balance branch. No request means the target
      already is the listed balance. */
  lemma BalanceUpdateReachesTarget(users: seq<Listed>, id: nat, target: JsNumber)
    ensures BalanceUpdate(users, id, target) == Failure(BalanceMessage) <==> target.NaN? || target.value < 0.0
    ensures target.Num? && target.value >= 0.0 ==>
      (BalanceUpdate(users, id, target).Failure? <==> forall u :: u in users ==> u.id != id)
    ensures BalanceUpdate(users, id, target).Success? ==>
      var u := FindListed(users, id).value;
      match BalanceUpdate(users, id, target).value
      case None => target == Num(u.balance)
      case Some(req) =>
        && req.amount > 0.0
        && (req.kind == "add" <==> target.value > u.balance)
        && AdminRoutes.Adjust(u.balance, req.kind, req.amount) == Success(target.value)
  {
  }

  /** The page's message and modal state. */
  class AdminDashboard {
    var users: seq<Listed>
    var isModalOpen: bool
    var amount: string
    var errorMessage: Option<string>
    var successMessage: Option<string>

    constructor ()
      ensures users == [] && !isModalOpen && amount == "" && errorMessage == None && successMessage == None
    {
      users, isModalOpen, amount, errorMessage, successMessage := [], false, "", None, None;
    }

    /** `closeModal`, which also clears both messages. */
    method CloseModal()
      modifies this
      ensures !isModalOpen && amount == "" && errorMessage == None && successMessage == None
      ensures users == old(users)
    {
      isModalOpen := false;
      amount := "";
      errorMessage := None;
      successMessage := None;
    }

    /** `handleDepositAction`. `reply` is how PUT /deposit/:id ends when a
        request is sent. On success the message set just before `closeModal`
        is cleared by it. */
    method HandleDepositAction(action: Action, approvedAmount: Option<JsNumber>, reply: ApiReply)
      returns (sent: Option<ProcessRequest>)
      modifies this
      ensures users == old(users)
      ensures var req := DepositRequest(action, approvedAmount);
        match req
        case Failure(m) =>
          sent == None && errorMessage == Some(m)
          && isModalOpen == old(isModalOpen) && amount == old(amount) && successMessage == old(successMessage)
        case Success(body) =>
          sent == Some(body) &&
          match reply
          case Answered =>
            !isModalOpen && amount == "" && errorMessage == None && successMessage == None
          case Refused(m) =>
            errorMessage == Some(MessageOr(m, "Failed to process deposit"))
            && isModalOpen == old(isModalOpen) && amount == old(amount) && successMessage == old(successMessage)
    {
      if action == Approve && (approvedAmount.None? || (approvedAmount.value.Num? && approvedAmount.value.value <= 0.0)) {
        errorMessage := Some(ApprovedAmountMessage);
        return None;
      }
      sent := Some(ProcessRequest(if action == Approve then "approved" else "rejected", "Processed by admin",
                                  if action == Approve then approvedAmount else None));
      if reply.Answered? {
        successMessage := Some(if action == Approve then "Deposit approved successfully." else "Deposit rejected successfully.");
        CloseModal();
      } else {
        errorMessage := Some(MessageOr(reply.message, "Failed to process deposit"));
      }
    }

    /** `handleBalanceUpdate`: `reply` is how the balance request ends when
        one is sent. */
    method HandleBalanceUpdate(id: nat, target: JsNumber, reply: ApiReply) returns (sent: Option<BalanceRequest>)
      modifies this
      ensures users == old(users)
      ensures var plan := BalanceUpdate(old(users), id, target);
        match plan
        case Failure(m) =>
          sent == None && errorMessage == Some(m)
          && isModalOpen == old(isModalOpen) && amount == old(amount) && successMessage == old(successMessage)
        case Success(None) =>
          sent == None && !isModalOpen && amount == "" && errorMessage == None && successMessage == None
        case Success(Some(body)) =>
          sent == Some(body) &&
          match reply
          case Answered =>
            !isModalOpen && amount == "" && errorMessage == None && successMessage == None
          case Refused(m) =>
            errorMessage == Some(MessageOr(m, BalanceFallback))
            && isModalOpen == old(isModalOpen) && amount == old(amount) && successMessage == old(successMessage)
    {
      if target.NaN? || target.value < 0.0 {
        errorMessage := Some(BalanceMessage);
        return None;
      }
      var current := FindListed(users, id);
      if current.None? {
        errorMessage := Some(BalanceFallback);
        return None;
      }
      var difference := target.value - current.value.balance;
      if difference == 0.0 {
        successMessage := Some("Balance is already the same.");
        CloseModal();
        return None;
      }
      var body := BalanceRequest(if difference > 0.0 then difference else -difference,
                                 if difference > 0.0 then "add" else "subtract",
                                 "Manual balance update by admin");
      sent := Some(body);
      if reply.Answered? {
        successMessage := Some("User balance updated successfully.");
        CloseModal();
      } else {
        errorMessage := Some(MessageOr(reply.message, BalanceFallback));
      }
    }
  }
}
