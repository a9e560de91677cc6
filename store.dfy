/** The database as the route handlers see it: four collections and the
    persisted writes. A create or save of a deposit, withdrawal or ledger entry
    is refused when the record violates its schema; the handler's `catch` then
    answers 500 and every earlier write of the same request stays committed. */
module Persistence {
  import opened Base
  import opened Models

  /** What a handler answers, and the database it leaves behind. */
  datatype Outcome = Outcome(reply: Reply, db: Db)

  class Store {
    const rules: Rules
    var users: seq<User>
    var deposits: seq<Deposit>
    var withdrawals: seq<Withdrawal>
    var ledger: seq<Transaction>

    function State(): Db
      reads this
    {
      Db(users, deposits, withdrawals, ledger)
    }

    ghost predicate Valid()
      reads this
    {
      DbValid(rules, State())
    }

    constructor (rules: Rules, users: seq<User>)
      ensures this.rules == rules
      ensures State() == Db(users, [], [], [])
      ensures Valid()
    {
      this.rules := rules;
      this.users := users;
      deposits, withdrawals, ledger := [], [], [];
    }

    /** `user.save()`. The User schema is not part of this model, so the save
        always succeeds. */
    method SaveUser(id: UserId, u: User)
      requires id < |users|
      modifies this
      ensures State() == old(State()).(users := old(users)[id := u])
    {
      users := users[id := u];
    }

    /** `User.create`: appends a user; the new id is the old count. */
    method CreateUser(u: User) returns (id: UserId)
      modifies this
      ensures id == |old(users)|
      ensures State() == old(State()).(users := old(users) + [u])
    {
      id := |users|;
      users := users + [u];
    }

    /** `Transaction.create` / `new Transaction(..).save()`. */
    method CreateTransaction(t: Transaction) returns (ok: bool)
      modifies this
      ensures ok == TransactionValid(rules, t)
      ensures State() == if ok then old(State()).(ledger := old(ledger) + [t]) else old(State())
    {
      ok := TransactionValid(rules, t);
      if ok {
        ledger := ledger + [t];
      }
    }

    /** `Deposit.create`: the new id, or None when the schema refuses it. */
    method CreateDeposit(d: Deposit) returns (id: Option<nat>)
      modifies this
      ensures id.Some? == DepositValid(rules, d)
      ensures id.Some? ==> id.value == |old(deposits)|
      ensures State() == if id.Some? then old(State()).(deposits := old(deposits) + [d]) else old(State())
    {
      if DepositValid(rules, d) {
        id := Some(|deposits|);
        deposits := deposits + [d];
      } else {
        id := None;
      }
    }

    /** `deposit.save()` of a modified deposit. */
    method SaveDeposit(id: nat, d: Deposit) returns (ok: bool)
      requires id < |deposits|
      modifies this
      ensures ok == DepositValid(rules, d)
      ensures State() == if ok then old(State()).(deposits := old(deposits)[id := d]) else old(State())
    {
      ok := DepositValid(rules, d);
      if ok {
        deposits := deposits[id := d];
      }
    }

    /** `Withdrawal.create`: the new id, or None when the schema refuses it. */
    method CreateWithdrawal(w: Withdrawal) returns (id: Option<nat>)
      modifies this
      ensures id.Some? == WithdrawalValid(w)
      ensures id.Some? ==> id.value == |old(withdrawals)|
      ensures State() == if id.Some? then old(State()).(withdrawals := old(withdrawals) + [w]) else old(State())
    {
      if WithdrawalValid(w) {
        id := Some(|withdrawals|);
        withdrawals := withdrawals + [w];
      } else {
        id := None;
      }
    }

    /** `withdrawal.save()` of a modified withdrawal. */
    method SaveWithdrawal(id: nat, w: Withdrawal) returns (ok: bool)
      requires id < |withdrawals|
      modifies this
      ensures ok == WithdrawalValid(w)
      ensures State() == if ok then old(State()).(withdrawals := old(withdrawals)[id := w]) else old(State())
    {
      ok := WithdrawalValid(w);
      if ok {
        withdrawals := withdrawals[id := w];
      }
    }
  }
}
