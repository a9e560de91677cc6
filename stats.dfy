/** The `/stats` routes of deposits and withdrawals: `countDocuments` by
    status and the `$sum` of approved amounts, over a request's status and
    amount. */
module RequestStats {
  import opened Base
  import opened Models

  /** What the statistics read of a deposit or withdrawal. */
  datatype Request = Request(status: string, amount: real)

  /** The status and amount of each record, in order. */
  function Requests<T>(xs: seq<T>, status: T -> string, amount: T -> real): (rs: seq<Request>)
    ensures |rs| == |xs|
    ensures forall i :: 0 <= i < |xs| ==> rs[i] == Request(status(xs[i]), amount(xs[i]))
  {
    if xs == [] then []
    else Requests(xs[..|xs| - 1], status, amount) + [Request(status(xs[|xs| - 1]), amount(xs[|xs| - 1]))]
  }

  datatype Stats = Stats(total: nat, pending: nat, approved: nat, totalAmount: real)

  function CountStatus(rs: seq<Request>, status: string): (n: nat)
    ensures n <= |rs|
  {
    if rs == [] then 0
    else CountStatus(rs[..|rs| - 1], status) + (if rs[|rs| - 1].status == status then 1 else 0)
  }

  /** The positions of the requests with `status`: the documents
      `countDocuments({ status })` counts. */
  function Positions(rs: seq<Request>, status: string): set<int>
  {
    set i | 0 <= i < |rs| && rs[i].status == status
  }

  /** The count is the number of requests with that status. */
  lemma {:induction false} CountStatusCounts(rs: seq<Request>, status: string)
    ensures CountStatus(rs, status) == |Positions(rs, status)|
  {
    if rs != [] {
      var n := |rs| - 1;
      var init := rs[..n];
      CountStatusCounts(init, status);
      var before := Positions(init, status);
      assert n !in before;
      if rs[n].status == status {
        assert Positions(rs, status) == before + {n};
      } else {
        assert Positions(rs, status) == before;
      }
    }
  }

  function ApprovedSum(rs: seq<Request>): real
  {
    if rs == [] then 0.0
    else ApprovedSum(rs[..|rs| - 1]) + (if rs[|rs| - 1].status == "approved" then rs[|rs| - 1].amount else 0.0)
  }

  /** The `$group` result is absent when nothing is approved, and `|| 0` then
      reports 0. */
  function Summarize(rs: seq<Request>): Stats
  {
    var approved := CountStatus(rs, "approved");
    Stats(|rs|, CountStatus(rs, "pending"), approved, OrZero(if approved > 0 then Some(ApprovedSum(rs)) else None))
  }

  /** Requests whose status and amount satisfy the schema. */
  predicate AllValid(rs: seq<Request>)
  {
    forall i :: 0 <= i < |rs| ==> rs[i].status in RequestStatuses && rs[i].amount >= MinAmount
  }

  /** The pending, approved and rejected counts partition the requests, and the
      reported total is the approved sum, at least the minimum per approved
      request. */
  lemma {:induction false} SummaryPartition(rs: seq<Request>)
    requires AllValid(rs)
    ensures Summarize(rs).pending + Summarize(rs).approved + CountStatus(rs, "rejected") == Summarize(rs).total
    ensures Summarize(rs).totalAmount == ApprovedSum(rs) >= MinAmount * Summarize(rs).approved as real
  {
    if rs != [] {
      SummaryPartition(rs[..|rs| - 1]);
    }
  }
}
