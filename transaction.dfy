/** backend/routes/transaction.js: the filtered, paginated ledger listings
    for a user and for the admin, and the per-type statistics with their
    per-status breakdown. Query-string dates arrive already converted to
    milliseconds; an empty string stands for an absent type or status. */
module TransactionRoutes {
  import opened Base
  import opened Models
  import opened Ledger

  function Given(s: string): Option<string>
  {
    if s == "" then None else Some(s)
  }

  /** GET /transactions/my-transactions: always restricted to the caller. */
  function MyTransactionsQuery(caller: UserId, kind: string, status: string, from: Option<int>, until: Option<int>): Query
  {
    Query(Some(caller), Given(kind), Given(status), from, until)
  }

  /** GET /transactions/all: every filter optional. */
  function AllTransactionsQuery(user: Option<UserId>, kind: string, status: string, from: Option<int>,
                                until: Option<int>): Query
  {
    Query(user, Given(kind), Given(status), from, until)
  }

  datatype TransactionPage = TransactionPage(
    transactions: seq<Transaction>,
    currentPage: int,
    totalPages: nat,
    totalTransactions: nat)

  /** Newest first, `skip((page - 1) * limit).limit(limit)`, with page 1 and
      limit 10 when absent. */
  function ListTransactions(ledger: seq<Transaction>, q: Query, page: Option<int>, limit: Option<int>): TransactionPage
    requires page.Some? ==> page.value >= 1
    requires limit.Some? ==> limit.value >= 1
  {
    var p := if page.Some? then page.value else 1;
    var l := if limit.Some? then limit.value else 10;
    var found := Find(ledger, q);
    TransactionPage(PageWindow(NewestFirst(found), p, l), p, TotalPages(|found|, l), |found|)
  }

  /** A user's listing matches exactly their own entries, with each filter
      applying only when supplied and both date bounds inclusive. */
  lemma MyTransactionsFilter(caller: UserId, kind: string, status: string, from: Option<int>, until: Option<int>,
                             t: Transaction)
    ensures Matches(MyTransactionsQuery(caller, kind, status, from, until), t) <==>
      && t.user == caller
      && (kind == "" || t.kind == kind)
      && (status == "" || t.status == status)
      && (from.None? || from.value <= t.createdAt)
      && (until.None? || t.createdAt <= until.value)
  {
  }

  /** The admin listing restricts to a user only when one is given. */
  lemma AllTransactionsFilter(user: Option<UserId>, kind: string, status: string, from: Option<int>,
                              until: Option<int>, t: Transaction)
    ensures Matches(AllTransactionsQuery(user, kind, status, from, until), t) <==>
      && (user.None? || t.user == user.value)
      && (kind == "" || t.kind == kind)
      && (status == "" || t.status == status)
      && (from.None? || from.value <= t.createdAt)
      && (until.None? || t.createdAt <= until.value)
  {
  }

  /** A page holds at most `limit` entries, each one a match from the ledger;
      the page count is the ceiling of matches over limit. */
  lemma ListingContents(ledger: seq<Transaction>, q: Query, page: int, limit: int)
    requires page >= 1 && limit >= 1
    ensures var lp := ListTransactions(ledger, q, Some(page), Some(limit));
      && |lp.transactions| <= limit
      && lp.totalTransactions == |Find(ledger, q)|
      && (forall t :: t in lp.transactions ==> t in ledger && Matches(q, t))
      && (lp.totalTransactions > 0 ==> (lp.totalPages - 1) * limit < lp.totalTransactions <= lp.totalPages * limit)
  {
    var found := Find(ledger, q);
    var sorted := NewestFirst(found);
    WindowWithin(sorted, page, limit);
    NewestFirstWithin(found);
  }

  /** A chronological ledger is listed newest first. */
  lemma ListingNewestFirst(ledger: seq<Transaction>, q: Query, page: int, limit: int)
    requires page >= 1 && limit >= 1 && Chronological(ledger)
    ensures var w := ListTransactions(ledger, q, Some(page), Some(limit)).transactions;
      forall i, j :: 0 <= i < j < |w| ==> w[i].createdAt >= w[j].createdAt
  {
    var found := Find(ledger, q);
    FindKeepsOrder(ledger, q);
    NewestFirstIsDescending(found);
    WindowKeepsDescending(NewestFirst(found), page, limit);
  }

  /** Without page and limit the listing is the ten newest matches. */
  lemma DefaultListing(ledger: seq<Transaction>, q: Query)
    ensures var lp := ListTransactions(ledger, q, None, None);
      var found := Find(ledger, q);
      && lp.currentPage == 1
      && |lp.transactions| == (if |found| <= 10 then |found| else 10)
      && forall k :: 0 <= k < |lp.transactions| ==> lp.transactions[k] == found[|found| - 1 - k]
  {
  }

  // ---------------------------------------------------------------- statistics

  /** One key of a `byStatus` object. */
  datatype StatusTotals = StatusTotals(status: string, count: nat, amount: real)

  /** The position of `status` among the keys, if present. */
  function IndexOf(acc: seq<StatusTotals>, status: string): (r: Option<nat>)
    ensures r.Some? ==> r.value < |acc| && acc[r.value].status == status
    ensures r.Some? ==> forall i :: 0 <= i < r.value ==> acc[i].status != status
    ensures r.None? ==> forall i :: 0 <= i < |acc| ==> acc[i].status != status
  {
    if acc == [] then None
    else if acc[0].status == status then Some(0)
    else
      var rest := IndexOf(acc[1..], status);
      if rest.None? then None else Some(rest.value + 1)
  }

  /** One step of the inner `reduce`: a key seen for the first time starts at
      zero, then its count rises by one and its amount by the entry's. */
  function Tally(acc: seq<StatusTotals>, t: Transaction): seq<StatusTotals>
  {
    match IndexOf(acc, t.status)
    case None => acc + [StatusTotals(t.status, 1, t.amount)]
    case Some(i) => acc[i := StatusTotals(t.status, acc[i].count + 1, acc[i].amount + t.amount)]
  }

  /** The `byStatus` object of one type group, keys in first-seen order. */
  function ByStatus(es: seq<Transaction>): seq<StatusTotals>
  {
    if es == [] then [] else Tally(ByStatus(es[..|es| - 1]), es[|es| - 1])
  }

  /** The inner `reduce` over a group's entries. */
  method ReduceByStatus(es: seq<Transaction>) returns (acc: seq<StatusTotals>)
    ensures acc == ByStatus(es)
  {
    acc := [];
    for n := 0 to |es|
      invariant acc == ByStatus(es[..n])
    {
      acc := Bump(acc, es[n]);
      ByStatusStep(es, n);
    }
    assert es[..|es|] == es;
  }

  /** The reducer's callback: find the entry's status among the keys, add
      the key at zero when missing, then count the entry and add its amount. */
  method Bump(acc: seq<StatusTotals>, t: Transaction) returns (next: seq<StatusTotals>)
    ensures next == Tally(acc, t)
  {
    var j := 0;
    while j < |acc| && acc[j].status != t.status
      invariant 0 <= j <= |acc|
      invariant forall i :: 0 <= i < j ==> acc[i].status != t.status
    {
      j := j + 1;
    }
    next := acc;
    if j == |acc| {
      next := next + [StatusTotals(t.status, 0, 0.0)];
    } else {
      assert IndexOf(acc, t.status) == Some(j);
    }
    next := next[j := StatusTotals(t.status, next[j].count + 1, next[j].amount + t.amount)];
  }

  /** `ByStatus` of a longer prefix tallies one more entry. */
  lemma ByStatusStep(es: seq<Transaction>, n: nat)
    requires n < |es|
    ensures ByStatus(es[..n + 1]) == Tally(ByStatus(es[..n]), es[n])
  {
    assert es[..n + 1][..n] == es[..n];
  }

  function CountSum(acc: seq<StatusTotals>): nat
  {
    if acc == [] then 0 else CountSum(acc[..|acc| - 1]) + acc[|acc| - 1].count
  }

  function AmountSum(acc: seq<StatusTotals>): real
  {
    if acc == [] then 0.0 else AmountSum(acc[..|acc| - 1]) + acc[|acc| - 1].amount
  }

  lemma {:induction false} SumsAfterUpdate(acc: seq<StatusTotals>, i: nat, x: StatusTotals)
    requires i < |acc|
    ensures CountSum(acc[i := x]) == CountSum(acc) - acc[i].count + x.count
    ensures AmountSum(acc[i := x]) == AmountSum(acc) - acc[i].amount + x.amount
  {
    var n := |acc| - 1;
    if i < n {
      assert acc[i := x][..n] == acc[..n][i := x];
      SumsAfterUpdate(acc[..n], i, x);
    } else {
      assert acc[i := x][..n] == acc[..n];
    }
  }

  lemma SumsAfterAppend(acc: seq<StatusTotals>, x: StatusTotals)
    ensures CountSum(acc + [x]) == CountSum(acc) + x.count
    ensures AmountSum(acc + [x]) == AmountSum(acc) + x.amount
  {
    assert (acc + [x])[..|acc|] == acc;
  }

  /** Within a type group, the per-status counts add up to the group's count
      and the per-status amounts to its total. */
  lemma {:induction false} ByStatusSums(es: seq<Transaction>)
    ensures CountSum(ByStatus(es)) == |es|
    ensures AmountSum(ByStatus(es)) == SumAmounts(es)
  {
    if es != [] {
      var init, t := es[..|es| - 1], es[|es| - 1];
      ByStatusSums(init);
      TallySums(ByStatus(init), t);
    }
  }

  /** One entry adds one to the count and its amount to the amount. */
  lemma TallySums(acc: seq<StatusTotals>, t: Transaction)
    ensures CountSum(Tally(acc, t)) == CountSum(acc) + 1
    ensures AmountSum(Tally(acc, t)) == AmountSum(acc) + t.amount
  {
    match IndexOf(acc, t.status)
    case None =>
      SumsAfterAppend(acc, StatusTotals(t.status, 1, t.amount));
    case Some(i) =>
      SumsAfterUpdate(acc, i, StatusTotals(t.status, acc[i].count + 1, acc[i].amount + t.amount));
  }


  function Keys(acc: seq<StatusTotals>): seq<string>
  {
    seq(|acc|, i requires 0 <= i < |acc| => acc[i].status)
  }

  function StatusesOf(es: seq<Transaction>): seq<string>
  {
    seq(|es|, i requires 0 <= i < |es| => es[i].status)
  }

  /** The keys of `byStatus` are the distinct statuses of the group, in order
      of first occurrence. */
  lemma {:induction false} ByStatusKeys(es: seq<Transaction>)
    ensures Keys(ByStatus(es)) == Distinct(StatusesOf(es))
  {
    if es != [] {
      var init, t := es[..|es| - 1], es[|es| - 1];
      ByStatusKeys(init);
      assert StatusesOf(es)[..|es| - 1] == StatusesOf(init);
      TallyKeys(ByStatus(init), t);
    }
  }

  /** One entry adds its status to the keys unless it is already there. */
  lemma TallyKeys(acc: seq<StatusTotals>, t: Transaction)
    ensures Keys(Tally(acc, t)) == if t.status in Keys(acc) then Keys(acc) else Keys(acc) + [t.status]
  {
    match IndexOf(acc, t.status)
    case None =>
      assert t.status !in Keys(acc);
      assert Keys(acc + [StatusTotals(t.status, 1, t.amount)]) == Keys(acc) + [t.status];
    case Some(i) =>
      assert Keys(acc)[i] == t.status;
      assert Keys(Tally(acc, t)) == Keys(acc);
  }

  /** The distinct strings of `xs`, in order of first occurrence. */
  function Distinct(xs: seq<string>): (r: seq<string>)
    ensures forall x :: x in r <==> x in xs
    ensures forall i, j :: 0 <= i < j < |r| ==> r[i] != r[j]
  {
    if xs == [] then []
    else
      var init := Distinct(xs[..|xs| - 1]);
      var last := xs[|xs| - 1];
      if last in init then init else init + [last]
  }

  function KindsOf(es: seq<Transaction>): seq<string>
  {
    Distinct(seq(|es|, i requires 0 <= i < |es| => es[i].kind))
  }

  function OfKind(kind: string): Query
  {
    Query(None, Some(kind), None, None, None)
  }

  /** One `$group` by type. */
  datatype TypeStats = TypeStats(kind: string, totalAmount: real, count: nat, byStatus: seq<StatusTotals>)

  function GroupStats(es: seq<Transaction>, kind: string): TypeStats
  {
    var group := Find(es, OfKind(kind));
    TypeStats(kind, SumAmounts(group), |group|, ByStatus(group))
  }

  /** GET /transactions/stats: the entries within the optional date bounds,
      grouped by type. The database returns the groups in no stated order;
      here they come in order of first occurrence. */
  function TransactionStats(ledger: seq<Transaction>, from: Option<int>, until: Option<int>): (r: seq<TypeStats>)
    ensures |r| == |KindsOf(Find(ledger, Query(None, None, None, from, until)))|
    ensures forall i :: 0 <= i < |r| ==> r[i].kind == KindsOf(Find(ledger, Query(None, None, None, from, until)))[i]
    ensures forall i, j :: 0 <= i < j < |r| ==> r[i].kind != r[j].kind
  {
    var window := Find(ledger, Query(None, None, None, from, until));
    var kinds := KindsOf(window);
    seq(|kinds|, i requires 0 <= i < |kinds| => GroupStats(window, kinds[i]))
  }

  /** One group per type occurring in the date window; its count and total
      are those of the window's entries of that type, and its per-status
      breakdown adds up to them. */
  lemma StatsGroups(ledger: seq<Transaction>, from: Option<int>, until: Option<int>, i: int)
    requires 0 <= i < |TransactionStats(ledger, from, until)|
    ensures var window := Find(ledger, Query(None, None, None, from, until));
      var g := TransactionStats(ledger, from, until)[i];
      && (exists t :: t in window && t.kind == g.kind)
      && (forall t :: t in Find(window, OfKind(g.kind)) <==> t in window && t.kind == g.kind)
      && g.count == |Find(window, OfKind(g.kind))|
      && g.totalAmount == SumAmounts(Find(window, OfKind(g.kind)))
      && CountSum(g.byStatus) == g.count
      && AmountSum(g.byStatus) == g.totalAmount
  {
    var window := Find(ledger, Query(None, None, None, from, until));
    var kinds := KindsOf(window);
    var names := seq(|window|, k requires 0 <= k < |window| => window[k].kind);
    assert kinds[i] in names;
    var k :| 0 <= k < |names| && names[k] == kinds[i];
    assert window[k] in window;
    ByStatusSums(Find(window, OfKind(kinds[i])));
  }

  /** Every type occurring in the date window has its group. */
  lemma EveryTypeGrouped(ledger: seq<Transaction>, from: Option<int>, until: Option<int>, t: Transaction)
    requires t in ledger && Matches(Query(None, None, None, from, until), t)
    ensures exists i :: 0 <= i < |TransactionStats(ledger, from, until)| && TransactionStats(ledger, from, until)[i].kind == t.kind
  {
    var window := Find(ledger, Query(None, None, None, from, until));
    var names := seq(|window|, k requires 0 <= k < |window| => window[k].kind);
    var k :| 0 <= k < |window| && window[k] == t;
    assert names[k] == t.kind;
    assert t.kind in names;
    var kinds := KindsOf(window);
    assert t.kind in kinds;
    var i :| 0 <= i < |kinds| && kinds[i] == t.kind;
    assert TransactionStats(ledger, from, until)[i].kind == t.kind;
  }
}
