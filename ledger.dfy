/** Reading the ledger: the database's `find`, `countDocuments` and
    `$match`/`$group` sums over the Transaction collection, and the
    `skip`/`limit` pagination shared by the listing routes. */
module Ledger {
  import opened Base
  import opened Models

  /** 1000 * 60 * 60 * 24 */
  const MsPerDay: int := 86400000

  /** A filter on the ledger: each present field restricts the match; the
      date bounds are inclusive (`$gte`, `$lte`). */
  datatype Query = Query(
    user: Option<UserId>,
    kind: Option<string>,
    status: Option<string>,
    from: Option<int>,
    until: Option<int>)

  predicate Matches(q: Query, t: Transaction)
  {
    && (q.user.Some? ==> t.user == q.user.value)
    && (q.kind.Some? ==> t.kind == q.kind.value)
    && (q.status.Some? ==> t.status == q.status.value)
    && (q.from.Some? ==> q.from.value <= t.createdAt)
    && (q.until.Some? ==> t.createdAt <= q.until.value)
  }

  /** `Transaction.find(query)`, in insertion order. */
  function Find(ledger: seq<Transaction>, q: Query): (r: seq<Transaction>)
    ensures |r| <= |ledger|
    ensures forall t :: t in r <==> t in ledger && Matches(q, t)
  {
    if ledger == [] then []
    else
      var last := ledger[|ledger| - 1];
      Find(ledger[..|ledger| - 1], q) + (if Matches(q, last) then [last] else [])
  }

  /** `$sum: '$amount'`. */
  function SumAmounts(ts: seq<Transaction>): real
  {
    if ts == [] then 0.0 else SumAmounts(ts[..|ts| - 1]) + ts[|ts| - 1].amount
  }

  lemma FindAppend(ledger: seq<Transaction>, t: Transaction, q: Query)
    ensures Find(ledger + [t], q) == Find(ledger, q) + (if Matches(q, t) then [t] else [])
  {
    assert (ledger + [t])[..|ledger|] == ledger;
  }

  lemma SumAppend(ts: seq<Transaction>, us: seq<Transaction>)
    ensures SumAmounts(ts + us) == SumAmounts(ts) + SumAmounts(us)
    decreases |us|
  {
    if us == [] {
      assert ts + us == ts;
    } else {
      var n := |us| - 1;
      assert (ts + us)[..|ts + us| - 1] == ts + us[..n];
      SumAppend(ts, us[..n]);
    }
  }

  /** A filter that admits no more than another selects no larger sum, when
      the amounts involved are non-negative. */
  lemma {:induction false} NarrowerFindSumsLess(ledger: seq<Transaction>, narrow: Query, wide: Query)
    requires forall t :: t in ledger && Matches(narrow, t) ==> Matches(wide, t)
    requires forall t :: t in ledger && Matches(wide, t) ==> t.amount >= 0.0
    ensures SumAmounts(Find(ledger, narrow)) <= SumAmounts(Find(ledger, wide))
  {
    if ledger != [] {
      var init, last := ledger[..|ledger| - 1], ledger[|ledger| - 1];
      assert ledger == init + [last];
      NarrowerFindSumsLess(init, narrow, wide);
      FindAppend(init, last, narrow);
      FindAppend(init, last, wide);
      SumAppend(Find(init, narrow), if Matches(narrow, last) then [last] else []);
      SumAppend(Find(init, wide), if Matches(wide, last) then [last] else []);
    }
  }

  /** Entries appear in the order of their creation times. */
  predicate Chronological(ts: seq<Transaction>)
  {
    forall i, j :: 0 <= i < j < |ts| ==> ts[i].createdAt <= ts[j].createdAt
  }

  /** An entry stamped no earlier than every stored one keeps the ledger
      chronological. */
  lemma AppendKeepsChronological(ledger: seq<Transaction>, t: Transaction)
    requires Chronological(ledger)
    requires forall i :: 0 <= i < |ledger| ==> ledger[i].createdAt <= t.createdAt
    ensures Chronological(ledger + [t])
  {
  }

  lemma {:induction false} FindKeepsOrder(ledger: seq<Transaction>, q: Query)
    requires Chronological(ledger)
    ensures Chronological(Find(ledger, q))
  {
    if ledger != [] {
      var init, last := ledger[..|ledger| - 1], ledger[|ledger| - 1];
      FindKeepsOrder(init, q);
      var found := Find(init, q);
      forall t | t in found
        ensures t.createdAt <= last.createdAt
      {
        var i :| 0 <= i < |init| && init[i] == t;
      }
    }
  }

  /** `.sort({ createdAt: -1 })` on a chronological sequence. */
  function NewestFirst<T>(xs: seq<T>): (r: seq<T>)
    ensures |r| == |xs|
    ensures forall k :: 0 <= k < |xs| ==> r[k] == xs[|xs| - 1 - k]
  {
    if xs == [] then [] else [xs[|xs| - 1]] + NewestFirst(xs[..|xs| - 1])
  }

  /** Reordering newest first brings in no new element. */
  lemma NewestFirstWithin<T>(xs: seq<T>)
    ensures forall x :: x in NewestFirst(xs) ==> x in xs
  {
    var r := NewestFirst(xs);
    forall x | x in r
      ensures x in xs
    {
      var k :| 0 <= k < |r| && r[k] == x;
      assert xs[|xs| - 1 - k] == x;
    }
  }

  lemma NewestFirstIsDescending(ts: seq<Transaction>)
    requires Chronological(ts)
    ensures forall i, j :: 0 <= i < j < |ts| ==> NewestFirst(ts)[i].createdAt >= NewestFirst(ts)[j].createdAt
  {
  }

  /** `Math.ceil(total / limit)`. */
  function TotalPages(total: nat, limit: int): (pages: nat)
    requires limit >= 1
    ensures total == 0 ==> pages == 0
    ensures total > 0 ==> (pages - 1) * limit < total <= pages * limit
  {
    var pages := (total + limit - 1) / limit;
    assert pages * limit + (total + limit - 1) % limit == total + limit - 1;
    pages
  }

  /** There are no pages exactly when there is nothing to list. */
  lemma NoPagesOnlyWhenEmpty(total: nat, limit: int)
    requires limit >= 1
    ensures TotalPages(total, limit) == 0 <==> total == 0
  {
  }

  /** `.skip((page - 1) * limit).limit(limit)`. */
  function PageWindow<T>(xs: seq<T>, page: int, limit: int): (w: seq<T>)
    requires page >= 1 && limit >= 1
    ensures |w| <= limit
    ensures forall k :: 0 <= k < |w| ==> 0 <= (page - 1) * limit + k < |xs| && w[k] == xs[(page - 1) * limit + k]
  {
    MulMonotone(0, page - 1, limit);
    var skip := (page - 1) * limit;
    if skip >= |xs| then []
    else if |xs| - skip <= limit then xs[skip..]
    else xs[skip..skip + limit]
  }

  /** Item `m` of a page is item `skip + m` of the whole sequence. */
  lemma WindowAt<T>(xs: seq<T>, page: int, limit: int, skip: int, m: int)
    requires page >= 1 && limit >= 1 && skip == (page - 1) * limit
    requires 0 <= m < limit && skip + m < |xs|
    ensures m < |PageWindow(xs, page, limit)| && PageWindow(xs, page, limit)[m] == xs[skip + m]
  {
  }

  /** Every element of a page is an element of the whole sequence. */
  lemma WindowWithin<T>(xs: seq<T>, page: int, limit: int)
    requires page >= 1 && limit >= 1
    ensures forall x :: x in PageWindow(xs, page, limit) ==> x in xs
  {
    var skip := (page - 1) * limit;
    if skip < |xs| {
      var end := if |xs| - skip <= limit then |xs| else skip + limit;
      var w := xs[skip..end];
      assert PageWindow(xs, page, limit) == w;
      forall x | x in w
        ensures x in xs
      {
        var j :| 0 <= j < |w| && w[j] == x;
        assert xs[skip + j] == x;
      }
    }
  }

  /** A page of a newest-first sequence is itself newest first. */
  lemma WindowKeepsDescending(ts: seq<Transaction>, page: int, limit: int)
    requires page >= 1 && limit >= 1
    requires forall i, j :: 0 <= i < j < |ts| ==> ts[i].createdAt >= ts[j].createdAt
    ensures var w := PageWindow(ts, page, limit);
      forall i, j :: 0 <= i < j < |w| ==> w[i].createdAt >= w[j].createdAt
  {
    var skip := (page - 1) * limit;
    if skip < |ts| {
      var end := if |ts| - skip <= limit then |ts| else skip + limit;
      var w := ts[skip..end];
      assert PageWindow(ts, page, limit) == w;
      forall i, j | 0 <= i < j < |w|
        ensures w[i].createdAt >= w[j].createdAt
      {
        assert w[i] == ts[skip + i] && w[j] == ts[skip + j];
      }
    }
  }

  /** The page holding position `k` is within `TotalPages`. */
  lemma PageWithinTotal(total: nat, limit: int, k: int)
    requires limit >= 1 && 0 <= k < total
    ensures k / limit + 1 <= TotalPages(total, limit)
  {
    var q, n := k / limit, TotalPages(total, limit);
    assert q * limit <= k;
    if n <= q {
      MulMonotone(n, q, limit);
      assert false;
    }
  }

  /** Every element lies on exactly one page: position k is item k % limit
      of page k / limit + 1, and that page is within `TotalPages`. */
  lemma EveryItemOnItsPage<T>(xs: seq<T>, limit: int, k: int)
    requires limit >= 1 && 0 <= k < |xs|
    ensures 1 <= k / limit + 1 <= TotalPages(|xs|, limit)
    ensures k % limit < |PageWindow(xs, k / limit + 1, limit)|
    ensures PageWindow(xs, k / limit + 1, limit)[k % limit] == xs[k]
  {
    var q, m := k / limit, k % limit;
    DivMod(k, limit);
    PageWithinTotal(|xs|, limit, k);
    WindowAt(xs, q + 1, limit, q * limit, m);
  }

  /** Euclidean division by a positive divisor. */
  lemma DivMod(k: int, limit: int)
    requires limit >= 1 && k >= 0
    ensures (k / limit) * limit + k % limit == k && 0 <= k % limit < limit && k / limit >= 0
  {
  }

  lemma MulMonotone(a: int, b: int, c: int)
    requires a <= b && c >= 0
    ensures a * c <= b * c
  {
    assert b * c - a * c == (b - a) * c;
  }

  /** Pages after the last one are empty. */
  lemma PagesBeyondTheLastAreEmpty<T>(xs: seq<T>, limit: int, page: int)
    requires limit >= 1 && page > TotalPages(|xs|, limit)
    ensures PageWindow(xs, page, limit) == []
  {
    var n := TotalPages(|xs|, limit);
    MulMonotone(n, page - 1, limit);
  }
}
