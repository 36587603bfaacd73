/** Counting and paging the stored rows of one address in a time window. */
module Queries {
  import opened Transactions
  import opened Sorting
  import opened Store

  /** All rows of `address` with `startTime <= blockTime < endTime`. */
  datatype Query = Query(address: Address, startTime: int, endTime: int)

  type Rows = map<Signature, Transaction>

  predicate Matches(q: Query, t: Transaction) {
    (t.source == q.address || t.destination == Some(q.address)) && q.startTime <= t.blockTime < q.endTime
  }

  function Matching(rows: Rows, q: Query): set<Signature> {
    set sig | sig in rows && Matches(q, rows[sig])
  }

  function Count(rows: Rows, q: Query): nat {
    |Matching(rows, q)|
  }

  ghost predicate Keyed(rows: Rows) {
    forall sig :: sig in rows ==> rows[sig].signature == sig
  }

  ghost predicate ByTime(order: seq<Transaction>) {
    forall i, j :: 0 <= i < j < |order| ==> order[i].blockTime <= order[j].blockTime
  }

  /** A row answers a query about each of its endpoints, over every window that holds its block time. */
  lemma MatchesMeaning(q: Query, t: Transaction)
    ensures Matches(q, t) <==> q.address in t.Endpoints() && q.startTime <= t.blockTime && t.blockTime < q.endTime
  {
  }

  /** One of the orders ORDER BY block_time may produce: ties come in any order. */
  ghost predicate IsOrder(rows: Rows, q: Query, order: seq<Transaction>) {
    && ByTime(order) && Distinct(order)
    && forall t :: t in order <==> t.signature in rows && rows[t.signature] == t && Matches(q, t)
  }

  /** LIMIT and OFFSET; a negative limit is no limit, a negative offset is zero. */
  function Page(order: seq<Transaction>, offset: int, limit: int): seq<Transaction> {
    var from := Min(Max(0, offset), |order|);
    order[from..if limit < 0 then |order| else Min(from + limit, |order|)]
  }

  // ---------------------------------------------------------------- counts and pages agree

  lemma {:induction false} DistinctSize<T>(s: seq<T>)
    requires Distinct(s)
    ensures |ToSet(s)| == |s|
  {
    if s == [] {
      assert ToSet(s) == {};
    } else {
      DistinctSize(s[1..]);
      assert s == [s[0]] + s[1..];
      assert ToSet(s) == {s[0]} + ToSet(s[1..]);
    }
  }

  /** The total count is the number of rows all pages range over. */
  lemma CountIsLength(rows: Rows, q: Query, order: seq<Transaction>)
    requires Keyed(rows) && IsOrder(rows, q, order)
    ensures Count(rows, q) == |order|
  {
    var sigs := seq(|order|, i requires 0 <= i < |order| => order[i].signature);
    forall i, j | 0 <= i < j < |sigs|
      ensures sigs[i] != sigs[j]
    {
      assert order[i] != order[j] && order[i] in order && order[j] in order;
    }
    DistinctSize(sigs);
    forall sig | sig in Matching(rows, q)
      ensures sig in ToSet(sigs)
    {
      assert rows[sig] in order;
      var i :| 0 <= i < |order| && order[i] == rows[sig];
      assert sigs[i] == sig;
    }
    forall i | 0 <= i < |sigs|
      ensures sigs[i] in Matching(rows, q)
    {
      assert order[i] in order;
    }
    assert ToSet(sigs) == Matching(rows, q);
  }

  /** For all integers: a negative offset starts at the first row, and a negative limit reaches to the last one. */
  lemma PageLength(rows: Rows, q: Query, order: seq<Transaction>, offset: int, limit: int)
    requires Keyed(rows) && IsOrder(rows, q, order)
    ensures var skipped := if offset < 0 then 0 else offset;
      var left := if Count(rows, q) < skipped then 0 else Count(rows, q) - skipped;
      && |Page(order, offset, limit)| == (if 0 <= limit < left then limit else left)
      && forall j :: 0 <= j < |Page(order, offset, limit)| ==> Page(order, offset, limit)[j] == order[skipped + j]
  {
    CountIsLength(rows, q, order);
  }

  /** The pages at offsets 0, limit, 2 limit, ... */
  function Pages(order: seq<Transaction>, limit: nat, n: nat): seq<Transaction> {
    if n == 0 then [] else Pages(order, limit, n - 1) + Page(order, (n - 1) * limit, limit)
  }

  lemma NextPage(order: seq<Transaction>, from: nat, limit: nat)
    ensures order[..Min(from, |order|)] + Page(order, from, limit) == order[..Min(from + limit, |order|)]
  {
  }

  lemma NextOffset(n: nat, limit: nat)
    ensures (n + 1) * limit == n * limit + limit
  {
  }

  /** For one tie order, the pages put together are exactly the ordered rows, none twice, none missing. */
  lemma {:induction false} PagesConcatenate(order: seq<Transaction>, limit: nat, n: nat)
    ensures Pages(order, limit, n) == order[..Min(n * limit, |order|)]
    ensures n * limit >= |order| ==> Pages(order, limit, n) == order
  {
    hide Page;
    if n > 0 {
      PagesConcatenate(order, limit, n - 1);
      NextOffset(n - 1, limit);
      NextPage(order, (n - 1) * limit, limit);
    }
    assert order[..|order|] == order;
  }

  /** What a batch really inserts is found: for each endpoint of such a row and each window that holds its time, the
      pages put together have the row, and only once; and no query about another address or window has it. */
  lemma InsertedIsFound(rows: Rows, txs: seq<Transaction>, rows': Rows, i: nat, q: Query, order: seq<Transaction>,
                        limit: nat, n: nat)
    requires Keyed(rows) && FirstWins(rows, txs, rows') && i < |txs| && IsFirst(rows, txs, i)
    requires IsOrder(rows', q, order) && n * limit >= |order|
    ensures txs[i] in Pages(order, limit, n) <==>
      && (txs[i].source == q.address || txs[i].destination == Some(q.address))
      && q.startTime <= txs[i].blockTime && txs[i].blockTime < q.endTime
    ensures Distinct(Pages(order, limit, n))
  {
    PagesConcatenate(order, limit, n);
    assert txs[i] in txs && txs[i].signature in Signatures(txs) && rows'[txs[i].signature] == txs[i];
  }

  /** Counts over adjacent windows add up. */
  lemma CountsAdd(rows: Rows, a: Address, start: int, middle: int, end: int)
    requires start <= middle <= end
    ensures Count(rows, Query(a, start, middle)) + Count(rows, Query(a, middle, end))
         == Count(rows, Query(a, start, end))
  {
    var x, y := Matching(rows, Query(a, start, middle)), Matching(rows, Query(a, middle, end));
    assert x + y == Matching(rows, Query(a, start, end)) && x !! y;
  }

  // ---------------------------------------------------------------- ties

  /** Every finite set of rows can be ordered by time. */
  lemma {:induction false} Arrange(s: set<Transaction>) returns (order: seq<Transaction>)
    ensures ByTime(order) && Distinct(order) && ToSet(order) == s
    decreases |s|
  {
    if s == {} {
      order := [];
    } else {
      var last := Latest(s);
      var init := Arrange(s - {last});
      order := init + [last];
      forall i | 0 <= i < |init|
        ensures init[i] in s && init[i] != last
      {
        assert init[i] in ToSet(init);
      }
      assert ToSet(order) == ToSet(init) + {last};
    }
  }

  lemma {:induction false} Latest(s: set<Transaction>) returns (t: Transaction)
    requires s != {}
    ensures t in s && forall u :: u in s ==> u.blockTime <= t.blockTime
    decreases |s|
  {
    t :| t in s;
    if s != {t} {
      var u := Latest(s - {t});
      assert s == (s - {t}) + {t};
      if u.blockTime > t.blockTime {
        t := u;
      }
    }
  }

  lemma SomeOrder(rows: Rows, q: Query) returns (order: seq<Transaction>)
    requires Keyed(rows)
    ensures IsOrder(rows, q, order)
  {
    var s := set sig | sig in rows && Matches(q, rows[sig]) :: rows[sig];
    order := Arrange(s);
    forall t
      ensures t in order <==> t in s
    {
      assert t in order <==> t in ToSet(order);
    }
  }

  /** The rows up to a time. */
  function UpTo(order: seq<Transaction>, time: int): set<Transaction> {
    set t | t in order && t.blockTime <= time
  }

  lemma PrefixIsUpTo(order: seq<Transaction>, b: nat, time: int)
    requires ByTime(order) && Distinct(order) && b <= |order|
    requires |UpTo(order, time)| == b
    ensures ToSet(order[..b]) == UpTo(order, time)
  {
    if b < |order| && order[b].blockTime <= time {
      var more := order[..b + 1];
      assert forall t :: t in more ==> t in order && t.blockTime <= time;
      DistinctSize(more);
      Subset(ToSet(more), UpTo(order, time));
    }
    forall t | t in UpTo(order, time)
      ensures t in ToSet(order[..b])
    {
      var i :| 0 <= i < |order| && order[i] == t;
      assert i < b;
      assert order[..b][i] == t;
    }
    DistinctSize(order[..b]);
    SubsetSame(UpTo(order, time), ToSet(order[..b]));
  }

  lemma Subset<T>(s: set<T>, t: set<T>)
    requires s <= t
    ensures |s| <= |t|
  {
    assert t == s + (t - s);
  }

  lemma SubsetSame<T>(s: set<T>, t: set<T>)
    requires s <= t && |s| == |t|
    ensures s == t
  {
    assert t == s + (t - s);
  }

  /** Two requests may see two tie orders. Taking the first `b` rows from one and the rest from the
      other is again a right answer. */
  ghost predicate Mixable(rows: Rows, q: Query, b: nat) {
    forall x, y :: IsOrder(rows, q, x) && IsOrder(rows, q, y) && b <= |x| && b <= |y| ==>
      IsOrder(rows, q, x[..b] + y[b..])
  }

  /** Whatever tie orders the two requests see, splitting at row `b` is safe exactly when no tie lies
      across the split. */
  lemma SafeSplit(rows: Rows, q: Query, order: seq<Transaction>, b: nat)
    requires Keyed(rows) && IsOrder(rows, q, order) && 0 < b < |order|
    ensures Mixable(rows, q, b) <==> order[b - 1].blockTime < order[b].blockTime
  {
    if order[b - 1].blockTime == order[b].blockTime {
      var swapped := order[b - 1 := order[b]][b := order[b - 1]];
      SwappedOrder(rows, q, order, b);
      var mixed := order[..b] + swapped[b..];
      assert mixed[b - 1] == mixed[b];
    } else {
      forall x, y | IsOrder(rows, q, x) && IsOrder(rows, q, y) && b <= |x| && b <= |y|
        ensures IsOrder(rows, q, x[..b] + y[b..])
      {
        MixedOrder(rows, q, order, b, x, y);
      }
    }
  }

  /** With a tie across the split, one row can come twice and the other not at all. */
  lemma TiedSplitRepeats(t: Transaction, u: Transaction, q: Query)
    requires t.signature != u.signature && t.blockTime == u.blockTime && Matches(q, t) && Matches(q, u)
    ensures var rows := map[t.signature := t, u.signature := u];
      && IsOrder(rows, q, [t, u]) && IsOrder(rows, q, [u, t])
      && Page([t, u], 0, 1) + Page([u, t], 1, 1) == [t, t]
  {
  }

  lemma SwappedOrder(rows: Rows, q: Query, order: seq<Transaction>, b: nat)
    requires IsOrder(rows, q, order) && 0 < b < |order| && order[b - 1].blockTime == order[b].blockTime
    ensures IsOrder(rows, q, order[b - 1 := order[b]][b := order[b - 1]])
  {
    var swapped := order[b - 1 := order[b]][b := order[b - 1]];
    forall t
      ensures t in swapped <==> t in order
    {
      assert swapped[b - 1] == order[b] && swapped[b] == order[b - 1];
      assert forall i :: 0 <= i < |order| && i != b && i != b - 1 ==> swapped[i] == order[i];
    }
  }

  /** Without a tie across the split, all orders have the same rows before it. */
  lemma SamePrefix(rows: Rows, q: Query, order: seq<Transaction>, b: nat, x: seq<Transaction>)
    requires IsOrder(rows, q, order) && IsOrder(rows, q, x) && 0 < b < |order| && b <= |x|
    requires order[b - 1].blockTime < order[b].blockTime
    ensures ToSet(x[..b]) == ToSet(order[..b])
  {
    var time := order[b - 1].blockTime;
    assert ToSet(order[..b]) == UpTo(order, time) by {
      forall t | t in UpTo(order, time)
        ensures t in order[..b]
      {
        var i :| 0 <= i < |order| && order[i] == t;
        assert i < b;
        assert order[..b][i] == t;
      }
    }
    DistinctSize(order[..b]);
    assert UpTo(x, time) == UpTo(order, time);
    PrefixIsUpTo(x, b, time);
  }

  lemma MixedOrder(rows: Rows, q: Query, order: seq<Transaction>, b: nat, x: seq<Transaction>, y: seq<Transaction>)
    requires IsOrder(rows, q, order) && 0 < b < |order|
    requires order[b - 1].blockTime < order[b].blockTime
    requires IsOrder(rows, q, x) && IsOrder(rows, q, y) && b <= |x| && b <= |y|
    ensures IsOrder(rows, q, x[..b] + y[b..])
  {
    SamePrefix(rows, q, order, b, x);
    SamePrefix(rows, q, order, b, y);
    hide Matches;
    var before, after := x[..b], y[b..];
    assert y == y[..b] + after;
    forall t
      ensures t in before <==> t in y[..b]
    {
      assert t in before <==> t in ToSet(before);
      assert t in y[..b] <==> t in ToSet(y[..b]);
    }
    Behind(before, y, b);
    Joined(before, after);
  }

  /** What is among the first rows of an order comes before its other rows. */
  lemma Behind(before: seq<Transaction>, y: seq<Transaction>, b: nat)
    requires ByTime(y) && Distinct(y) && b <= |y| && forall t :: t in before ==> t in y[..b]
    ensures forall i, j :: 0 <= i < |before| && b <= j < |y| ==>
              before[i] != y[j] && before[i].blockTime <= y[j].blockTime
  {
    forall i, j | 0 <= i < |before| && b <= j < |y|
      ensures before[i] != y[j] && before[i].blockTime <= y[j].blockTime
    {
      assert before[i] in y[..b];
      var k :| 0 <= k < b && y[..b][k] == before[i];
      assert y[k] == before[i];
    }
  }

  lemma Joined(s: seq<Transaction>, t: seq<Transaction>)
    requires ByTime(s) && ByTime(t) && Distinct(s) && Distinct(t)
    requires forall i, j :: 0 <= i < |s| && 0 <= j < |t| ==> s[i] != t[j] && s[i].blockTime <= t[j].blockTime
    ensures ByTime(s + t) && Distinct(s + t)
  {
  }
}
