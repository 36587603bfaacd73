/** Cached answers to transaction queries, next to a store that grows while they live. */
module QueryCache {
  import opened Transactions
  import opened Store
  import opened Queries
  import opened CacheKeys

  /** One page of rows and the total count. */
  datatype Answer = Answer(rows: seq<Transaction>, count: nat)

  datatype Entry = Entry(answer: Answer, insertedAt: nat)

  function QueryOf(k: CacheKey): Query
    requires k.TransactionQuery?
  {
    Query(k.address, k.startTime, k.endTime)
  }

  /** `page` is what the page query may return for the key. */
  ghost predicate IsPageOf(rows: Rows, k: CacheKey, page: seq<Transaction>)
    requires k.TransactionQuery?
  {
    exists order :: IsOrder(rows, QueryOf(k), order) && page == Page(order, k.offset, k.limit)
  }

  predicate Live(e: Entry, ttl: nat, now: nat) {
    now - e.insertedAt < ttl
  }

  // ---------------------------------------------------------------- the cache object

  /** Entries live for `defaultTtl` from their insertion. `closures` tells whether the cache was built
      with support for invalidation by predicate. */
  class TransactionCacheManager {
    var entries: map<CacheKey, Entry>
    const defaultTtl: nat
    const closures: bool

    /** The builder does not ask for invalidation support. */
    constructor (defaultTtl: nat)
      ensures entries == map[] && this.defaultTtl == defaultTtl && !closures
    {
      entries := map[];
      this.defaultTtl := defaultTtl;
      closures := false;
    }

    method Get(k: CacheKey, now: nat) returns (r: Option<Answer>)
      ensures r == if k in entries && now < entries[k].insertedAt + defaultTtl then Some(entries[k].answer) else None
    {
      if k in entries && now - entries[k].insertedAt < defaultTtl {
        r := Some(entries[k].answer);
      } else {
        r := None;
      }
    }

    /** The time to live passed in is only logged. */
    method Insert(k: CacheKey, answer: Answer, ttl: Option<nat>, now: nat)
      modifies this
      ensures entries == old(entries)[k := Entry(answer, now)]
    {
      entries := entries[k := Entry(answer, now)];
    }

    method InvalidateForAddress(a: Address)
      modifies this
      ensures entries == Invalidated(old(entries), closures, {a})
      ensures !closures ==> entries == old(entries)
      ensures closures ==> forall k: CacheKey ::
        && (k in entries <==> k in old(entries) && k.address != a)
        && (k in entries ==> entries[k] == old(entries)[k])
    {
      if closures {
        entries := map k | k in entries && k.address != a :: entries[k];
      }
    }

    /** A query through the cache. On a miss the count and the page are two statements, and rows may be
        added in between: `counted` and `paged` are the tables they see, `order` the order the second
        one produces. */
    method GetTransactions(k: CacheKey, now: nat, counted: Rows, ghost paged: Rows, order: seq<Transaction>)
      returns (r: Answer)
      requires k.TransactionQuery? && IsOrder(paged, QueryOf(k), order)
      modifies this
      ensures k in old(entries) && now < old(entries)[k].insertedAt + defaultTtl ==>
        r == old(entries)[k].answer && entries == old(entries)
      ensures k !in old(entries) || now >= old(entries)[k].insertedAt + defaultTtl ==>
        && r.count == Count(counted, QueryOf(k)) && IsPageOf(paged, k, r.rows)
        && entries == old(entries)[k := Entry(r, now)]
      ensures k !in old(entries) || now >= old(entries)[k].insertedAt + defaultTtl ==>
        && r.count == |set sig | sig in counted
                       && (counted[sig].source == k.address || counted[sig].destination == Some(k.address))
                       && k.startTime <= counted[sig].blockTime && counted[sig].blockTime < k.endTime|
        && (forall t :: t in r.rows ==>
              && t.signature in paged && paged[t.signature] == t
              && (t.source == k.address || t.destination == Some(k.address))
              && k.startTime <= t.blockTime && t.blockTime < k.endTime)
        && (forall i, j :: 0 <= i < j < |r.rows| ==> r.rows[i].blockTime <= r.rows[j].blockTime)
        && (k.limit < 0 && k.offset <= 0 ==> r.rows == order)
    {
      var cached := Get(k, now);
      if cached.Some? {
        return cached.value;
      }
      r := Answer(Page(order, k.offset, k.limit), Count(counted, QueryOf(k)));
      assert Matching(counted, QueryOf(k)) == set sig | sig in counted
        && (counted[sig].source == k.address || counted[sig].destination == Some(k.address))
        && k.startTime <= counted[sig].blockTime && counted[sig].blockTime < k.endTime;
      assert forall t :: t in r.rows ==> t in order;
      Insert(k, r, None, now);
    }
  }

  function Invalidated(entries: map<CacheKey, Entry>, closures: bool, addresses: set<Address>): map<CacheKey, Entry> {
    if closures then map k | k in entries && k.address !in addresses :: entries[k] else entries
  }

  // ---------------------------------------------------------------- steps and runs

  /** A query in flight. `countedIn` and `pagedIn` number the tables its statements saw. */
  datatype Reader =
    | Ready
    | Counted(key: CacheKey, count: nat, countedIn: nat)
    | Paged(key: CacheKey, answer: Answer, countedIn: nat, pagedIn: nat)

  /** Which tables an entry was read from. */
  datatype Origin = Origin(countedIn: nat, pagedIn: nat)

  /** `versions` lists the row tables since the start, the current one last; `origins` is history. */
  datatype State = State(versions: seq<Rows>, clock: nat, entries: map<CacheKey, Entry>,
                         origins: map<CacheKey, Origin>, readers: seq<Reader>)
  {
    function Now(): nat
      requires versions != []
    {
      |versions| - 1
    }
  }

  datatype Step =
    | Tick(delay: nat)
    | Commit(rows: Rows)
    | Evict(keys: set<CacheKey>)
    | CountRows(r: nat, key: CacheKey)
    | PageRows(r: nat, order: seq<Transaction>)
    | Keep(r: nat)

  /** Rows are only ever added. */
  ghost predicate Grows(rows: Rows, rows': Rows) {
    Keyed(rows') && forall sig :: sig in rows ==> sig in rows' && rows'[sig] == rows[sig]
  }

  ghost predicate Enabled(s: State, step: Step)
    requires s.versions != []
  {
    match step
    case Tick(_) => true
    case Commit(rows) => Grows(s.versions[s.Now()], rows)
    case Evict(_) => true
    case CountRows(r, key) => r < |s.readers| && s.readers[r].Ready? && key.TransactionQuery?
    case PageRows(r, order) =>
      r < |s.readers| && s.readers[r].Counted? && s.readers[r].key.TransactionQuery?
      && IsOrder(s.versions[s.Now()], QueryOf(s.readers[r].key), order)
    case Keep(r) => r < |s.readers| && s.readers[r].Paged?
  }

  ghost function Apply(s: State, step: Step): State
    requires s.versions != [] && Enabled(s, step)
  {
    match step
    case Tick(delay) => s.(clock := s.clock + delay)
    case Commit(rows) => s.(versions := s.versions + [rows])
    case Evict(keys) => s.(entries := s.entries - keys, origins := s.origins - keys)
    case CountRows(r, key) =>
      s.(readers := s.readers[r := Counted(key, Count(s.versions[s.Now()], QueryOf(key)), s.Now())])
    case PageRows(r, order) =>
      var c := s.readers[r];
      var answer := Answer(Page(order, c.key.offset, c.key.limit), c.count);
      s.(readers := s.readers[r := Paged(c.key, answer, c.countedIn, s.Now())])
    case Keep(r) =>
      var p := s.readers[r];
      s.(entries := s.entries[p.key := Entry(p.answer, s.clock)],
         origins := s.origins[p.key := Origin(p.countedIn, p.pagedIn)],
         readers := s.readers[r := Ready])
  }

  ghost predicate Run(s: State, steps: seq<Step>, s': State)
    requires s.versions != []
    decreases steps
  {
    if steps == [] then s' == s
    else Enabled(s, steps[0]) && Run(Apply(s, steps[0]), steps[1..], s')
  }

  function Start(rows: Rows, readers: nat): State {
    State([rows], 0, map[], map[], seq(readers, _ => Ready))
  }

  // ---------------------------------------------------------------- the invariant

  ghost predicate ReadFrom(versions: seq<Rows>, k: CacheKey, answer: Answer, o: Origin) {
    && k.TransactionQuery? && o.countedIn <= o.pagedIn < |versions|
    && answer.count == Count(versions[o.countedIn], QueryOf(k))
    && IsPageOf(versions[o.pagedIn], k, answer.rows)
  }

  ghost predicate ReaderInv(versions: seq<Rows>, r: Reader) {
    match r
    case Ready => true
    case Counted(k, count, countedIn) =>
      k.TransactionQuery? && countedIn < |versions| && count == Count(versions[countedIn], QueryOf(k))
    case Paged(k, answer, countedIn, pagedIn) => ReadFrom(versions, k, answer, Origin(countedIn, pagedIn))
  }

  ghost predicate VersionsGrow(versions: seq<Rows>) {
    && versions != [] && Keyed(versions[0])
    && forall i, j :: 0 <= i < j < |versions| ==> Grows(versions[i], versions[j])
  }

  ghost predicate Inv(s: State) {
    && VersionsGrow(s.versions)
    && s.origins.Keys == s.entries.Keys
    && (forall k :: k in s.entries ==>
          s.entries[k].insertedAt <= s.clock && ReadFrom(s.versions, k, s.entries[k].answer, s.origins[k]))
    && (forall r :: 0 <= r < |s.readers| ==> ReaderInv(s.versions, s.readers[r]))
  }

  lemma StepKeeps(s: State, step: Step)
    requires Inv(s) && Enabled(s, step)
    ensures Inv(Apply(s, step))
  {
    match step
    case Commit(rows) => CommitKeeps(s, rows);
    case CountRows(r, _) => ReaderSet(s, r, Apply(s, step).readers[r]);
    case PageRows(r, order) => PageRowsKeeps(s, r, order);
    case Keep(r) => KeepKeeps(s, r);
    case _ =>
  }

  lemma PageRowsKeeps(s: State, r: nat, order: seq<Transaction>)
    requires Inv(s) && Enabled(s, PageRows(r, order))
    ensures Inv(Apply(s, PageRows(r, order)))
  {
  }

  lemma KeepKeeps(s: State, r: nat)
    requires Inv(s) && Enabled(s, Keep(r))
    ensures Inv(Apply(s, Keep(r)))
  {
    hide Count, Matching, Page, IsOrder, IsPageOf, Grows;
    assert ReaderInv(s.versions, s.readers[r]);
    ReaderSet(s, r, Ready);
  }

  lemma ReaderSet(s: State, r: nat, x: Reader)
    requires Inv(s) && r < |s.readers| && ReaderInv(s.versions, x)
    ensures Inv(s.(readers := s.readers[r := x]))
  {
  }

  lemma CommitKeeps(s: State, rows: Rows)
    requires Inv(s) && Enabled(s, Commit(rows))
    ensures Inv(Apply(s, Commit(rows)))
  {
    hide Count, Matching, IsPageOf, Keyed;
  }

  lemma {:induction false} RunKeeps(s: State, steps: seq<Step>, s': State)
    requires Inv(s) && Run(s, steps, s')
    ensures Inv(s')
    decreases steps
  {
    if steps != [] {
      StepKeeps(s, steps[0]);
      RunKeeps(Apply(s, steps[0]), steps[1..], s');
    }
  }

  // ---------------------------------------------------------------- bounded staleness

  lemma GrowsMatching(rows: Rows, rows': Rows, q: Query)
    requires Grows(rows, rows')
    ensures Matching(rows, q) <= Matching(rows', q) && Count(rows, q) <= Count(rows', q)
    ensures Count(rows, q) == Count(rows', q) <==> Matching(rows, q) == Matching(rows', q)
  {
    var s, t := Matching(rows, q), Matching(rows', q);
    Subset(s, t);
    if |s| == |t| {
      SubsetSame(s, t);
    }
  }

  /** Every hit was inserted less than the time to live ago; its count comes from tables the page's
      tables contain, and both are contained in the current ones. So every served row is still stored,
      and the served count is at most the current one; it reaches it, and the whole answer is one the
      current tables give, exactly when no matching row was committed since the count was taken. */
  lemma BoundedStaleness(rows: Rows, readers: nat, steps: seq<Step>, s: State, k: CacheKey, ttl: nat)
    requires Keyed(rows) && Run(Start(rows, readers), steps, s)
    requires k in s.entries && Live(s.entries[k], ttl, s.clock)
    ensures s.versions != [] && k in s.origins && k.TransactionQuery?
    ensures var (e, o, current) := (s.entries[k], s.origins[k], s.versions[s.Now()]);
      && s.clock < e.insertedAt + ttl && e.insertedAt <= s.clock
      && o.countedIn <= o.pagedIn <= s.Now()
      && e.answer.count == Count(s.versions[o.countedIn], QueryOf(k))
      && IsPageOf(s.versions[o.pagedIn], k, e.answer.rows)
      && (forall t :: t in e.answer.rows ==>
            t.signature in current && current[t.signature] == t && Matches(QueryOf(k), t))
      && e.answer.count <= Count(current, QueryOf(k))
      && (e.answer.count == Count(current, QueryOf(k))
          <==> Matching(s.versions[o.countedIn], QueryOf(k)) == Matching(current, QueryOf(k)))
      && (IsAnswer(current, k, e.answer)
          <==> Matching(s.versions[o.countedIn], QueryOf(k)) == Matching(current, QueryOf(k)))
  {
    hide Count, Matching, Page, IsOrder, Matches, Run;
    assert Inv(Start(rows, readers));
    RunKeeps(Start(rows, readers), steps, s);
    var e, o, now := s.entries[k], s.origins[k], s.Now();
    assert ReadFrom(s.versions, k, e.answer, o);
    hide Keyed, IsPageOf;
    ServedWhileSame(s.versions, k, e.answer, o);
    ServedRowsStored(s.versions, o.pagedIn, k, e.answer.rows);
  }

  /** An answer put together from earlier tables is one of the last tables exactly while nothing that matches
      was added since the first of them. */
  lemma ServedWhileSame(versions: seq<Rows>, k: CacheKey, answer: Answer, o: Origin)
    requires VersionsGrow(versions) && ReadFrom(versions, k, answer, o)
    ensures var (counted, current, q) := (versions[o.countedIn], versions[|versions| - 1], QueryOf(k));
      && answer.count <= Count(current, q)
      && (answer.count == Count(current, q) <==> Matching(counted, q) == Matching(current, q))
      && (IsAnswer(current, k, answer) <==> Matching(counted, q) == Matching(current, q))
  {
    hide Count, Matching, IsPageOf, Matches, Keyed;
    var q := QueryOf(k);
    var (counted, paged, current) := (versions[o.countedIn], versions[o.pagedIn], versions[|versions| - 1]);
    LaterGrows(versions, o.countedIn, o.pagedIn);
    LaterGrows(versions, o.countedIn, |versions| - 1);
    LaterGrows(versions, o.pagedIn, |versions| - 1);
    GrowsMatching(counted, paged, q);
    GrowsMatching(counted, current, q);
    GrowsMatching(paged, current, q);
    if Matching(counted, q) == Matching(current, q) {
      VersionKeyed(versions, o.pagedIn);
      SameMatchingSameAnswers(paged, current, k, answer);
    }
  }

  lemma LaterGrows(versions: seq<Rows>, i: nat, j: nat)
    requires VersionsGrow(versions) && i <= j < |versions|
    ensures Grows(versions[i], versions[j])
  {
    VersionKeyed(versions, j);
  }

  /** A reader that has counted can always go on to its page: the current tables have some order. */
  lemma PagingGoesOn(rows: Rows, readers: nat, steps: seq<Step>, s: State, r: nat) returns (order: seq<Transaction>)
    requires Keyed(rows) && Run(Start(rows, readers), steps, s) && r < |s.readers| && s.readers[r].Counted?
    ensures s.versions != [] && Enabled(s, PageRows(r, order))
  {
    hide Count, Matching, Page, IsOrder, Matches, Run;
    assert Inv(Start(rows, readers));
    RunKeeps(Start(rows, readers), steps, s);
    assert ReaderInv(s.versions, s.readers[r]);
    VersionKeyed(s.versions, s.Now());
    order := SomeOrder(s.versions[s.Now()], QueryOf(s.readers[r].key));
  }

  lemma VersionKeyed(versions: seq<Rows>, i: nat)
    requires VersionsGrow(versions) && i < |versions|
    ensures Keyed(versions[i])
  {
  }

  lemma ServedRowsStored(versions: seq<Rows>, i: nat, k: CacheKey, page: seq<Transaction>)
    requires VersionsGrow(versions) && i < |versions| && k.TransactionQuery? && IsPageOf(versions[i], k, page)
    ensures var current := versions[|versions| - 1];
      forall t :: t in page ==> t.signature in current && current[t.signature] == t && Matches(QueryOf(k), t)
  {
  }

  /** What a reader has read is kept under its key from that moment on, and served for exactly the time to live. */
  lemma KeptForTtl(s: State, r: nat, delay: nat, ttl: nat, s': State)
    requires s.versions != [] && Run(s, [Keep(r), Tick(delay)], s')
    ensures r < |s.readers| && s.readers[r].Paged?
    ensures var (k, answer) := (s.readers[r].key, s.readers[r].answer);
      && k in s'.entries && s'.entries[k].answer == answer
      && (Live(s'.entries[k], ttl, s'.clock) <==> delay < ttl)
      && s'.versions == s.versions && s'.readers == s.readers[r := Ready]
  {
    var steps := [Keep(r), Tick(delay)];
    assert steps[1..] == [Tick(delay)] && steps[1..][1..] == [];
    var kept := Apply(s, Keep(r));
    assert Run(kept, [Tick(delay)], s') && [Tick(delay)][1..] == [];
    assert Run(Apply(kept, Tick(delay)), [], s');
  }

  /** A hit can be stale: a row committed after an answer was kept is missing from it. */
  lemma HitCanBeStale(t: Transaction, k: CacheKey) returns (steps: seq<Step>, s: State)
    requires k.TransactionQuery? && Matches(QueryOf(k), t)
    ensures Run(Start(map[], 1), steps, s) && k in s.entries && Live(s.entries[k], 1, s.clock)
    ensures s.versions != [] && s.entries[k].answer.count == 0 && Count(s.versions[s.Now()], QueryOf(k)) == 1
  {
    var rows := map[t.signature := t];
    var s0: State := Start(map[], 1);
    assert IsOrder(map[], QueryOf(k), []);
    var s1 := Apply(s0, CountRows(0, k));
    var s2 := Apply(s1, PageRows(0, []));
    var s3 := Apply(s2, Keep(0));
    assert Grows(s3.versions[s3.Now()], rows);
    s := Apply(s3, Commit(rows));
    steps := [CountRows(0, k), PageRows(0, []), Keep(0), Commit(rows)];
    assert Run(s3, [Commit(rows)], s) by {
      assert [Commit(rows)][1..] == [];
    }
    assert steps[1..][1..][1..] == [Commit(rows)];
    assert steps[1..][1..] == [Keep(0), Commit(rows)] && steps[1..] == [PageRows(0, []), Keep(0), Commit(rows)];
    assert Run(s2, steps[1..][1..], s);
    assert Run(s1, steps[1..], s);
    assert Matching(map[], QueryOf(k)) == {};
    assert Matching(rows, QueryOf(k)) == {t.signature};
  }

  // ---------------------------------------------------------------- invalidation

  /** Every cached answer is what the tables would give now. */
  ghost predicate Exact(entries: map<CacheKey, Entry>, rows: Rows) {
    forall k :: k in entries ==> k.TransactionQuery? && IsAnswer(rows, k, entries[k].answer)
  }

  ghost predicate IsAnswer(rows: Rows, k: CacheKey, answer: Answer)
    requires k.TransactionQuery?
  {
    answer.count == Count(rows, QueryOf(k)) && IsPageOf(rows, k, answer.rows)
  }

  /** Storing a batch changes the answer to no query about an address outside it. */
  lemma InsertFrame(rows: Rows, txs: seq<Transaction>, rows': Rows, k: CacheKey)
    requires Keyed(rows) && FirstWins(rows, txs, rows') && k.TransactionQuery? && k.address !in EndpointsOf(txs)
    ensures Matching(rows, QueryOf(k)) == Matching(rows', QueryOf(k))
  {
    forall i | 0 <= i < |txs|
      ensures !Matches(QueryOf(k), txs[i])
    {
      assert txs[i] in txs && forall a :: a in txs[i].Endpoints() ==> a in EndpointsOf(txs);
    }
    forall sig | sig in Matching(rows', QueryOf(k))
      ensures sig in rows
    {
      if sig !in rows {
        var i := FirstWith(rows, txs, sig);
      }
    }
  }

  lemma SameMatchingSameAnswers(rows: Rows, rows': Rows, k: CacheKey, answer: Answer)
    requires Keyed(rows) && Grows(rows, rows') && k.TransactionQuery?
    requires Matching(rows, QueryOf(k)) == Matching(rows', QueryOf(k)) && IsAnswer(rows, k, answer)
    ensures IsAnswer(rows', k, answer)
  {
    var order :| IsOrder(rows, QueryOf(k), order) && answer.rows == Page(order, k.offset, k.limit);
    forall t: Transaction
      ensures t in order <==> t.signature in rows' && rows'[t.signature] == t && Matches(QueryOf(k), t)
    {
      if t.signature in rows' && rows'[t.signature] == t && Matches(QueryOf(k), t) {
        assert t.signature in Matching(rows', QueryOf(k));
      }
    }
    assert IsOrder(rows', QueryOf(k), order);
  }

  lemma FirstWinsGrows(rows: Rows, txs: seq<Transaction>, rows': Rows)
    requires Keyed(rows) && FirstWins(rows, txs, rows')
    ensures Grows(rows, rows')
  {
    forall sig | sig in rows' && sig !in rows
      ensures rows'[sig].signature == sig
    {
      var i := FirstWith(rows, txs, sig);
    }
  }

  /** Invalidating exactly the batch's addresses restores an exact cache, if invalidation works at all. */
  lemma InvalidationRestores(entries: map<CacheKey, Entry>, rows: Rows, txs: seq<Transaction>, rows': Rows)
    requires Keyed(rows) && FirstWins(rows, txs, rows') && Exact(entries, rows)
    ensures Exact(Invalidated(entries, true, EndpointsOf(txs)), rows')
  {
    FirstWinsGrows(rows, txs, rows');
    forall k | k in Invalidated(entries, true, EndpointsOf(txs))
      ensures IsAnswer(rows', k, entries[k].answer)
    {
      InsertFrame(rows, txs, rows', k);
      SameMatchingSameAnswers(rows, rows', k, entries[k].answer);
    }
  }

  /** None of the rows the batch would really insert answers a cached query. */
  ghost predicate Unconcerned(entries: map<CacheKey, Entry>, rows: Rows, txs: seq<Transaction>)
    requires forall k :: k in entries ==> k.TransactionQuery?
  {
    forall k, i :: k in entries && 0 <= i < |txs| && IsFirst(rows, txs, i) ==> !Matches(QueryOf(k), txs[i])
  }

  /** The rows a batch adds to a query are those of its first occurrences that match. */
  lemma AddedMatches(rows: Rows, txs: seq<Transaction>, rows': Rows, q: Query)
    requires Keyed(rows) && FirstWins(rows, txs, rows')
    ensures Matching(rows, q) == Matching(rows', q)
       <==> forall i :: 0 <= i < |txs| && IsFirst(rows, txs, i) ==> !Matches(q, txs[i])
  {
    if i :| 0 <= i < |txs| && IsFirst(rows, txs, i) && Matches(q, txs[i]) {
      assert txs[i].signature in Signatures(txs) && rows'[txs[i].signature] == txs[i];
      assert txs[i].signature in Matching(rows', q);
    } else {
      forall sig | sig in Matching(rows', q)
        ensures sig in rows
      {
        if sig !in rows {
          var i := FirstWith(rows, txs, sig);
        }
      }
    }
  }

  /** As the cache is built, invalidation removes nothing, and it stays exact exactly when no row the batch
      really inserts answers a cached query, which can be seen before the commit. */
  lemma WithoutInvalidation(entries: map<CacheKey, Entry>, rows: Rows, txs: seq<Transaction>, rows': Rows)
    requires Keyed(rows) && FirstWins(rows, txs, rows') && Exact(entries, rows)
    ensures Exact(Invalidated(entries, false, EndpointsOf(txs)), rows') <==> Unconcerned(entries, rows, txs)
  {
    FirstWinsGrows(rows, txs, rows');
    forall k | k in entries
      ensures IsAnswer(rows', k, entries[k].answer)
         <==> forall i :: 0 <= i < |txs| && IsFirst(rows, txs, i) ==> !Matches(QueryOf(k), txs[i])
    {
      AddedMatches(rows, txs, rows', QueryOf(k));
      GrowsMatching(rows, rows', QueryOf(k));
      if Matching(rows, QueryOf(k)) == Matching(rows', QueryOf(k)) {
        SameMatchingSameAnswers(rows, rows', k, entries[k].answer);
      }
    }
  }
}
