/** One worker's batch: fetch, filter against a snapshot of tracked addresses, register, store. */
module Processor {
  import opened Transactions
  import opened Store

  const CHUNK: nat := 10

  predicate IsRelevant(t: Transaction, tracked: set<Address>) {
    t.source in tracked || (t.destination.Some? && t.destination.value in tracked)
  }

  /** What the RPC node and the extraction made of each signature; `None` covers every failure. */
  ghost predicate Answered(signatures: seq<Signature>, answers: seq<Option<Transaction>>) {
    && |answers| == |signatures|
    && (forall i :: 0 <= i < |answers| && answers[i].Some? ==> answers[i].value.signature == signatures[i])
  }

  /** The extracted transactions that touch the snapshot, in order. */
  function Relevant(answers: seq<Option<Transaction>>, snapshot: set<Address>): seq<Transaction> {
    if answers == [] then []
    else
      var a := answers[0];
      (if a.Some? && IsRelevant(a.value, snapshot) then [a.value] else []) + Relevant(answers[1..], snapshot)
  }

  lemma {:induction false} RelevantAppend(xs: seq<Option<Transaction>>, ys: seq<Option<Transaction>>,
                                          snapshot: set<Address>)
    ensures Relevant(xs + ys, snapshot) == Relevant(xs, snapshot) + Relevant(ys, snapshot)
  {
    if xs == [] {
      assert xs + ys == ys;
    } else {
      assert (xs + ys)[1..] == xs[1..] + ys;
      RelevantAppend(xs[1..], ys, snapshot);
    }
  }

  lemma {:induction false} RelevantMeaning(answers: seq<Option<Transaction>>, snapshot: set<Address>, t: Transaction)
    ensures t in Relevant(answers, snapshot) <==> Some(t) in answers && t.Endpoints() * snapshot != {}
  {
    if answers != [] {
      RelevantMeaning(answers[1..], snapshot, t);
      assert answers == [answers[0]] + answers[1..];
      if answers[0] == Some(t) {
        var a := if t.source in snapshot || t.destination.None? then t.source else t.destination.value;
        assert IsRelevant(t, snapshot) ==> a in t.Endpoints() * snapshot;
      }
    }
  }

  /** `indices` are, in increasing order, the positions of the answers that succeeded with a transaction whose source
      or destination is in the snapshot, and `txs` those transactions. */
  ghost predicate Chooses(answers: seq<Option<Transaction>>, snapshot: set<Address>, indices: seq<nat>,
                          txs: seq<Transaction>)
  {
    && (forall i, j :: 0 <= i < j < |indices| ==> indices[i] < indices[j])
    && (forall i :: i in indices <==>
          && 0 <= i < |answers| && answers[i].Some?
          && (answers[i].value.source in snapshot
              || (answers[i].value.destination.Some? && answers[i].value.destination.value in snapshot)))
    && |txs| == |indices|
    && (forall j :: 0 <= j < |indices| ==> indices[j] < |answers| && answers[indices[j]] == Some(txs[j]))
  }

  lemma ChoosesOneMore(init: seq<Option<Transaction>>, last: Option<Transaction>, snapshot: set<Address>,
                       indices: seq<nat>, txs: seq<Transaction>)
    requires Chooses(init, snapshot, indices, txs)
    ensures if last.Some? && IsRelevant(last.value, snapshot)
      then Chooses(init + [last], snapshot, indices + [|init|], txs + [last.value])
      else Chooses(init + [last], snapshot, indices, txs)
  {
    var longer := indices + [|init|];
    assert forall i :: i in longer <==> i in indices || i == |init|;
    forall j | 0 <= j < |indices|
      ensures indices[j] < |init|
    {
      assert indices[j] in indices;
    }
  }

  /** The relevant transactions come in the order of the answers, each as often as it was answered. */
  lemma {:induction false} RelevantOrder(answers: seq<Option<Transaction>>, snapshot: set<Address>)
    returns (indices: seq<nat>)
    ensures Chooses(answers, snapshot, indices, Relevant(answers, snapshot))
  {
    if answers == [] {
      indices := [];
    } else {
      var n := |answers| - 1;
      var init := answers[..n];
      indices := RelevantOrder(init, snapshot);
      assert init + [answers[n]] == answers && [answers[n]][1..] == [];
      RelevantAppend(init, [answers[n]], snapshot);
      ChoosesOneMore(init, answers[n], snapshot, indices, Relevant(init, snapshot));
      if answers[n].Some? && IsRelevant(answers[n].value, snapshot) {
        indices := indices + [n];
      }
    }
  }

  /** Registration of a set of addresses, of which those in `ok` succeed. */
  function RegisterAll(s: Tables, addresses: set<Address>, ok: Address -> bool, now: nat): Tables {
    s.(tracked := s.tracked + map a | a in addresses && ok(a) :: now)
  }

  /** The tables after a batch, and the number it reports as processed. */
  function Processed(s: Tables, txs: seq<Transaction>, ok: Address -> bool, now: nat, faultAt: Option<nat>)
    : (Tables, nat)
  {
    if txs == [] then (s, 0)
    else
      var (s', done) := Committed(RegisterAll(s, EndpointsOf(txs), ok, now), txs, faultAt);
      (s', if done then |txs| else 0)
  }

  lemma NothingRelevant(snapshot: set<Address>)
    ensures Relevant([], snapshot) == []
  {
  }

  lemma RelevantStep(answers: seq<Option<Transaction>>, snapshot: set<Address>, low: nat, i: nat)
    requires low <= i < |answers|
    ensures Relevant(answers[low..i + 1], snapshot) == Relevant(answers[low..i], snapshot) +
      if answers[i].Some? && IsRelevant(answers[i].value, snapshot) then [answers[i].value] else []
  {
    assert answers[low..i + 1] == answers[low..i] + [answers[i]];
    RelevantAppend(answers[low..i], [answers[i]], snapshot);
  }

  /** Fetch and filter, in chunks of ten. */
  method FetchRelevant(answers: seq<Option<Transaction>>, snapshot: set<Address>)
    returns (transactions: seq<Transaction>)
    ensures transactions == Relevant(answers, snapshot)
    ensures exists indices :: Chooses(answers, snapshot, indices, transactions)
  {
    hide Relevant, IsRelevant;
    transactions := [];
    assert answers[..0] == [];
    NothingRelevant(snapshot);
    var low := 0;
    while low < |answers|
      invariant 0 <= low <= |answers|
      invariant transactions == Relevant(answers[..low], snapshot)
    {
      var high := Min(low + CHUNK, |answers|);
      var chunk: seq<Transaction> := [];
      assert answers[low..low] == [];
      for i := low to high
        invariant chunk == Relevant(answers[low..i], snapshot)
      {
        RelevantStep(answers, snapshot, low, i);
        match answers[i]
        case Some(t) =>
          if IsRelevant(t, snapshot) {
            chunk := chunk + [t];
          }
        case None =>
      }
      assert answers[..high] == answers[..low] + answers[low..high];
      RelevantAppend(answers[..low], answers[low..high], snapshot);
      transactions := transactions + chunk;
      low := high;
    }
    assert answers[..low] == answers;
    ghost var indices := RelevantOrder(answers, snapshot);
  }

  method CollectEndpoints(txs: seq<Transaction>) returns (endpoints: set<Address>)
    ensures endpoints == EndpointsOf(txs)
  {
    endpoints := {};
    for i := 0 to |txs|
      invariant endpoints == EndpointsOf(txs[..i])
    {
      assert forall t :: t in txs[..i + 1] <==> t in txs[..i] || t == txs[i];
      endpoints := endpoints + {txs[i].source};
      if txs[i].destination.Some? {
        endpoints := endpoints + {txs[i].destination.value};
      }
      assert endpoints == EndpointsOf(txs[..i]) + txs[i].Endpoints();
    }
    assert txs[..|txs|] == txs;
  }

  /** The addresses are visited in any order; one that fails does not stop the others. */
  method RegisterEndpoints(db: Database, endpoints: set<Address>, now: nat, valid: Address -> bool,
                           refused: Address -> bool)
    modifies db
    ensures db.State() == RegisterAll(old(db.State()), endpoints, a => valid(a) && !refused(a), now)
    ensures db.rows == old(db.rows)
    ensures forall a :: a in db.tracked <==> a in old(db.tracked) || (a in endpoints && valid(a) && !refused(a))
    ensures forall a :: a in db.tracked ==>
      db.tracked[a] == if a in endpoints && valid(a) && !refused(a) then now else old(db.tracked)[a]
  {
    var todo := endpoints;
    ghost var s, done, ok := db.State(), {}, a => valid(a) && !refused(a);
    assert RegisterAll(s, {}, ok, now).tracked == s.tracked;
    while todo != {}
      invariant done + todo == endpoints
      invariant db.State() == RegisterAll(s, done, ok, now)
      decreases todo
    {
      var a :| a in todo;
      RegisterOne(s, done, a, ok, now);
      var r := db.AddAddress(a, now, valid, refused(a));
      todo, done := todo - {a}, done + {a};
    }
    assert done == endpoints;
  }

  lemma RegisterOne(s: Tables, done: set<Address>, a: Address, ok: Address -> bool, now: nat)
    ensures RegisterAll(s, done + {a}, ok, now) == Registered(RegisterAll(s, done, ok, now), a, now, ok(a))
  {
  }

  /** `valid` is the address format check; `refused` tells which registrations the storage refuses. */
  method ProcessTransactionBatch(
      db: Database, signatures: seq<Signature>, answers: seq<Option<Transaction>>, snapshot: set<Address>,
      now: nat, valid: Address -> bool, refused: Address -> bool, faultAt: Option<nat>)
    returns (processed: nat)
    requires Answered(signatures, answers)
    modifies db
    ensures (db.State(), processed)
         == Processed(old(db.State()), Relevant(answers, snapshot), a => valid(a) && !refused(a), now, faultAt)
  {
    if signatures == [] {
      return 0;
    }
    var transactions := FetchRelevant(answers, snapshot);
    processed := 0;
    if transactions != [] {
      var endpoints := CollectEndpoints(transactions);
      RegisterEndpoints(db, endpoints, now, valid, refused);
      InsertAllMeaning(db.State(), transactions);
      var r := db.AddTransactions(transactions, faultAt);
      if r.Ok? {
        processed := |transactions|;
      }
    }
  }

  lemma TrackedAfter(s: Tables, txs: seq<Transaction>, t: Transaction, ok: Address -> bool, now: nat)
    requires t in txs
    ensures EndpointsTracked(t, RegisterAll(s, EndpointsOf(txs), ok, now).tracked)
       <==> forall a :: a in t.Endpoints() ==> a in s.tracked || ok(a)
  {
  }

  /** Every row of the batch that would really be inserted has endpoints tracked already or registrable. */
  ghost predicate Registrable(s: Tables, txs: seq<Transaction>, ok: Address -> bool) {
    forall i, a :: 0 <= i < |txs| && IsFirst(s.rows, txs, i) && a in txs[i].Endpoints() ==> a in s.tracked || ok(a)
  }

  /** A batch is stored whole, or not at all: it is stored exactly when storage holds out and every row
      that would really be inserted has endpoints that were tracked already or can be registered. What could be
      registered stays so either way. */
  lemma BatchCommits(s: Tables, txs: seq<Transaction>, ok: Address -> bool, now: nat, faultAt: Option<nat>)
    requires txs != []
    ensures var (s', n) := Processed(s, txs, ok, now, faultAt);
      && (n == |txs| <==> Registrable(s, txs, ok) && !Faults(txs, faultAt))
      && (n == |txs| ==> FirstWins(s.rows, txs, s'.rows))
      && (n != |txs| ==> n == 0 && s'.rows == s.rows)
      && (forall a :: a in s'.tracked <==> a in s.tracked || (ok(a) && Named(txs, a)))
      && (forall a :: a in s'.tracked ==> s'.tracked[a] == if ok(a) && Named(txs, a) then now else s.tracked[a])
  {
    var reg := RegisterAll(s, EndpointsOf(txs), ok, now);
    InsertAllMeaning(reg, txs);
    forall i | 0 <= i < |txs|
      ensures EndpointsTracked(txs[i], reg.tracked) <==> forall a :: a in txs[i].Endpoints() ==> a in s.tracked || ok(a)
    {
      TrackedAfter(s, txs, txs[i], ok, now);
    }
    assert forall i :: 0 <= i < |txs| ==> (IsFirst(s.rows, txs, i) <==> IsFirst(reg.rows, txs, i));
    hide Named;
    ProcessedTracks(s, txs, ok, now, faultAt);
  }

  lemma ProcessedTracks(s: Tables, txs: seq<Transaction>, ok: Address -> bool, now: nat, faultAt: Option<nat>)
    requires txs != []
    ensures var s' := Processed(s, txs, ok, now, faultAt).0;
      && (forall a :: a in s'.tracked <==> a in s.tracked || (ok(a) && Named(txs, a)))
      && (forall a :: a in s'.tracked ==> s'.tracked[a] == if ok(a) && Named(txs, a) then now else s.tracked[a])
  {
    InsertAllMeaning(RegisterAll(s, EndpointsOf(txs), ok, now), txs);
    hide EndpointsOf, Named, Insertable, FirstWins, InsertAll;
    forall a
      ensures a in EndpointsOf(txs) <==> Named(txs, a)
    {
      NamedMeaning(txs, a);
    }
  }

  /** Some transaction of the batch has the address as its source or destination. */
  ghost predicate Named(txs: seq<Transaction>, a: Address) {
    exists i :: 0 <= i < |txs| && (txs[i].source == a || txs[i].destination == Some(a))
  }

  lemma NamedMeaning(txs: seq<Transaction>, a: Address)
    ensures a in EndpointsOf(txs) <==> Named(txs, a)
  {
    if i :| 0 <= i < |txs| && (txs[i].source == a || txs[i].destination == Some(a)) {
      assert txs[i] in txs && a in txs[i].Endpoints();
    }
  }

  /** In particular, when every endpoint can be registered, every extracted relevant transaction is in
      the table afterwards and the reported count is their number. */
  lemma BatchSucceeds(s: Tables, answers: seq<Option<Transaction>>, snapshot: set<Address>, ok: Address -> bool,
                      now: nat)
    requires forall t, a :: Some(t) in answers && t.Endpoints() * snapshot != {} && a in t.Endpoints() ==> ok(a)
    ensures var (s', n) := Processed(s, Relevant(answers, snapshot), ok, now, None);
      && n == |Relevant(answers, snapshot)|
      && forall t :: Some(t) in answers && t.Endpoints() * snapshot != {} ==> t.signature in s'.rows
  {
    var txs := Relevant(answers, snapshot);
    forall t
      ensures t in txs <==> Some(t) in answers && t.Endpoints() * snapshot != {}
    {
      RelevantMeaning(answers, snapshot, t);
    }
    if txs != [] {
      forall i, a | 0 <= i < |txs| && a in txs[i].Endpoints()
        ensures ok(a)
      {
        assert txs[i] in txs;
      }
      BatchCommits(s, txs, ok, now, None);
      assert forall t :: t in txs ==> t.signature in Signatures(txs);
    }
  }

  /** Processing stored transactions again, as after overlapping polls, reports them as processed but keeps
      the rows and the set of tracked addresses; only the times of addition are refreshed. */
  lemma ReprocessingKeeps(s: Tables, txs: seq<Transaction>, ok: Address -> bool, now: nat)
    requires Consistent(s) && forall t :: t in txs ==> t.signature in s.rows && s.rows[t.signature] == t
    ensures var (s', n) := Processed(s, txs, ok, now, None);
      && s'.rows == s.rows && s'.tracked.Keys == s.tracked.Keys && n == |txs|
      && forall a :: a in s.tracked ==> s'.tracked[a] == if a in EndpointsOf(txs) && ok(a) then now else s.tracked[a]
  {
    if txs != [] {
      var reg := RegisterAll(s, EndpointsOf(txs), ok, now);
      assert forall t :: t in txs ==> EndpointsTracked(t, s.tracked);
      InsertAllMeaning(reg, txs);
      forall i | 0 <= i < |txs|
        ensures !IsFirst(reg.rows, txs, i)
      {
        assert txs[i] in txs;
      }
      forall sig | sig in Signatures(txs)
        ensures sig in s.rows
      {
      }
      assert Committed(reg, txs, None).0.rows == s.rows;
    }
  }

  /** So whatever a batch did, processing what it stored once more leaves the same rows and addresses. */
  lemma RedeliveryKeeps(s: Tables, txs: seq<Transaction>, ok: Address -> bool, now: nat, later: nat)
    requires Consistent(s)
    requires forall t, u :: t in txs && u in txs && t.signature == u.signature ==> t == u
    requires forall t :: t in txs && t.signature in s.rows ==> s.rows[t.signature] == t
    ensures var (s', n) := Processed(s, txs, ok, now, None);
      n == |txs| ==>
        var s'' := Processed(s', txs, ok, later, None).0;
        s''.rows == s'.rows && s''.tracked.Keys == s'.tracked.Keys
  {
    var (s', n) := Processed(s, txs, ok, now, None);
    if txs != [] && n == |txs| {
      BatchCommits(s, txs, ok, now, None);
      var reg := RegisterAll(s, EndpointsOf(txs), ok, now);
      CommitKeeps(reg, txs, None);
      forall t | t in txs
        ensures t.signature in s'.rows && s'.rows[t.signature] == t
      {
        assert t.signature in Signatures(txs);
        if t.signature !in s.rows {
          var i := FirstWith(s.rows, txs, t.signature);
          assert txs[i] in txs;
        }
      }
      ReprocessingKeeps(s', txs, ok, later);
    }
  }
}
