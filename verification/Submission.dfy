/** `process_transaction_signatures`: fetching a list of signatures and feeding the batch manager. */
module Submission {
  import opened Transactions
  import opened Batching

  const FETCH_CHUNK: nat := 10

  datatype SigInfo = SigInfo(signature: Signature, slot: nat, blockTime: Option<int>)

  /** The transaction extracted for a signature of the k-th submitted list, unless fetching failed. */
  type Fetcher = (nat, Signature) -> Option<Transaction>

  function Listed(t: Option<Transaction>): seq<Transaction> {
    if t.Some? then [t.value] else []
  }

  /** The extracted transactions of one list, in order. */
  function Extracted(fetch: Fetcher, k: nat, signatures: seq<Signature>): seq<Transaction> {
    if signatures == [] then []
    else Listed(fetch(k, signatures[0])) + Extracted(fetch, k, signatures[1..])
  }

  lemma {:induction false} ExtractedAppend(fetch: Fetcher, k: nat, s: seq<Signature>, t: seq<Signature>)
    ensures Extracted(fetch, k, s + t) == Extracted(fetch, k, s) + Extracted(fetch, k, t)
  {
    if s == [] {
      assert s + t == t;
    } else {
      assert (s + t)[1..] == s[1..] + t;
      ExtractedAppend(fetch, k, s[1..], t);
    }
  }

  /** The extracted transactions of several lists, the first of which is numbered zero. */
  function ExtractedAll(fetch: Fetcher, lists: seq<seq<Signature>>): seq<Transaction> {
    if lists == [] then []
    else
      var last := |lists| - 1;
      ExtractedAll(fetch, lists[..last]) + Extracted(fetch, last, lists[last])
  }

  lemma NothingExtracted(fetch: Fetcher)
    ensures ExtractedAll(fetch, []) == []
  {
  }

  lemma ExtractedAllAppend(fetch: Fetcher, lists: seq<seq<Signature>>, list: seq<Signature>)
    ensures ExtractedAll(fetch, lists + [list]) == ExtractedAll(fetch, lists) + Extracted(fetch, |lists|, list)
  {
  }

  /** `indices` are the positions of the list that could be fetched, in increasing order, and `txs` what they gave. */
  ghost predicate Fetches(fetch: Fetcher, k: nat, signatures: seq<Signature>, indices: seq<nat>,
                          txs: seq<Transaction>)
  {
    && (forall i, j :: 0 <= i < j < |indices| ==> indices[i] < indices[j])
    && (forall i :: i in indices <==> 0 <= i < |signatures| && fetch(k, signatures[i]).Some?)
    && |txs| == |indices|
    && (forall j :: 0 <= j < |indices| ==>
          indices[j] < |signatures| && fetch(k, signatures[indices[j]]) == Some(txs[j]))
  }

  lemma FetchesLast(fetch: Fetcher, k: nat, init: seq<Signature>, last: Signature, indices: seq<nat>,
                    txs: seq<Transaction>)
    requires Fetches(fetch, k, init, indices, txs)
    ensures if fetch(k, last).Some?
            then Fetches(fetch, k, init + [last], indices + [|init|], txs + Listed(fetch(k, last)))
            else Fetches(fetch, k, init + [last], indices, txs + Listed(fetch(k, last)))
  {
    var longer := indices + [|init|];
    assert forall i :: i in longer <==> i in indices || i == |init|;
    forall j | 0 <= j < |indices|
      ensures indices[j] < |init|
    {
      assert indices[j] in indices;
    }
    assert txs + [] == txs;
  }

  lemma {:induction false} ExtractedMeaning(fetch: Fetcher, k: nat, signatures: seq<Signature>)
    returns (indices: seq<nat>)
    ensures Fetches(fetch, k, signatures, indices, Extracted(fetch, k, signatures))
  {
    if signatures == [] {
      indices := [];
    } else {
      hide *;
      var n := |signatures| - 1;
      var init, last := signatures[..n], signatures[n];
      indices := ExtractedMeaning(fetch, k, init);
      ExtractedStep(fetch, k, signatures, n);
      FetchesLast(fetch, k, init, last, indices, Extracted(fetch, k, init));
      assert signatures[..n + 1] == signatures && init + [last] == signatures;
      indices := if fetch(k, last).Some? then indices + [n] else indices;
    }
  }

  /** A position in one of several lists. */
  datatype Place = Place(list: nat, at: nat) {
    predicate In(lists: seq<seq<Signature>>) {
      list < |lists| && at < |lists[list]|
    }

    predicate Before(other: Place) {
      list < other.list || (list == other.list && at < other.at)
    }
  }

  /** What fetching at a place gives. */
  function FetchedAt(fetch: Fetcher, lists: seq<seq<Signature>>, p: Place): Option<Transaction> {
    if p.In(lists) then fetch(p.list, lists[p.list][p.at]) else None
  }

  /** `places` are the positions of the lists that could be fetched, list by list, and `txs` what they gave. */
  ghost predicate FetchesAll(fetch: Fetcher, lists: seq<seq<Signature>>, places: seq<Place>, txs: seq<Transaction>) {
    && (forall x, y :: 0 <= x < y < |places| ==> places[x].Before(places[y]))
    && (forall p: Place :: p in places <==> FetchedAt(fetch, lists, p).Some?)
    && |txs| == |places|
    && (forall x :: 0 <= x < |places| ==> FetchedAt(fetch, lists, places[x]) == Some(txs[x]))
  }

  /** What several lists hand to the manager: everything that could be fetched, in order, each place once. */
  lemma {:induction false} ExtractedAllMeaning(fetch: Fetcher, lists: seq<seq<Signature>>)
    returns (places: seq<Place>)
    ensures FetchesAll(fetch, lists, places, ExtractedAll(fetch, lists))
  {
    if lists == [] {
      places := [];
    } else {
      var n := |lists| - 1;
      var before := ExtractedAllMeaning(fetch, lists[..n]);
      var indices := ExtractedMeaning(fetch, n, lists[n]);
      assert lists == lists[..n] + [lists[n]];
      places := OneMoreList(fetch, lists[..n], lists[n], before, ExtractedAll(fetch, lists[..n]),
                            indices, Extracted(fetch, n, lists[n]));
    }
  }

  lemma OneMoreList(fetch: Fetcher, lists: seq<seq<Signature>>, list: seq<Signature>, before: seq<Place>,
                    given: seq<Transaction>, indices: seq<nat>, txs: seq<Transaction>)
    returns (places: seq<Place>)
    requires FetchesAll(fetch, lists, before, given) && Fetches(fetch, |lists|, list, indices, txs)
    ensures FetchesAll(fetch, lists + [list], places, given + txs)
  {
    var n, all := |lists|, lists + [list];
    var last := seq(|indices|, x requires 0 <= x < |indices| => Place(n, indices[x]));
    places := before + last;
    forall p: Place
      ensures FetchedAt(fetch, all, p)
           == if p.list == n then FetchedIn(fetch, n, list, p.at) else FetchedAt(fetch, lists, p)
    {
      assert p.list < n ==> all[p.list] == lists[p.list];
    }
    forall p: Place
      ensures p in last <==> p.list == n && p.at in indices
    {
      if p.list == n && p.at in indices {
        var x :| 0 <= x < |indices| && indices[x] == p.at;
        assert last[x] == p;
      }
    }
    forall x | 0 <= x < |before|
      ensures before[x].list < n
    {
      assert before[x] in before;
    }
    hide FetchedAt;
  }

  function FetchedIn(fetch: Fetcher, k: nat, list: seq<Signature>, at: nat): Option<Transaction> {
    if at < |list| then fetch(k, list[at]) else None
  }

  /** Every signature that could be fetched was handed over, and nothing else. */
  lemma ExtractedAllMembers(fetch: Fetcher, lists: seq<seq<Signature>>)
    ensures forall t :: t in ExtractedAll(fetch, lists) <==>
              exists i, s :: 0 <= i < |lists| && s in lists[i] && fetch(i, s) == Some(t)
  {
    var places := ExtractedAllMeaning(fetch, lists);
    var txs := ExtractedAll(fetch, lists);
    hide ExtractedAll;
    forall t | t in txs
      ensures exists i, s :: 0 <= i < |lists| && s in lists[i] && fetch(i, s) == Some(t)
    {
      var x :| 0 <= x < |txs| && txs[x] == t;
      var p := places[x];
      assert lists[p.list][p.at] in lists[p.list] && fetch(p.list, lists[p.list][p.at]) == Some(t);
    }
    forall i: nat, s | i < |lists| && s in lists[i] && fetch(i, s).Some?
      ensures fetch(i, s).value in txs
    {
      var j: nat :| j < |lists[i]| && lists[i][j] == s;
      assert FetchedAt(fetch, lists, Place(i, j)).Some?;
      var x :| 0 <= x < |places| && places[x] == Place(i, j);
      assert txs[x] == fetch(i, s).value;
    }
  }

  lemma HandedOver(fetch: Fetcher, lists: seq<seq<Signature>>, before: seq<Transaction>, after: seq<Transaction>)
    requires after == before + ExtractedAll(fetch, lists)
    ensures forall i, s :: 0 <= i < |lists| && s in lists[i] && fetch(i, s).Some? ==> fetch(i, s).value in after
    ensures |after| == |before| + |ExtractedAll(fetch, lists)|
  {
    ExtractedAllMembers(fetch, lists);
  }

  /** Every extracted transaction reaches the batch manager, in order and once. */
  method ProcessTransactionSignatures(fetch: Fetcher, k: nat, signatures: seq<Signature>, clock: nat -> nat,
                                      manager: BatchManager)
    returns (processed: nat)
    requires manager.Valid()
    modifies manager
    ensures manager.Valid()
    ensures manager.added == old(manager.added) + Extracted(fetch, k, signatures)
    ensures processed == |Extracted(fetch, k, signatures)|
    ensures exists indices, txs :: Fetches(fetch, k, signatures, indices, txs)
                                && manager.added == old(manager.added) + txs && processed == |txs|
  {
    hide Extracted, BatchManager.Valid;
    processed := 0;
    var low := 0;
    assert signatures[..low] == [];
    NothingListed(fetch, k);
    while low < |signatures|
      invariant 0 <= low <= |signatures| && manager.Valid()
      invariant manager.added == old(manager.added) + Extracted(fetch, k, signatures[..low])
      invariant processed == |Extracted(fetch, k, signatures[..low])|
    {
      var high := Min(low + FETCH_CHUNK, |signatures|);
      for i := low to high
        invariant manager.Valid()
        invariant manager.added == old(manager.added) + Extracted(fetch, k, signatures[..i])
        invariant processed == |Extracted(fetch, k, signatures[..i])|
      {
        ExtractedStep(fetch, k, signatures, i);
        var count := Feed(fetch(k, signatures[i]), clock(processed), manager);
        processed := processed + count;
      }
      low := high;
    }
    assert signatures[..low] == signatures;
    ghost var indices := ExtractedMeaning(fetch, k, signatures);
  }

  lemma NothingListed(fetch: Fetcher, k: nat)
    ensures Extracted(fetch, k, []) == []
  {
  }

  /** A transaction that could be fetched and extracted is handed to the manager. */
  method Feed(t: Option<Transaction>, now: nat, manager: BatchManager) returns (count: nat)
    requires manager.Valid()
    modifies manager
    ensures manager.Valid() && manager.added == old(manager.added) + Listed(t) && count == |Listed(t)|
  {
    count := 0;
    if t.Some? {
      manager.AddTransaction(t.value, now);
      count := 1;
    }
  }

  lemma ExtractedStep(fetch: Fetcher, k: nat, signatures: seq<Signature>, i: nat)
    requires i < |signatures|
    ensures Extracted(fetch, k, signatures[..i + 1])
         == Extracted(fetch, k, signatures[..i]) + Listed(fetch(k, signatures[i]))
  {
    assert signatures[..i + 1] == signatures[..i] + [signatures[i]];
    ExtractedAppend(fetch, k, signatures[..i], [signatures[i]]);
  }
}
