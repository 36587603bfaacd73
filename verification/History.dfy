/** The walk back through one address's history, page by page. */
module History {
  import opened Transactions
  import opened Batching
  import opened Submission
  import opened Sorting

  const LIMIT: nat := 50

  const MAX_AGE_SECS: nat := 60 * 60 * 24 * 90

  /** The answer to the k-th call, given the pagination cursor; `None` is a failed call. */
  type Rpc = (nat, Option<Signature>) -> Option<seq<SigInfo>>

  ghost predicate Within(rpc: Rpc, universe: set<Signature>) {
    forall k, before, info :: rpc(k, before).Some? && info in rpc(k, before).value ==> info.signature in universe
  }

  /** The age check looks only at the last entry, and takes a missing block time for the epoch. */
  predicate TooOld(page: seq<SigInfo>, now: int)
    requires page != []
  {
    var oldest := match page[|page| - 1].blockTime case Some(t) => t case None => 0;
    now - oldest > MAX_AGE_SECS
  }

  /** The signatures of the page not seen before, in order. */
  function Unseen(page: seq<SigInfo>, seen: set<Signature>): (news: seq<Signature>)
    ensures forall s :: s in news <==> s !in seen && exists i :: 0 <= i < |page| && page[i].signature == s
  {
    if page == [] then []
    else
      assert forall i :: 1 <= i < |page| ==> page[i] == page[1..][i - 1];
      (if page[0].signature in seen then [] else [page[0].signature]) + Unseen(page[1..], seen)
  }

  lemma SomethingNew(seen: set<Signature>, news: seq<Signature>, universe: set<Signature>)
    requires seen <= universe && news != [] && forall s :: s in news ==> s in universe && s !in seen
    ensures seen < seen + ToSet(news) <= universe
    ensures universe - (seen + ToSet(news)) < universe - seen
  {
    assert news[0] in ToSet(news) && news[0] in universe - seen;
  }

  /** The pages submitted from the k-th call on. Whatever the node answers, the seen set grows with
      every page, so the walk ends. */
  ghost function Walk(rpc: Rpc, now: int, k: nat, before: Option<Signature>, seen: set<Signature>,
                      universe: set<Signature>)
    : (pages: seq<seq<Signature>>)
    requires Within(rpc, universe) && seen <= universe
    decreases universe - seen
  {
    var answer := rpc(k, before);
    if answer.None? || answer.value == [] || TooOld(answer.value, now) then []
    else
      var page := answer.value;
      var news := Unseen(page, seen);
      if news == [] then []
      else
        assert forall s :: s in news ==> s in universe;
        SomethingNew(seen, news, universe);
        [news] + if |page| < LIMIT then []
                  else Walk(rpc, now, k + 1, Some(page[|page| - 1].signature), seen + ToSet(news), universe)
  }

  /** The walk stops at a failed call, an empty page, a page that ends too old, or one with nothing new. */
  lemma WalkStops(rpc: Rpc, now: int, k: nat, before: Option<Signature>, seen: set<Signature>, universe: set<Signature>)
    requires Within(rpc, universe) && seen <= universe
    requires var a := rpc(k, before); a.None? || a.value == [] || TooOld(a.value, now) || Unseen(a.value, seen) == []
    ensures Walk(rpc, now, k, before, seen, universe) == []
  {
  }

  lemma WalkGoes(rpc: Rpc, now: int, k: nat, before: Option<Signature>, seen: set<Signature>, universe: set<Signature>)
    requires Within(rpc, universe) && seen <= universe
    requires var a := rpc(k, before); a.Some? && a.value != [] && !TooOld(a.value, now) && Unseen(a.value, seen) != []
    ensures var page := rpc(k, before).value;
      var news := Unseen(page, seen);
      var seen' := seen + ToSet(news);
      && seen' <= universe && universe - seen' < universe - seen
      && (forall s :: s in news ==> s in universe - seen)
      && Walk(rpc, now, k, before, seen, universe)
         == [news] + if |page| < LIMIT then []
                     else Walk(rpc, now, k + 1, Some(page[|page| - 1].signature), seen', universe)
  {
    var news := Unseen(rpc(k, before).value, seen);
    assert forall s :: s in news ==> s in universe;
    SomethingNew(seen, news, universe);
  }

  method ProcessHistoricalAddress(rpc: Rpc, fetch: Fetcher, now: int, clock: nat -> nat, manager: BatchManager,
                                  ghost universe: set<Signature>)
    returns (total: nat, pages: seq<seq<Signature>>)
    requires Within(rpc, universe) && manager.Valid()
    modifies manager
    ensures manager.Valid()
    ensures pages == Walk(rpc, now, 0, None, {}, universe) && IsWalk(rpc, now, pages, 0)
    ensures manager.added == old(manager.added) + ExtractedAll(fetch, pages)
    ensures total == |ExtractedAll(fetch, pages)|
    ensures forall i, s :: 0 <= i < |pages| && s in pages[i] && fetch(i, s).Some? ==> fetch(i, s).value in manager.added
    ensures |manager.added| == |old(manager.added)| + total
  {
    hide *;
    total, pages := 0, [];
    NothingExtracted(fetch);
    var k, before: Option<Signature>, seen: set<Signature> := 0, None, {};
    ghost var all := Walk(rpc, now, 0, None, {}, universe);
    while true
      invariant manager.Valid() && seen <= universe
      invariant all == pages + Walk(rpc, now, k, before, seen, universe)
      invariant manager.added == old(manager.added) + ExtractedAll(fetch, pages)
      invariant total == |ExtractedAll(fetch, pages)|
      decreases universe - seen
    {
      var answer := rpc(k, before);
      if answer.None? || answer.value == [] || TooOld(answer.value, now) || Unseen(answer.value, seen) == [] {
        WalkStops(rpc, now, k, before, seen, universe);
        break;
      }
      WalkGoes(rpc, now, k, before, seen, universe);
      var page := answer.value;
      var news := Unseen(page, seen);
      ghost var rest := Walk(rpc, now, k, before, seen, universe);
      k, before, seen := k + 1, Some(page[|page| - 1].signature), seen + ToSet(news);
      ExtractedAllAppend(fetch, pages, news);
      var count := ProcessTransactionSignatures(fetch, |pages|, news, clock, manager);
      assert pages + [news] + rest[1..] == pages + rest;
      pages, total := pages + [news], total + count;
      if |page| < LIMIT {
        break;
      }
    }
    WalkMeaning(rpc, now, universe);
    assert pages == all;
    HandedOver(fetch, pages, old(manager.added), manager.added);
  }

  // ---------------------------------------------------------------- which pages, whatever the node answers

  /** The pagination cursor of the k-th call: the last signature of the answer before. */
  function Cursor(rpc: Rpc, k: nat): Option<Signature> {
    if k == 0 then None
    else
      var answer := rpc(k - 1, Cursor(rpc, k - 1));
      if answer.Some? && answer.value != [] then Some(answer.value[|answer.value| - 1].signature) else None
  }

  function AnswerTo(rpc: Rpc, k: nat): Option<seq<SigInfo>> {
    rpc(k, Cursor(rpc, k))
  }

  function AnswerSize(rpc: Rpc, k: nat): nat {
    if AnswerTo(rpc, k).Some? then |AnswerTo(rpc, k).value| else 0
  }

  ghost predicate SeenBefore(pages: seq<seq<Signature>>, k: nat, s: Signature) {
    exists i :: 0 <= i < k && i < |pages| && s in pages[i]
  }

  /** Its last entry is more than ninety days old, or has no time and those days have passed since the epoch. */
  predicate TooLongAgo(page: seq<SigInfo>, now: int)
    requires page != []
  {
    var last := page[|page| - 1];
    now > 7_776_000 + if last.blockTime.Some? then last.blockTime.value else 0
  }

  /** The k-th page is what the k-th answer has that no page before it had, in order. */
  ghost predicate IsNews(answer: seq<SigInfo>, pages: seq<seq<Signature>>, k: nat)
    requires k < |pages|
  {
    exists indices: seq<nat> ::
      && (forall i, j :: 0 <= i < j < |indices| ==> indices[i] < indices[j])
      && (forall i :: i in indices <==> 0 <= i < |answer| && !SeenBefore(pages, k, answer[i].signature))
      && |indices| == |pages[k]|
      && (forall j :: 0 <= j < |indices| ==>
            indices[j] < |answer| && answer[indices[j]].signature == pages[k][j])
  }

  /** The k-th call led to a page. */
  ghost predicate Goes(rpc: Rpc, now: int, pages: seq<seq<Signature>>, k: nat)
    requires k < |pages|
  {
    var answer := AnswerTo(rpc, k);
    && answer.Some? && answer.value != [] && !TooLongAgo(answer.value, now)
    && pages[k] != [] && IsNews(answer.value, pages, k)
  }

  /** The k-th call failed, or its answer was empty, too old or without news. */
  ghost predicate Stops(rpc: Rpc, now: int, pages: seq<seq<Signature>>, k: nat) {
    var answer := AnswerTo(rpc, k);
    answer.Some? && answer.value != [] && !TooLongAgo(answer.value, now) ==>
      forall i :: 0 <= i < |answer.value| ==> SeenBefore(pages, k, answer.value[i].signature)
  }

  /** The pages from number `from` on are those of a walk that goes on after full answers only and ends after a
      short answer, or at a call that stops it. */
  ghost predicate IsWalk(rpc: Rpc, now: int, pages: seq<seq<Signature>>, from: nat) {
    && (forall k: nat :: from <= k < |pages| ==> Goes(rpc, now, pages, k))
    && (forall k: nat :: from <= k < |pages| - 1 ==> AnswerSize(rpc, k) >= 50)
    && (if from < |pages| && AnswerSize(rpc, |pages| - 1) < 50 then true
        else Stops(rpc, now, pages, |pages|))
  }

  lemma {:induction false} UnseenLast(init: seq<SigInfo>, last: SigInfo, seen: set<Signature>)
    ensures Unseen(init + [last], seen) == Unseen(init, seen) + if last.signature in seen then [] else [last.signature]
  {
    if init == [] {
      assert [] + [last] == [last] && [last][1..] == [];
    } else {
      assert (init + [last])[1..] == init[1..] + [last];
      UnseenLast(init[1..], last, seen);
    }
  }

  /** `indices` are the positions of signatures not seen, in increasing order, and `news` those signatures. */
  ghost predicate Picks(page: seq<SigInfo>, seen: set<Signature>, indices: seq<nat>, news: seq<Signature>) {
    && (forall i, j :: 0 <= i < j < |indices| ==> indices[i] < indices[j])
    && (forall i :: i in indices <==> 0 <= i < |page| && page[i].signature !in seen)
    && |indices| == |news|
    && (forall j :: 0 <= j < |indices| ==> indices[j] < |page| && page[indices[j]].signature == news[j])
  }

  lemma PicksLast(init: seq<SigInfo>, last: SigInfo, seen: set<Signature>, indices: seq<nat>, news: seq<Signature>)
    requires Picks(init, seen, indices, news)
    ensures if last.signature in seen then Picks(init + [last], seen, indices, news)
            else Picks(init + [last], seen, indices + [|init|], news + [last.signature])
  {
    var longer := indices + [|init|];
    assert forall i :: i in longer <==> i in indices || i == |init|;
    forall j | 0 <= j < |indices|
      ensures indices[j] < |init|
    {
      assert indices[j] in indices;
    }
  }

  lemma {:induction false} UnseenMeaning(page: seq<SigInfo>, seen: set<Signature>) returns (indices: seq<nat>)
    ensures Picks(page, seen, indices, Unseen(page, seen))
  {
    if page == [] {
      indices := [];
    } else {
      hide *;
      var n := |page| - 1;
      var init, last := page[..n], page[n];
      indices := UnseenMeaning(init, seen);
      var news := Unseen(init, seen);
      UnseenLast(init, last, seen);
      PicksLast(init, last, seen, indices, news);
      assert init + [last] == page && news + [] == news;
      indices := if last.signature in seen then indices else indices + [n];
    }
  }

  lemma IsNewsUnseen(answer: seq<SigInfo>, pages: seq<seq<Signature>>, k: nat, seen: set<Signature>)
    requires k < |pages| && pages[k] == Unseen(answer, seen)
    requires forall s :: s in seen <==> SeenBefore(pages, k, s)
    ensures IsNews(answer, pages, k)
  {
    var indices := UnseenMeaning(answer, seen);
  }

  /** Whatever the node answers, the walk submits the news of each answer and stops for the stated reasons only. */
  lemma WalkMeaning(rpc: Rpc, now: int, universe: set<Signature>)
    requires Within(rpc, universe)
    ensures IsWalk(rpc, now, Walk(rpc, now, 0, None, {}, universe), 0)
  {
    WalkMeaningFrom(rpc, now, [], {}, universe);
    assert [] + Walk(rpc, now, 0, None, {}, universe) == Walk(rpc, now, 0, None, {}, universe);
  }

  lemma {:induction false} WalkMeaningFrom(rpc: Rpc, now: int, before: seq<seq<Signature>>, seen: set<Signature>,
                                           universe: set<Signature>)
    requires Within(rpc, universe) && seen <= universe
    requires forall s :: s in seen <==> SeenBefore(before, |before|, s)
    ensures var rest := Walk(rpc, now, |before|, Cursor(rpc, |before|), seen, universe);
      IsWalk(rpc, now, before + rest, |before|)
    decreases universe - seen
  {
    hide Walk, Within, Unseen, IsNews;
    var k, cursor := |before|, Cursor(rpc, |before|);
    var a := rpc(k, cursor);
    if a.None? || a.value == [] || TooOld(a.value, now) || Unseen(a.value, seen) == [] {
      WalkStops(rpc, now, k, cursor, seen, universe);
      assert before + [] == before;
      NoNews(rpc, now, before, seen);
    } else {
      WalkGoes(rpc, now, k, cursor, seen, universe);
      var page, news := a.value, Unseen(a.value, seen);
      var next := before + [news];
      SeenWithNews(before, news, seen);
      var rest: seq<seq<Signature>> := [];
      if |page| >= LIMIT {
        WalkMeaningFrom(rpc, now, next, seen + ToSet(news), universe);
        rest := Walk(rpc, now, k + 1, Some(page[|page| - 1].signature), seen + ToSet(news), universe);
      }
      assert before + ([news] + rest) == next + rest;
      hide SeenBefore;
      FirstPage(rpc, now, before, news, rest, seen);
    }
  }

  /** A page, and the walk after it, make a walk. */
  lemma FirstPage(rpc: Rpc, now: int, before: seq<seq<Signature>>, news: seq<Signature>, rest: seq<seq<Signature>>,
                  seen: set<Signature>)
    requires forall s :: s in seen <==> SeenBefore(before, |before|, s)
    requires var a := AnswerTo(rpc, |before|);
      && a.Some? && a.value != [] && !TooOld(a.value, now) && news == Unseen(a.value, seen) != []
      && (if |a.value| < LIMIT then rest == [] else IsWalk(rpc, now, before + [news] + rest, |before| + 1))
    ensures IsWalk(rpc, now, before + [news] + rest, |before|)
  {
    hide Unseen, IsNews, Cursor;
    var pages, k := before + [news] + rest, |before|;
    SameBefore(before, pages, k);
    IsNewsUnseen(AnswerTo(rpc, k).value, pages, k, seen);
    hide SeenBefore;
    assert Goes(rpc, now, pages, k);
  }

  lemma NoNews(rpc: Rpc, now: int, pages: seq<seq<Signature>>, seen: set<Signature>)
    requires forall s :: s in seen <==> SeenBefore(pages, |pages|, s)
    requires var a := AnswerTo(rpc, |pages|);
      a.None? || a.value == [] || TooOld(a.value, now) || Unseen(a.value, seen) == []
    ensures Stops(rpc, now, pages, |pages|)
  {
  }

  lemma SameBefore(before: seq<seq<Signature>>, pages: seq<seq<Signature>>, k: nat)
    requires before <= pages && k <= |before|
    ensures forall s :: SeenBefore(before, k, s) <==> SeenBefore(pages, k, s)
  {
    assert forall i :: 0 <= i < |before| ==> before[i] == pages[i];
  }

  lemma SeenWithNews(before: seq<seq<Signature>>, news: seq<Signature>, seen: set<Signature>)
    requires forall s :: s in seen <==> SeenBefore(before, |before|, s)
    ensures forall s :: s in seen + ToSet(news) <==> SeenBefore(before + [news], |before| + 1, s)
  {
    var next := before + [news];
    assert next[|before|] == news && forall i :: 0 <= i < |before| ==> next[i] == before[i];
    forall s | SeenBefore(before, |before|, s)
      ensures SeenBefore(next, |next|, s)
    {
      var i :| 0 <= i < |before| && s in before[i];
      assert s in next[i];
    }
    assert forall s :: s in news ==> s in next[|before|];
  }

  // ---------------------------------------------------------------- pages do not overlap

  /** Non-empty pages of signatures from `pool`, no two of which share one. */
  ghost predicate Disjoint(pages: seq<seq<Signature>>, pool: set<Signature>) {
    && (forall i, s :: 0 <= i < |pages| && s in pages[i] ==> s in pool)
    && (forall i, j, s :: 0 <= i < j < |pages| && s in pages[i] ==> s !in pages[j])
    && (forall i :: 0 <= i < |pages| ==> pages[i] != [])
    && |pages| <= |pool|
  }

  lemma OneMorePage(news: seq<Signature>, rest: seq<seq<Signature>>, pool: set<Signature>)
    requires news != [] && (forall s :: s in news ==> s in pool) && Disjoint(rest, pool - ToSet(news))
    ensures Disjoint([news] + rest, pool)
  {
    var pages := [news] + rest;
    assert forall i :: 1 <= i < |pages| ==> pages[i] == rest[i - 1];
    assert forall s :: s in news <==> s in ToSet(news);
    assert news[0] in ToSet(news);
    assert pool == (pool - ToSet(news)) + ToSet(news);
    assert |pool| == |pool - ToSet(news)| + |ToSet(news)|;
  }

  /** No signature is submitted in two pages, no page is empty, and only known signatures occur; so
      there are never more pages than signatures. */
  lemma {:induction false} PagesDisjoint(rpc: Rpc, now: int, k: nat, before: Option<Signature>, seen: set<Signature>,
                                         universe: set<Signature>)
    requires Within(rpc, universe) && seen <= universe
    ensures Disjoint(Walk(rpc, now, k, before, seen, universe), universe - seen)
    decreases universe - seen
  {
    hide Walk, Within, Unseen;
    var a := rpc(k, before);
    if a.None? || a.value == [] || TooOld(a.value, now) || Unseen(a.value, seen) == [] {
      WalkStops(rpc, now, k, before, seen, universe);
    } else {
      WalkGoes(rpc, now, k, before, seen, universe);
      var page := a.value;
      var news := Unseen(page, seen);
      var seen' := seen + ToSet(news);
      assert universe - seen' == universe - seen - ToSet(news);
      var rest: seq<seq<Signature>> := [];
      if |page| >= LIMIT {
        PagesDisjoint(rpc, now, k + 1, Some(page[|page| - 1].signature), seen', universe);
        rest := Walk(rpc, now, k + 1, Some(page[|page| - 1].signature), seen', universe);
      }
      OneMorePage(news, rest, universe - seen);
    }
  }

  // ---------------------------------------------------------------- against a finite history

  function Signatures(h: seq<SigInfo>): seq<Signature> {
    seq(|h|, i requires 0 <= i < |h| => h[i].signature)
  }

  /** The node serves the newest-first history `h`, fifty entries at a time after the cursor. */
  ghost predicate Serves(rpc: Rpc, h: seq<SigInfo>) {
    && Distinct(Signatures(h))
    && (forall k :: rpc(k, None) == Some(h[..Min(LIMIT, |h|)]))
    && (forall k, i {:trigger rpc(k, Some(h[i].signature))} :: 0 <= i < |h| ==>
          rpc(k, Some(h[i].signature)) == Some(h[i + 1..Min(i + 1 + LIMIT, |h|)]))
  }

  /** Every block time is present, and they never increase. */
  ghost predicate Timed(h: seq<SigInfo>) {
    && (forall i :: 0 <= i < |h| ==> h[i].blockTime.Some?)
    && (forall i, j :: 0 <= i < j < |h| ==> h[i].blockTime.value >= h[j].blockTime.value)
  }

  predicate InAge(info: SigInfo, now: int)
    requires info.blockTime.Some?
  {
    now - info.blockTime.value <= MAX_AGE_SECS
  }

  /** Of a timed history exactly the first `CutOff` entries are in age. */
  function CutOff(h: seq<SigInfo>, now: int): (cut: nat)
    requires Timed(h)
    ensures cut <= |h| && forall i :: 0 <= i < |h| ==> (InAge(h[i], now) <==> i < cut)
  {
    if h == [] then 0
    else
      var init := h[..|h| - 1];
      assert forall i :: 0 <= i < |init| ==> init[i] == h[i];
      if InAge(h[|h| - 1], now) then |h| else CutOff(init, now)
  }

  /** How many entries are processed: all of them if all are in age, else whole pages only. */
  function Stop(h: seq<SigInfo>, now: int): nat
    requires Timed(h)
  {
    var cut := CutOff(h, now);
    if cut == |h| then |h| else cut - cut % LIMIT
  }

  function Page(h: seq<SigInfo>, from: nat): seq<SigInfo>
    requires from <= |h|
  {
    h[from..Min(from + LIMIT, |h|)]
  }

  /** The pages of fifty of `h` from `from` on. */
  function PagesOf(h: seq<SigInfo>, from: nat): seq<seq<Signature>>
    decreases |h| - from
  {
    if from >= |h| then [] else [Signatures(Page(h, from))] + PagesOf(h, from + LIMIT)
  }

  lemma FreshPage(h: seq<SigInfo>, from: nat, to: nat, seen: set<Signature>)
    requires Distinct(Signatures(h)) && from <= to <= |h|
    requires seen == ToSet(Signatures(h[..from]))
    ensures Unseen(h[from..to], seen) == Signatures(h[from..to])
    ensures ToSet(Signatures(h[..to])) == seen + ToSet(Signatures(h[from..to]))
  {
    hide Unseen;
    forall i, j | 0 <= j < from <= i < to
      ensures h[j].signature != h[i].signature
    {
      assert Signatures(h)[j] != Signatures(h)[i];
    }
    AllFresh(h[from..to], seen);
    assert h[..to] == h[..from] + h[from..to];
    assert Signatures(h[..to]) == Signatures(h[..from]) + Signatures(h[from..to]);
  }

  lemma {:induction false} AllFresh(page: seq<SigInfo>, seen: set<Signature>)
    requires forall i :: 0 <= i < |page| ==> page[i].signature !in seen
    ensures Unseen(page, seen) == Signatures(page)
  {
    if page != [] {
      AllFresh(page[1..], seen);
      assert Signatures(page) == [page[0].signature] + Signatures(page[1..]);
    }
  }

  /** How many entries are processed: those before the first page, counted from `from`, that ends too old. */
  function StopAt(h: seq<SigInfo>, now: int, from: nat): (stop: nat)
    requires from <= |h|
    ensures from <= stop <= |h|
    decreases |h| - from
  {
    if from == |h| then |h|
    else if TooOld(Page(h, from), now) then from
    else if |h| - from < LIMIT then |h|
    else StopAt(h, now, from + LIMIT)
  }

  /** The k-th page exists, and its last entry is too old or has no time. */
  ghost predicate EndsTooOld(h: seq<SigInfo>, now: int, k: nat) {
    LIMIT * k < |h| && TooOld(Page(h, LIMIT * k), now)
  }

  /** The walk stops before the first page that ends too old; if there is none, at the end. */
  lemma StopMeaning(h: seq<SigInfo>, now: int)
    ensures forall n: nat :: EndsTooOld(h, now, n) && (forall k: nat :: k < n ==> !EndsTooOld(h, now, k)) ==>
              StopAt(h, now, 0) == LIMIT * n
    ensures (forall k: nat :: !EndsTooOld(h, now, k)) ==> StopAt(h, now, 0) == |h|
  {
    forall n: nat | EndsTooOld(h, now, n) && (forall k: nat :: k < n ==> !EndsTooOld(h, now, k))
      ensures StopAt(h, now, 0) == LIMIT * n
    {
      StopsAtPage(h, now, 0, n);
    }
    if forall k: nat :: !EndsTooOld(h, now, k) {
      StopsAtEnd(h, now, 0);
    }
  }

  lemma {:induction false} StopsAtPage(h: seq<SigInfo>, now: int, from: nat, n: nat)
    requires from <= n && EndsTooOld(h, now, n) && (forall k: nat :: k < n ==> !EndsTooOld(h, now, k))
    ensures StopAt(h, now, LIMIT * from) == LIMIT * n
    decreases n - from
  {
    hide TooOld;
    if from < n {
      assert !EndsTooOld(h, now, from);
      StopsAtPage(h, now, from + 1, n);
    }
  }

  lemma {:induction false} StopsAtEnd(h: seq<SigInfo>, now: int, from: nat)
    requires LIMIT * from <= |h| && forall k: nat :: !EndsTooOld(h, now, k)
    ensures StopAt(h, now, LIMIT * from) == |h|
    decreases |h| - LIMIT * from
  {
    hide TooOld;
    if LIMIT * from < |h| {
      assert !EndsTooOld(h, now, from);
      if |h| - LIMIT * from >= LIMIT {
        StopsAtEnd(h, now, from + 1);
      }
    }
  }

  /** From a page boundary on, the walk submits exactly the pages up to the stop. */
  lemma {:induction false} WalkFrom(rpc: Rpc, h: seq<SigInfo>, now: int, k: nat, from: nat, before: Option<Signature>,
                                    seen: set<Signature>, universe: set<Signature>)
    requires Within(rpc, universe) && Serves(rpc, h) && seen <= universe
    requires from <= |h| && seen == ToSet(Signatures(h[..from]))
    requires before == if from == 0 then None else Some(h[from - 1].signature)
    ensures Walk(rpc, now, k, before, seen, universe) == PagesOf(h[..StopAt(h, now, from)], from)
    decreases |h| - from
  {
    hide Walk, Within, Unseen;
    var stop := StopAt(h, now, from);
    var to := Min(from + LIMIT, |h|);
    var page := h[from..to];
    assert rpc(k, before) == Some(page);
    if from == |h| || TooOld(page, now) {
      WalkStops(rpc, now, k, before, seen, universe);
    } else {
      FreshPage(h, from, to, seen);
      assert Signatures(page)[0] == h[from].signature;
      assert Page(h[..stop], from) == page;
      WalkGoes(rpc, now, k, before, seen, universe);
      if |page| == LIMIT {
        WalkFrom(rpc, h, now, k + 1, to, Some(h[to - 1].signature), seen + ToSet(Unseen(page, seen)), universe);
      } else {
        assert PagesOf(h[..stop], from + LIMIT) == [];
      }
    }
  }

  /** Against any finite newest-first history, the walk submits the whole pages before the first one whose last
      entry is too old or has no time. */
  lemma WalkSubmitsPrefix(rpc: Rpc, h: seq<SigInfo>, now: int, universe: set<Signature>)
    requires Within(rpc, universe) && Serves(rpc, h)
    ensures Walk(rpc, now, 0, None, {}, universe) == PagesOf(h[..StopAt(h, now, 0)], 0)
    ensures Flatten(Walk(rpc, now, 0, None, {}, universe)) == Signatures(h[..StopAt(h, now, 0)])
  {
    assert h[..0] == [] && Signatures([]) == [];
    WalkFrom(rpc, h, now, 0, 0, None, {}, universe);
    var done := h[..StopAt(h, now, 0)];
    FlattenPages(done, 0);
    assert done[0..] == done;
  }

  /** If all times are known, what is submitted is all in age, and at most 49 in-age entries are left out. */
  lemma TimedStop(h: seq<SigInfo>, now: int)
    requires Timed(h)
    ensures StopAt(h, now, 0) == Stop(h, now)
    ensures Stop(h, now) <= CutOff(h, now) <= Stop(h, now) + 49
  {
    hide StopAt, CutOff, Page, TooOld, Timed;
    var cut, n := CutOff(h, now), CutOff(h, now) / LIMIT;
    forall k: nat
      ensures EndsTooOld(h, now, k) <==> LIMIT * k < |h| && Min(LIMIT * k + LIMIT, |h|) > cut
    {
      if LIMIT * k < |h| {
        TimedPage(h, now, LIMIT * k);
      }
    }
    hide EndsTooOld;
    if cut < |h| {
      StopsAtPage(h, now, 0, n);
    } else {
      StopsAtEnd(h, now, 0);
    }
  }

  /** A page of a timed history ends too old exactly when it passes the cut. */
  lemma TimedPage(h: seq<SigInfo>, now: int, at: nat)
    requires Timed(h) && at < |h|
    ensures TooOld(Page(h, at), now) <==> Min(at + LIMIT, |h|) > CutOff(h, now)
  {
    assert Page(h, at)[|Page(h, at)| - 1] == h[Min(at + LIMIT, |h|) - 1];
  }

  /** An entry without a time that ends the first page ends the walk, however many entries are in age. */
  lemma MissingTimeStops(rpc: Rpc, h: seq<SigInfo>, now: int, universe: set<Signature>)
    requires Within(rpc, universe) && Serves(rpc, h)
    requires |h| >= LIMIT && h[LIMIT - 1].blockTime.None? && now > MAX_AGE_SECS
    ensures Walk(rpc, now, 0, None, {}, universe) == []
  {
    assert Page(h, 0)[LIMIT - 1] == h[LIMIT - 1];
    hide Walk, Within, Serves, PagesOf;
    assert EndsTooOld(h, now, 0) && StopAt(h, now, 0) == 0;
    WalkSubmitsPrefix(rpc, h, now, universe);
    hide *;
    assert h[..0] == [];
    NoPages();
  }

  lemma NoPages()
    ensures PagesOf([], 0) == []
  {
  }

  lemma {:induction false} FlattenPages(h: seq<SigInfo>, from: nat)
    ensures Flatten(PagesOf(h, from)) == if from <= |h| then Signatures(h[from..]) else []
    decreases |h| - from
  {
    if from < |h| {
      var to := Min(from + LIMIT, |h|);
      FlattenPages(h, from + LIMIT);
      assert h[from..] == Page(h, from) + h[to..];
      assert Signatures(h[from..]) == Signatures(Page(h, from)) + Signatures(h[to..]);
      if from + LIMIT > |h| {
        assert h[to..] == [];
      }
    }
  }

  /** Every in-age entry is submitted exactly when all entries are in age, or their number is a multiple
      of the page size. */
  lemma AllInAgeSubmitted(rpc: Rpc, h: seq<SigInfo>, now: int, universe: set<Signature>)
    requires Within(rpc, universe) && Serves(rpc, h) && Timed(h)
    ensures (forall i :: 0 <= i < |h| && now - h[i].blockTime.value <= 7_776_000 ==>
               h[i].signature in Flatten(Walk(rpc, now, 0, None, {}, universe)))
       <==> CutOff(h, now) == |h| || CutOff(h, now) % LIMIT == 0
  {
    WalkSubmitsPrefix(rpc, h, now, universe);
    TimedStop(h, now);
    var cut, stop := CutOff(h, now), Stop(h, now);
    var done := Signatures(h[..stop]);
    if stop < cut {
      forall j | 0 <= j < stop
        ensures done[j] != h[stop].signature
      {
        assert Signatures(h)[j] != Signatures(h)[stop];
      }
      assert InAge(h[stop], now);
    } else {
      forall i | 0 <= i < |h| && InAge(h[i], now)
        ensures h[i].signature in done
      {
        assert done[i] == h[i].signature;
      }
    }
  }

  // ---------------------------------------------------------------- forty-nine entries left out

  /** The signature of the i-th sample entry. */
  function Name(i: nat): Signature {
    seq(i, _ => 'x')
  }

  /** Fifty entries, all of the same time but the last. */
  function Sample(): seq<SigInfo> {
    seq(50, i requires 0 <= i < 50 => SigInfo(Name(i), 0, Some(if i < 49 then 1 else 0)))
  }

  function Serving(h: seq<SigInfo>): Rpc {
    (k, before: Option<Signature>) =>
      var from := if before.None? then 0 else |before.value| + 1;
      Some(if from <= |h| then h[from..Min(from + LIMIT, |h|)] else [])
  }

  lemma SampleServed()
    ensures Serves(Serving(Sample()), Sample())
  {
    var h := Sample();
    forall i | 0 <= i < 50
      ensures |h[i].signature| == i && Signatures(h)[i] == h[i].signature
    {
    }
    forall i, j | 0 <= i < j < 50
      ensures Signatures(h)[i] != Signatures(h)[j]
    {
      assert |h[i].signature| != |h[j].signature|;
    }
  }

  lemma SampleCut()
    ensures Timed(Sample()) && CutOff(Sample(), MAX_AGE_SECS + 1) == 49
  {
    var h := Sample();
    hide CutOff;
    assert h[48].blockTime == Some(1) && h[49].blockTime == Some(0);
    assert InAge(h[48], MAX_AGE_SECS + 1) && !InAge(h[49], MAX_AGE_SECS + 1);
  }

  lemma ServedWithin(h: seq<SigInfo>)
    ensures Within(Serving(h), ToSet(Signatures(h)))
  {
    forall i | 0 <= i < |h|
      ensures h[i].signature in ToSet(Signatures(h))
    {
      assert Signatures(h)[i] == h[i].signature;
    }
  }

  /** The bound of 49 is attained: the last entry is a second too old, and nothing at all is submitted. */
  lemma FortyNineLeftOut()
    ensures var h, rpc, now := Sample(), Serving(Sample()), MAX_AGE_SECS + 1;
      var universe := ToSet(Signatures(h));
      && Within(rpc, universe) && Serves(rpc, h) && Timed(h) && CutOff(h, now) == 49
      && Walk(rpc, now, 0, None, {}, universe) == []
  {
    hide Within, Serves, Timed, CutOff, Walk, Serving, StopAt;
    var h, rpc, now := Sample(), Serving(Sample()), MAX_AGE_SECS + 1;
    var universe := ToSet(Signatures(h));
    SampleServed();
    SampleCut();
    ServedWithin(h);
    WalkSubmitsPrefix(rpc, h, now, universe);
    TimedStop(h, now);
    assert h[..0] == [];
  }
}
