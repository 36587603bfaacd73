/** Polling a range of slots for new transactions: the ten-slot sub-ranges, the filter, sort and dedup of
    each, and what the limit on an answer's length leaves out. */
module Polling {
  import opened Transactions
  import opened Batching
  import opened Submission
  import opened Sorting

  const U64: nat := 0x1_0000_0000_0000_0000

  const RANGE_SIZE: nat := 10

  /** An inclusive range of slots; empty when `high < low`. */
  datatype Slots = Slots(low: nat, high: nat) {
    predicate Has(slot: int) {
      low <= slot <= high
    }
  }

  // ---------------------------------------------------------------- sub-ranges

  /** `batch_start + range_size - 1` in wrapping 64-bit arithmetic, capped at `end`. */
  function RangeEnd(low: nat, end: nat): nat {
    var wrapped := (low + RANGE_SIZE + U64 - 1) % U64;
    if wrapped < end then wrapped else end
  }

  /** The sub-ranges the stepped loop visits, first to last. */
  function SubRanges(start: nat, end: nat): seq<Slots>
    requires start <= end
  {
    seq((end - start) / RANGE_SIZE + 1,
        (i: nat) => Slots(start + RANGE_SIZE * i, RangeEnd(start + RANGE_SIZE * i, end)))
  }

  /** The start of the last sub-range. */
  function LastStart(start: nat, end: nat): nat
    requires start <= end
  {
    start + (end - start) / RANGE_SIZE * RANGE_SIZE
  }

  ghost predicate Covered(ranges: seq<Slots>, slot: int) {
    exists i :: 0 <= i < |ranges| && ranges[i].Has(slot)
  }

  /** The ranges cut [start, end] into consecutive non-empty pieces of at most ten slots: each slot
      lies in the piece numbered by its distance from `start`, and in no other. */
  ghost predicate Partition(ranges: seq<Slots>, start: nat, end: nat) {
    && (forall slot {:trigger Covered(ranges, slot)} :: start <= slot <= end ==> Covered(ranges, slot))
    && (forall i, slot :: 0 <= i < |ranges| && ranges[i].Has(slot) ==> start <= slot <= end)
    && (forall i :: 0 <= i < |ranges| ==> 0 <= ranges[i].high - ranges[i].low < RANGE_SIZE)
    && (forall i :: 0 <= i < |ranges| - 1 ==> ranges[i + 1].low == ranges[i].high + 1)
  }

  /** Without a wrap, piece `i` runs from `start + 10 i` to just before the next piece, or to `end`. */
  lemma Pieces(start: nat, end: nat)
    requires start <= end && LastStart(start, end) + RANGE_SIZE <= U64 && end < U64
    ensures var ranges := SubRanges(start, end);
      && |ranges| == (end - start) / RANGE_SIZE + 1
      && forall i :: 0 <= i < |ranges| ==>
           ranges[i] == Slots(start + RANGE_SIZE * i, Min(start + RANGE_SIZE * i + RANGE_SIZE - 1, end))
  {
  }

  /** The loop partitions the slots exactly when computing the last piece's end does not wrap. */
  lemma SubRangesPartition(start: nat, end: nat)
    requires start <= end < U64
    ensures Partition(SubRanges(start, end), start, end) <==> LastStart(start, end) + RANGE_SIZE <= U64
  {
    var ranges, last := SubRanges(start, end), (end - start) / RANGE_SIZE;
    if LastStart(start, end) + RANGE_SIZE <= U64 {
      Pieces(start, end);
      forall slot {:trigger Covered(ranges, slot)} | start <= slot <= end
        ensures Covered(ranges, slot)
      {
        assert ranges[(slot - start) / RANGE_SIZE].Has(slot);
      }
    } else {
      assert ranges[last].high < ranges[last].low;
    }
  }

  /** At the top of the range of slots the wrapped end leaves the piece empty, and the slot is missed. */
  lemma SubRangesCanMiss()
    ensures SubRanges(U64 - 1, U64 - 1) == [Slots(U64 - 1, 8)] && !Slots(U64 - 1, 8).Has(U64 - 1)
  {
  }

  // ---------------------------------------------------------------- polling one range of slots

  /** The answer for an address while the k-th sub-range is polled; `None` is a failed call. */
  type Rpc = (nat, Address) -> Option<seq<SigInfo>>

  ghost function Found(rpc: Rpc, k: nat, tracked: set<Address>, slots: Slots): set<Signature> {
    set a, info | a in tracked && rpc(k, a).Some? && info in rpc(k, a).value && slots.Has(info.slot) ::
      info.signature
  }

  /** What is submitted for the sub-ranges: one list for each that found something, in order, with
      every signature found there, sorted and without repetition. */
  ghost predicate Submits(rpc: Rpc, tracked: set<Address>, ranges: seq<Slots>, lists: seq<seq<Signature>>) {
    if ranges == [] then lists == []
    else
      var k := |ranges| - 1;
      var found := Found(rpc, k, tracked, ranges[k]);
      if found == {} then Submits(rpc, tracked, ranges[..k], lists)
      else && lists != []
           && Submits(rpc, tracked, ranges[..k], lists[..|lists| - 1])
           && Sorted(lists[|lists| - 1]) && Distinct(lists[|lists| - 1]) && ToSet(lists[|lists| - 1]) == found
  }

  function FilterBySlot(infos: seq<SigInfo>, slots: Slots): (signatures: seq<Signature>)
    ensures forall s :: s in signatures <==>
              exists info :: info in infos && slots.Has(info.slot) && info.signature == s
  {
    if infos == [] then []
    else
      assert forall info :: info in infos <==> info == infos[0] || info in infos[1..];
      (if slots.Has(infos[0].slot) then [infos[0].signature] else []) + FilterBySlot(infos[1..], slots)
  }

  /** One sub-range: ask for every tracked address, filter, sort, dedup. */
  method PollSubRange(rpc: Rpc, k: nat, tracked: set<Address>, slots: Slots) returns (all: seq<Signature>)
    ensures Sorted(all) && Distinct(all) && ToSet(all) == Found(rpc, k, tracked, slots)
    ensures forall s :: s in all <==>
      exists a, info ::
        && a in tracked && rpc(k, a).Some? && info in rpc(k, a).value
        && slots.low <= info.slot <= slots.high && info.signature == s
  {
    all := [];
    var todo := tracked;
    while todo != {}
      invariant todo <= tracked
      invariant ToSet(all) == Found(rpc, k, tracked - todo, slots)
      decreases todo
    {
      var a :| a in todo;
      ghost var before, done := all, tracked - todo;
      var filtered: seq<Signature> := [];
      if rpc(k, a).Some? {
        filtered := FilterBySlot(rpc(k, a).value, slots);
      }
      all := all + filtered;
      todo := todo - {a};
      assert tracked - todo == done + {a};
      assert Found(rpc, k, done + {a}, slots) == Found(rpc, k, done, slots) + ToSet(filtered);
    }
    assert tracked - todo == tracked;
    SortSorted(all);
    DedupDistinct(Sort(all));
    all := Dedup(Sort(all));
    assert forall s :: s in all <==> s in ToSet(all);
  }

  /** The k-th sub-range found the signature: some call made for it succeeded and reported it there, whatever became
      of the other calls. */
  ghost predicate FoundAt(rpc: Rpc, tracked: set<Address>, ranges: seq<Slots>, k: nat, s: Signature) {
    && k < |ranges|
    && exists a, info ::
         && a in tracked && rpc(k, a).Some? && info in rpc(k, a).value
         && ranges[k].low <= info.slot <= ranges[k].high && info.signature == s
  }

  /** What the lists are, without saying how they come about: they belong to the sub-ranges that found something, in
      order, and each holds what its sub-range found, sorted and once. */
  ghost predicate ListsFor(rpc: Rpc, tracked: set<Address>, ranges: seq<Slots>, pieces: seq<nat>,
                           lists: seq<seq<Signature>>)
  {
    && |lists| == |pieces|
    && (forall x, y :: 0 <= x < y < |pieces| ==> pieces[x] < pieces[y])
    && (forall k :: k in pieces <==> 0 <= k && exists s :: FoundAt(rpc, tracked, ranges, k, s))
    && (forall x :: 0 <= x < |lists| ==> Sorted(lists[x]) && Distinct(lists[x]))
    && (forall x, s :: 0 <= x < |lists| ==> (s in lists[x] <==> FoundAt(rpc, tracked, ranges, pieces[x], s)))
  }

  lemma FoundAtLast(rpc: Rpc, tracked: set<Address>, init: seq<Slots>, last: Slots)
    ensures forall j: nat, s :: FoundAt(rpc, tracked, init + [last], j, s) <==>
              if j == |init| then s in Found(rpc, j, tracked, last) else FoundAt(rpc, tracked, init, j, s)
    ensures forall j: nat, s :: FoundAt(rpc, tracked, init, j, s) ==> j < |init|
  {
  }

  lemma OneMorePiece(rpc: Rpc, tracked: set<Address>, init: seq<Slots>, last: Slots, pieces: seq<nat>,
                     lists: seq<seq<Signature>>, list: seq<Signature>)
    requires ListsFor(rpc, tracked, init, pieces, lists) && list != []
    requires Sorted(list) && Distinct(list) && ToSet(list) == Found(rpc, |init|, tracked, last)
    ensures ListsFor(rpc, tracked, init + [last], pieces + [|init|], lists + [list])
  {
    FoundAtLast(rpc, tracked, init, last);
    hide FoundAt, Found, Sorted, Distinct;
    var ranges, longer := init + [last], pieces + [|init|];
    assert forall s :: s in list <==> s in ToSet(list);
    assert list[0] in list && FoundAt(rpc, tracked, ranges, |init|, list[0]);
    forall x | 0 <= x < |pieces|
      ensures pieces[x] < |init|
    {
      assert pieces[x] in pieces;
    }
    assert forall j :: j in longer <==> j in pieces || j == |init|;
  }

  lemma {:induction false} SubmitsMeaning(rpc: Rpc, tracked: set<Address>, ranges: seq<Slots>,
                                          lists: seq<seq<Signature>>) returns (pieces: seq<nat>)
    requires Submits(rpc, tracked, ranges, lists)
    ensures ListsFor(rpc, tracked, ranges, pieces, lists)
    decreases |ranges|
  {
    if ranges == [] {
      pieces := [];
    } else {
      var k := |ranges| - 1;
      var init, found := ranges[..k], Found(rpc, k, tracked, ranges[k]);
      assert ranges == init + [ranges[k]];
      hide FoundAt, Found;
      if found == {} {
        pieces := SubmitsMeaning(rpc, tracked, init, lists);
        FoundAtLast(rpc, tracked, init, ranges[k]);
      } else {
        var n := |lists| - 1;
        pieces := SubmitsMeaning(rpc, tracked, init, lists[..n]);
        assert lists == lists[..n] + [lists[n]];
        hide ListsFor;
        OneMorePiece(rpc, tracked, init, ranges[k], pieces, lists[..n], lists[n]);
        pieces := pieces + [k];
      }
    }
  }

  lemma SubmitsStep(rpc: Rpc, tracked: set<Address>, ranges: seq<Slots>, slots: Slots,
                    lists: seq<seq<Signature>>, all: seq<Signature>)
    requires Submits(rpc, tracked, ranges, lists)
    requires Sorted(all) && Distinct(all) && ToSet(all) == Found(rpc, |ranges|, tracked, slots)
    ensures Submits(rpc, tracked, ranges + [slots], if all == [] then lists else lists + [all])
  {
    assert (ranges + [slots])[..|ranges|] == ranges;
    if all == [] {
      assert ToSet(all) == {};
    } else {
      assert all[0] in ToSet(all);
      assert (lists + [all])[..|lists|] == lists;
    }
  }

  /** One round of the loop: poll a sub-range and submit what it found, if anything. `base` is what the
      manager had been given before the first round. */
  method PollRound(rpc: Rpc, fetch: Fetcher, tracked: set<Address>, ghost ranges: seq<Slots>, k: nat, slots: Slots,
                   lists: seq<seq<Signature>>, total: nat, clock: nat -> nat, manager: BatchManager,
                   ghost base: seq<Transaction>)
    returns (lists': seq<seq<Signature>>, total': nat)
    requires manager.Valid() && Submits(rpc, tracked, ranges, lists) && k == |ranges|
    requires manager.added == base + ExtractedAll(fetch, lists) && total == |ExtractedAll(fetch, lists)|
    modifies manager
    ensures manager.Valid() && Submits(rpc, tracked, ranges + [slots], lists')
    ensures manager.added == base + ExtractedAll(fetch, lists') && total' == |ExtractedAll(fetch, lists')|
  {
    hide *;
    var all := PollSubRange(rpc, k, tracked, slots);
    SubmitsStep(rpc, tracked, ranges, slots, lists, all);
    if all == [] {
      lists', total' := lists, total;
    } else {
      ExtractedAllAppend(fetch, lists, all);
      var count := ProcessTransactionSignatures(fetch, |lists|, all, clock, manager);
      lists', total' := lists + [all], total + count;
    }
  }

  /** What polling submits: nothing when the addresses cannot be read (`None`) or there are none. Either way
      the round counts as done, like one in which every call failed. */
  ghost predicate Polled(rpc: Rpc, tracked: Option<set<Address>>, start: nat, end: nat, lists: seq<seq<Signature>>)
    requires start <= end
  {
    if tracked.None? || tracked.value == {} then lists == []
    else Submits(rpc, tracked.value, SubRanges(start, end), lists)
  }

  lemma NothingFor(rpc: Rpc, ranges: seq<Slots>)
    ensures ListsFor(rpc, {}, ranges, [], [])
  {
  }

  /** The sub-range of the k-th round, and how many there are. */
  lemma RangeAt(start: nat, end: nat, k: nat)
    requires start <= end
    ensures RANGE_SIZE > 0 && (k < |SubRanges(start, end)| <==> start + RANGE_SIZE * k <= end)
    ensures k < |SubRanges(start, end)| ==>
      var low := start + RANGE_SIZE * k;
      SubRanges(start, end)[..k + 1] == SubRanges(start, end)[..k] + [Slots(low, RangeEnd(low, end))]
  {
  }

  lemma PollDone(rpc: Rpc, read: Option<set<Address>>, start: nat, end: nat, lists: seq<seq<Signature>>)
    requires start <= end
    requires if read.None? || read.value == {} then lists == []
             else Submits(rpc, read.value, SubRanges(start, end), lists)
    ensures Polled(rpc, read, start, end, lists)
    ensures read.Some? ==> exists pieces :: ListsFor(rpc, read.value, SubRanges(start, end), pieces, lists)
  {
    hide Submits, SubRanges, ListsFor;
    if read.Some? && read.value == {} {
      NothingFor(rpc, SubRanges(start, end));
    } else if read.Some? {
      var pieces := SubmitsMeaning(rpc, read.value, SubRanges(start, end), lists);
    }
  }

  lemma NoRounds(rpc: Rpc, tracked: set<Address>)
    ensures Submits(rpc, tracked, [], [])
  {
  }

  method PollNewTransactions(rpc: Rpc, fetch: Fetcher, read: Option<set<Address>>, start: nat, end: nat,
                             clock: nat -> nat, manager: BatchManager)
    returns (total: nat, lists: seq<seq<Signature>>)
    requires start <= end < U64 && manager.Valid()
    modifies manager
    ensures manager.Valid()
    ensures Polled(rpc, read, start, end, lists)
    ensures read.None? ==> lists == []
    ensures read.Some? ==> exists pieces :: ListsFor(rpc, read.value, SubRanges(start, end), pieces, lists)
    ensures manager.added == old(manager.added) + ExtractedAll(fetch, lists)
    ensures total == |ExtractedAll(fetch, lists)|
    ensures forall i, s :: 0 <= i < |lists| && s in lists[i] && fetch(i, s).Some? ==> fetch(i, s).value in manager.added
    ensures |manager.added| == |old(manager.added)| + total
  {
    hide *;
    NothingExtracted(fetch);
    total, lists := 0, [];
    if read.None? || read.value == {} {
      PollDone(rpc, read, start, end, lists);
      return;
    }
    var tracked := read.value;
    var low, k := start, 0;
    ghost var ranges := SubRanges(start, end);
    NoRounds(rpc, tracked);
    RangeAt(start, end, 0);
    assert ranges[..0] == [];
    while low <= end
      invariant manager.Valid()
      invariant low == start + RANGE_SIZE * k && k <= |ranges|
      invariant Submits(rpc, tracked, ranges[..k], lists)
      invariant manager.added == old(manager.added) + ExtractedAll(fetch, lists)
      invariant total == |ExtractedAll(fetch, lists)|
      decreases end + RANGE_SIZE - low
    {
      var slots := Slots(low, RangeEnd(low, end));
      lists, total := PollRound(rpc, fetch, tracked, ranges[..k], k, slots, lists, total, clock, manager,
                                old(manager.added));
      RangeAt(start, end, k);
      low, k := low + RANGE_SIZE, k + 1;
    }
    RangeAt(start, end, k);
    assert ranges[..k] == ranges;
    PollDone(rpc, read, start, end, lists);
    HandedOver(fetch, lists, old(manager.added), manager.added);
  }

  // ---------------------------------------------------------------- one fixed oracle

  /** The node answers each address alike whenever it is asked. */
  ghost predicate Fixed(rpc: Rpc) {
    forall k, a :: rpc(k, a) == rpc(0, a)
  }

  /** A signature is reported under one slot, whichever address it is found for. */
  ghost predicate OneSlot(rpc: Rpc, tracked: set<Address>) {
    forall a, b, x, y ::
      a in tracked && b in tracked && rpc(0, a).Some? && rpc(0, b).Some?
      && x in rpc(0, a).value && y in rpc(0, b).value && x.signature == y.signature
      ==> x.slot == y.slot
  }

  ghost predicate FoundIn(rpc: Rpc, tracked: set<Address>, ranges: seq<Slots>, s: Signature) {
    exists i :: 0 <= i < |ranges| && s in Found(rpc, 0, tracked, ranges[i])
  }

  lemma FoundInLast(rpc: Rpc, tracked: set<Address>, init: seq<Slots>, last: Slots, s: Signature)
    ensures FoundIn(rpc, tracked, init + [last], s)
       <==> FoundIn(rpc, tracked, init, s) || s in Found(rpc, 0, tracked, last)
  {
    var ranges := init + [last];
    assert ranges[|init|] == last && forall i :: 0 <= i < |init| ==> ranges[i] == init[i];
  }

  ghost predicate Apart(ranges: seq<Slots>) {
    forall i, j, slot :: 0 <= i < j < |ranges| && ranges[i].Has(slot) ==> !ranges[j].Has(slot)
  }

  lemma FoundOnce(rpc: Rpc, tracked: set<Address>, init: seq<Slots>, last: Slots, s: Signature)
    requires OneSlot(rpc, tracked) && Apart(init + [last]) && FoundIn(rpc, tracked, init, s)
    ensures s !in Found(rpc, 0, tracked, last)
  {
    var i :| 0 <= i < |init| && s in Found(rpc, 0, tracked, init[i]);
    assert (init + [last])[i] == init[i] && (init + [last])[|init|] == last;
  }

  lemma {:induction false} SubmitsOnce(rpc: Rpc, tracked: set<Address>, ranges: seq<Slots>, lists: seq<seq<Signature>>)
    requires Fixed(rpc) && OneSlot(rpc, tracked) && Apart(ranges) && Submits(rpc, tracked, ranges, lists)
    ensures Distinct(Flatten(lists))
    ensures forall s :: s in Flatten(lists) <==> FoundIn(rpc, tracked, ranges, s)
    decreases |ranges|
  {
    if ranges != [] {
      var k := |ranges| - 1;
      var init := ranges[..k];
      var found := Found(rpc, 0, tracked, ranges[k]);
      assert ranges == init + [ranges[k]] && found == Found(rpc, k, tracked, ranges[k]);
      forall s
        ensures FoundIn(rpc, tracked, ranges, s) <==> FoundIn(rpc, tracked, init, s) || s in found
      {
        FoundInLast(rpc, tracked, init, ranges[k], s);
      }
      if found == {} {
        SubmitsOnce(rpc, tracked, init, lists);
      } else {
        var first, last := lists[..|lists| - 1], lists[|lists| - 1];
        SubmitsOnce(rpc, tracked, init, first);
        assert lists == first + [last];
        FlattenAppend(first, [last]);
        assert Flatten([last]) == last;
        assert forall s :: s in last <==> s in ToSet(last);
        forall s | s in Flatten(first)
          ensures s !in last
        {
          FoundOnce(rpc, tracked, init, ranges[k], s);
        }
        DistinctAppend(Flatten(first), last);
      }
    }
  }

  lemma DistinctAppend<T>(s: seq<T>, t: seq<T>)
    requires Distinct(s) && Distinct(t) && forall x :: x in s ==> x !in t
    ensures Distinct(s + t)
  {
    forall i, j | 0 <= i < j < |s + t|
      ensures (s + t)[i] != (s + t)[j]
    {
      if i < |s| <= j {
        assert s[i] !in t;
      }
    }
  }

  /** Cutting the slots into ten-slot pieces changes nothing: against one fixed oracle, every signature in
      [start, end] is submitted exactly once, and nothing else is. */
  lemma SubRangesRefineOneFilter(rpc: Rpc, tracked: set<Address>, start: nat, end: nat, lists: seq<seq<Signature>>)
    requires start <= end < U64 && LastStart(start, end) + RANGE_SIZE <= U64
    requires Fixed(rpc) && OneSlot(rpc, tracked)
    requires Submits(rpc, tracked, SubRanges(start, end), lists)
    ensures Distinct(Flatten(lists))
    ensures ToSet(Flatten(lists)) == Found(rpc, 0, tracked, Slots(start, end))
  {
    var ranges := SubRanges(start, end);
    Pieces(start, end);
    SubRangesPartition(start, end);
    SubmitsOnce(rpc, tracked, ranges, lists);
    forall s
      ensures s in Found(rpc, 0, tracked, Slots(start, end))
         <==> FoundIn(rpc, tracked, ranges, s)
    {
      if s in Found(rpc, 0, tracked, Slots(start, end)) {
        var a, info :| a in tracked && rpc(0, a).Some? && info in rpc(0, a).value
                    && Slots(start, end).Has(info.slot) && info.signature == s;
        assert Covered(ranges, info.slot);
        var i :| 0 <= i < |ranges| && ranges[i].Has(info.slot);
        assert s in Found(rpc, 0, tracked, ranges[i]);
      }
    }
  }

  // ---------------------------------------------------------------- the limit on an answer's length

  const NEWEST: nat := 100

  /** All of an address's entries, newest first. */
  ghost predicate NewestFirst(h: seq<SigInfo>) {
    forall i, j :: 0 <= i < j < |h| ==> h[i].slot >= h[j].slot
  }

  /** What a call that asks for the newest hundred entries is answered. */
  function Answer(h: seq<SigInfo>): seq<SigInfo> {
    h[..Min(NEWEST, |h|)]
  }

  /** How many entries are at or after the slot: they come first. */
  function Since(h: seq<SigInfo>, slot: nat): (n: nat)
    requires NewestFirst(h)
    ensures n <= |h| && forall i :: 0 <= i < |h| ==> (h[i].slot >= slot <==> i < n)
  {
    if h == [] then 0
    else
      var init := h[..|h| - 1];
      assert forall i :: 0 <= i < |init| ==> init[i] == h[i];
      if h[|h| - 1].slot >= slot then |h| else Since(init, slot)
  }

  /** The i-th entry is in the range, and too old for the answer. */
  ghost predicate CutOff(h: seq<SigInfo>, slots: Slots, i: nat)
    requires NewestFirst(h)
  {
    NEWEST <= i && Since(h, slots.high + 1) <= i < Since(h, slots.low)
  }

  /** At most a hundred entries are as new as the range's start, or none is in the range. */
  ghost predicate Reaches(h: seq<SigInfo>, slots: Slots)
    requires NewestFirst(h)
  {
    Since(h, slots.low) <= NEWEST || Since(h, slots.low) <= Since(h, slots.high + 1)
  }

  /** The answer holds every entry of the range. */
  ghost predicate Complete(h: seq<SigInfo>, slots: Slots) {
    forall i :: 0 <= i < |h| && slots.Has(h[i].slot) ==> h[i] in Answer(h)
  }

  predicate SameSignature(x: SigInfo, y: SigInfo) {
    x.signature == y.signature
  }

  ghost predicate NoRepeats(h: seq<SigInfo>) {
    forall i, j :: 0 <= i < j < |h| ==> !SameSignature(h[i], h[j])
  }

  /** The answer is complete for a range exactly when no more than a hundred entries are as new as its start,
      or none is in it. */
  lemma AnswerComplete(h: seq<SigInfo>, slots: Slots)
    requires NewestFirst(h) && NoRepeats(h)
    ensures Complete(h, slots) <==> Reaches(h, slots)
  {
    var n, newer := Since(h, slots.low), Since(h, slots.high + 1);
    if n > NEWEST && n > newer {
      assert slots.Has(h[n - 1].slot);
      forall j | 0 <= j < NEWEST
        ensures Answer(h)[j] != h[n - 1]
      {
        assert !SameSignature(h[j], h[n - 1]);
      }
    } else {
      forall i | 0 <= i < |h| && slots.Has(h[i].slot)
        ensures h[i] in Answer(h)
      {
        assert newer <= i < n <= NEWEST && Answer(h)[i] == h[i];
      }
    }
  }

  type Histories = Address -> seq<SigInfo>

  /** The node answers every call with the newest hundred entries of the address. */
  function Answering(histories: Histories): Rpc {
    (k, a) => Some(Answer(histories(a)))
  }

  ghost function InRange(histories: Histories, tracked: set<Address>, slots: Slots): set<Signature> {
    set a, info | a in tracked && info in histories(a) && slots.Has(info.slot) :: info.signature
  }

  /** Each history is newest first, and a signature has one slot, whichever of them it is in. */
  ghost predicate Ordered(histories: Histories, tracked: set<Address>) {
    && (forall a :: a in tracked ==> NewestFirst(histories(a)))
    && (forall a, b, x, y ::
          a in tracked && b in tracked && x in histories(a) && y in histories(b) && SameSignature(x, y) ==>
            x.slot == y.slot)
  }

  /** The answer for some tracked address shows the signature. */
  ghost predicate Shown(histories: Histories, tracked: set<Address>, s: Signature) {
    exists a, x :: a in tracked && x in Answer(histories(a)) && x.signature == s
  }

  /** The cursor moves on whatever an answer had no room for. A poll submits every signature in [start, end]
      exactly when each entry of the range that is too old for its address's answer is among the newest hundred of
      another tracked address, as a transfer between two of them can be. */
  lemma PollReaches(histories: Histories, tracked: set<Address>, start: nat, end: nat, lists: seq<seq<Signature>>)
    requires start <= end < U64 && LastStart(start, end) + RANGE_SIZE <= U64
    requires Ordered(histories, tracked)
    requires Submits(Answering(histories), tracked, SubRanges(start, end), lists)
    ensures ToSet(Flatten(lists)) <= InRange(histories, tracked, Slots(start, end))
    ensures InRange(histories, tracked, Slots(start, end)) == ToSet(Flatten(lists))
       <==> forall a, i :: a in tracked && 0 <= i && CutOff(histories(a), Slots(start, end), i) ==>
              Shown(histories, tracked, histories(a)[i].signature)
  {
    hide Submits, SubRanges, RangeEnd, Since;
    AnswersOneSlot(histories, tracked);
    SubRangesRefineOneFilter(Answering(histories), tracked, start, end, lists);
    FoundAll(histories, tracked, Slots(start, end));
  }

  lemma AnswersOneSlot(histories: Histories, tracked: set<Address>)
    requires Ordered(histories, tracked)
    ensures OneSlot(Answering(histories), tracked)
  {
    forall a, b, x, y |
      a in tracked && b in tracked && x in Answer(histories(a)) && y in Answer(histories(b)) && SameSignature(x, y)
      ensures x.slot == y.slot
    {
      assert x in histories(a) && y in histories(b);
    }
  }

  /** An entry of the range is found exactly when some answer shows its signature. */
  lemma EntryFound(histories: Histories, tracked: set<Address>, slots: Slots, a: Address, i: nat)
    requires Ordered(histories, tracked) && a in tracked && i < |histories(a)| && slots.Has(histories(a)[i].slot)
    ensures var s := histories(a)[i].signature;
      && s in InRange(histories, tracked, slots)
      && (s in Found(Answering(histories), 0, tracked, slots) <==> Shown(histories, tracked, s))
      && (i < NEWEST ==> Shown(histories, tracked, s))
  {
    var x := histories(a)[i];
    if i < NEWEST {
      assert Answer(histories(a))[i] == x;
    }
    if b, y :| b in tracked && y in Answer(histories(b)) && y.signature == x.signature {
      assert y in histories(b) && SameSignature(x, y);
      assert Answering(histories)(0, b) == Some(Answer(histories(b)));
    }
  }

  lemma InRangeMeaning(histories: Histories, tracked: set<Address>, slots: Slots, found: set<Signature>)
    ensures InRange(histories, tracked, slots) <= found
       <==> forall a, i :: a in tracked && 0 <= i < |histories(a)| && slots.Has(histories(a)[i].slot) ==>
              histories(a)[i].signature in found
  {
    forall a, i | a in tracked && 0 <= i < |histories(a)| && slots.Has(histories(a)[i].slot)
      ensures histories(a)[i].signature in InRange(histories, tracked, slots)
    {
      assert histories(a)[i] in histories(a);
    }
  }

  lemma FoundInRange(histories: Histories, tracked: set<Address>, slots: Slots)
    ensures Found(Answering(histories), 0, tracked, slots) <= InRange(histories, tracked, slots)
  {
  }

  lemma FoundAll(histories: Histories, tracked: set<Address>, slots: Slots)
    requires Ordered(histories, tracked)
    ensures Found(Answering(histories), 0, tracked, slots) <= InRange(histories, tracked, slots)
    ensures InRange(histories, tracked, slots) == Found(Answering(histories), 0, tracked, slots)
       <==> forall a, i :: a in tracked && 0 <= i && CutOff(histories(a), slots, i) ==>
              Shown(histories, tracked, histories(a)[i].signature)
  {
    var found := Found(Answering(histories), 0, tracked, slots);
    FoundInRange(histories, tracked, slots);
    hide Since, Shown, Found, InRange, Answer, Answering, Ordered;
    InRangeMeaning(histories, tracked, slots, found);
    forall a, i | a in tracked && 0 <= i < |histories(a)| && slots.Has(histories(a)[i].slot)
      ensures histories(a)[i].signature in found <==> Shown(histories, tracked, histories(a)[i].signature)
      ensures !CutOff(histories(a), slots, i) ==> Shown(histories, tracked, histories(a)[i].signature)
    {
      EntryFound(histories, tracked, slots, a, i);
    }
    forall a, i: nat | a in tracked && CutOff(histories(a), slots, i)
      ensures slots.Has(histories(a)[i].slot)
    {
    }
  }

  /** Histories without repetitions that share no signature. */
  ghost predicate Separate(histories: Histories, tracked: set<Address>) {
    && (forall a :: a in tracked ==> NoRepeats(histories(a)))
    && (forall a, b, x, y ::
          a in tracked && b in tracked && x in histories(a) && y in histories(b) && SameSignature(x, y) ==> a == b)
  }

  /** When no two tracked addresses share a transaction, nothing makes up for a cut answer: a poll submits
      everything exactly when none of them has more than a hundred entries from `start` on, up to addresses without
      entries in the range. */
  lemma SeparatePollReaches(histories: Histories, tracked: set<Address>, start: nat, end: nat,
                            lists: seq<seq<Signature>>)
    requires start <= end < U64 && LastStart(start, end) + RANGE_SIZE <= U64
    requires Ordered(histories, tracked) && Separate(histories, tracked)
    requires Submits(Answering(histories), tracked, SubRanges(start, end), lists)
    ensures InRange(histories, tracked, Slots(start, end)) == ToSet(Flatten(lists))
       <==> forall a :: a in tracked ==> Reaches(histories(a), Slots(start, end))
  {
    hide Submits, SubRanges, RangeEnd, Since, Shown;
    var slots := Slots(start, end);
    PollReaches(histories, tracked, start, end, lists);
    forall a, i: nat | a in tracked && CutOff(histories(a), slots, i)
      ensures !Shown(histories, tracked, histories(a)[i].signature) && !Reaches(histories(a), slots)
    {
      NotShown(histories, tracked, a, i);
    }
    forall a | a in tracked && !Reaches(histories(a), slots)
      ensures CutOff(histories(a), slots, Since(histories(a), start) - 1)
    {
    }
  }

  lemma NotShown(histories: Histories, tracked: set<Address>, a: Address, i: nat)
    requires Separate(histories, tracked) && a in tracked && NEWEST <= i < |histories(a)|
    ensures !Shown(histories, tracked, histories(a)[i].signature)
  {
    forall b, x | b in tracked && x in Answer(histories(b))
      ensures x.signature != histories(a)[i].signature
    {
      assert x.signature == histories(a)[i].signature <==> SameSignature(x, histories(a)[i]);
      var j :| 0 <= j < NEWEST && j < |histories(b)| && histories(b)[j] == x;
      if b == a {
        assert !SameSignature(histories(a)[j], histories(a)[i]);
      } else {
        assert histories(a)[i] in histories(a) && x in histories(b);
      }
    }
  }

  /** The newest hundred entries of a tracked address are always found. */
  lemma NewestFound(histories: Histories, tracked: set<Address>, a: Address, i: nat, slots: Slots)
    requires a in tracked && i < 100 && i < |histories(a)| && slots.Has(histories(a)[i].slot)
    ensures histories(a)[i].signature in Found(Answering(histories), 0, tracked, slots)
  {
    assert Answer(histories(a))[i] == histories(a)[i];
    assert Answering(histories)(0, a) == Some(Answer(histories(a)));
  }

  /** A hundred and one entries in one slot: the oldest is not found. */
  lemma OldestMissed(a: Address, slot: nat)
    ensures var h := seq(101, i requires 0 <= i < 101 => SigInfo(seq(i, _ => 'x'), slot, None));
            && NewestFirst(h) && NoRepeats(h)
            && h[100].signature !in Found(Answering(_ => h), 0, {a}, Slots(slot, slot))
  {
    var h := seq(101, i requires 0 <= i < 101 => SigInfo(seq(i, _ => 'x'), slot, None));
    forall i, j | 0 <= i < j < |h|
      ensures !SameSignature(h[i], h[j])
    {
      assert |h[i].signature| == i && |h[j].signature| == j;
    }
    assert forall x :: x in Answer(h) ==> |x.signature| < 100;
  }

  /** The same entry is found when it is the only one of another tracked address. */
  lemma OldestShared(a: Address, b: Address, slot: nat)
    requires a != b
    ensures var h := seq(101, i requires 0 <= i < 101 => SigInfo(seq(i, _ => 'x'), slot, None));
            var histories: Histories := x => if x == a then h else [h[100]];
            && !Reaches(histories(a), Slots(slot, slot))
            && h[100].signature in Found(Answering(histories), 0, {a, b}, Slots(slot, slot))
  {
    var h := seq(101, i requires 0 <= i < 101 => SigInfo(seq(i, _ => 'x'), slot, None));
    assert Answer([h[100]])[0] == h[100];
    assert h[100].slot >= slot && !(h[0].slot >= slot + 1);
  }
}
