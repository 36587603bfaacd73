/** The slot cursor of the polling loop over whole runs. */
module SlotCursor {
  import opened Transactions
  import opened Batching
  import opened Submission
  import opened Sorting
  import opened Polling

  const DEFAULT_SLOT: nat := 100_000

  /** One tick of the timer: the latest slot, unless asking for it failed; the tracked addresses, unless they
      could not be read; and how the node answers during the round, if there is one. */
  datatype Tick = Tick(latest: Option<nat>, read: Option<set<Address>>, rpc: Rpc, fetch: Fetcher)

  /** A range reported as checked, and the lists of signatures submitted for it. */
  datatype Round = Round(slots: Slots, tick: Tick, lists: seq<seq<Signature>>)

  /** The transactions the rounds hand to the batch manager. */
  function AllExtracted(log: seq<Round>): seq<Transaction> {
    if log == [] then []
    else
      var n := |log| - 1;
      AllExtracted(log[..n]) + ExtractedAll(log[n].tick.fetch, log[n].lists)
  }

  predicate InWidth(ticks: seq<Tick>) {
    forall i :: 0 <= i < |ticks| && ticks[i].latest.Some? ==> ticks[i].latest.value < U64
  }

  function FirstSlot(initial: Option<nat>): nat {
    if initial.Some? then initial.value else DEFAULT_SLOT
  }

  method PollingLoop(initial: Option<nat>, ticks: seq<Tick>, clock: nat -> nat, manager: BatchManager)
    returns (current: nat, log: seq<Round>)
    requires InWidth(ticks) && FirstSlot(initial) < U64 && manager.Valid()
    modifies manager
    ensures manager.Valid() && manager.added == old(manager.added) + AllExtracted(log)
    ensures forall r, i, s ::
      0 <= r < |log| && 0 <= i < |log[r].lists| && s in log[r].lists[i] && log[r].tick.fetch(i, s).Some? ==>
        log[r].tick.fetch(i, s).value in manager.added
    ensures ticks == [] ==> current == if initial.Some? then initial.value else 100_000
    ensures Chain(log, FirstSlot(initial), current) && AllPolled(log)
    ensures Moves(FirstSlot(initial), ticks, current, log)
  {
    hide *;
    current := FirstSlot(initial);
    log := [];
    Begins(FirstSlot(initial));
    assert ticks[..0] == [];
    for i := 0 to |ticks|
      invariant current < U64 && manager.Valid()
      invariant manager.added == old(manager.added) + AllExtracted(log)
      invariant Chain(log, FirstSlot(initial), current) && AllPolled(log)
      invariant Moves(FirstSlot(initial), ticks[..i], current, log)
    {
      var tick := ticks[i];
      ghost var before, earlier := current, log;
      if tick.latest.Some? && tick.latest.value > current {
        var latest := tick.latest.value;
        Width(ticks, i);
        var count, lists := PollNewTransactions(tick.rpc, tick.fetch, tick.read, current, latest, clock, manager);
        LogGrows(FirstSlot(initial), current, log, Round(Slots(current, latest), tick, lists));
        log := log + [Round(Slots(current, latest), tick, lists)];
        current := latest;
      }
      MovesOn(FirstSlot(initial), ticks, i, before, earlier, current, log);
    }
    assert ticks[..|ticks|] == ticks;
    AllExtractedMembers(log);
    NoTicks(initial, ticks, current, log);
  }

  lemma NoTicks(initial: Option<nat>, ticks: seq<Tick>, current: nat, log: seq<Round>)
    requires Moves(FirstSlot(initial), ticks, current, log)
    ensures ticks == [] ==> current == if initial.Some? then initial.value else 100_000
  {
  }

  lemma {:induction false} AllExtractedMembers(log: seq<Round>)
    ensures forall r, i, s ::
      0 <= r < |log| && 0 <= i < |log[r].lists| && s in log[r].lists[i] && log[r].tick.fetch(i, s).Some? ==>
        log[r].tick.fetch(i, s).value in AllExtracted(log)
  {
    if log != [] {
      var n := |log| - 1;
      AllExtractedMembers(log[..n]);
      ExtractedAllMembers(log[n].tick.fetch, log[n].lists);
      hide ExtractedAll;
      assert forall r :: 0 <= r < n ==> log[..n][r] == log[r];
    }
  }

  lemma Width(ticks: seq<Tick>, i: nat)
    requires InWidth(ticks) && i < |ticks| && ticks[i].latest.Some?
    ensures ticks[i].latest.value < U64
  {
  }

  lemma Begins(first: nat)
    ensures Chain([], first, first) && AllPolled([]) && Moves(first, [], first, []) && AllExtracted([]) == []
  {
  }

  /** Another round keeps the chain. */
  lemma LogGrows(first: nat, current: nat, log: seq<Round>, round: Round)
    requires Chain(log, first, current) && AllPolled(log)
    requires round.slots.low == current < round.slots.high < U64
    requires Polled(round.tick.rpc, round.tick.read, current, round.slots.high, round.lists)
    ensures Chain(log + [round], first, round.slots.high) && AllPolled(log + [round])
    ensures AllExtracted(log + [round]) == AllExtracted(log) + ExtractedAll(round.tick.fetch, round.lists)
  {
    hide Polled, ExtractedAll;
    assert (log + [round])[..|log|] == log;
  }

  lemma MovesOn(first: nat, ticks: seq<Tick>, i: nat, before: nat, earlier: seq<Round>, current: nat, log: seq<Round>)
    requires i < |ticks| && Moves(first, ticks[..i], before, earlier)
    requires if ticks[i].latest.Some? && ticks[i].latest.value > before
      then current == ticks[i].latest.value
           && exists lists :: log == earlier + [Round(Slots(before, current), ticks[i], lists)]
      else current == before && log == earlier
    ensures Moves(first, ticks[..i + 1], current, log)
  {
    var next := ticks[..i + 1];
    assert next[..i] == ticks[..i] && next[i] == ticks[i];
    assert MovesBy(before, earlier, next[i], current, log);
  }

  /** Exactly the ticks that see a later slot move the cursor, each to the slot it saw. */
  ghost predicate Moves(first: nat, ticks: seq<Tick>, current: nat, log: seq<Round>) {
    if ticks == [] then current == first && log == []
    else
      var n := |ticks| - 1;
      exists before, earlier ::
        Moves(first, ticks[..n], before, earlier) && MovesBy(before, earlier, ticks[n], current, log)
  }

  ghost predicate MovesBy(before: nat, earlier: seq<Round>, tick: Tick, current: nat, log: seq<Round>) {
    if tick.latest.Some? && tick.latest.value > before then
      && current == tick.latest.value
      && |log| == |earlier| + 1 && log[..|earlier|] == earlier
      && log[|earlier|].slots == Slots(before, current) && log[|earlier|].tick == tick
    else current == before && log == earlier
  }

  /** Each range starts where the one before it ended, and moves forward. */
  ghost predicate Chain(log: seq<Round>, first: nat, current: nat) {
    && (forall i :: 0 <= i < |log| ==> log[i].slots.low < log[i].slots.high < U64)
    && (forall i :: 0 <= i < |log| - 1 ==> log[i].slots.high == log[i + 1].slots.low)
    && (if log == [] then current == first
        else log[0].slots.low == first && log[|log| - 1].slots.high == current)
  }

  /** Every range was polled as `PollNewTransactions` does. */
  ghost predicate AllPolled(log: seq<Round>) {
    forall i :: 0 <= i < |log| ==>
      && log[i].slots.low < log[i].slots.high
      && Polled(log[i].tick.rpc, log[i].tick.read, log[i].slots.low, log[i].slots.high, log[i].lists)
  }

  lemma {:induction false} ChainOrdered(log: seq<Round>, first: nat, current: nat, i: nat, j: nat)
    requires Chain(log, first, current) && i < j < |log|
    ensures log[i].slots.high <= log[j].slots.low
    decreases j - i
  {
    if i + 1 < j {
      ChainOrdered(log, first, current, i + 1, j);
    }
  }

  ghost predicate InLog(log: seq<Round>, slot: nat) {
    exists i :: 0 <= i < |log| && log[i].slots.Has(slot)
  }

  lemma {:induction false} ChainCovers(log: seq<Round>, first: nat, current: nat, slot: nat)
    requires Chain(log, first, current) && log != [] && first <= slot <= current
    ensures InLog(log, slot)
    decreases |log|
  {
    var n := |log| - 1;
    if !log[n].slots.Has(slot) {
      assert n > 0;
      var init := log[..n];
      assert init[n - 1] == log[n - 1];
      ChainCovers(init, first, log[n].slots.low, slot);
      var i :| 0 <= i < n && init[i].slots.Has(slot);
      assert log[i].slots.Has(slot);
    }
  }

  /** Over every sequence of answers and failures the cursor never goes back; the reported ranges cover
      every slot from the first to the cursor, and two of them share at most an endpoint. */
  lemma CursorCovers(first: nat, current: nat, log: seq<Round>)
    requires Chain(log, first, current)
    ensures first <= current
    ensures log != [] ==> forall slot :: first <= slot <= current ==> InLog(log, slot)
    ensures forall i, slot :: 0 <= i < |log| && log[i].slots.Has(slot) ==> first <= slot <= current
    ensures forall i, j, slot :: 0 <= i < j < |log| && log[i].slots.Has(slot) && log[j].slots.Has(slot) ==>
              j == i + 1 && slot == log[i].slots.high == log[j].slots.low
  {
    forall i, j | 0 <= i < j < |log|
      ensures log[i].slots.high <= log[j].slots.low
      ensures i + 1 < j ==> log[i].slots.high < log[j].slots.low
    {
      ChainOrdered(log, first, current, i, j);
      if i + 1 < j {
        ChainOrdered(log, first, current, i + 1, j);
      }
    }
    if log != [] {
      assert log[0].slots.high <= current;
      forall slot | first <= slot <= current
        ensures InLog(log, slot)
      {
        ChainCovers(log, first, current, slot);
      }
    }
  }

  // ---------------------------------------------------------------- what was really looked at

  /** The number of the piece that holds a slot of the round's range. */
  function PieceOf(round: Round, slot: nat): nat
    requires round.slots.Has(slot)
  {
    (slot - round.slots.low) / RANGE_SIZE
  }

  /** The address was among those read at the start of the round. */
  predicate Tracks(round: Round, a: Address) {
    round.tick.read.Some? && a in round.tick.read.value
  }

  /** In the round, the address was tracked and asked about for its k-th sub-range, and the call succeeded. */
  predicate Answered(round: Round, k: nat, a: Address) {
    Tracks(round, a) && round.tick.rpc(k, a).Some?
  }

  /** The slot lay in a sub-range that was polled for the address with success. */
  ghost predicate LookedAtIn(round: Round, slot: nat, a: Address)
    requires round.slots.low <= round.slots.high
  {
    var ranges := SubRanges(round.slots.low, round.slots.high);
    exists k :: 0 <= k < |ranges| && ranges[k].Has(slot) && Answered(round, k, a)
  }

  ghost predicate LookedAt(log: seq<Round>, slot: nat, a: Address) {
    exists i :: 0 <= i < |log| && log[i].slots.low <= log[i].slots.high && LookedAtIn(log[i], slot, a)
  }

  /** The k-th piece was polled for the address with success, and computing its end did not wrap. */
  predicate Served(round: Round, k: nat, a: Address) {
    Answered(round, k, a) && round.slots.low + RANGE_SIZE * k + RANGE_SIZE <= U64
  }

  lemma LookedAtMeaning(round: Round, slot: nat, a: Address)
    requires round.slots.low < round.slots.high < U64
    ensures LookedAtIn(round, slot, a) <==> round.slots.Has(slot) && Served(round, PieceOf(round, slot), a)
  {
    var low, high := round.slots.low, round.slots.high;
    var ranges := SubRanges(low, high);
    forall k | 0 <= k < |ranges|
      ensures ranges[k].Has(slot) <==>
                round.slots.Has(slot) && k == PieceOf(round, slot) && low + RANGE_SIZE * k + RANGE_SIZE <= U64
    {
      assert ranges[k] == Slots(low + RANGE_SIZE * k, RangeEnd(low + RANGE_SIZE * k, high));
    }
    if round.slots.Has(slot) {
      assert PieceOf(round, slot) < |ranges|;
    }
  }

  /** A piece that is just one endpoint of its range, or both, and whose slots the neighbouring rounds looked at. */
  predicate MadeUp(log: seq<Round>, i: nat, k: nat, a: Address)
    requires i < |log|
  {
    var low, high := log[i].slots.low, log[i].slots.high;
    && i + 1 < |log| && Served(log[i + 1], 0, a)
    && (if k == 0
        then high == low + 1 && i > 0 && log[i - 1].slots.Has(low) && Served(log[i - 1], PieceOf(log[i - 1], low), a)
        else low + RANGE_SIZE * k == high)
  }

  /** A piece of some round that was not served for the address, and for which nothing else makes up. */
  ghost predicate Hole(log: seq<Round>, i: nat, k: nat, a: Address)
    requires i < |log|
  {
    && log[i].slots.low + RANGE_SIZE * k <= log[i].slots.high
    && !Served(log[i], k, a) && !MadeUp(log, i, k, a)
  }

  /** The cursor also passes slots nobody looked at for an address. It leaves none behind exactly when, in every
      round, the address was tracked and known, every call about it succeeded and no end wrapped, up to single
      endpoints the neighbouring rounds make up for. */
  lemma EverySlotLookedAt(first: nat, current: nat, log: seq<Round>, a: Address)
    requires Chain(log, first, current) && log != []
    ensures (forall slot :: first <= slot <= current ==> LookedAt(log, slot, a))
       <==> (forall i, k :: 0 <= i < |log| && 0 <= k ==> !Hole(log, i, k, a))
  {
    CursorCovers(first, current, log);
    if i, k :| 0 <= i < |log| && 0 <= k && Hole(log, i, k, a) {
      HoleMissed(first, current, log, i, k, a);
    } else {
      forall slot | first <= slot <= current
        ensures LookedAt(log, slot, a)
      {
        NoHoleCovers(first, current, log, slot, a);
      }
    }
  }

  lemma NoHoleCovers(first: nat, current: nat, log: seq<Round>, slot: nat, a: Address)
    requires Chain(log, first, current) && InLog(log, slot)
    requires forall i, k :: 0 <= i < |log| && 0 <= k ==> !Hole(log, i, k, a)
    ensures LookedAt(log, slot, a)
  {
    var i :| 0 <= i < |log| && log[i].slots.Has(slot);
    var k := PieceOf(log[i], slot);
    assert !Hole(log, i, k, a);
    var holder := if Served(log[i], k, a) then i else if slot == log[i].slots.high then i + 1 else i - 1;
    LookedAtMeaning(log[holder], slot, a);
  }

  /** A slot of a hole that no round looked at. */
  lemma HoleMissed(first: nat, current: nat, log: seq<Round>, i: nat, k: nat, a: Address)
    requires Chain(log, first, current) && i < |log| && Hole(log, i, k, a)
    ensures exists slot :: first <= slot <= current && !LookedAt(log, slot, a)
  {
    CursorCovers(first, current, log);
    var low, high := log[i].slots.low, log[i].slots.high;
    var slot :=
      if k > 0 then low + RANGE_SIZE * k
      else if high > low + 1 then low + 1
      else if i == 0 || !Served(log[i - 1], PieceOf(log[i - 1], low), a) then low
      else high;
    assert log[i].slots.Has(slot) && PieceOf(log[i], slot) == k;
    forall j | 0 <= j < |log|
      ensures !LookedAtIn(log[j], slot, a)
    {
      LookedAtMeaning(log[j], slot, a);
    }
    assert !LookedAt(log, slot, a);
  }

  function NoAnswers(): Rpc {
    (k, a) => None
  }

  /** A run that passes a hundred slots nobody looked at: every call fails, and the round counts as done. */
  lemma FailedCallsPassed(a: Address, fetch: Fetcher)
    ensures var tick := Tick(Some(200), Some({a}), NoAnswers(), fetch);
      var log := [Round(Slots(100, 200), tick, [])];
      && Moves(100, [tick], 200, log) && Chain(log, 100, 200) && AllPolled(log)
      && forall slot :: !LookedAt(log, slot, a)
  {
    var tick := Tick(Some(200), Some({a}), NoAnswers(), fetch);
    var log := [Round(Slots(100, 200), tick, [])];
    assert [tick][..0] == [] && log[..0] == [];
    assert Moves(100, [tick][..0], 100, []) && MovesBy(100, [], [tick][0], 200, log);
    NothingSubmitted(NoAnswers(), {a}, SubRanges(100, 200));
  }

  lemma {:induction false} NothingSubmitted(rpc: Rpc, tracked: set<Address>, ranges: seq<Slots>)
    requires forall k, a :: rpc(k, a).None?
    ensures Submits(rpc, tracked, ranges, [])
  {
    if ranges != [] {
      NothingSubmitted(rpc, tracked, ranges[..|ranges| - 1]);
    }
  }

  // ---------------------------------------------------------------- what is submitted, whatever fails

  ghost predicate SubmittedIn(log: seq<Round>, i: nat, s: Signature) {
    i < |log| && s in Flatten(log[i].lists)
  }

  /** In the round, the call for the address in the sub-range holding the slot was made and succeeded, and it reported
      the signature under that slot. */
  ghost predicate Shows(round: Round, slot: nat, a: Address, s: Signature) {
    && round.slots.low <= slot <= round.slots.high
    && var k := (slot - round.slots.low) / 10;
       && round.slots.low + 10 * k + 10 <= U64
       && round.tick.read.Some? && a in round.tick.read.value && round.tick.rpc(k, a).Some?
       && exists info :: info in round.tick.rpc(k, a).value && info.slot == slot && info.signature == s
  }

  /** A round submits exactly what some successful call showed for the slots of its sub-range, whatever became of the
      other calls. */
  lemma RoundSubmits(round: Round, s: Signature)
    requires round.slots.low < round.slots.high < U64
    requires Polled(round.tick.rpc, round.tick.read, round.slots.low, round.slots.high, round.lists)
    ensures s in Flatten(round.lists) <==> exists slot, a :: Shows(round, slot, a, s)
  {
    if round.tick.read.Some? && round.tick.read.value != {} {
      var tracked, ranges := round.tick.read.value, SubRanges(round.slots.low, round.slots.high);
      var pieces := SubmitsMeaning(round.tick.rpc, tracked, ranges, round.lists);
      hide Submits, SubRanges, FoundAt, Shows, ListsFor, Flatten;
      ListedIsFound(round.tick.rpc, tracked, ranges, pieces, round.lists, s);
      if k: nat :| FoundAt(round.tick.rpc, tracked, ranges, k, s) {
        FoundIsShown(round, k, s);
      }
      if slot, a :| Shows(round, slot, a, s) {
        var k := ShownIsFound(round, slot, a, s);
      }
    }
  }

  lemma ListedIsFound(rpc: Rpc, tracked: set<Address>, ranges: seq<Slots>, pieces: seq<nat>,
                      lists: seq<seq<Signature>>, s: Signature)
    requires ListsFor(rpc, tracked, ranges, pieces, lists)
    ensures s in Flatten(lists) <==> exists k: nat :: FoundAt(rpc, tracked, ranges, k, s)
  {
    hide FoundAt, Flatten;
    if s in Flatten(lists) {
      var x, j := FlattenMember(lists, s);
      assert s in lists[x] && FoundAt(rpc, tracked, ranges, pieces[x], s);
    }
    if k: nat :| FoundAt(rpc, tracked, ranges, k, s) {
      assert k in pieces;
      var x :| 0 <= x < |pieces| && pieces[x] == k;
      FlattenHolds(lists, x, s);
    }
  }

  lemma FoundIsShown(round: Round, k: nat, s: Signature)
    requires round.slots.low < round.slots.high < U64 && round.tick.read.Some?
    requires FoundAt(round.tick.rpc, round.tick.read.value, SubRanges(round.slots.low, round.slots.high), k, s)
    ensures exists slot, a :: Shows(round, slot, a, s)
  {
    var ranges := SubRanges(round.slots.low, round.slots.high);
    var a, info :| a in round.tick.read.value && round.tick.rpc(k, a).Some? && info in round.tick.rpc(k, a).value
                && ranges[k].low <= info.slot <= ranges[k].high && info.signature == s;
    PieceHas(round.slots, k, info.slot);
    assert Shows(round, info.slot, a, s);
  }

  lemma ShownIsFound(round: Round, slot: nat, a: Address, s: Signature) returns (k: nat)
    requires round.slots.low < round.slots.high < U64 && round.tick.read.Some? && Shows(round, slot, a, s)
    ensures FoundAt(round.tick.rpc, round.tick.read.value, SubRanges(round.slots.low, round.slots.high), k, s)
  {
    k := (slot - round.slots.low) / 10;
    PieceHas(round.slots, k, slot);
  }

  /** Which slots the k-th sub-range holds: ten of them, in the range, unless computing its end wraps. */
  lemma PieceHas(slots: Slots, k: nat, slot: nat)
    requires slots.low < slots.high < U64
    ensures var ranges := SubRanges(slots.low, slots.high);
      k < |ranges| && ranges[k].low <= slot <= ranges[k].high <==>
        slots.low <= slot <= slots.high && k == (slot - slots.low) / 10 && slots.low + 10 * k + 10 <= U64
  {
  }

  /** Everything the call for the address reported for the slot is submitted in the round. */
  ghost predicate AnswerSubmitted(log: seq<Round>, i: nat, slot: nat, a: Address)
    requires i < |log| && log[i].slots.Has(slot) && Served(log[i], PieceOf(log[i], slot), a)
  {
    forall info: SigInfo :: info in log[i].tick.rpc(PieceOf(log[i], slot), a).value && info.slot == slot ==>
      SubmittedIn(log, i, info.signature)
  }

  /** Over any run, with any failures: a round submits a signature exactly when some successful call of it showed it;
      so whatever is reported for a slot that was looked at for an address, by the call that looked, is submitted. */
  lemma LookedAtSubmitted(first: nat, current: nat, log: seq<Round>)
    requires Chain(log, first, current) && AllPolled(log)
    ensures forall i: nat, s :: i < |log| ==>
      (SubmittedIn(log, i, s) <==> exists slot, a :: Shows(log[i], slot, a, s))
    ensures forall slot: nat, a :: LookedAt(log, slot, a) ==>
      exists i: nat :: i < |log| && log[i].slots.Has(slot) && Served(log[i], PieceOf(log[i], slot), a)
                    && AnswerSubmitted(log, i, slot, a)
  {
    hide Polled, Shows, Flatten;
    forall i: nat, s | i < |log|
      ensures SubmittedIn(log, i, s) <==> exists slot, a :: Shows(log[i], slot, a, s)
    {
      RoundSubmits(log[i], s);
    }
    forall slot: nat, a | LookedAt(log, slot, a)
      ensures exists i: nat :: i < |log| && log[i].slots.Has(slot) && Served(log[i], PieceOf(log[i], slot), a)
                    && AnswerSubmitted(log, i, slot, a)
    {
      var i: nat :| i < |log| && LookedAtIn(log[i], slot, a);
      LookedAtMeaning(log[i], slot, a);
      forall info: SigInfo | info in log[i].tick.rpc(PieceOf(log[i], slot), a).value && info.slot == slot
        ensures SubmittedIn(log, i, info.signature)
      {
        CallShows(log[i], slot, a, info);
      }
    }
  }

  lemma CallShows(round: Round, slot: nat, a: Address, info: SigInfo)
    requires round.slots.Has(slot) && Served(round, PieceOf(round, slot), a)
    requires info in round.tick.rpc(PieceOf(round, slot), a).value && info.slot == slot
    ensures Shows(round, slot, a, info.signature)
  {
  }

  // ---------------------------------------------------------------- whole runs against one history

  /** Two lists have the same entries in the range. */
  ghost predicate Agree(s: seq<SigInfo>, t: seq<SigInfo>, slots: Slots) {
    forall info: SigInfo :: slots.Has(info.slot) ==> (info in s <==> info in t)
  }

  /** The round went without failures, and of its slots the node reported what `world` holds. */
  ghost predicate Clean(round: Round, world: Histories) {
    && round.slots.low < round.slots.high < U64
    && LastStart(round.slots.low, round.slots.high) + RANGE_SIZE <= U64
    && round.tick.read.Some?
    && (forall k: nat, a ::
          k <= (round.slots.high - round.slots.low) / RANGE_SIZE && Tracks(round, a) ==>
            Answered(round, k, a) && Agree(round.tick.rpc(k, a).value, world(a), round.slots))
  }

  /** A signature has one slot, whichever address it is found for. */
  ghost predicate OneSlotEach(world: Histories) {
    forall a, b, x, y :: x in world(a) && y in world(b) && SameSignature(x, y) ==> x.slot == y.slot
  }

  /** The signature is reported for a tracked address under a slot of the range. */
  ghost predicate Reported(round: Round, world: Histories, s: Signature) {
    exists a, info :: Tracks(round, a) && info in world(a) && round.slots.Has(info.slot) && info.signature == s
  }

  function Whole(world: Histories): Rpc {
    (k, a) => Some(world(a))
  }

  lemma {:induction false} SameFound(rpc: Rpc, other: Rpc, tracked: set<Address>, ranges: seq<Slots>,
                                     lists: seq<seq<Signature>>)
    requires Submits(rpc, tracked, ranges, lists)
    requires forall k :: 0 <= k < |ranges| ==> Found(rpc, k, tracked, ranges[k]) == Found(other, k, tracked, ranges[k])
    ensures Submits(other, tracked, ranges, lists)
    decreases |ranges|
  {
    if ranges != [] {
      var k := |ranges| - 1;
      var init := ranges[..k];
      assert forall j :: 0 <= j < k ==> init[j] == ranges[j];
      var found := Found(rpc, k, tracked, ranges[k]);
      SameFound(rpc, other, tracked, init, if found == {} then lists else lists[..|lists| - 1]);
    }
  }

  /** A clean round finds what is in the world, piece by piece. */
  lemma CleanPieces(round: Round, world: Histories)
    requires Clean(round, world)
    ensures var ranges := SubRanges(round.slots.low, round.slots.high);
      forall k :: 0 <= k < |ranges| ==>
        Found(round.tick.rpc, k, round.tick.read.value, ranges[k]) ==
        Found(Whole(world), k, round.tick.read.value, ranges[k])
  {
    Pieces(round.slots.low, round.slots.high);
    var ranges, tracked := SubRanges(round.slots.low, round.slots.high), round.tick.read.value;
    forall k | 0 <= k < |ranges|
      ensures Found(round.tick.rpc, k, tracked, ranges[k]) == Found(Whole(world), k, tracked, ranges[k])
    {
      forall slot | ranges[k].Has(slot)
        ensures round.slots.Has(slot)
      {
      }
      forall a | a in tracked
        ensures Answered(round, k, a) && Agree(round.tick.rpc(k, a).value, world(a), round.slots)
      {
        assert Tracks(round, a);
      }
    }
  }

  /** One clean round submits exactly what is reported in its range, each signature once. */
  lemma CleanRound(round: Round, world: Histories)
    requires Clean(round, world) && OneSlotEach(world)
    requires Polled(round.tick.rpc, round.tick.read, round.slots.low, round.slots.high, round.lists)
    ensures Distinct(Flatten(round.lists))
    ensures forall s :: s in Flatten(round.lists) <==> Reported(round, world, s)
  {
    hide SubRanges, Submits, LastStart, Agree;
    var tracked, low, high := round.tick.read.value, round.slots.low, round.slots.high;
    if tracked != {} {
      CleanPieces(round, world);
      SameFound(round.tick.rpc, Whole(world), tracked, SubRanges(low, high), round.lists);
      assert OneSlot(Whole(world), tracked) && Fixed(Whole(world)) by {
        assert forall x: SigInfo, y: SigInfo :: x.signature == y.signature <==> SameSignature(x, y);
      }
      SubRangesRefineOneFilter(Whole(world), tracked, low, high, round.lists);
      FoundIsReported(round, world);
      assert forall s :: s in Flatten(round.lists) <==> s in ToSet(Flatten(round.lists));
    }
  }

  lemma FoundIsReported(round: Round, world: Histories)
    requires round.tick.read.Some?
    ensures forall s :: s in Found(Whole(world), 0, round.tick.read.value, round.slots) <==> Reported(round, world, s)
  {
    forall a, info | Tracks(round, a) && info in world(a) && round.slots.Has(info.slot)
      ensures info.signature in Found(Whole(world), 0, round.tick.read.value, round.slots)
    {
      assert Whole(world)(0, a) == Some(world(a));
    }
  }

  /** Over a whole run without failures nothing is missed and nothing is repeated without need: what is reported
      under a slot passed is submitted, for an address tracked at the time; each round submits exactly what is
      reported in its range, once; and two rounds submit the same signature only if they follow each other and it
      lies in the slot they share. */
  lemma CleanRunSubmitsAll(first: nat, current: nat, log: seq<Round>, world: Histories)
    requires Chain(log, first, current) && AllPolled(log) && OneSlotEach(world)
    requires forall i :: 0 <= i < |log| ==> Clean(log[i], world)
    ensures forall a, info ::
      && log != [] && info in world(a) && first <= info.slot <= current
      && (forall i :: 0 <= i < |log| && log[i].slots.Has(info.slot) ==> Tracks(log[i], a))
      ==> exists i: nat :: SubmittedIn(log, i, info.signature)
    ensures forall i: nat, s :: i < |log| ==> (SubmittedIn(log, i, s) <==> Reported(log[i], world, s))
    ensures forall i :: 0 <= i < |log| ==> Distinct(Flatten(log[i].lists))
    ensures forall i: nat, j: nat, s :: i < j && SubmittedIn(log, i, s) && SubmittedIn(log, j, s) ==>
      j == i + 1 && forall a, info :: info in world(a) && info.signature == s ==> info.slot == log[i].slots.high
  {
    hide Clean, AllPolled, OneSlotEach, Reported, Flatten, Chain;
    CursorCovers(first, current, log);
    EachRound(log, world);
    forall a, info | log != [] && info in world(a) && first <= info.slot <= current
        && (forall i :: 0 <= i < |log| && log[i].slots.Has(info.slot) ==> Tracks(log[i], a))
      ensures exists i: nat :: SubmittedIn(log, i, info.signature)
    {
      assert InLog(log, info.slot);
      var i: nat :| i < |log| && log[i].slots.Has(info.slot);
      ReportedHere(log[i], world, a, info);
      assert SubmittedIn(log, i, info.signature);
    }
    forall i: nat, j: nat, s, a, info |
      i < j && SubmittedIn(log, i, s) && SubmittedIn(log, j, s) && info in world(a) && info.signature == s
      ensures j == i + 1 && info.slot == log[i].slots.high
    {
      ReportedOnce(log[i], world, a, info);
      ReportedOnce(log[j], world, a, info);
    }
    forall i: nat, j: nat, s | i < j && SubmittedIn(log, i, s) && SubmittedIn(log, j, s)
      ensures j == i + 1
    {
      var a, info := SomeReport(log[i], world, s);
    }
  }

  lemma EachRound(log: seq<Round>, world: Histories)
    requires AllPolled(log) && OneSlotEach(world)
    requires forall i :: 0 <= i < |log| ==> Clean(log[i], world)
    ensures forall i :: 0 <= i < |log| ==> Distinct(Flatten(log[i].lists))
    ensures forall i: nat, s :: i < |log| ==> (SubmittedIn(log, i, s) <==> Reported(log[i], world, s))
  {
    hide Clean, OneSlotEach, Polled, Flatten, Reported;
    forall i: nat | i < |log|
      ensures Distinct(Flatten(log[i].lists))
      ensures forall s :: SubmittedIn(log, i, s) <==> Reported(log[i], world, s)
    {
      CleanRound(log[i], world);
    }
  }

  lemma ReportedHere(round: Round, world: Histories, a: Address, info: SigInfo)
    requires Tracks(round, a) && info in world(a) && round.slots.Has(info.slot)
    ensures Reported(round, world, info.signature)
  {
  }

  lemma SomeReport(round: Round, world: Histories, s: Signature) returns (a: Address, info: SigInfo)
    requires Reported(round, world, s)
    ensures info in world(a) && info.signature == s
  {
    a, info :| Tracks(round, a) && info in world(a) && round.slots.Has(info.slot) && info.signature == s;
  }

  lemma ReportedOnce(round: Round, world: Histories, a: Address, info: SigInfo)
    requires OneSlotEach(world) && info in world(a) && Reported(round, world, info.signature)
    ensures round.slots.Has(info.slot)
  {
    var b, x :| Tracks(round, b) && x in world(b) && round.slots.Has(x.slot) && x.signature == info.signature;
    assert SameSignature(info, x);
  }
}
