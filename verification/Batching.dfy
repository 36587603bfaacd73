/** The locked buffer of the batch manager: what each critical section does to it. */
module Batching {
  import opened Transactions

  datatype Config = Config(maxBatchSize: nat, flushInterval: nat)

  /** The state behind the buffer lock. Times are readings of a monotonic clock. */
  datatype Buffer = Buffer(pending: map<Address, seq<Transaction>>, totalSize: nat, lastFlush: nat)

  const EMPTY: map<Address, seq<Transaction>> := map[]

  function PendingOf(pending: map<Address, seq<Transaction>>, a: Address): seq<Transaction> {
    if a in pending then pending[a] else []
  }

  function Filled(b: Buffer, t: Transaction): Buffer {
    b.(pending := b.pending[t.source := PendingOf(b.pending, t.source) + [t]],
       totalSize := b.totalSize + 1)
  }

  predicate Due(cfg: Config, b: Buffer, now: nat) {
    b.totalSize >= cfg.maxBatchSize || Max(0, now - b.lastFlush) >= cfg.flushInterval
  }

  function Emptied(now: nat): Buffer {
    Buffer(EMPTY, 0, now)
  }

  /** `txs` is what draining the hash map yields for some iteration order of its keys. */
  ghost predicate Drains(pending: map<Address, seq<Transaction>>, txs: seq<Transaction>)
    decreases pending.Keys, 1
  {
    if pending == EMPTY then txs == []
    else exists a :: a in pending && DrainsFrom(pending, a, txs)
  }

  /** As `Drains`, with `a` the first key visited. */
  ghost predicate DrainsFrom(pending: map<Address, seq<Transaction>>, a: Address, txs: seq<Transaction>)
    requires a in pending
    decreases pending.Keys, 0
  {
    && pending[a] <= txs
    && (assert (pending - {a}).Keys == pending.Keys - {a};
        Drains(pending - {a}, txs[|pending[a]|..]))
  }

  /** Every transaction held in the pending map, with its multiplicity. */
  ghost function PendingTxs(pending: map<Address, seq<Transaction>>): multiset<Transaction>
    decreases pending.Keys
  {
    if pending == EMPTY then multiset{}
    else
      var a :| a in pending;
      assert (pending - {a}).Keys == pending.Keys - {a};
      multiset(pending[a]) + PendingTxs(pending - {a})
  }

  /** The choice of key in `PendingTxs` does not matter. */
  lemma {:induction false} PendingTxsSplit(pending: map<Address, seq<Transaction>>, a: Address)
    requires a in pending
    ensures PendingTxs(pending) == multiset(pending[a]) + PendingTxs(pending - {a})
    decreases pending.Keys
  {
    var c :| c in pending && PendingTxs(pending) == multiset(pending[c]) + PendingTxs(pending - {c});
    if c != a {
      assert pending.Keys != {};
      assert (pending - {c}).Keys == pending.Keys - {c} && (pending - {a}).Keys == pending.Keys - {a};
      PendingTxsSplit(pending - {c}, a);
      PendingTxsSplit(pending - {a}, c);
      assert pending - {a} - {c} == pending - {c} - {a};
    }
  }

  lemma PendingTxsFilled(b: Buffer, t: Transaction)
    ensures PendingTxs(Filled(b, t).pending) == PendingTxs(b.pending) + multiset{t}
  {
    var p, q, a := b.pending, Filled(b, t).pending, t.source;
    PendingTxsSplit(q, a);
    assert q - {a} == p - {a};
    if a in p {
      PendingTxsSplit(p, a);
    } else {
      assert p - {a} == p;
    }
  }

  /** Each pending list sits under the source address of its transactions. */
  ghost predicate ByOwner(pending: map<Address, seq<Transaction>>) {
    forall a, i :: a in pending && 0 <= i < |pending[a]| ==> pending[a][i].source == a
  }

  ghost predicate WellFormed(b: Buffer) {
    ByOwner(b.pending) && b.totalSize == |PendingTxs(b.pending)|
  }

  /** The counter stays strictly below the batch limit between critical sections. */
  predicate WithinLimit(cfg: Config, b: Buffer) {
    b.totalSize < Max(1, cfg.maxBatchSize)
  }

  lemma {:induction false} DrainsAll(pending: map<Address, seq<Transaction>>, txs: seq<Transaction>)
    requires Drains(pending, txs)
    ensures multiset(txs) == PendingTxs(pending)
    decreases pending.Keys
  {
    if pending != EMPTY {
      var a :| a in pending && DrainsFrom(pending, a, txs);
      var n := |pending[a]|;
      assert (pending - {a}).Keys == pending.Keys - {a};
      DrainsAll(pending - {a}, txs[n..]);
      PendingTxsSplit(pending, a);
      assert txs == pending[a] + txs[n..];
    }
  }

  /** Whatever the iteration order, one address's transactions come out complete and in order. */
  lemma {:induction false} DrainsInOrder(pending: map<Address, seq<Transaction>>, txs: seq<Transaction>, x: Address)
    requires ByOwner(pending) && Drains(pending, txs)
    ensures Restrict(txs, x) == PendingOf(pending, x)
    decreases pending.Keys
  {
    if pending != EMPTY {
      var a :| a in pending && DrainsFrom(pending, a, txs);
      var n := |pending[a]|;
      assert (pending - {a}).Keys == pending.Keys - {a};
      DrainsInOrder(pending - {a}, txs[n..], x);
      assert txs == pending[a] + txs[n..];
      RestrictAppend(pending[a], txs[n..], x);
      RestrictOwn(pending[a], a, x);
    }
  }

  lemma {:induction false} SomeDrain(pending: map<Address, seq<Transaction>>) returns (txs: seq<Transaction>)
    ensures Drains(pending, txs)
    decreases pending.Keys
  {
    if pending == EMPTY {
      txs := [];
    } else {
      var a :| a in pending;
      assert (pending - {a}).Keys == pending.Keys - {a};
      var rest := SomeDrain(pending - {a});
      txs := pending[a] + rest;
      assert txs[|pending[a]|..] == rest;
      assert DrainsFrom(pending, a, txs);
    }
  }

  lemma PendingOfFilled(b: Buffer, t: Transaction, a: Address)
    requires ByOwner(b.pending)
    ensures ByOwner(Filled(b, t).pending)
    ensures PendingOf(Filled(b, t).pending, a) == PendingOf(b.pending, a) + Restrict([t], a)
  {
  }

  /** Adding keeps the buffer well formed; the counter stays within the limit, since a full buffer is
      emptied in the same critical section. */
  lemma FilledWellFormed(cfg: Config, b: Buffer, t: Transaction, now: nat)
    requires WellFormed(b) && WithinLimit(cfg, b)
    ensures WellFormed(Filled(b, t))
    ensures Filled(b, t).totalSize <= Max(1, cfg.maxBatchSize)
    ensures !Due(cfg, Filled(b, t), now) ==> WithinLimit(cfg, Filled(b, t))
  {
    PendingTxsFilled(b, t);
    PendingOfFilled(b, t, t.source);
  }

  /** Per address, everything in `added` has either been sent out, in order, or is pending behind it. */
  ghost predicate InOrder(added: seq<Transaction>, sent: seq<seq<Transaction>>,
                          pending: map<Address, seq<Transaction>>)
  {
    forall a :: Restrict(added, a) == Restrict(Flatten(sent), a) + PendingOf(pending, a)
  }

  /** An empty collection is never sent. */
  function Extended(sent: seq<seq<Transaction>>, txs: seq<Transaction>): seq<seq<Transaction>> {
    if txs == [] then sent else sent + [txs]
  }

  lemma AddInOrder(b: Buffer, t: Transaction, added: seq<Transaction>, sent: seq<seq<Transaction>>)
    requires ByOwner(b.pending) && InOrder(added, sent, b.pending)
    ensures InOrder(added + [t], sent, Filled(b, t).pending)
  {
    forall a
      ensures Restrict(added + [t], a) == Restrict(Flatten(sent), a) + PendingOf(Filled(b, t).pending, a)
    {
      PendingOfFilled(b, t, a);
      RestrictAppend(added, [t], a);
    }
  }

  /** Sending a drained buffer out, as one batch unless it is empty, loses no order. */
  lemma DispatchInOrder(pending: map<Address, seq<Transaction>>, txs: seq<Transaction>,
                        added: seq<Transaction>, sent: seq<seq<Transaction>>)
    requires ByOwner(pending) && Drains(pending, txs) && InOrder(added, sent, pending)
    ensures InOrder(added, Extended(sent, txs), EMPTY)
  {
    FlattenAppend(sent, [txs]);
    assert Flatten([txs]) == txs;
    forall a
      ensures Restrict(added, a) == Restrict(Flatten(Extended(sent, txs)), a)
    {
      DrainsInOrder(pending, txs, a);
      RestrictAppend(Flatten(sent), txs, a);
    }
  }

  /** What one critical section may do: the buffer it leaves and the transactions it takes out. */
  ghost predicate Collects(b: Buffer, now: nat, b': Buffer, txs: seq<Transaction>) {
    Drains(b.pending, txs) && b' == Emptied(now)
  }

  ghost predicate Adds(cfg: Config, b: Buffer, t: Transaction, now: nat, b': Buffer, txs: seq<Transaction>) {
    if Due(cfg, Filled(b, t), now) then Collects(Filled(b, t), now, b', txs)
    else b' == Filled(b, t) && txs == []
  }

  ghost predicate Checks(cfg: Config, b: Buffer, now: nat, b': Buffer, txs: seq<Transaction>) {
    if b.totalSize > 0 && Due(cfg, b, now) then Collects(b, now, b', txs)
    else b' == b && txs == []
  }

  /** The check run once more at shutdown is gated like any other: it leaves nothing behind exactly when
      the buffer was empty or a flush was due anyway. */
  lemma ShutdownFlush(cfg: Config, b: Buffer, now: nat, b': Buffer, txs: seq<Transaction>)
    requires WellFormed(b) && Checks(cfg, b, now, b', txs)
    ensures PendingTxs(b'.pending) == multiset{} <==>
      || b.totalSize == 0
      || b.totalSize >= cfg.maxBatchSize
      || (if now < b.lastFlush then 0 else now - b.lastFlush) >= cfg.flushInterval
  {
  }

  /** A concrete shutdown that leaves a transaction in the buffer. */
  lemma ShutdownFlushCanLeave(t: Transaction)
    ensures var b := Filled(Emptied(0), t);
            && WellFormed(b) && Checks(Config(100, 5), b, 4, b, [])
            && PendingTxs(b.pending) == multiset{t}
  {
  }

  /** The batch manager. `outbox` lists the batches taken out of the buffer for the channel, oldest first;
      `added` is the history of everything ever added. */
  class BatchManager {
    const cfg: Config
    var pending: map<Address, seq<Transaction>>
    var totalSize: nat
    var lastFlush: nat
    var outbox: seq<seq<Transaction>>
    ghost var added: seq<Transaction>

    ghost function State(): Buffer
      reads this
    {
      Buffer(pending, totalSize, lastFlush)
    }

    ghost predicate SizesOk()
      reads this
    {
      forall i :: 0 <= i < |outbox| ==> 1 <= |outbox[i]| <= Max(1, cfg.maxBatchSize)
    }

    ghost predicate Valid()
      reads this
    {
      WellFormed(State()) && WithinLimit(cfg, State()) && InOrder(added, outbox, pending) && SizesOk()
    }

    constructor (cfg: Config, now: nat)
      ensures Valid() && this.cfg == cfg && State() == Emptied(now) && outbox == [] && added == []
      ensures pending == map[] && totalSize == 0 && lastFlush == now
    {
      this.cfg := cfg;
      pending, totalSize, lastFlush := EMPTY, 0, now;
      outbox, added := [], [];
    }

    method CollectForFlush(now: nat) returns (txs: seq<Transaction>)
      modifies this`pending, this`totalSize, this`lastFlush
      ensures Collects(old(State()), now, State(), txs)
      ensures pending == map[] && totalSize == 0 && lastFlush == now
    {
      txs := [];
      var rest := pending;
      assert forall more: seq<Transaction> :: [] + more == more;
      while rest != EMPTY
        invariant forall more :: Drains(rest, more) ==> Drains(pending, txs + more)
        decreases rest.Keys
      {
        var a :| a in rest;
        var next := rest - {a};
        assert next.Keys == rest.Keys - {a};
        forall more | Drains(next, more)
          ensures Drains(pending, txs + rest[a] + more)
        {
          var whole := rest[a] + more;
          assert whole[|rest[a]|..] == more;
          assert DrainsFrom(rest, a, whole);
          assert txs + rest[a] + more == txs + whole;
        }
        txs, rest := txs + rest[a], next;
      }
      assert Drains(rest, []) && txs + [] == txs;
      pending, totalSize, lastFlush := EMPTY, 0, now;
    }

    method AddTransaction(t: Transaction, now: nat)
      requires Valid()
      modifies this
      ensures Valid() && added == old(added) + [t]
      ensures exists txs :: Adds(cfg, old(State()), t, now, State(), txs)
                         && outbox == Extended(old(outbox), txs)
      ensures if old(totalSize) + 1 >= cfg.maxBatchSize
                 || (if now < old(lastFlush) then 0 else now - old(lastFlush)) >= cfg.flushInterval
              then |outbox| == |old(outbox)| + 1 && outbox[..|old(outbox)|] == old(outbox)
                   && multiset(outbox[|old(outbox)|]) == old(PendingTxs(pending)) + multiset{t}
                   && pending == map[] && totalSize == 0 && lastFlush == now
              else outbox == old(outbox) && lastFlush == old(lastFlush) && totalSize == old(totalSize) + 1
                   && pending == old(pending)[t.source :=
                        (if t.source in old(pending) then old(pending)[t.source] else []) + [t]]
    {
      hide Drains, PendingTxs, Restrict, Flatten, InOrder;
      FilledWellFormed(cfg, State(), t, now);
      AddInOrder(State(), t, added, outbox);
      ghost var full := Filled(State(), t);
      pending := pending[t.source := PendingOf(pending, t.source) + [t]];
      totalSize := totalSize + 1;
      added := added + [t];
      assert State() == full;
      var txs: seq<Transaction> := [];
      if totalSize >= cfg.maxBatchSize || Max(0, now - lastFlush) >= cfg.flushInterval {
        txs := CollectForFlush(now);
        Dispatch(full, txs);
        DrainsAll(full.pending, txs);
        PendingTxsFilled(old(State()), t);
        assert t in multiset(txs);
      }
      assert Adds(cfg, old(State()), t, now, State(), txs);
    }

    /** The hand-over shared by the three flushing operations. */
    method Dispatch(ghost taken: Buffer, txs: seq<Transaction>)
      requires State() == Emptied(lastFlush) && WellFormed(taken) && Drains(taken.pending, txs)
      requires taken.totalSize <= Max(1, cfg.maxBatchSize)
      requires InOrder(added, outbox, taken.pending) && SizesOk()
      modifies this`outbox
      ensures Valid() && outbox == Extended(old(outbox), txs)
    {
      DrainsAll(taken.pending, txs);
      assert |txs| == |multiset(txs)|;
      DispatchInOrder(taken.pending, txs, added, outbox);
      if txs != [] {
        outbox := outbox + [txs];
      }
    }

    method PerformFlushCheck(now: nat)
      requires Valid()
      modifies this
      ensures Valid() && added == old(added)
      ensures exists txs :: Checks(cfg, old(State()), now, State(), txs)
                         && outbox == Extended(old(outbox), txs)
      ensures if old(totalSize) > 0
                 && (old(totalSize) >= cfg.maxBatchSize
                     || (if now < old(lastFlush) then 0 else now - old(lastFlush)) >= cfg.flushInterval)
              then |outbox| == |old(outbox)| + 1 && outbox[..|old(outbox)|] == old(outbox)
                   && multiset(outbox[|old(outbox)|]) == old(PendingTxs(pending))
                   && pending == map[] && totalSize == 0 && lastFlush == now
              else outbox == old(outbox) && lastFlush == old(lastFlush) && totalSize == old(totalSize)
                   && pending == old(pending)
    {
      hide Drains, PendingTxs, Restrict, Flatten, InOrder;
      var txs: seq<Transaction> := [];
      if totalSize > 0 {
        if totalSize >= cfg.maxBatchSize || Max(0, now - lastFlush) >= cfg.flushInterval {
          ghost var was := State();
          txs := CollectForFlush(now);
          Dispatch(was, txs);
          DrainsAll(was.pending, txs);
        }
      }
      assert Checks(cfg, old(State()), now, State(), txs);
    }

    /** Unlike the gated check, this always empties the buffer: afterwards everything ever added has
        been put in the outbox. */
    method ForceFlush(now: nat)
      requires Valid()
      modifies this
      ensures Valid() && added == old(added) && State() == Emptied(now)
      ensures pending == map[] && totalSize == 0 && lastFlush == now
      ensures exists txs :: Collects(old(State()), now, State(), txs) && outbox == Extended(old(outbox), txs)
      ensures multiset(Flatten(outbox)) == multiset(added)
    {
      ghost var was := State();
      var txs := CollectForFlush(now);
      Dispatch(was, txs);
      forall a
        ensures Restrict(added, a) == Restrict(Flatten(outbox), a)
      {
        assert PendingOf(pending, a) == [];
      }
      SameRestrictions(added, Flatten(outbox));
    }
  }

  /** Sequences that agree address by address hold the same transactions. */
  lemma SameRestrictions(s: seq<Transaction>, t: seq<Transaction>)
    requires forall a :: Restrict(s, a) == Restrict(t, a)
    ensures multiset(s) == multiset(t)
  {
    forall x: Transaction
      ensures multiset(s)[x] == multiset(t)[x]
    {
      RestrictCount(s, x);
      RestrictCount(t, x);
    }
  }

  lemma {:induction false} RestrictCount(s: seq<Transaction>, x: Transaction)
    ensures multiset(s)[x] == multiset(Restrict(s, x.source))[x]
  {
    if s != [] {
      RestrictCount(s[1..], x);
      assert s == [s[0]] + s[1..];
    }
  }
}
