/** The ingestion pipeline as a system of atomic steps: critical sections of the batch manager, sends
    into the bounded channel, and workers that share its receiver. Any interleaving is allowed. */
module Pipeline {
  import opened Transactions
  import opened Batching

  const CAPACITY: nat := 1000

  /** A vector handed to the channel. `id` numbers the collections and exists only in the history. */
  datatype Batch = Batch(id: nat, txs: seq<Transaction>)

  /** A worker task: waiting for the receiver, inside `process_batch`, or ended. */
  datatype Worker = Idle | Busy(batch: Batch) | Gone

  /** The channel and the workers. The other fields are histories: batches whose processing returned,
      batches lost, and all batches put into and taken out of the channel. */
  datatype Pool = Pool(queue: seq<Batch>, workers: seq<Worker>, finished: seq<Batch>, lost: seq<Batch>,
                       sent: seq<Batch>, received: seq<Batch>)

  /** `unsent` holds the batches taken from the buffer by tasks whose send has not completed. */
  datatype State = State(buffer: Buffer, unsent: seq<Batch>, pool: Pool,
                         added: seq<Transaction>, collected: seq<Batch>)

  datatype Step =
    | Add(t: Transaction, now: nat, txs: seq<Transaction>)
    | Check(now: nat, txs: seq<Transaction>)
    | Force(now: nat, txs: seq<Transaction>)
    | Send(i: nat)
    | Receive(w: nat)
    | Finish(w: nat)
    | Leave(w: nat)

  // ---------------------------------------------------------------- the channel and its workers

  /** The receiver lives as long as some worker holds it; sends fail afterwards. */
  predicate Open(workers: seq<Worker>) {
    exists w :: 0 <= w < |workers| && workers[w] != Gone
  }

  predicate CanSend(p: Pool) {
    !Open(p.workers) || |p.queue| < CAPACITY
  }

  function SendTo(p: Pool, b: Batch): Pool {
    if Open(p.workers) then p.(queue := p.queue + [b], sent := p.sent + [b]) else p.(lost := p.lost + [b])
  }

  predicate CanReceive(p: Pool, w: nat) {
    w < |p.workers| && p.workers[w].Idle? && p.queue != []
  }

  function ReceiveBy(p: Pool, w: nat): Pool
    requires CanReceive(p, w)
  {
    p.(queue := p.queue[1..], workers := p.workers[w := Busy(p.queue[0])], received := p.received + [p.queue[0]])
  }

  predicate CanFinish(p: Pool, w: nat) {
    w < |p.workers| && p.workers[w].Busy?
  }

  function FinishBy(p: Pool, w: nat): Pool
    requires CanFinish(p, w)
  {
    p.(workers := p.workers[w := Idle], finished := p.finished + [p.workers[w].batch])
  }

  predicate CanLeave(p: Pool, w: nat) {
    w < |p.workers| && p.workers[w] != Gone
  }

  function Held(w: Worker): seq<Batch> {
    if w.Busy? then [w.batch] else []
  }

  /** A worker task ends, by a panic or with its runtime. Its batch is lost, and with the last worker
      goes the receiver and everything still queued. */
  function LeaveBy(p: Pool, w: nat): Pool
    requires CanLeave(p, w)
  {
    var workers := p.workers[w := Gone];
    var dropped := Held(p.workers[w]) + if Open(workers) then [] else p.queue;
    p.(queue := if Open(workers) then p.queue else [], workers := workers, lost := p.lost + dropped)
  }

  function Fresh(workerCount: nat): Pool {
    Pool([], seq(workerCount, _ => Idle), [], [], [], [])
  }

  function InHand(workers: seq<Worker>): multiset<Batch> {
    if workers == [] then multiset{} else multiset(Held(workers[0])) + InHand(workers[1..])
  }

  /** Every batch the pool knows of, with multiplicity. */
  function InPool(p: Pool): multiset<Batch> {
    multiset(p.queue) + InHand(p.workers) + multiset(p.finished) + multiset(p.lost)
  }

  /** The channel is bounded, and first in, first out as long as some worker lives. */
  ghost predicate PoolInv(p: Pool) {
    && |p.queue| <= CAPACITY
    && (if Open(p.workers) then p.sent == p.received + p.queue else p.queue == [] && p.received <= p.sent)
  }

  /** The channel and worker handles, updated in place. No operation loses track of a batch, overfills the
      channel or takes batches out of turn. */
  class WorkerPool {
    var queue: seq<Batch>
    var workers: seq<Worker>
    ghost var finished: seq<Batch>
    ghost var lost: seq<Batch>
    ghost var sent: seq<Batch>
    ghost var received: seq<Batch>

    ghost function State(): Pool
      reads this
    {
      Pool(queue, workers, finished, lost, sent, received)
    }

    ghost predicate Valid()
      reads this
    {
      PoolInv(State())
    }

    constructor (workerCount: nat)
      ensures Valid() && State() == Fresh(workerCount) && InPool(State()) == multiset{}
      ensures queue == [] && |workers| == workerCount && forall w :: 0 <= w < workerCount ==> workers[w] == Idle
    {
      queue, finished, lost, sent, received := [], [], [], [], [];
      var started: seq<Worker> := [];
      for id := 0 to workerCount
        invariant started == seq(id, _ => Idle)
      {
        started := started + [Idle];
      }
      workers := started;
      new;
      IdleHandsEmpty(workerCount);
    }

    /** The batch is in the pool afterwards: queued behind all others, or lost if no worker is left. */
    method Send(b: Batch) returns (ok: bool)
      requires Valid() && CanSend(State())
      modifies this
      ensures Valid() && InPool(State()) == old(InPool(State())) + multiset{b}
      ensures State() == SendTo(old(State()), b) && ok == Open(workers)
    {
      hide InPool, PoolInv;
      SendKeeps(State(), b);
      ok := exists w :: 0 <= w < |workers| && workers[w] != Gone;
      if ok {
        queue := queue + [b];
        sent := sent + [b];
      } else {
        lost := lost + [b];
      }
    }

    method Receive(w: nat)
      requires Valid() && CanReceive(State(), w)
      modifies this
      ensures Valid() && InPool(State()) == old(InPool(State()))
      ensures State() == ReceiveBy(old(State()), w)
    {
      hide InPool, PoolInv;
      ReceiveKeeps(State(), w);
      workers := workers[w := Busy(queue[0])];
      received := received + [queue[0]];
      queue := queue[1..];
    }

    method Finish(w: nat)
      requires Valid() && CanFinish(State(), w)
      modifies this
      ensures Valid() && InPool(State()) == old(InPool(State()))
      ensures State() == FinishBy(old(State()), w)
    {
      hide InPool, PoolInv;
      FinishKeeps(State(), w);
      finished := finished + [workers[w].batch];
      workers := workers[w := Idle];
    }

    method Leave(w: nat)
      requires Valid() && CanLeave(State(), w)
      modifies this
      ensures Valid() && InPool(State()) == old(InPool(State()))
      ensures State() == LeaveBy(old(State()), w)
    {
      hide InPool, PoolInv;
      LeaveKeeps(State(), w);
      ghost var held := Held(workers[w]);
      assert lost + (held + queue) == lost + held + queue && lost + (held + []) == lost + held;
      lost := lost + Held(workers[w]);
      workers := workers[w := Gone];
      if !exists v :: 0 <= v < |workers| && workers[v] != Gone {
        lost := lost + queue;
        queue := [];
      }
    }
  }

  // ---------------------------------------------------------------- steps and runs

  function Without(s: seq<Batch>, i: nat): seq<Batch>
    requires i < |s|
  {
    s[..i] + s[i + 1..]
  }

  ghost predicate Enabled(cfg: Config, s: State, step: Step) {
    match step
    case Add(t, now, txs) => exists b' :: Adds(cfg, s.buffer, t, now, b', txs)
    case Check(now, txs) => exists b' :: Checks(cfg, s.buffer, now, b', txs)
    case Force(now, txs) => exists b' :: Collects(s.buffer, now, b', txs)
    case Send(i) => i < |s.unsent| && CanSend(s.pool)
    case Receive(w) => CanReceive(s.pool, w)
    case Finish(w) => CanFinish(s.pool, w)
    case Leave(w) => CanLeave(s.pool, w)
  }

  /** The state after a critical section that left `b` and took `txs` out. */
  function Taken(s: State, b: Buffer, txs: seq<Transaction>): State {
    var batch := Batch(|s.collected|, txs);
    if txs == [] then s.(buffer := b)
    else s.(buffer := b, unsent := s.unsent + [batch], collected := s.collected + [batch])
  }

  ghost function Apply(cfg: Config, s: State, step: Step): State
    requires Enabled(cfg, s, step)
  {
    match step
    case Add(t, now, txs) =>
      var b' :| Adds(cfg, s.buffer, t, now, b', txs);
      Taken(s.(added := s.added + [t]), b', txs)
    case Check(now, txs) =>
      var b' :| Checks(cfg, s.buffer, now, b', txs);
      Taken(s, b', txs)
    case Force(now, txs) =>
      var b' :| Collects(s.buffer, now, b', txs);
      Taken(s, b', txs)
    case Send(i) => s.(unsent := Without(s.unsent, i), pool := SendTo(s.pool, s.unsent[i]))
    case Receive(w) => s.(pool := ReceiveBy(s.pool, w))
    case Finish(w) => s.(pool := FinishBy(s.pool, w))
    case Leave(w) => s.(pool := LeaveBy(s.pool, w))
  }

  /** `s'` is reached from `s` by taking `steps` one after the other. */
  ghost predicate Run(cfg: Config, s: State, steps: seq<Step>, s': State)
    decreases steps
  {
    if steps == [] then s' == s
    else Enabled(cfg, s, steps[0]) && Run(cfg, Apply(cfg, s, steps[0]), steps[1..], s')
  }

  function Start(workerCount: nat, now: nat): State {
    State(Emptied(now), [], Fresh(workerCount), [], [])
  }

  // ---------------------------------------------------------------- the invariant

  function Places(s: State): multiset<Batch> {
    multiset(s.unsent) + InPool(s.pool)
  }

  function Contents(batches: seq<Batch>): seq<seq<Transaction>> {
    seq(|batches|, i requires 0 <= i < |batches| => batches[i].txs)
  }

  /** The transactions in some batches, with multiplicity. */
  ghost function Amount(batches: multiset<Batch>): multiset<Transaction>
    decreases |batches|
  {
    if batches == multiset{} then multiset{}
    else
      var b :| b in batches;
      multiset(b.txs) + Amount(batches - multiset{b})
  }

  /** The buffer is sound, no address's order is lost, and every batch is accounted for. */
  ghost predicate Inv(cfg: Config, s: State) {
    && WellFormed(s.buffer) && WithinLimit(cfg, s.buffer)
    && InOrder(s.added, Contents(s.collected), s.buffer.pending)
    && PlacesInv(cfg, s)
  }

  /** Collections are numbered and bounded; each is in exactly one place; the channel is bounded. */
  ghost predicate PlacesInv(cfg: Config, s: State) {
    && (forall i :: 0 <= i < |s.collected| ==>
          s.collected[i].id == i && 1 <= |s.collected[i].txs| <= Max(1, cfg.maxBatchSize))
    && Places(s) == multiset(s.collected)
    && PoolInv(s.pool)
  }

  lemma {:induction false} InHandSplit(workers: seq<Worker>, w: nat)
    requires w < |workers|
    ensures InHand(workers) == multiset(Held(workers[w])) + InHand(workers[..w] + workers[w + 1..])
  {
    var rest := workers[..w] + workers[w + 1..];
    if w == 0 {
      assert rest == workers[1..];
    } else {
      InHandSplit(workers[1..], w - 1);
      assert rest[0] == workers[0] && rest[1..] == workers[1..][..w - 1] + workers[1..][w..];
      assert workers[1..][w..] == workers[w + 1..];
    }
  }

  /** Changing one worker changes only what that worker holds. */
  lemma InHandUpdate(workers: seq<Worker>, w: nat, x: Worker) returns (others: multiset<Batch>)
    requires w < |workers|
    ensures InHand(workers) == multiset(Held(workers[w])) + others
    ensures InHand(workers[w := x]) == multiset(Held(x)) + others
  {
    others := InHand(workers[..w] + workers[w + 1..]);
    InHandSplit(workers, w);
    InHandSplit(workers[w := x], w);
    assert workers[w := x][..w] == workers[..w] && workers[w := x][w + 1..] == workers[w + 1..];
  }

  /** A send adds exactly its batch, within the capacity and behind all others. */
  lemma SendKeeps(p: Pool, b: Batch)
    requires PoolInv(p) && CanSend(p)
    ensures InPool(SendTo(p, b)) == InPool(p) + multiset{b} && PoolInv(SendTo(p, b))
  {
  }

  lemma Carry<T>(queue: multiset<T>, b: multiset<T>, hand: multiset<T>, finished: multiset<T>, lost: multiset<T>)
    ensures queue + b + hand + finished + lost == queue + (b + hand) + finished + lost
  {
  }

  lemma Lose<T>(queue: multiset<T>, held: multiset<T>, hand: multiset<T>, finished: multiset<T>, lost: multiset<T>)
    ensures queue + held + hand + finished + lost == queue + hand + finished + (lost + held)
  {
  }

  lemma LoseAll<T>(queue: multiset<T>, held: multiset<T>, hand: multiset<T>, finished: multiset<T>, lost: multiset<T>)
    ensures queue + (held + hand) + finished + lost == multiset{} + hand + finished + (lost + (held + queue))
  {
  }

  lemma ReceiveOrdered(p: Pool, w: nat)
    requires PoolInv(p) && CanReceive(p, w)
    ensures PoolInv(ReceiveBy(p, w))
  {
    assert ReceiveBy(p, w).workers[w] != Gone;
  }

  lemma FinishOrdered(p: Pool, w: nat)
    requires PoolInv(p) && CanFinish(p, w)
    ensures PoolInv(FinishBy(p, w))
  {
    assert FinishBy(p, w).workers[w] != Gone;
  }

  /** Receiving moves the oldest batch into a worker's hands. */
  lemma ReceiveKeeps(p: Pool, w: nat)
    requires PoolInv(p) && CanReceive(p, w)
    ensures InPool(ReceiveBy(p, w)) == InPool(p) && PoolInv(ReceiveBy(p, w))
  {
    ReceiveOrdered(p, w);
    hide InHand, PoolInv;
    var b := p.queue[0];
    var others := InHandUpdate(p.workers, w, Busy(b));
    assert InHand(p.workers) == others && InHand(ReceiveBy(p, w).workers) == multiset{b} + others;
    HeadOut(p.queue);
    assert multiset(p.queue) == multiset(p.queue[1..]) + multiset{b};
    Carry(multiset(p.queue[1..]), multiset{b}, others, multiset(p.finished), multiset(p.lost));
  }

  /** Finishing moves a batch out of a worker's hands. */
  lemma FinishKeeps(p: Pool, w: nat)
    requires PoolInv(p) && CanFinish(p, w)
    ensures InPool(FinishBy(p, w)) == InPool(p) && PoolInv(FinishBy(p, w))
  {
    FinishOrdered(p, w);
    hide InHand, PoolInv;
    var others := InHandUpdate(p.workers, w, Idle);
    assert multiset(Held(Idle)) == multiset{};
  }

  lemma LeaveOrdered(p: Pool, w: nat)
    requires PoolInv(p) && CanLeave(p, w)
    ensures PoolInv(LeaveBy(p, w))
  {
  }

  /** An ending worker's batch, and with the last worker everything queued, is lost but still accounted for. */
  lemma LeaveKeeps(p: Pool, w: nat)
    requires PoolInv(p) && CanLeave(p, w)
    ensures InPool(LeaveBy(p, w)) == InPool(p) && PoolInv(LeaveBy(p, w))
  {
    LeaveOrdered(p, w);
    hide InHand, PoolInv;
    var others := InHandUpdate(p.workers, w, Gone);
    var dropped := Held(p.workers[w]);
    assert InHand(p.workers) == multiset(dropped) + others && InHand(LeaveBy(p, w).workers) == others;
    var queue, held, finished, lost := multiset(p.queue), multiset(dropped), multiset(p.finished), multiset(p.lost);
    if Open(p.workers[w := Gone]) {
      assert dropped + [] == dropped;
      Carry(queue, held, others, finished, lost);
      Lose(queue, held, others, finished, lost);
    } else {
      assert multiset(dropped + p.queue) == held + queue;
      LoseAll(queue, held, others, finished, lost);
    }
  }

  lemma TakenKeeps(cfg: Config, s: State, full: Buffer, b: Buffer, now: nat, txs: seq<Transaction>)
    requires WellFormed(full) && full.totalSize <= Max(1, cfg.maxBatchSize) && Collects(full, now, b, txs)
    requires InOrder(s.added, Contents(s.collected), full.pending) && PlacesInv(cfg, s)
    ensures Inv(cfg, Taken(s, b, txs))
  {
    hide Drains, Restrict, Flatten, PlacesInv;
    var s' := Taken(s, b, txs);
    DrainsAll(full.pending, txs);
    assert |txs| == |multiset(txs)|;
    DispatchInOrder(full.pending, txs, s.added, Contents(s.collected));
    assert Contents(s'.collected) == Extended(Contents(s.collected), txs);
    TakenPlaces(cfg, s, b, txs);
  }

  lemma TakenPlaces(cfg: Config, s: State, b: Buffer, txs: seq<Transaction>)
    requires PlacesInv(cfg, s) && |txs| <= Max(1, cfg.maxBatchSize)
    ensures PlacesInv(cfg, Taken(s, b, txs))
  {
    hide InPool;
  }

  lemma AddKeeps(cfg: Config, s: State, step: Step)
    requires Inv(cfg, s) && step.Add? && Enabled(cfg, s, step)
    ensures Inv(cfg, Apply(cfg, s, step))
  {
    hide Drains, PendingTxs, Restrict, Flatten, InPool, InOrder, Contents;
    var s' := Apply(cfg, s, step);
    var full := Filled(s.buffer, step.t);
    FilledWellFormed(cfg, s.buffer, step.t, step.now);
    AddInOrder(s.buffer, step.t, s.added, Contents(s.collected));
    if Due(cfg, full, step.now) {
      TakenKeeps(cfg, s.(added := s.added + [step.t]), full, s'.buffer, step.now, step.txs);
    }
  }

  lemma FlushKeeps(cfg: Config, s: State, step: Step)
    requires Inv(cfg, s) && (step.Check? || step.Force?) && Enabled(cfg, s, step)
    ensures Inv(cfg, Apply(cfg, s, step))
  {
    var s' := Apply(cfg, s, step);
    if step.Force? || (s.buffer.totalSize > 0 && Due(cfg, s.buffer, step.now)) {
      TakenKeeps(cfg, s, s.buffer, s'.buffer, step.now, step.txs);
    }
  }

  lemma SendStepKeeps(cfg: Config, s: State, i: nat)
    requires PlacesInv(cfg, s) && Enabled(cfg, s, Send(i))
    ensures PlacesInv(cfg, Apply(cfg, s, Send(i)))
  {
    hide InPool, PoolInv;
    SplitAt(s.unsent, i);
    SendKeeps(s.pool, s.unsent[i]);
  }

  lemma WorkerStepKeeps(cfg: Config, s: State, step: Step)
    requires PlacesInv(cfg, s) && (step.Receive? || step.Finish? || step.Leave?) && Enabled(cfg, s, step)
    ensures PlacesInv(cfg, Apply(cfg, s, step))
  {
    hide InPool, InHand, Held, PoolInv;
    match step
    case Receive(w) => ReceiveKeeps(s.pool, w);
    case Finish(w) => FinishKeeps(s.pool, w);
    case Leave(w) => LeaveKeeps(s.pool, w);
  }

  lemma StepKeeps(cfg: Config, s: State, step: Step)
    requires Inv(cfg, s) && Enabled(cfg, s, step)
    ensures Inv(cfg, Apply(cfg, s, step))
  {
    match step
    case Add(_, _, _) => AddKeeps(cfg, s, step);
    case Check(_, _) => FlushKeeps(cfg, s, step);
    case Force(_, _) => FlushKeeps(cfg, s, step);
    case Send(i) => SendStepKeeps(cfg, s, i);
    case _ => WorkerStepKeeps(cfg, s, step);
  }

  lemma StartInv(cfg: Config, workerCount: nat, now: nat)
    ensures Inv(cfg, Start(workerCount, now))
  {
    IdleHandsEmpty(workerCount);
  }

  lemma {:induction false} IdleHandsEmpty(n: nat)
    ensures InHand(seq(n, _ => Idle)) == multiset{}
  {
    if n > 0 {
      IdleHandsEmpty(n - 1);
      assert seq(n, _ => Idle)[1..] == seq(n - 1, _ => Idle);
    }
  }

  lemma {:induction false} RunKeeps(cfg: Config, s: State, steps: seq<Step>, s': State)
    requires Inv(cfg, s) && Run(cfg, s, steps, s')
    ensures Inv(cfg, s')
    decreases steps
  {
    if steps != [] {
      StepKeeps(cfg, s, steps[0]);
      RunKeeps(cfg, Apply(cfg, s, steps[0]), steps[1..], s');
    }
  }

  // ---------------------------------------------------------------- what every run keeps

  lemma Exchange<T>(a: multiset<T>, b: multiset<T>, c: multiset<T>)
    ensures a + (b + c) == b + (a + c)
  {
  }

  lemma Associate<T>(a: multiset<T>, b: multiset<T>, c: multiset<T>)
    ensures a + (b + c) == a + b + c
  {
  }

  lemma {:induction false} AmountSplit(m: multiset<Batch>, b: Batch)
    requires b in m
    ensures Amount(m) == multiset(b.txs) + Amount(m - multiset{b})
    decreases |m|
  {
    var c :| c in m && Amount(m) == multiset(c.txs) + Amount(m - multiset{c});
    if c != b {
      var rest := m - multiset{b} - multiset{c};
      AmountSplit(m - multiset{c}, b);
      AmountSplit(m - multiset{b}, c);
      assert m - multiset{c} - multiset{b} == rest;
      Exchange(multiset(b.txs), multiset(c.txs), Amount(rest));
    }
  }

  lemma {:induction false} AmountSum(m: multiset<Batch>, n: multiset<Batch>)
    ensures Amount(m + n) == Amount(m) + Amount(n)
    decreases |m|
  {
    if m == multiset{} {
      assert m + n == n;
    } else {
      var b :| b in m;
      var rest := m - multiset{b};
      AmountSplit(m, b);
      AmountSplit(m + n, b);
      assert m + n - multiset{b} == rest + n;
      AmountSum(rest, n);
      Associate(multiset(b.txs), Amount(rest), Amount(n));
    }
  }

  lemma {:induction false} AmountFlat(batches: seq<Batch>)
    ensures Amount(multiset(batches)) == multiset(Flatten(Contents(batches)))
  {
    if batches != [] {
      var b, rest := batches[0], batches[1..];
      AmountFlat(rest);
      assert Contents(batches)[1..] == Contents(rest);
      HeadOut(batches);
      AmountSplit(multiset(batches), b);
    }
  }

  lemma HeadOut<T>(s: seq<T>)
    requires s != []
    ensures s[0] in multiset(s) && multiset(s) - multiset{s[0]} == multiset(s[1..])
  {
    assert s == [s[0]] + s[1..];
  }

  /** Conservation: at every moment of every run, everything ever added is pending, collected and
      unsent, queued, in a worker's hands, finished, or lost, each exactly as often as it was added. */
  lemma Conservation(cfg: Config, workerCount: nat, now: nat, steps: seq<Step>, s: State)
    requires Run(cfg, Start(workerCount, now), steps, s)
    ensures multiset(s.added) ==
        PendingTxs(s.buffer.pending)
      + Amount(multiset(s.unsent)) + Amount(multiset(s.pool.queue)) + Amount(InHand(s.pool.workers))
      + Amount(multiset(s.pool.finished)) + Amount(multiset(s.pool.lost))
  {
    StartInv(cfg, workerCount, now);
    RunKeeps(cfg, Start(workerCount, now), steps, s);
    InvConserves(cfg, s);
  }

  lemma InvConserves(cfg: Config, s: State)
    requires Inv(cfg, s)
    ensures multiset(s.added) ==
        PendingTxs(s.buffer.pending)
      + Amount(multiset(s.unsent)) + Amount(multiset(s.pool.queue)) + Amount(InHand(s.pool.workers))
      + Amount(multiset(s.pool.finished)) + Amount(multiset(s.pool.lost))
  {
    hide Amount, PendingTxs, Drains, Restrict, Flatten, InHand;
    var p := s.pool;
    AmountSum(multiset(s.unsent), InPool(p));
    AmountSum(multiset(p.queue) + InHand(p.workers) + multiset(p.finished), multiset(p.lost));
    AmountSum(multiset(p.queue) + InHand(p.workers), multiset(p.finished));
    AmountSum(multiset(p.queue), InHand(p.workers));
    AmountFlat(s.collected);
    var rest := SomeDrain(s.buffer.pending);
    DrainsAll(s.buffer.pending, rest);
    var sent := Flatten(Contents(s.collected));
    forall a
      ensures Restrict(s.added, a) == Restrict(sent + rest, a)
    {
      DrainsInOrder(s.buffer.pending, rest, a);
      RestrictAppend(sent, rest, a);
    }
    SameRestrictions(s.added, sent + rest);
  }

  /** No batch is in two places, in particular never with two workers, and none is ever processed twice. */
  lemma OnePlace(cfg: Config, workerCount: nat, now: nat, steps: seq<Step>, s: State, b: Batch, c: Batch)
    requires Run(cfg, Start(workerCount, now), steps, s)
    requires b in Places(s) && c in Places(s) && b.id == c.id
    ensures b == c && Places(s)[b] == 1
  {
    StartInv(cfg, workerCount, now);
    RunKeeps(cfg, Start(workerCount, now), steps, s);
    assert b in s.collected && c in s.collected;
    SplitAt(s.collected, b.id);
    assert b !in s.collected[..b.id] && b !in s.collected[b.id + 1..];
  }

  /** Restricted to one address, the batches in collection order followed by what is pending are
      exactly that address's additions, in order. */
  lemma PerAddressOrder(cfg: Config, workerCount: nat, now: nat, steps: seq<Step>, s: State, a: Address)
    requires Run(cfg, Start(workerCount, now), steps, s)
    ensures Restrict(s.added, a)
         == Restrict(Flatten(Contents(s.collected)), a) + PendingOf(s.buffer.pending, a)
  {
    StartInv(cfg, workerCount, now);
    RunKeeps(cfg, Start(workerCount, now), steps, s);
  }

  /** The channel is first in, first out: workers have taken a prefix of what was sent, and while some
      worker lives the rest is still queued, in order. */
  lemma FirstInFirstOut(cfg: Config, workerCount: nat, now: nat, steps: seq<Step>, s: State)
    requires Run(cfg, Start(workerCount, now), steps, s)
    ensures s.pool.received <= s.pool.sent
    ensures Open(s.pool.workers) ==> s.pool.sent == s.pool.received + s.pool.queue
  {
    StartInv(cfg, workerCount, now);
    RunKeeps(cfg, Start(workerCount, now), steps, s);
  }

  lemma {:induction false} FlatBound(s: seq<seq<Transaction>>, most: nat)
    requires forall i :: 0 <= i < |s| ==> |s[i]| <= most
    ensures |Flatten(s)| <= |s| * most
  {
    if s != [] {
      FlatBound(s[1..], most);
      OneMore(|s[1..]|, most);
    }
  }

  lemma OneMore(a: nat, b: nat)
    ensures (a + 1) * b == b + a * b
  {
  }

  /** The buffer counter is the number of pending transactions; every batch anywhere has between one and
      max(1, maxBatchSize) items; so the channel never holds more than a thousand times that. */
  lemma Bounds(cfg: Config, workerCount: nat, now: nat, steps: seq<Step>, s: State)
    requires Run(cfg, Start(workerCount, now), steps, s)
    ensures s.buffer.totalSize == |PendingTxs(s.buffer.pending)| < Max(1, cfg.maxBatchSize)
    ensures forall b :: b in Places(s) ==> 1 <= |b.txs| <= Max(1, cfg.maxBatchSize)
    ensures |s.pool.queue| <= 1000
    ensures |Amount(multiset(s.pool.queue))| <= 1000 * Max(1, cfg.maxBatchSize)
  {
    StartInv(cfg, workerCount, now);
    RunKeeps(cfg, Start(workerCount, now), steps, s);
    forall b | b in Places(s)
      ensures 1 <= |b.txs| <= Max(1, cfg.maxBatchSize)
    {
      assert b in s.collected;
    }
    assert forall b :: b in s.pool.queue ==> b in Places(s);
    QueueBound(s.pool.queue, Max(1, cfg.maxBatchSize));
  }

  lemma SizeOf(s: seq<Transaction>)
    ensures |multiset(s)| == |s|
  {
  }

  lemma Scale(a: nat, b: nat, c: nat)
    requires a <= b
    ensures a * c <= b * c
  {
  }

  lemma QueueBound(queue: seq<Batch>, most: nat)
    requires |queue| <= CAPACITY && forall i :: 0 <= i < |queue| ==> |queue[i].txs| <= most
    ensures |Amount(multiset(queue))| <= 1000 * most
  {
    hide Amount, Flatten;
    AmountFlat(queue);
    FlatBound(Contents(queue), most);
    SizeOf(Flatten(Contents(queue)));
    Scale(|queue|, CAPACITY, most);
  }

  /** All batches and workers work at once: as long as batches have only been queued, min(n, workerCount) of n queued
      ones can be taken by as many different workers, before any of them finishes. */
  lemma WorkersShare(cfg: Config, workerCount: nat, now: nat, before: seq<Step>, s: State)
    returns (steps: seq<Step>, s': State)
    requires Run(cfg, Start(workerCount, now), before, s)
    requires forall step :: step in before ==> !step.Receive? && !step.Finish? && !step.Leave?
    ensures Run(cfg, s, steps, s')
    ensures |s'.pool.workers| == workerCount
    ensures forall w :: 0 <= w < workerCount ==>
      s'.pool.workers[w] == if w < |s.pool.queue| then Busy(s.pool.queue[w]) else Idle
  {
    assert forall w :: 0 <= w < workerCount ==> Start(workerCount, now).pool.workers[w] == Idle;
    OnlyQueued(cfg, Start(workerCount, now), before, s);
    steps, s' := TakeEach(cfg, s, 0, Min(|s.pool.queue|, workerCount));
  }

  lemma {:induction false} OnlyQueued(cfg: Config, s: State, steps: seq<Step>, s': State)
    requires Run(cfg, s, steps, s')
    requires forall step :: step in steps ==> !step.Receive? && !step.Finish? && !step.Leave?
    ensures s'.pool.workers == s.pool.workers
    decreases steps
  {
    if steps != [] {
      OnlyQueued(cfg, Apply(cfg, s, steps[0]), steps[1..], s');
    }
  }

  lemma {:induction false} TakeEach(cfg: Config, s: State, w: nat, end: nat) returns (steps: seq<Step>, s': State)
    requires w <= end <= |s.pool.workers| && |s.pool.queue| >= end - w
    requires forall v :: w <= v < end ==> s.pool.workers[v] == Idle
    ensures Run(cfg, s, steps, s') && |s'.pool.workers| == |s.pool.workers|
    ensures forall v :: 0 <= v < |s.pool.workers| ==>
      s'.pool.workers[v] == if w <= v < end then Busy(s.pool.queue[v - w]) else s.pool.workers[v]
    decreases end - w
  {
    if w == end {
      steps, s' := [], s;
    } else {
      var next := Apply(cfg, s, Receive(w));
      steps, s' := TakeEach(cfg, next, w + 1, end);
      assert ([Receive(w)] + steps)[1..] == steps;
      steps := [Receive(w)] + steps;
    }
  }

  // ---------------------------------------------------------------- progress

  ghost predicate Undelivered(s: State) {
    s.buffer.totalSize > 0 || s.unsent != [] || s.pool.queue != [] || exists w :: CanFinish(s.pool, w)
  }

  /** Nothing is added and no worker ends. Checks and flushes may come at any time, also when they do nothing. */
  predicate Quiet(step: Step) {
    !step.Add? && !step.Leave?
  }

  /** The steps that move work along: flushes that take something out, sends, receives and finishes. */
  predicate Delivers(cfg: Config, s: State, step: Step) {
    match step
    case Force(_, _) => s.buffer.totalSize > 0
    case Check(now, _) => s.buffer.totalSize > 0 && Due(cfg, s.buffer, now)
    case Send(_) => true
    case Receive(_) => true
    case Finish(_) => true
    case _ => false
  }

  /** Who empties the buffer: the timer's check, as in the service, or a forced flush. */
  datatype Flusher = Timer | Forced

  predicate Uses(step: Step, via: Flusher) {
    if via.Timer? then !step.Force? else !step.Check?
  }

  function BusyCount(workers: seq<Worker>): nat {
    if workers == [] then 0 else |Held(workers[0])| + BusyCount(workers[1..])
  }

  function Measure(s: State): nat {
    (if s.buffer.totalSize > 0 then 4 else 0) + 3 * |s.unsent| + 2 * |s.pool.queue| + BusyCount(s.pool.workers)
  }

  lemma {:induction false} BusyUpdate(workers: seq<Worker>, w: nat, x: Worker)
    requires w < |workers|
    ensures BusyCount(workers[w := x]) == BusyCount(workers) - |Held(workers[w])| + |Held(x)|
  {
    if w > 0 {
      assert workers[w := x][1..] == workers[1..][w - 1 := x];
      BusyUpdate(workers[1..], w - 1, x);
    } else {
      assert workers[w := x][1..] == workers[1..];
    }
  }

  /** Nothing is ever stuck, not even with a full channel or without workers; and the timer alone is enough,
      once the flush interval has passed. */
  lemma NotStuck(cfg: Config, s: State, via: Flusher, now: nat) returns (step: Step)
    requires Inv(cfg, s) && Undelivered(s)
    ensures Delivers(cfg, s, step) && Enabled(cfg, s, step) && Quiet(step) && Uses(step, via)
    ensures step.Check? ==> now <= step.now <= Max(now, s.buffer.lastFlush + cfg.flushInterval)
  {
    if s.buffer.totalSize > 0 {
      var txs := SomeDrain(s.buffer.pending);
      var later := Max(now, s.buffer.lastFlush + cfg.flushInterval);
      assert Collects(s.buffer, later, Emptied(later), txs) && Collects(s.buffer, now, Emptied(now), txs);
      assert Checks(cfg, s.buffer, later, Emptied(later), txs);
      step := if via.Timer? then Check(later, txs) else Force(now, txs);
    } else if w :| CanFinish(s.pool, w) {
      step := Finish(w);
    } else if s.unsent != [] && CanSend(s.pool) {
      step := Send(0);
    } else {
      var w :| 0 <= w < |s.pool.workers| && s.pool.workers[w] != Gone;
      assert !CanFinish(s.pool, w);
      step := Receive(w);
    }
  }

  /** A quiet step never adds work, and a delivering one takes some away; with a worker alive nothing is lost. */
  lemma QuietDecreases(cfg: Config, s: State, step: Step)
    requires Inv(cfg, s) && Enabled(cfg, s, step) && Quiet(step)
    ensures Measure(Apply(cfg, s, step)) + (if Delivers(cfg, s, step) then 1 else 0) <= Measure(s)
    ensures Apply(cfg, s, step).added == s.added
    ensures Open(s.pool.workers) ==>
      Open(Apply(cfg, s, step).pool.workers) && Apply(cfg, s, step).pool.lost == s.pool.lost
  {
    var s' := Apply(cfg, s, step);
    match step
    case Receive(w) =>
      BusyUpdate(s.pool.workers, w, s'.pool.workers[w]);
      assert s'.pool.workers[w] != Gone;
    case Finish(w) =>
      BusyUpdate(s.pool.workers, w, Idle);
      assert s'.pool.workers[w] != Gone;
    case Force(now, txs) =>
      EmptyTakesNothing(s.buffer, txs);
    case _ =>
  }

  lemma EmptyTakesNothing(b: Buffer, txs: seq<Transaction>)
    requires WellFormed(b) && Drains(b.pending, txs)
    ensures b.totalSize == 0 ==> txs == []
  {
    DrainsAll(b.pending, txs);
    SizeOf(txs);
  }

  /** A schedule in which nothing is added and no worker ends. */
  ghost predicate Draining(cfg: Config, s: State, steps: seq<Step>, s': State)
    decreases steps
  {
    if steps == [] then s' == s
    else Quiet(steps[0]) && Enabled(cfg, s, steps[0]) && Draining(cfg, Apply(cfg, s, steps[0]), steps[1..], s')
  }

  /** How many steps of a schedule move work along. */
  ghost function Moves(cfg: Config, s: State, steps: seq<Step>): nat
    decreases steps
  {
    if steps == [] || !Enabled(cfg, s, steps[0]) then 0
    else (if Delivers(cfg, s, steps[0]) then 1 else 0) + Moves(cfg, Apply(cfg, s, steps[0]), steps[1..])
  }

  /** No step is left that would move work along, however long one waits. */
  ghost predicate AtRest(cfg: Config, s: State, via: Flusher) {
    forall step :: Delivers(cfg, s, step) && Uses(step, via) ==> !Enabled(cfg, s, step)
  }

  /** Everything ever added has been finished, except what had been lost before. */
  ghost predicate Delivered(s: State, s': State) {
    && s'.pool.lost == s.pool.lost
    && multiset(s.added) == Amount(multiset(s'.pool.finished)) + Amount(multiset(s.pool.lost))
  }

  /** However the remaining steps are scheduled, at most `Measure` of them move work along; and when none of
      these is left, whether the timer or a forced flush empties the buffer, everything ever added has been
      finished, except what was lost before, provided a worker was alive. */
  lemma {:induction false} EverySchedulingDrains(cfg: Config, s: State, steps: seq<Step>, s': State, via: Flusher)
    requires Inv(cfg, s) && Draining(cfg, s, steps, s')
    ensures Moves(cfg, s, steps) + Measure(s') <= Measure(s)
    ensures AtRest(cfg, s', via) ==> Measure(s') == 0 && !Undelivered(s')
    ensures AtRest(cfg, s', via) && Open(s.pool.workers) ==> Delivered(s, s')
    decreases steps
  {
    if steps == [] {
      if AtRest(cfg, s, via) {
        if Undelivered(s) {
          var step := NotStuck(cfg, s, via, 0);
        }
        NothingLeft(cfg, s);
      }
    } else {
      StepKeeps(cfg, s, steps[0]);
      QuietDecreases(cfg, s, steps[0]);
      EverySchedulingDrains(cfg, Apply(cfg, s, steps[0]), steps[1..], s', via);
    }
  }

  lemma NothingLeft(cfg: Config, s: State)
    requires Inv(cfg, s) && !Undelivered(s)
    ensures Measure(s) == 0 && Delivered(s, s)
  {
    forall w | 0 <= w < |s.pool.workers|
      ensures !s.pool.workers[w].Busy?
    {
      assert !CanFinish(s.pool, w);
    }
    NobodyBusy(s.pool.workers);
    InvConserves(cfg, s);
    assert PendingTxs(s.buffer.pending) == multiset{};
  }

  lemma {:induction false} NobodyBusy(workers: seq<Worker>)
    requires forall w :: 0 <= w < |workers| ==> !workers[w].Busy?
    ensures BusyCount(workers) == 0 && InHand(workers) == multiset{}
  {
    if workers != [] {
      NobodyBusy(workers[1..]);
    }
  }

  /** And such a schedule exists from every reachable state, by the timer alone or by forced flushes alone. */
  lemma {:induction false} SomeSchedulingDrains(cfg: Config, s: State, via: Flusher)
    returns (steps: seq<Step>, s': State)
    requires Inv(cfg, s)
    ensures Draining(cfg, s, steps, s') && !Undelivered(s') && forall i :: 0 <= i < |steps| ==> Uses(steps[i], via)
    decreases Measure(s)
  {
    hide Inv, Undelivered, Enabled, Apply, Delivers, Quiet, Uses, Measure;
    if Undelivered(s) {
      var step := NotStuck(cfg, s, via, 0);
      StepKeeps(cfg, s, step);
      QuietDecreases(cfg, s, step);
      steps, s' := SomeSchedulingDrains(cfg, Apply(cfg, s, step), via);
      steps := [step] + steps;
    } else {
      steps, s' := [], s;
    }
  }

  /** From any moment of any run: once nothing is added any more, every schedule moves work along a bounded
      number of times, a schedule with nothing left to move has delivered everything, and one exists that does. */
  lemma EveryRunDrains(cfg: Config, workerCount: nat, now: nat, before: seq<Step>, s: State, via: Flusher)
    requires Run(cfg, Start(workerCount, now), before, s)
    ensures forall steps, s' :: Draining(cfg, s, steps, s') ==> Moves(cfg, s, steps) <= Measure(s)
    ensures forall steps, s' :: Draining(cfg, s, steps, s') && AtRest(cfg, s', via) && Open(s.pool.workers) ==>
      Delivered(s, s')
    ensures exists steps, s' :: Draining(cfg, s, steps, s') && !Undelivered(s')
                             && forall i :: 0 <= i < |steps| ==> Uses(steps[i], via)
  {
    StartInv(cfg, workerCount, now);
    RunKeeps(cfg, Start(workerCount, now), before, s);
    forall steps, s' | Draining(cfg, s, steps, s')
      ensures Moves(cfg, s, steps) <= Measure(s)
      ensures AtRest(cfg, s', via) && Open(s.pool.workers) ==> Delivered(s, s')
    {
      EverySchedulingDrains(cfg, s, steps, s', via);
    }
    var steps, s' := SomeSchedulingDrains(cfg, s, via);
  }
}
