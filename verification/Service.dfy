/** The batch manager and the worker pool put together, as polling sets them up: what their operations do to
    the two objects is, whatever the order of the calls, a run of the pipeline system. */
module Service {
  import opened Transactions
  import opened Batching
  import opened Pipeline

  /** A call some task would like to make next. */
  datatype Request =
    | AddOne(t: Transaction, now: nat)
    | CheckFlush(now: nat)
    | FlushAll(now: nat)
    | SendOne(i: nat)
    | ReceiveOne(w: nat)
    | FinishOne(w: nat)
    | LeaveOne(w: nat)

  /** What the requests add, in order. */
  function Additions(requests: seq<Request>): seq<Transaction> {
    if requests == [] then []
    else
      var n := |requests| - 1;
      Additions(requests[..n]) + if requests[n].AddOne? then [requests[n].t] else []
  }

  lemma {:induction false} RunExtends(cfg: Config, s: State, steps: seq<Step>, s': State, step: Step)
    requires Run(cfg, s, steps, s') && Enabled(cfg, s', step)
    ensures Run(cfg, s, steps + [step], Apply(cfg, s', step))
    decreases steps
  {
    hide Enabled, Apply;
    if steps != [] {
      RunExtends(cfg, Apply(cfg, s, steps[0]), steps[1..], s', step);
      assert (steps + [step])[0] == steps[0] && (steps + [step])[1..] == steps[1..] + [step];
    } else {
      assert steps + [step] == [step] && [step][1..] == [];
    }
  }

  /** The outcome of a critical section is determined by what it takes out. */
  lemma BufferStep(cfg: Config, s: State, step: Step, b: Buffer)
    requires match step
      case Add(t, now, txs) => Adds(cfg, s.buffer, t, now, b, txs)
      case Check(now, txs) => Checks(cfg, s.buffer, now, b, txs)
      case Force(now, txs) => Collects(s.buffer, now, b, txs)
      case _ => false
    ensures Enabled(cfg, s, step)
    ensures Apply(cfg, s, step) == Taken(if step.Add? then s.(added := s.added + [step.t]) else s, b, step.txs)
  {
    hide Drains;
  }

  /** The objects, the batches on their way between them, and the history of the steps taken. */
  class IngestService {
    const manager: BatchManager
    const pool: WorkerPool
    var unsent: seq<Batch>
    var pickedUp: nat
    ghost var collected: seq<Batch>
    ghost var steps: seq<Step>
    ghost const start: State

    ghost function State(): Pipeline.State
      reads this, manager, pool
    {
      Pipeline.State(manager.State(), unsent, pool.State(), manager.added, collected)
    }

    /** The fields of all objects are the outcome of a run of the pipeline. */
    ghost predicate Valid()
      reads this, manager, pool
    {
      && manager.Valid() && pool.Valid()
      && manager.outbox == Contents(collected) && pickedUp == |collected|
      && Run(manager.cfg, start, steps, State())
    }

    constructor (cfg: Config, workerCount: nat, now: nat)
      ensures Valid() && fresh(manager) && fresh(pool) && manager.cfg == cfg
      ensures start == Start(workerCount, now) && steps == [] && manager.added == []
    {
      manager := new BatchManager(cfg, now);
      pool := new WorkerPool(workerCount);
      unsent, pickedUp, collected, steps := [], 0, [], [];
      start := Start(workerCount, now);
    }

    /** What a critical section took out goes to the task that will send it. */
    method PickUp(ghost was: Pipeline.State, ghost step: Step)
      requires manager.Valid() && pool.Valid()
      requires Contents(was.collected) == Contents(collected) && was.collected == collected && pickedUp == |collected|
      requires was.unsent == unsent && was.pool == pool.State()
      requires step.Add? || step.Check? || step.Force?
      requires Run(manager.cfg, start, steps, was) && Enabled(manager.cfg, was, step)
      requires Apply(manager.cfg, was, step) == Taken(was.(added := manager.added), manager.State(), step.txs)
      requires manager.outbox == Extended(Contents(collected), step.txs)
      modifies this
      ensures Valid() && steps == old(steps) + [step]
    {
      hide BatchManager.Valid, WorkerPool.Valid, Enabled, Apply, Run, BatchManager.State, WorkerPool.State;
      RunExtends(manager.cfg, start, steps, was, step);
      steps := steps + [step];
      if |manager.outbox| > pickedUp {
        var batch := Batch(pickedUp, manager.outbox[pickedUp]);
        unsent, pickedUp, collected := unsent + [batch], pickedUp + 1, collected + [batch];
      }
      assert manager.outbox == Contents(collected);
    }

    method Add(t: Transaction, now: nat)
      requires Valid()
      modifies this, manager
      ensures Valid() && manager.added == old(manager.added) + [t]
      ensures exists txs :: steps == old(steps) + [Step.Add(t, now, txs)]
    {
      ghost var was := State();
      manager.AddTransaction(t, now);
      ghost var txs :| Adds(manager.cfg, was.buffer, t, now, manager.State(), txs)
                    && manager.outbox == Extended(Contents(collected), txs);
      BufferStep(manager.cfg, was, Step.Add(t, now, txs), manager.State());
      PickUp(was, Step.Add(t, now, txs));
    }

    method Check(now: nat)
      requires Valid()
      modifies this, manager
      ensures Valid() && manager.added == old(manager.added)
      ensures exists txs :: steps == old(steps) + [Step.Check(now, txs)]
    {
      ghost var was := State();
      manager.PerformFlushCheck(now);
      ghost var txs :| Checks(manager.cfg, was.buffer, now, manager.State(), txs)
                    && manager.outbox == Extended(Contents(collected), txs);
      BufferStep(manager.cfg, was, Step.Check(now, txs), manager.State());
      PickUp(was, Step.Check(now, txs));
    }

    method Force(now: nat)
      requires Valid()
      modifies this, manager
      ensures Valid() && manager.added == old(manager.added)
      ensures exists txs :: steps == old(steps) + [Step.Force(now, txs)]
    {
      ghost var was := State();
      manager.ForceFlush(now);
      ghost var txs :| Collects(was.buffer, now, manager.State(), txs)
                    && manager.outbox == Extended(Contents(collected), txs);
      BufferStep(manager.cfg, was, Step.Force(now, txs), manager.State());
      PickUp(was, Step.Force(now, txs));
    }

    method Send(i: nat)
      requires Valid() && Enabled(manager.cfg, State(), Step.Send(i))
      modifies this, pool
      ensures Valid() && steps == old(steps) + [Step.Send(i)]
    {
      hide BatchManager.Valid, PoolInv, InPool, Run, Contents;
      RunExtends(manager.cfg, start, steps, State(), Step.Send(i));
      steps := steps + [Step.Send(i)];
      var ok := pool.Send(unsent[i]);
      unsent := Without(unsent, i);
    }

    method Receive(w: nat)
      requires Valid() && Enabled(manager.cfg, State(), Step.Receive(w))
      modifies this, pool
      ensures Valid() && steps == old(steps) + [Step.Receive(w)]
    {
      hide BatchManager.Valid, PoolInv, InPool, Run, Contents;
      RunExtends(manager.cfg, start, steps, State(), Step.Receive(w));
      steps := steps + [Step.Receive(w)];
      pool.Receive(w);
    }

    method Finish(w: nat)
      requires Valid() && Enabled(manager.cfg, State(), Step.Finish(w))
      modifies this, pool
      ensures Valid() && steps == old(steps) + [Step.Finish(w)]
    {
      hide BatchManager.Valid, PoolInv, InPool, Run, Contents;
      RunExtends(manager.cfg, start, steps, State(), Step.Finish(w));
      steps := steps + [Step.Finish(w)];
      pool.Finish(w);
    }

    method Leave(w: nat)
      requires Valid() && Enabled(manager.cfg, State(), Step.Leave(w))
      modifies this, pool
      ensures Valid() && steps == old(steps) + [Step.Leave(w)]
    {
      hide BatchManager.Valid, PoolInv, InPool, Run, Contents;
      RunExtends(manager.cfg, start, steps, State(), Step.Leave(w));
      steps := steps + [Step.Leave(w)];
      pool.Leave(w);
    }

    /** One call, which has to wait, and here does nothing, when it cannot go on. */
    method Perform(request: Request)
      requires Valid()
      modifies this, manager, pool
      ensures Valid() && old(steps) <= steps
      ensures manager.added == old(manager.added) + if request.AddOne? then [request.t] else []
      ensures match request
        case AddOne(t, now) => exists txs :: steps == old(steps) + [Step.Add(t, now, txs)]
        case CheckFlush(now) => exists txs :: steps == old(steps) + [Step.Check(now, txs)]
        case FlushAll(now) => exists txs :: steps == old(steps) + [Step.Force(now, txs)]
        case SendOne(i) =>
          steps == old(steps) +
            if i < |old(unsent)| && (|old(pool.queue)| < 1000
                                     || forall w :: 0 <= w < |old(pool.workers)| ==> old(pool.workers)[w] == Gone)
            then [Step.Send(i)] else []
        case ReceiveOne(w) =>
          steps == old(steps) +
            if w < |old(pool.workers)| && old(pool.workers)[w] == Idle && old(pool.queue) != []
            then [Step.Receive(w)] else []
        case FinishOne(w) =>
          steps == old(steps) +
            if w < |old(pool.workers)| && old(pool.workers)[w].Busy? then [Step.Finish(w)] else []
        case LeaveOne(w) =>
          steps == old(steps) +
            if w < |old(pool.workers)| && old(pool.workers)[w] != Gone then [Step.Leave(w)] else []
    {
      hide Run, InPool, PoolInv, BatchManager.Valid;
      match request
      case AddOne(t, now) => Add(t, now);
      case CheckFlush(now) => Check(now);
      case FlushAll(now) => Force(now);
      case SendOne(i) =>
        if i < |unsent| && (!Open(pool.workers) || |pool.queue| < CAPACITY) {
          Send(i);
        }
      case ReceiveOne(w) =>
        if w < |pool.workers| && pool.workers[w].Idle? && pool.queue != [] {
          Receive(w);
        }
      case FinishOne(w) =>
        if w < |pool.workers| && pool.workers[w].Busy? {
          Finish(w);
        }
      case LeaveOne(w) =>
        if w < |pool.workers| && pool.workers[w] != Gone {
          Leave(w);
        }
    }

    /** What the results about all runs say about the objects. */
    lemma Accounted()
      requires Valid() && exists workerCount, now :: start == Start(workerCount, now)
      ensures multiset(manager.added) ==
          PendingTxs(manager.pending) + Amount(multiset(unsent)) + Amount(multiset(pool.queue))
        + Amount(InHand(pool.workers)) + Amount(multiset(pool.finished)) + Amount(multiset(pool.lost))
      ensures forall a :: Restrict(manager.added, a)
                       == Restrict(Flatten(manager.outbox), a) + PendingOf(manager.pending, a)
    {
      var workerCount, now :| start == Start(workerCount, now);
      Conservation(manager.cfg, workerCount, now, steps, State());
    }
  }

  /** The service under any sequence of calls by its tasks: whatever their order, everything they add is accounted
      for, and each address's batches come in the order of its additions. */
  method Serve(cfg: Config, workerCount: nat, now: nat, requests: seq<Request>) returns (service: IngestService)
    ensures service.Valid() && service.start == Start(workerCount, now)
    ensures service.manager.added == Additions(requests)
    ensures multiset(Additions(requests)) ==
        PendingTxs(service.manager.pending) + Amount(multiset(service.unsent)) + Amount(multiset(service.pool.queue))
      + Amount(InHand(service.pool.workers)) + Amount(multiset(service.pool.finished))
      + Amount(multiset(service.pool.lost))
    ensures forall a :: Restrict(Additions(requests), a)
                     == Restrict(Flatten(service.manager.outbox), a) + PendingOf(service.manager.pending, a)
  {
    service := new IngestService(cfg, workerCount, now);
    for i := 0 to |requests|
      invariant service.Valid() && service.start == Start(workerCount, now)
      invariant fresh(service) && fresh(service.manager) && fresh(service.pool)
      invariant service.manager.added == Additions(requests[..i])
    {
      assert requests[..i + 1][..i] == requests[..i];
      service.Perform(requests[i]);
    }
    assert requests[..|requests|] == requests;
    service.Accounted();
  }
}
