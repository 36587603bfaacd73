/** The two interleaving systems joined: a batch a worker takes from the channel is what its job on the tables
    processes. Each worker runs through `process_batch` while adds, flushes, sends, other workers and API requests
    interleave. */
module EndToEnd {
  import opened Transactions
  import opened Batching
  import opened Store
  import opened Processor
  import P = Pipeline
  import I = Ingest

  /** How a call to `process_batch` went: the addresses could not be read, or it fetched `answers` for the batch;
      `missed` are the endpoints whose registration failed or was undone before the insert, and `fault` tells
      whether storage failed. */
  datatype Outcome =
    | Unread
    | Fetched(snapshot: set<Address>, answers: seq<Option<Transaction>>, missed: set<Address>, fault: bool)

  /** Where a worker is. */
  datatype Phase =
    | Off
    | Taken
    | Asking(snapshot: set<Address>)
    | Storing(snapshot: set<Address>, answers: seq<Option<Transaction>>)
    | Done(outcome: Outcome)

  /** `outcomes` belong to the finished batches, in order; `before` are the signatures stored at the start. */
  datatype State = State(pipeline: P.State, store: I.System, phases: seq<Phase>, outcomes: seq<Outcome>,
                         before: set<Signature>)

  datatype Move =
    | Pipe(step: P.Step)
    | Api(request: I.Step)
    | Receive(w: nat)
    | ReadFails(w: nat)
    | Snapshot(w: nat)
    | Fetch(w: nat, answers: seq<Option<Transaction>>)
    | Register(w: nat, a: Address, now: nat, ok: bool)
    | Insert(w: nat, faultAt: Option<nat>)
    | Finish(w: nat)
    | Leave(w: nat)

  function SignaturesIn(txs: seq<Transaction>): seq<Signature> {
    seq(|txs|, i requires 0 <= i < |txs| => txs[i].signature)
  }

  function PipeStep(m: Move): Option<P.Step> {
    match m
    case Pipe(step) => Some(step)
    case Receive(w) => Some(P.Step.Receive(w))
    case Finish(w) => Some(P.Step.Finish(w))
    case Leave(w) => Some(P.Step.Leave(w))
    case _ => None
  }

  /** A job starts with the signatures of the batch its worker holds. */
  function StoreStep(workers: seq<P.Worker>, m: Move): Option<I.Step> {
    match m
    case Api(request) => Some(request)
    case Snapshot(w) =>
      if w < |workers| && workers[w].Busy? then Some(I.Step.Snapshot(w, SignaturesIn(workers[w].batch.txs))) else None
    case Fetch(w, answers) => Some(I.Step.Fetch(w, answers))
    case Register(w, a, now, ok) => Some(I.Step.Register(w, a, now, ok))
    case Insert(w, faultAt) => Some(I.Step.Insert(w, faultAt))
    case _ => None
  }

  predicate InPhase(phases: seq<Phase>, m: Move) {
    match m
    case Pipe(step) => step.Add? || step.Check? || step.Force? || step.Send?
    case Api(request) => request.ApiAdd? || request.ApiRemove?
    case Receive(w) => w < |phases|
    case ReadFails(w) => w < |phases| && phases[w].Taken?
    case Snapshot(w) => w < |phases| && phases[w].Taken?
    case Fetch(w, _) => w < |phases| && phases[w].Asking?
    case Register(w, _, _, _) => w < |phases| && phases[w].Storing?
    case Insert(w, _) => w < |phases| && phases[w].Storing?
    case Finish(w) => w < |phases| && phases[w].Done?
    case Leave(w) => w < |phases|
  }

  ghost predicate Enabled(cfg: Config, s: State, m: Move) {
    && InPhase(s.phases, m)
    && (PipeStep(m).Some? ==> P.Enabled(cfg, s.pipeline, PipeStep(m).value))
    && (var step := StoreStep(s.pipeline.pool.workers, m);
        (m.Snapshot? ==> step.Some?) && (step.Some? ==> I.Enabled(s.store, step.value)))
  }

  /** The phase of the moving worker afterwards. */
  function NextPhase(phase: Phase, store: I.System, m: Move): Phase
    requires m.Fetch? ==> phase.Asking?
    requires m.Insert? ==> phase.Storing? && I.Enabled(store, I.Step.Insert(m.w, m.faultAt))
  {
    match m
    case Receive(_) => Taken
    case ReadFails(_) => Done(Unread)
    case Snapshot(_) => Asking(store.tables.tracked.Keys)
    case Fetch(_, answers) =>
      if Relevant(answers, phase.snapshot) == [] then Done(Fetched(phase.snapshot, answers, {}, false))
      else Storing(phase.snapshot, answers)
    case Insert(w, faultAt) =>
      var j := store.jobs[w];
      Done(Fetched(phase.snapshot, phase.answers, EndpointsOf(j.txs) - j.registered, Faults(j.txs, faultAt)))
    case Finish(_) => Off
    case Leave(_) => Off
    case _ => phase
  }

  ghost function Apply(cfg: Config, s: State, m: Move): State
    requires Enabled(cfg, s, m)
  {
    var step := StoreStep(s.pipeline.pool.workers, m);
    State(
      if PipeStep(m).Some? then P.Apply(cfg, s.pipeline, PipeStep(m).value) else s.pipeline,
      if step.Some? then I.Apply(s.store, step.value) else s.store,
      if m.Pipe? || m.Api? then s.phases else s.phases[m.w := NextPhase(s.phases[m.w], s.store, m)],
      if m.Finish? then s.outcomes + [s.phases[m.w].outcome] else s.outcomes,
      s.before)
  }

  ghost predicate Run(cfg: Config, s: State, moves: seq<Move>, s': State)
    decreases moves
  {
    if moves == [] then s' == s
    else Enabled(cfg, s, moves[0]) && Run(cfg, Apply(cfg, s, moves[0]), moves[1..], s')
  }

  ghost predicate Initial(s: State, workerCount: nat, now: nat) {
    && s.pipeline == P.Start(workerCount, now)
    && I.Initial(s.store) && |s.store.jobs| == workerCount
    && s.phases == seq(workerCount, _ => Off) && s.outcomes == [] && s.before == s.store.tables.rows.Keys
  }

  // ---------------------------------------------------------------- the invariant

  /** Every endpoint was registered and still was at the insert, and storage did not fail. */
  predicate Clean(o: Outcome) {
    o.Fetched? && o.missed == {} && !o.fault
  }

  /** What is known of a call for some transactions: its answers are for them, and if it was clean, everything
      relevant is stored. */
  ghost predicate OutcomeInv(txs: seq<Transaction>, o: Outcome, stored: set<Signature>) {
    o.Fetched? ==>
      && Answered(SignaturesIn(txs), o.answers)
      && (Clean(o) ==> Signatures(Relevant(o.answers, o.snapshot)) <= stored)
  }

  /** Worker, job and phase fit together. */
  ghost predicate WorkerInv(worker: P.Worker, job: I.Job, phase: Phase, stored: set<Signature>) {
    match worker
    case Gone => phase.Off?
    case Idle => phase.Off? && job.Waiting?
    case Busy(b) =>
      match phase
      case Off => false
      case Taken => job.Waiting?
      case Asking(snapshot) => job == I.Fetching(SignaturesIn(b.txs), snapshot)
      case Storing(snapshot, answers) =>
        Answered(SignaturesIn(b.txs), answers) && job.Registering? && job.txs == Relevant(answers, snapshot)
      case Done(o) => job.Waiting? && OutcomeInv(b.txs, o, stored)
  }

  /** Everything stored was there before, or carries the signature of something that was added. */
  ghost predicate Traced(s: State) {
    s.store.tables.rows.Keys <= s.before + Signatures(s.pipeline.added)
  }

  ghost predicate Fits(s: State) {
    var (pool, stored) := (s.pipeline.pool, s.store.tables.rows.Keys);
    && |s.phases| == |s.store.jobs| == |pool.workers| && |s.outcomes| == |pool.finished|
    && (forall w :: 0 <= w < |s.phases| ==> WorkerInv(pool.workers[w], s.store.jobs[w], s.phases[w], stored))
    && (forall i :: 0 <= i < |s.outcomes| ==> OutcomeInv(pool.finished[i].txs, s.outcomes[i], stored))
  }

  ghost predicate Inv(cfg: Config, s: State) {
    P.Inv(cfg, s.pipeline) && I.Inv(s.store) && Fits(s) && Traced(s)
  }

  lemma WorkerKept(worker: P.Worker, job: I.Job, phase: Phase, stored: set<Signature>, more: set<Signature>)
    requires WorkerInv(worker, job, phase, stored) && stored <= more
    ensures WorkerInv(worker, job, phase, more)
  {
  }

  lemma OutcomeKept(txs: seq<Transaction>, o: Outcome, stored: set<Signature>, more: set<Signature>)
    requires OutcomeInv(txs, o, stored) && stored <= more
    ensures OutcomeInv(txs, o, more)
  {
  }

  /** What fits still fits when one worker has moved, to a state that fits, and rows were only added. */
  lemma FitsAfter(s: State, s': State, w: nat)
    requires Fits(s) && w < |s.phases| == |s'.phases| == |s'.store.jobs| == |s'.pipeline.pool.workers|
    requires s.store.tables.rows.Keys <= s'.store.tables.rows.Keys
    requires forall v :: 0 <= v < |s.phases| && v != w ==>
      && s'.pipeline.pool.workers[v] == s.pipeline.pool.workers[v] && s'.store.jobs[v] == s.store.jobs[v]
      && s'.phases[v] == s.phases[v]
    requires WorkerInv(s'.pipeline.pool.workers[w], s'.store.jobs[w], s'.phases[w], s'.store.tables.rows.Keys)
    requires s'.outcomes == s.outcomes && s'.pipeline.pool.finished == s.pipeline.pool.finished
    ensures Fits(s')
  {
    hide WorkerInv, OutcomeInv;
    var stored, more := s.store.tables.rows.Keys, s'.store.tables.rows.Keys;
    forall v | 0 <= v < |s.phases|
      ensures WorkerInv(s'.pipeline.pool.workers[v], s'.store.jobs[v], s'.phases[v], more)
    {
      if v != w {
        WorkerKept(s.pipeline.pool.workers[v], s.store.jobs[v], s.phases[v], stored, more);
      }
    }
    forall i | 0 <= i < |s.outcomes|
      ensures OutcomeInv(s'.pipeline.pool.finished[i].txs, s'.outcomes[i], more)
    {
      OutcomeKept(s.pipeline.pool.finished[i].txs, s.outcomes[i], stored, more);
    }
  }

  // ---------------------------------------------------------------- moves of the pipeline

  /** Buffers and sends leave workers and finished batches alone. */
  lemma PipeKeeps(cfg: Config, s: State, step: P.Step)
    requires Fits(s) && Enabled(cfg, s, Pipe(step))
    ensures Fits(Apply(cfg, s, Pipe(step)))
  {
    hide WorkerInv, OutcomeInv, Drains, Adds, Checks;
    var s' := Apply(cfg, s, Pipe(step));
    assert s'.pipeline.pool.workers == s.pipeline.pool.workers && s'.pipeline.pool.finished == s.pipeline.pool.finished;
  }

  lemma ReceiveKeeps(cfg: Config, s: State, w: nat)
    requires Fits(s) && Enabled(cfg, s, Receive(w))
    ensures Fits(Apply(cfg, s, Receive(w)))
  {
    FitsAfter(s, Apply(cfg, s, Receive(w)), w);
  }

  lemma LeaveKeeps(cfg: Config, s: State, w: nat)
    requires Fits(s) && Enabled(cfg, s, Leave(w))
    ensures Fits(Apply(cfg, s, Leave(w)))
  {
    FitsAfter(s, Apply(cfg, s, Leave(w)), w);
  }

  lemma FinishKeeps(cfg: Config, s: State, w: nat)
    requires Fits(s) && Enabled(cfg, s, Finish(w))
    ensures Fits(Apply(cfg, s, Finish(w)))
  {
    var s' := Apply(cfg, s, Finish(w));
    assert WorkerInv(s.pipeline.pool.workers[w], s.store.jobs[w], s.phases[w], s.store.tables.rows.Keys);
    hide OutcomeInv;
  }

  // ---------------------------------------------------------------- moves on the tables

  lemma ApiKeeps(cfg: Config, s: State, request: I.Step)
    requires Fits(s) && I.Inv(s.store) && Enabled(cfg, s, Api(request))
    ensures Fits(Apply(cfg, s, Api(request)))
  {
    hide OutcomeInv, I.Inv;
    var s' := Apply(cfg, s, Api(request));
    assert s'.store.tables.rows == s.store.tables.rows;
    forall w | 0 <= w < |s.phases|
      ensures WorkerInv(s'.pipeline.pool.workers[w], s'.store.jobs[w], s'.phases[w], s'.store.tables.rows.Keys)
    {
      assert WorkerInv(s.pipeline.pool.workers[w], s.store.jobs[w], s.phases[w], s.store.tables.rows.Keys);
    }
  }

  /** Up to the insert a job stores nothing. */
  lemma CallKeeps(cfg: Config, s: State, m: Move)
    requires Fits(s) && Enabled(cfg, s, m) && (m.ReadFails? || m.Snapshot? || m.Fetch? || m.Register?)
    ensures Fits(Apply(cfg, s, m)) && Apply(cfg, s, m).store.tables.rows == s.store.tables.rows
  {
    var s' := Apply(cfg, s, m);
    var w := m.w;
    assert WorkerInv(s.pipeline.pool.workers[w], s.store.jobs[w], s.phases[w], s.store.tables.rows.Keys);
    FitsAfter(s, s', w);
  }

  /** An insert of which no endpoint is missing, and that storage does not fail, stores its transactions. */
  lemma InsertStores(store: I.System, w: nat, faultAt: Option<nat>)
    requires I.Inv(store) && I.Enabled(store, I.Step.Insert(w, faultAt))
    requires EndpointsOf(store.jobs[w].txs) - store.jobs[w].registered == {} && !Faults(store.jobs[w].txs, faultAt)
    ensures Signatures(store.jobs[w].txs) <= I.Apply(store, I.Step.Insert(w, faultAt)).tables.rows.Keys
  {
    var j := store.jobs[w];
    assert forall a :: a in EndpointsOf(j.txs) ==> a in EndpointsOf(j.txs) - j.registered || a in j.registered;
    hide I.Inv;
    I.RegisteredCommits(store, w, faultAt);
  }

  lemma InsertKeeps(cfg: Config, s: State, w: nat, faultAt: Option<nat>)
    requires Fits(s) && I.Inv(s.store) && Enabled(cfg, s, Insert(w, faultAt))
    ensures Fits(Apply(cfg, s, Insert(w, faultAt)))
  {
    hide I.Inv, Relevant, Answered, EndpointsOf, Signatures, Faults, Committed;
    var s' := Apply(cfg, s, Insert(w, faultAt));
    assert WorkerInv(s.pipeline.pool.workers[w], s.store.jobs[w], s.phases[w], s.store.tables.rows.Keys);
    I.StepKeeps(s.store, I.Step.Insert(w, faultAt));
    if Clean(s'.phases[w].outcome) {
      InsertStores(s.store, w, faultAt);
    }
    FitsAfter(s, s', w);
  }

  // ---------------------------------------------------------------- where rows come from

  /** Whatever is in a batch anywhere was added. */
  lemma BatchAdded(cfg: Config, p: P.State, b: P.Batch, t: Transaction)
    requires P.Inv(cfg, p) && b in P.Places(p) && t in b.txs
    ensures t in p.added
  {
    hide P.InPool, P.PoolInv, WellFormed, WithinLimit, Restrict;
    assert b in p.collected;
    var i :| 0 <= i < |p.collected| && p.collected[i] == b;
    var sent := Flatten(P.Contents(p.collected));
    FlattenHolds(P.Contents(p.collected), i, t);
    assert t in multiset(sent);
    RestrictCount(sent, t);
    RestrictCount(p.added, t);
    assert Restrict(p.added, t.source) == Restrict(sent, t.source) + PendingOf(p.buffer.pending, t.source);
    assert t in multiset(p.added);
  }

  lemma HeldAdded(cfg: Config, p: P.State, w: nat)
    requires P.Inv(cfg, p) && w < |p.pool.workers| && p.pool.workers[w].Busy?
    ensures Signatures(p.pool.workers[w].batch.txs) <= Signatures(p.added)
  {
    var b := p.pool.workers[w].batch;
    P.InHandSplit(p.pool.workers, w);
    assert b in P.Held(p.pool.workers[w]) && b in P.InHand(p.pool.workers);
    hide P.Inv, P.InHand;
    assert b in P.Places(p);
    hide *;
    forall t | t in b.txs
      ensures t in p.added
    {
      BatchAdded(cfg, p, b, t);
    }
    SameSignatures(b.txs, p.added);
  }

  lemma SameSignatures(some: seq<Transaction>, all: seq<Transaction>)
    requires forall t :: t in some ==> t in all
    ensures Signatures(some) <= Signatures(all)
  {
  }

  /** Answers carry the signatures they were asked for. */
  lemma AnswersSigned(txs: seq<Transaction>, answers: seq<Option<Transaction>>, snapshot: set<Address>)
    requires Answered(SignaturesIn(txs), answers)
    ensures Signatures(Relevant(answers, snapshot)) <= Signatures(txs)
  {
    forall t | t in Relevant(answers, snapshot)
      ensures t.signature in Signatures(txs)
    {
      RelevantMeaning(answers, snapshot, t);
      var i :| 0 <= i < |answers| && answers[i] == Some(t);
      assert txs[i] in txs && txs[i].signature == t.signature;
    }
  }

  lemma InsertTraced(cfg: Config, s: State, w: nat, faultAt: Option<nat>)
    requires Inv(cfg, s) && Enabled(cfg, s, Insert(w, faultAt))
    ensures Traced(Apply(cfg, s, Insert(w, faultAt)))
  {
    hide P.Inv, I.Inv, OutcomeInv, Answered, Relevant, Signatures, InsertAll, Insertable, P.Enabled;
    assert WorkerInv(s.pipeline.pool.workers[w], s.store.jobs[w], s.phases[w], s.store.tables.rows.Keys);
    var b := s.pipeline.pool.workers[w].batch;
    var txs := s.store.jobs[w].txs;
    AnswersSigned(b.txs, s.phases[w].answers, s.phases[w].snapshot);
    hide Fits, WorkerInv;
    HeldAdded(cfg, s.pipeline, w);
    InsertAllMeaning(s.store.tables, txs);
    assert Apply(cfg, s, Insert(w, faultAt)).store.tables.rows.Keys <= s.store.tables.rows.Keys + Signatures(txs);
  }

  lemma AddedKept(cfg: Config, p: P.State, step: P.Step)
    requires P.Enabled(cfg, p, step)
    ensures Signatures(p.added) <= Signatures(P.Apply(cfg, p, step).added)
  {
    hide Drains, Adds, Checks;
  }

  lemma MoveFits(cfg: Config, s: State, m: Move)
    requires Fits(s) && I.Inv(s.store) && Enabled(cfg, s, m)
    ensures Fits(Apply(cfg, s, m))
  {
    hide Fits, I.Inv, Apply;
    match m
    case Pipe(step) => PipeKeeps(cfg, s, step);
    case Api(request) => ApiKeeps(cfg, s, request);
    case Receive(w) => ReceiveKeeps(cfg, s, w);
    case Finish(w) => FinishKeeps(cfg, s, w);
    case Leave(w) => LeaveKeeps(cfg, s, w);
    case Insert(w, faultAt) => InsertKeeps(cfg, s, w, faultAt);
    case _ => CallKeeps(cfg, s, m);
  }

  lemma MoveTraced(cfg: Config, s: State, m: Move)
    requires Inv(cfg, s) && Enabled(cfg, s, m)
    ensures Traced(Apply(cfg, s, m))
  {
    if m.Insert? {
      InsertTraced(cfg, s, m.w, m.faultAt);
    } else {
      hide P.Inv, P.Apply, P.Enabled, I.Inv, Fits, Signatures, Relevant, NextPhase, InPhase, EndpointsOf;
      if PipeStep(m).Some? {
        AddedKept(cfg, s.pipeline, PipeStep(m).value);
      }
    }
  }

  lemma MoveKeeps(cfg: Config, s: State, m: Move)
    requires Inv(cfg, s) && Enabled(cfg, s, m)
    ensures Inv(cfg, Apply(cfg, s, m))
  {
    MoveFits(cfg, s, m);
    MoveTraced(cfg, s, m);
    hide P.Inv, I.Inv, Fits, Traced, P.Apply, I.Apply, P.Enabled, I.Enabled;
    if PipeStep(m).Some? {
      P.StepKeeps(cfg, s.pipeline, PipeStep(m).value);
    }
    var step := StoreStep(s.pipeline.pool.workers, m);
    if step.Some? {
      I.StepKeeps(s.store, step.value);
    }
  }

  lemma {:induction false} RunKeeps(cfg: Config, s: State, moves: seq<Move>, s': State)
    requires Inv(cfg, s) && Run(cfg, s, moves, s')
    ensures Inv(cfg, s') && s'.before == s.before
    decreases moves
  {
    hide Inv, Enabled;
    if moves != [] {
      MoveKeeps(cfg, s, moves[0]);
      RunKeeps(cfg, Apply(cfg, s, moves[0]), moves[1..], s');
    }
  }

  lemma InitialInv(cfg: Config, s: State, workerCount: nat, now: nat)
    requires Initial(s, workerCount, now)
    ensures Inv(cfg, s)
  {
    P.StartInv(cfg, workerCount, now);
    I.InitialInv(s.store);
    hide P.Inv, I.Inv;
  }

  // ---------------------------------------------------------------- what every run keeps

  /** At any moment of any run, every row that was not stored at the start carries the signature of a transaction
      that was added to the batch manager. */
  lemma StoredWasAdded(cfg: Config, s: State, workerCount: nat, now: nat, moves: seq<Move>, s': State, sig: Signature)
    requires Initial(s, workerCount, now) && Run(cfg, s, moves, s')
    requires sig in s'.store.tables.rows && sig !in s.store.tables.rows
    ensures exists t :: t in s'.pipeline.added && t.signature == sig
  {
    InitialInv(cfg, s, workerCount, now);
    RunKeeps(cfg, s, moves, s');
  }

  /** The call fetched the transaction at index j again, and it touched the addresses tracked at the time. */
  predicate Refetched(o: Outcome, j: nat) {
    o.Fetched? && j < |o.answers| && o.answers[j].Some? && IsRelevant(o.answers[j].value, o.snapshot)
  }

  /** At any moment of any run, whatever a finished batch's call fetched and found relevant is stored, provided every
      endpoint was registered and still was at the insert, and storage did not fail. Later moves never undo it. */
  lemma FinishedStored(cfg: Config, s: State, workerCount: nat, now: nat, moves: seq<Move>, s': State, i: nat, j: nat)
    requires Initial(s, workerCount, now) && Run(cfg, s, moves, s')
    requires i < |s'.pipeline.pool.finished| && j < |s'.pipeline.pool.finished[i].txs|
    ensures i < |s'.outcomes|
    ensures Clean(s'.outcomes[i]) && Refetched(s'.outcomes[i], j) ==>
      s'.pipeline.pool.finished[i].txs[j].signature in s'.store.tables.rows
  {
    InitialInv(cfg, s, workerCount, now);
    RunKeeps(cfg, s, moves, s');
    OutcomeStores(s', i, j);
  }

  lemma OutcomeStores(s: State, i: nat, j: nat)
    requires Fits(s) && i < |s.pipeline.pool.finished| && j < |s.pipeline.pool.finished[i].txs|
    ensures Clean(s.outcomes[i]) && Refetched(s.outcomes[i], j) ==>
      s.pipeline.pool.finished[i].txs[j].signature in s.store.tables.rows
  {
    var o := s.outcomes[i];
    assert OutcomeInv(s.pipeline.pool.finished[i].txs, o, s.store.tables.rows.Keys);
    if Clean(o) && Refetched(o, j) {
      var t := o.answers[j].value;
      assert (if t.source in o.snapshot then t.source else t.destination.value) in t.Endpoints() * o.snapshot;
      RelevantMeaning(o.answers, o.snapshot, t);
      assert t.signature in Signatures(Relevant(o.answers, o.snapshot));
    }
  }

  /** A place in the finished batches where the transaction is. */
  ghost predicate FinishedAt(p: P.State, t: Transaction, i: nat, j: nat) {
    i < |p.pool.finished| && j < |p.pool.finished[i].txs| && p.pool.finished[i].txs[j] == t
  }

  /** From the first addition to the tables: once nothing is left to deliver and no worker took a batch with it,
      every transaction ever added is in a batch whose call has returned; and it is stored, if that call was clean,
      fetched it again and found it relevant. */
  lemma DeliveredStored(cfg: Config, s: State, workerCount: nat, now: nat, moves: seq<Move>, s': State, t: Transaction)
    requires Initial(s, workerCount, now) && Run(cfg, s, moves, s')
    ensures |s'.outcomes| == |s'.pipeline.pool.finished|
    ensures !P.Undelivered(s'.pipeline) && s'.pipeline.pool.lost == [] && t in s'.pipeline.added ==>
      exists i: nat, j: nat :: FinishedAt(s'.pipeline, t, i, j)
    ensures forall i: nat, j: nat ::
      FinishedAt(s'.pipeline, t, i, j) && Clean(s'.outcomes[i]) && Refetched(s'.outcomes[i], j) ==>
        t.signature in s'.store.tables.rows
  {
    InitialInv(cfg, s, workerCount, now);
    RunKeeps(cfg, s, moves, s');
    hide P.Inv, I.Inv, P.Undelivered, Run, Initial, Traced, Flatten;
    var finished := s'.pipeline.pool.finished;
    if !P.Undelivered(s'.pipeline) && s'.pipeline.pool.lost == [] && t in s'.pipeline.added {
      P.NothingLeft(cfg, s'.pipeline);
      P.AmountFlat(finished);
      assert t in multiset(s'.pipeline.added);
      assert t in Flatten(P.Contents(finished));
      var i, j := FlattenMember(P.Contents(finished), t);
      assert FinishedAt(s'.pipeline, t, i, j);
    }
    forall i: nat, j: nat | FinishedAt(s'.pipeline, t, i, j)
      ensures Clean(s'.outcomes[i]) && Refetched(s'.outcomes[i], j) ==> t.signature in s'.store.tables.rows
    {
      OutcomeStores(s', i, j);
    }
  }

  // ---------------------------------------------------------------- a batch in hand can be stored

  lemma {:induction false} RunOn(cfg: Config, s: State, first: seq<Move>, mid: State, second: seq<Move>, s': State)
    requires Run(cfg, s, first, mid) && Run(cfg, mid, second, s')
    ensures Run(cfg, s, first + second, s')
    decreases first
  {
    hide Enabled, Apply;
    if first == [] {
      assert first + second == second;
    } else {
      assert (first + second)[0] == first[0] && (first + second)[1..] == first[1..] + second;
      RunOn(cfg, Apply(cfg, s, first[0]), first[1..], mid, second, s');
    }
  }

  lemma OneMove(cfg: Config, s: State, m: Move)
    requires Inv(cfg, s) && Enabled(cfg, s, m)
    ensures Inv(cfg, Apply(cfg, s, m)) && Run(cfg, s, [m], Apply(cfg, s, m))
  {
    hide Inv, Enabled, Apply;
    MoveKeeps(cfg, s, m);
    assert [m][1..] == [];
  }

  /** All endpoints that are left can be registered one after the other. */
  lemma {:induction false} RegisterRest(cfg: Config, s: State, w: nat) returns (moves: seq<Move>, s': State)
    requires Inv(cfg, s) && w < |s.phases| && w < |s.store.jobs| && s.phases[w].Storing? && s.store.jobs[w].Registering?
    ensures Inv(cfg, s') && Run(cfg, s, moves, s')
    ensures s'.pipeline == s.pipeline && s'.phases == s.phases && s'.outcomes == s.outcomes
    ensures |s'.store.jobs| == |s.store.jobs|
    ensures var j := s.store.jobs[w];
      s'.store.jobs[w] == j.(todo := {}, registered := j.registered + j.todo)
    decreases |s.store.jobs[w].todo|
  {
    hide Inv, Run;
    var j := s.store.jobs[w];
    if j.todo == {} {
      moves, s' := [], s;
      NoMove(cfg, s);
      assert j.registered + j.todo == j.registered;
    } else {
      var a :| a in j.todo;
      var m := Register(w, a, 0, true);
      var next := Apply(cfg, s, m);
      OneMove(cfg, s, m);
      assert next.store.jobs[w] == j.(todo := j.todo - {a}, registered := j.registered + {a});
      assert next.phases == s.phases;
      moves, s' := RegisterRest(cfg, next, w);
      RunOn(cfg, s, [m], next, moves, s');
      moves := [m] + moves;
      assert j.registered + {a} + (j.todo - {a}) == j.registered + j.todo;
    }
  }

  lemma NoMove(cfg: Config, s: State)
    ensures Run(cfg, s, [], s)
  {
  }

  /** The last two moves of a call whose endpoints are all registered. */
  lemma InsertAndFinish(cfg: Config, s: State, w: nat) returns (moves: seq<Move>, s': State)
    requires Inv(cfg, s) && w < |s.phases| && s.phases[w].Storing?
    requires w < |s.store.jobs| && s.store.jobs[w].Registering? && s.store.jobs[w].todo == {}
    requires EndpointsOf(s.store.jobs[w].txs) <= s.store.jobs[w].registered
    requires w < |s.pipeline.pool.workers| && s.pipeline.pool.workers[w].Busy?
    ensures Inv(cfg, s') && Run(cfg, s, moves, s')
    ensures s'.pipeline.pool.finished == s.pipeline.pool.finished + [s.pipeline.pool.workers[w].batch]
    ensures s'.outcomes == s.outcomes + [Fetched(s.phases[w].snapshot, s.phases[w].answers, {}, false)]
  {
    hide Inv, Run, Committed;
    var m := Insert(w, None);
    var next := Apply(cfg, s, m);
    OneMove(cfg, s, m);
    assert EndpointsOf(s.store.jobs[w].txs) - s.store.jobs[w].registered == {};
    s' := Apply(cfg, next, Finish(w));
    OneMove(cfg, next, Finish(w));
    RunOn(cfg, s, [m], next, [Finish(w)], s');
    moves := [m] + [Finish(w)];
  }

  /** From any reachable state, a batch a worker has just taken can be finished by a clean call, which then stores
      whatever it fetches again and finds relevant. */
  lemma CanStore(cfg: Config, start: State, workerCount: nat, now: nat, before: seq<Move>, s: State, w: nat,
                 answers: seq<Option<Transaction>>)
    returns (moves: seq<Move>, s': State)
    requires Initial(start, workerCount, now) && Run(cfg, start, before, s)
    requires w < |s.phases| && s.phases[w] == Taken
    requires w < |s.pipeline.pool.workers| && s.pipeline.pool.workers[w].Busy?
    requires Answered(SignaturesIn(s.pipeline.pool.workers[w].batch.txs), answers)
    ensures Run(cfg, s, moves, s')
    ensures var b := s.pipeline.pool.workers[w].batch;
      && s'.pipeline.pool.finished == s.pipeline.pool.finished + [b]
      && s'.outcomes == s.outcomes + [Fetched(s.store.tables.tracked.Keys, answers, {}, false)]
      && forall j :: 0 <= j < |b.txs| && answers[j].Some?
           && (answers[j].value.source in s.store.tables.tracked
               || (answers[j].value.destination.Some? && answers[j].value.destination.value in s.store.tables.tracked))
           ==> b.txs[j].signature in s'.store.tables.rows
  {
    InitialInv(cfg, start, workerCount, now);
    RunKeeps(cfg, start, before, s);
    moves, s' := CleanCall(cfg, s, w, answers);
    var b, n := s.pipeline.pool.workers[w].batch, |s.outcomes|;
    forall j: nat | j < |b.txs|
      ensures Refetched(s'.outcomes[n], j) ==> b.txs[j].signature in s'.store.tables.rows
    {
      OutcomeStores(s', n, j);
    }
  }

  lemma CleanCall(cfg: Config, s: State, w: nat, answers: seq<Option<Transaction>>)
    returns (moves: seq<Move>, s': State)
    requires Inv(cfg, s) && w < |s.phases| && s.phases[w] == Taken
    requires w < |s.pipeline.pool.workers| && s.pipeline.pool.workers[w].Busy?
    requires Answered(SignaturesIn(s.pipeline.pool.workers[w].batch.txs), answers)
    ensures Inv(cfg, s') && Run(cfg, s, moves, s')
    ensures s'.pipeline.pool.finished == s.pipeline.pool.finished + [s.pipeline.pool.workers[w].batch]
    ensures s'.outcomes == s.outcomes + [Fetched(s.store.tables.tracked.Keys, answers, {}, false)]
  {
    hide *;
    var s2;
    moves, s2 := AskAndFetch(cfg, s, w, answers);
    if Relevant(answers, s.store.tables.tracked.Keys) == [] {
      s' := JustFinish(cfg, s2, w);
      RunOn(cfg, s, moves, s2, [Finish(w)], s');
      moves := moves + [Finish(w)];
    } else {
      var more, s3 := RegisterRest(cfg, s2, w);
      RunOn(cfg, s, moves, s2, more, s3);
      var last;
      last, s' := InsertAndFinish(cfg, s3, w);
      RunOn(cfg, s, moves + more, s3, last, s');
      moves := moves + more + last;
    }
  }

  lemma JustFinish(cfg: Config, s: State, w: nat) returns (s': State)
    requires Inv(cfg, s) && w < |s.phases| && s.phases[w].Done?
    requires w < |s.pipeline.pool.workers| && s.pipeline.pool.workers[w].Busy?
    ensures Inv(cfg, s') && Run(cfg, s, [Finish(w)], s')
    ensures s'.pipeline.pool.finished == s.pipeline.pool.finished + [s.pipeline.pool.workers[w].batch]
    ensures s'.outcomes == s.outcomes + [s.phases[w].outcome]
  {
    hide Inv, Run;
    s' := Apply(cfg, s, Finish(w));
    OneMove(cfg, s, Finish(w));
  }

  /** The first two moves of a call. */
  lemma AskAndFetch(cfg: Config, s: State, w: nat, answers: seq<Option<Transaction>>)
    returns (moves: seq<Move>, s': State)
    requires Inv(cfg, s) && w < |s.phases| && s.phases[w] == Taken
    requires w < |s.pipeline.pool.workers| && s.pipeline.pool.workers[w].Busy?
    requires Answered(SignaturesIn(s.pipeline.pool.workers[w].batch.txs), answers)
    ensures Inv(cfg, s') && Run(cfg, s, moves, s')
    ensures s'.pipeline == s.pipeline && s'.outcomes == s.outcomes && |s'.phases| == |s.phases|
    ensures var (snapshot, txs) := (s.store.tables.tracked.Keys, Relevant(answers, s.store.tables.tracked.Keys));
      if txs == [] then s'.phases[w] == Done(Fetched(snapshot, answers, {}, false))
      else s'.phases[w] == Storing(snapshot, answers)
           && w < |s'.store.jobs| && s'.store.jobs[w] == I.Registering(txs, EndpointsOf(txs), {})
  {
    assert WorkerInv(s.pipeline.pool.workers[w], s.store.jobs[w], s.phases[w], s.store.tables.rows.Keys);
    hide Inv, Run, WorkerInv, Relevant, EndpointsOf;
    var next := Apply(cfg, s, Snapshot(w));
    OneMove(cfg, s, Snapshot(w));
    s' := Apply(cfg, next, Fetch(w, answers));
    OneMove(cfg, next, Fetch(w, answers));
    RunOn(cfg, s, [Snapshot(w)], next, [Fetch(w, answers)], s');
    moves := [Snapshot(w)] + [Fetch(w, answers)];
  }
}
