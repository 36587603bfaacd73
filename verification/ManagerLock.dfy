/** The mutex around the whole batch manager. Polling holds it for one addition and the send that may follow; the
    task that flushes on a timer holds it from its start until shutdown, although the comments beside it say that it
    is held only briefly. */
module ManagerLock {
  import opened Transactions
  import opened Batching
  import P = Pipeline

  /** Who holds the mutex, and whether its own critical section is still ahead. */
  datatype Holder = Nobody | Adder(t: Transaction) | AdderDone | Flushing | FlushDone

  /** `sending` says that the holder is waiting for the send of the batch it took out. */
  datatype State = State(holder: Holder, sending: bool, flushStarted: bool, stopped: bool, pipeline: P.State)

  datatype Move =
    | Acquire(t: Transaction)
    | AddIt(now: nat, txs: seq<Transaction>)
    | StartFlushing
    | Check(now: nat, txs: seq<Transaction>)
    | LastCheck(now: nat, txs: seq<Transaction>)
    | Release
    | Stop
    | Work(step: P.Step)

  /** The steps tasks take apart from critical sections. The send is the holder's own. */
  predicate IsWork(s: State, step: P.Step) {
    match step
    case Send(i) => s.sending && i < |s.pipeline.unsent| && s.pipeline.unsent[i].id == |s.pipeline.collected| - 1
    case Receive(_) => true
    case Finish(_) => true
    case Leave(_) => true
    case _ => false
  }

  /** The step of the pipeline that a move makes, if any. */
  function StepOf(s: State, m: Move): Option<P.Step> {
    match m
    case AddIt(now, txs) => if s.holder.Adder? then Some(P.Step.Add(s.holder.t, now, txs)) else None
    case Check(now, txs) => Some(P.Step.Check(now, txs))
    case LastCheck(now, txs) => Some(P.Step.Check(now, txs))
    case Work(step) => Some(step)
    case _ => None
  }

  ghost predicate Enabled(cfg: Config, s: State, m: Move) {
    && (match m
        case Acquire(_) => s.holder.Nobody?
        case AddIt(_, _) => s.holder.Adder?
        case StartFlushing => s.holder.Nobody? && !s.flushStarted
        case Check(_, _) => s.holder.Flushing? && !s.sending
        case LastCheck(_, _) => s.holder.Flushing? && !s.sending && s.stopped
        case Release => (s.holder.AdderDone? || s.holder.FlushDone?) && !s.sending
        case Stop => !s.stopped
        case Work(step) => IsWork(s, step))
    && (StepOf(s, m).Some? ==> P.Enabled(cfg, s.pipeline, StepOf(s, m).value))
  }

  ghost function Apply(cfg: Config, s: State, m: Move): State
    requires Enabled(cfg, s, m)
  {
    var pipeline := if StepOf(s, m).Some? then P.Apply(cfg, s.pipeline, StepOf(s, m).value) else s.pipeline;
    match m
    case Acquire(t) => s.(holder := Adder(t))
    case AddIt(_, txs) => s.(holder := AdderDone, sending := txs != [], pipeline := pipeline)
    case StartFlushing => s.(holder := Flushing, flushStarted := true)
    case Check(_, txs) => s.(sending := txs != [], pipeline := pipeline)
    case LastCheck(_, txs) => s.(holder := FlushDone, sending := txs != [], pipeline := pipeline)
    case Release => s.(holder := Nobody)
    case Stop => s.(stopped := true)
    case Work(step) => s.(sending := s.sending && !step.Send?, pipeline := pipeline)
  }

  ghost predicate Run(cfg: Config, s: State, moves: seq<Move>, s': State)
    decreases moves
  {
    if moves == [] then s' == s
    else Enabled(cfg, s, moves[0]) && Run(cfg, Apply(cfg, s, moves[0]), moves[1..], s')
  }

  function Start(workerCount: nat, now: nat): State {
    State(Nobody, false, false, false, P.Start(workerCount, now))
  }

  /** With the mutex, the service still only makes runs of the pipeline, so whatever holds at every moment of all
      those runs holds of it. The mutex takes steps away, though: what can still happen is another question. */
  lemma {:induction false} RunsPipeline(cfg: Config, s: State, moves: seq<Move>, s': State) returns (steps: seq<P.Step>)
    requires Run(cfg, s, moves, s')
    ensures P.Run(cfg, s.pipeline, steps, s'.pipeline)
    decreases moves
  {
    hide P.Enabled, P.Apply;
    if moves == [] {
      steps := [];
    } else {
      var next := Apply(cfg, s, moves[0]);
      steps := RunsPipeline(cfg, next, moves[1..], s');
      if StepOf(s, moves[0]).Some? {
        var step := StepOf(s, moves[0]).value;
        assert ([step] + steps)[1..] == steps;
        steps := [step] + steps;
      }
    }
  }

  // ---------------------------------------------------------------- the order of the batches

  /** At most the holder's own batch is on its way; what was sent is what was collected, in order. */
  ghost predicate Inv(s: State) {
    && s.pipeline.unsent == (if s.sending then LastOf(s.pipeline.collected) else [])
    && (s.sending ==> s.holder.AdderDone? || s.holder.Flushing? || s.holder.FlushDone?)
    && (s.sending ==> s.pipeline.collected != [])
    && s.pipeline.pool.sent <= s.pipeline.collected
    && (P.Open(s.pipeline.pool.workers) ==> s.pipeline.pool.sent + s.pipeline.unsent == s.pipeline.collected)
  }

  function LastOf(batches: seq<P.Batch>): seq<P.Batch> {
    if batches == [] then [] else batches[|batches| - 1..]
  }

  lemma MoveKeeps(cfg: Config, s: State, m: Move)
    requires Inv(s) && Enabled(cfg, s, m)
    ensures Inv(Apply(cfg, s, m))
  {
    match m
    case Work(step) => WorkKeeps(cfg, s, step);
    case AddIt(now, txs) => SectionKeeps(cfg, s, AdderDone, P.Step.Add(s.holder.t, now, txs));
    case Check(now, txs) => SectionKeeps(cfg, s, Flushing, P.Step.Check(now, txs));
    case LastCheck(now, txs) => SectionKeeps(cfg, s, FlushDone, P.Step.Check(now, txs));
    case _ =>
  }

  lemma SectionKeeps(cfg: Config, s: State, holder: Holder, step: P.Step)
    requires Inv(s) && !s.sending && (holder.AdderDone? || holder.Flushing? || holder.FlushDone?)
    requires (step.Add? || step.Check?) && P.Enabled(cfg, s.pipeline, step)
    ensures Inv(s.(holder := holder, sending := step.txs != [], pipeline := P.Apply(cfg, s.pipeline, step)))
  {
    hide P.Apply, P.Enabled, P.Open;
    SectionTakes(cfg, s.pipeline, step);
    var p, p' := s.pipeline, P.Apply(cfg, s.pipeline, step);
    if step.txs != [] {
      assert p'.collected == p.collected + p'.unsent && LastOf(p'.collected) == p'.unsent;
    }
  }

  /** A critical section changes neither channel nor workers, and takes out at most one batch. */
  lemma SectionTakes(cfg: Config, p: P.State, step: P.Step)
    requires (step.Add? || step.Check?) && P.Enabled(cfg, p, step)
    ensures var p' := P.Apply(cfg, p, step);
      var batches := if step.txs == [] then [] else [P.Batch(|p.collected|, step.txs)];
      p'.pool == p.pool && p'.unsent == p.unsent + batches && p'.collected == p.collected + batches
  {
    hide Drains, Adds, Checks;
  }

  lemma WorkKeeps(cfg: Config, s: State, step: P.Step)
    requires Inv(s) && Enabled(cfg, s, Work(step))
    ensures Inv(Apply(cfg, s, Work(step)))
  {
    var s' := Apply(cfg, s, Work(step));
    match step
    case Receive(w) => assert s.pipeline.pool.workers[w] != P.Gone;
    case Finish(w) => assert s.pipeline.pool.workers[w] != P.Gone;
    case _ =>
  }

  lemma {:induction false} RunKeeps(cfg: Config, s: State, moves: seq<Move>, s': State)
    requires Inv(s) && Run(cfg, s, moves, s')
    ensures Inv(s')
    decreases moves
  {
    hide Inv, Enabled, Apply;
    if moves != [] {
      MoveKeeps(cfg, s, moves[0]);
      RunKeeps(cfg, Apply(cfg, s, moves[0]), moves[1..], s');
    }
  }

  /** The batches workers take are, in order, the first ones collected, and no more than one is ever on its way to the
      channel; so each address's transactions reach the workers in the order they were added. */
  lemma WorkersInOrder(cfg: Config, workerCount: nat, now: nat, moves: seq<Move>, s: State, a: Address)
    requires Run(cfg, Start(workerCount, now), moves, s)
    ensures |s.pipeline.unsent| <= 1
    ensures s.pipeline.pool.received <= s.pipeline.pool.sent <= s.pipeline.collected
    ensures Restrict(Flatten(P.Contents(s.pipeline.pool.received)), a) <= Restrict(s.pipeline.added, a)
  {
    hide P.Enabled, P.Apply, Run;
    RunKeeps(cfg, Start(workerCount, now), moves, s);
    var steps := RunsPipeline(cfg, Start(workerCount, now), moves, s);
    P.FirstInFirstOut(cfg, workerCount, now, steps, s.pipeline);
    P.PerAddressOrder(cfg, workerCount, now, steps, s.pipeline, a);
    var received, collected := s.pipeline.pool.received, s.pipeline.collected;
    assert received <= collected;
    PrefixRestricts(received, collected, a);
  }

  lemma PrefixRestricts(some: seq<P.Batch>, all: seq<P.Batch>, a: Address)
    requires some <= all
    ensures Restrict(Flatten(P.Contents(some)), a) <= Restrict(Flatten(P.Contents(all)), a)
  {
    var first, rest := P.Contents(some), P.Contents(all[|some|..]);
    assert all == some + all[|some|..] && P.Contents(all) == first + rest;
    FlattenAppend(first, rest);
    RestrictAppend(Flatten(first), Flatten(rest), a);
  }

  /** Adding one transaction to an empty buffer that holds one takes it out again at once. */
  lemma AddAlone(s: P.State, t: Transaction)
    requires s.buffer == Emptied(0)
    ensures var step := P.Step.Add(t, 0, [t]);
      P.Enabled(Config(1, 5), s, step)
      && P.Apply(Config(1, 5), s, step) == P.Taken(s.(added := s.added + [t]), Emptied(0), [t])
  {
    var full := Filled(s.buffer, t);
    assert PendingOf(EMPTY, t.source) + [t] == [t];
    assert full.pending == map[t.source := [t]] && full.pending - {t.source} == EMPTY;
    assert DrainsFrom(full.pending, t.source, [t]) by {
      assert [t][|full.pending[t.source]|..] == [];
    }
    assert Drains(full.pending, [t]);
    assert Adds(Config(1, 5), s.buffer, t, 0, Emptied(0), [t]);
  }

  /** Without the mutex two sends can cross, so that workers take batches in another order. */
  lemma SendsCanCross(t: Transaction, u: Transaction)
    ensures exists steps, s :: P.Run(Config(1, 5), P.Start(1, 0), steps, s) && !(s.pool.sent <= s.collected)
  {
    var cfg, s0 := Config(1, 5), P.Start(1, 0);
    var s1 := P.Taken(s0.(added := s0.added + [t]), Emptied(0), [t]);
    var s2 := P.Taken(s1.(added := s1.added + [u]), Emptied(0), [u]);
    var add, more, send := P.Step.Add(t, 0, [t]), P.Step.Add(u, 0, [u]), P.Step.Send(1);
    AddAlone(s0, t);
    AddAlone(s1, u);
    hide Drains;
    assert s2.unsent == s2.collected == [P.Batch(0, [t]), P.Batch(1, [u])];
    assert s2.pool.workers[0] != P.Gone;
    var s3 := P.Apply(cfg, s2, send);
    assert s3.pool.sent[0] == P.Batch(1, [u]) && s3.collected[0] == P.Batch(0, [t]);
    assert P.Run(cfg, s3, [], s3) && [send][1..] == [];
    assert P.Run(cfg, s2, [send], s3);
    assert [more, send][1..] == [send];
    assert P.Run(cfg, s1, [more, send], s3);
    assert [add, more, send][1..] == [more, send];
    assert P.Run(cfg, s0, [add, more, send], s3);
  }

  // ---------------------------------------------------------------- when anything can be added

  /** While the flushing task holds the mutex and no shutdown comes, nothing is added, however long it lasts. */
  lemma {:induction false} NothingAdded(cfg: Config, s: State, moves: seq<Move>, s': State)
    requires Run(cfg, s, moves, s') && s.holder == Flushing && !s.stopped && Stop !in moves
    ensures s'.pipeline.added == s.pipeline.added && s'.holder == Flushing
    decreases moves
  {
    if moves != [] {
      NothingAdded(cfg, Apply(cfg, s, moves[0]), moves[1..], s');
    }
  }

  /** Some transaction can still be added without a shutdown. */
  ghost predicate CanAdd(cfg: Config, s: State) {
    exists moves, s' :: Run(cfg, s, moves, s') && Stop !in moves && s'.pipeline.added != s.pipeline.added
  }

  /** How far the holder's send is from completing: workers may first have to make room. */
  function SendDistance(s: State): nat {
    if !s.sending then 0
    else if P.CanSend(s.pipeline.pool) then 1
    else if exists w :: 0 <= w < |s.pipeline.pool.workers| && s.pipeline.pool.workers[w].Idle? then 2
    else 3
  }

  function Distance(s: State): nat {
    SendDistance(s) + 4 * match s.holder
                          case Adder(_) => 0
                          case Nobody => 1
                          case AdderDone => 2
                          case FlushDone => 2
                          case Flushing => 3
  }

  const SOME_TRANSACTION := Transaction("", 0, 0, "", None, None, None, true)

  ghost predicate Ready(cfg: Config, s: State) {
    Inv(s) && P.Inv(cfg, s.pipeline)
  }

  lemma RunReady(cfg: Config, workerCount: nat, now: nat, moves: seq<Move>, s: State)
    requires Run(cfg, Start(workerCount, now), moves, s)
    ensures Ready(cfg, s)
  {
    RunKeeps(cfg, Start(workerCount, now), moves, s);
    var steps := RunsPipeline(cfg, Start(workerCount, now), moves, s);
    P.StartInv(cfg, workerCount, now);
    P.RunKeeps(cfg, P.Start(workerCount, now), steps, s.pipeline);
  }

  lemma ReadyKeeps(cfg: Config, s: State, m: Move)
    requires Ready(cfg, s) && Enabled(cfg, s, m)
    ensures Ready(cfg, Apply(cfg, s, m))
  {
    hide P.Inv, P.Enabled, P.Apply, Inv;
    MoveKeeps(cfg, s, m);
    if StepOf(s, m).Some? {
      P.StepKeeps(cfg, s.pipeline, StepOf(s, m).value);
    }
  }

  /** Adding is the only move that changes the history of additions, and it makes it longer. */
  lemma AddedGrows(cfg: Config, s: State, m: Move)
    requires Enabled(cfg, s, m)
    ensures Apply(cfg, s, m).pipeline.added == s.pipeline.added + if m.AddIt? then [s.holder.t] else []
  {
    hide Drains;
  }

  lemma SendMove(cfg: Config, s: State) returns (m: Move)
    requires Ready(cfg, s) && s.sending
    ensures m.Work? && !m.step.Leave? && Enabled(cfg, s, m)
    ensures SendDistance(Apply(cfg, s, m)) < SendDistance(s)
    ensures Apply(cfg, s, m).holder == s.holder && Apply(cfg, s, m).stopped == s.stopped
  {
    var workers := s.pipeline.pool.workers;
    if P.CanSend(s.pipeline.pool) {
      m := Work(P.Send(0));
    } else if w :| 0 <= w < |workers| && workers[w].Idle? {
      m := Work(P.Receive(w));
      assert |P.ReceiveBy(s.pipeline.pool, w).queue| < P.CAPACITY;
    } else {
      var w :| 0 <= w < |workers| && workers[w] != P.Gone;
      m := Work(P.Finish(w));
      assert Apply(cfg, s, m).pipeline.pool.workers[w].Idle?;
    }
  }

  lemma SectionMove(cfg: Config, s: State) returns (m: Move)
    requires Ready(cfg, s) && !s.sending && !(s.holder == Flushing && !s.stopped)
    ensures m != Stop && Enabled(cfg, s, m)
    ensures !m.AddIt? ==> Distance(Apply(cfg, s, m)) < Distance(s)
    ensures Apply(cfg, s, m).holder != Flushing
  {
    match s.holder
    case Nobody => m := Acquire(SOME_TRANSACTION);
    case Adder(t) =>
      var full := Filled(s.pipeline.buffer, t);
      var txs := [];
      if Due(cfg, full, 0) {
        txs := SomeDrain(full.pending);
      }
      m := AddIt(0, txs);
      assert Adds(cfg, s.pipeline.buffer, t, 0, if Due(cfg, full, 0) then Emptied(0) else full, txs);
    case Flushing =>
      var b := s.pipeline.buffer;
      var due := b.totalSize > 0 && Due(cfg, b, 0);
      var txs := [];
      if due {
        txs := SomeDrain(b.pending);
      }
      m := LastCheck(0, txs);
      assert Checks(cfg, b, 0, if due then Emptied(0) else b, txs);
    case _ => m := Release;
  }

  lemma {:induction false} Adding(cfg: Config, s: State) returns (moves: seq<Move>, s': State)
    requires Ready(cfg, s) && !(s.holder == Flushing && !s.stopped)
    ensures Run(cfg, s, moves, s') && Stop !in moves && |s'.pipeline.added| > |s.pipeline.added|
    decreases Distance(s)
  {
    hide Enabled, Apply, Ready, SendDistance;
    var m;
    if s.sending {
      m := SendMove(cfg, s);
    } else {
      m := SectionMove(cfg, s);
    }
    var next := Apply(cfg, s, m);
    ReadyKeeps(cfg, s, m);
    AddedGrows(cfg, s, m);
    assert Run(cfg, next, [], next);
    if m.AddIt? {
      moves, s' := [m], next;
    } else {
      moves, s' := Adding(cfg, next);
      moves := [m] + moves;
    }
  }

  /** From any moment of any run, something can be added before a shutdown exactly when the flushing task does not
      hold the mutex, or the shutdown has already been signalled. */
  lemma CanAddMeaning(cfg: Config, workerCount: nat, now: nat, before: seq<Move>, s: State)
    requires Run(cfg, Start(workerCount, now), before, s)
    ensures CanAdd(cfg, s) <==> s.holder != Flushing || s.stopped
  {
    RunReady(cfg, workerCount, now, before, s);
    if s.holder == Flushing && !s.stopped {
      forall moves, s' | Run(cfg, s, moves, s') && Stop !in moves
        ensures s'.pipeline.added == s.pipeline.added
      {
        NothingAdded(cfg, s, moves, s');
      }
    } else {
      var moves, s' := Adding(cfg, s);
    }
  }

  // ---------------------------------------------------------------- when everything can be delivered

  /** No polling task takes the mutex, and no worker ends. */
  predicate Calm(m: Move) {
    !m.Acquire? && !(m.Work? && m.step.Leave?)
  }

  ghost predicate AllCalm(moves: seq<Move>) {
    forall m :: m in moves ==> Calm(m)
  }

  /** Nothing is left to deliver, and nothing was lost on the way if a worker was alive. */
  ghost predicate Settled(p: P.State, p': P.State) {
    !P.Undelivered(p') && (P.Open(p.pool.workers) ==> p'.pool.lost == p.pool.lost)
  }

  /** Everything can be delivered although nothing more is polled. */
  ghost predicate CanDeliver(cfg: Config, s: State) {
    exists moves, s' :: Run(cfg, s, moves, s') && AllCalm(moves) && Settled(s.pipeline, s'.pipeline)
  }

  /** Something is pending, the flushing task has ended, and no polling task is about to add. */
  predicate Stranded(s: State) {
    s.pipeline.buffer.totalSize > 0 && s.flushStarted && !s.holder.Flushing? && !s.holder.Adder?
  }

  lemma {:induction false} StaysStranded(cfg: Config, s: State, moves: seq<Move>, s': State)
    requires Run(cfg, s, moves, s') && AllCalm(moves) && Stranded(s)
    ensures Stranded(s')
    decreases moves
  {
    if moves != [] {
      assert Calm(moves[0]);
      StaysStranded(cfg, Apply(cfg, s, moves[0]), moves[1..], s');
    }
  }

  function AddsLeft(s: State): nat {
    if s.holder.Adder? then 1 else 0
  }

  /** How far the mutex is from the flushing task. */
  function Turns(s: State): nat {
    match s.holder
    case Adder(_) => 3
    case AdderDone => 2
    case FlushDone => 2
    case Nobody => 1
    case Flushing => 0
  }

  /** What a move on the way to delivery does. */
  ghost predicate Advances(cfg: Config, s: State, m: Move) {
    && Enabled(cfg, s, m) && Calm(m)
    && var s' := Apply(cfg, s, m);
       && !Stranded(s')
       && (P.Open(s.pipeline.pool.workers) ==>
             P.Open(s'.pipeline.pool.workers) && s'.pipeline.pool.lost == s.pipeline.pool.lost)
       && AddsLeft(s') <= AddsLeft(s)
       && (AddsLeft(s') == AddsLeft(s) ==>
             && P.Measure(s'.pipeline) <= P.Measure(s.pipeline)
             && (P.Measure(s'.pipeline) == P.Measure(s.pipeline) ==> Turns(s') < Turns(s)))
  }

  lemma WorkAdvances(cfg: Config, s: State, step: P.Step)
    requires Ready(cfg, s) && !Stranded(s) && Enabled(cfg, s, Work(step)) && !step.Leave?
    ensures Advances(cfg, s, Work(step))
  {
    P.QuietDecreases(cfg, s.pipeline, step);
  }

  /** The adder waits until its own addition makes a flush due. */
  lemma AdderAdvances(cfg: Config, s: State) returns (m: Move)
    requires Ready(cfg, s) && s.holder.Adder?
    ensures Advances(cfg, s, m)
  {
    var full := Filled(s.pipeline.buffer, s.holder.t);
    var later := full.lastFlush + cfg.flushInterval;
    var txs := SomeDrain(full.pending);
    m := AddIt(later, txs);
    hide Drains;
    assert Adds(cfg, s.pipeline.buffer, s.holder.t, later, Emptied(later), txs);
  }

  /** And so does the flushing task. */
  lemma FlushAdvances(cfg: Config, s: State) returns (m: Move)
    requires Ready(cfg, s) && s.holder.Flushing? && !s.sending && s.pipeline.buffer.totalSize > 0
    ensures Advances(cfg, s, m)
  {
    var b := s.pipeline.buffer;
    var later := b.lastFlush + cfg.flushInterval;
    var txs := SomeDrain(b.pending);
    m := Check(later, txs);
    assert Checks(cfg, b, later, Emptied(later), txs);
    P.QuietDecreases(cfg, s.pipeline, P.Step.Check(later, txs));
  }

  /** With the buffer empty and nothing to send, the rest is the workers'. */
  lemma WorkerMove(cfg: Config, s: State) returns (m: Move)
    requires Ready(cfg, s) && !s.sending && s.pipeline.buffer.totalSize == 0 && P.Undelivered(s.pipeline)
    ensures m.Work? && !m.step.Leave? && Enabled(cfg, s, m)
  {
    var step := P.NotStuck(cfg, s.pipeline, P.Timer, 0);
    m := Work(step);
  }

  lemma AdvancingMove(cfg: Config, s: State) returns (m: Move)
    requires Ready(cfg, s) && !Stranded(s) && P.Undelivered(s.pipeline)
    ensures Advances(cfg, s, m)
  {
    hide Advances, Inv, P.Inv, P.Apply, P.Enabled;
    if s.sending {
      m := SendMove(cfg, s);
      WorkAdvances(cfg, s, m.step);
    } else if s.holder.Adder? {
      m := AdderAdvances(cfg, s);
    } else if s.pipeline.buffer.totalSize == 0 {
      m := WorkerMove(cfg, s);
      WorkAdvances(cfg, s, m.step);
    } else if s.holder.Flushing? {
      m := FlushAdvances(cfg, s);
    } else {
      m := TurnAdvances(cfg, s);
    }
  }

  /** Without the mutex in the way, the flushing task can still start. */
  lemma TurnAdvances(cfg: Config, s: State) returns (m: Move)
    requires !s.sending && !s.flushStarted && !s.holder.Flushing? && !s.holder.Adder?
    ensures Advances(cfg, s, m)
  {
    m := if s.holder.Nobody? then StartFlushing else Release;
  }

  lemma {:induction false} Delivering(cfg: Config, s: State) returns (moves: seq<Move>, s': State)
    requires Ready(cfg, s) && !Stranded(s)
    ensures Run(cfg, s, moves, s') && AllCalm(moves) && Settled(s.pipeline, s'.pipeline)
    decreases AddsLeft(s), P.Measure(s.pipeline), Turns(s)
  {
    hide Ready, Enabled, Apply, Stranded, Calm, P.Undelivered, P.Measure, AddsLeft, Turns;
    if P.Undelivered(s.pipeline) {
      var m := AdvancingMove(cfg, s);
      ReadyKeeps(cfg, s, m);
      moves, s' := Delivering(cfg, Apply(cfg, s, m));
      moves := [m] + moves;
    } else {
      moves, s' := [], s;
    }
  }

  /** From any moment of any run, if nothing more is polled, everything can be delivered exactly when nothing is
      pending, or the flushing task has not ended, or a polling task holds the mutex and has yet to add. */
  lemma CanDeliverMeaning(cfg: Config, workerCount: nat, now: nat, before: seq<Move>, s: State)
    requires Run(cfg, Start(workerCount, now), before, s)
    ensures CanDeliver(cfg, s) <==>
      s.pipeline.buffer.totalSize == 0 || !s.flushStarted || s.holder.Flushing? || s.holder.Adder?
  {
    RunReady(cfg, workerCount, now, before, s);
    if Stranded(s) {
      forall moves, s' | Run(cfg, s, moves, s') && AllCalm(moves)
        ensures P.Undelivered(s'.pipeline)
      {
        StaysStranded(cfg, s, moves, s');
      }
    } else {
      var moves, s' := Delivering(cfg, s);
    }
  }

  /** Neither the addition nor the check takes anything out of the buffer at time zero. */
  lemma NothingDue(p: P.State, t: Transaction)
    requires p.buffer == Emptied(0)
    ensures var (cfg, add, check) := (Config(100, 5), P.Step.Add(t, 0, []), P.Step.Check(0, []));
      var p' := p.(buffer := Filled(p.buffer, t), added := p.added + [t]);
      && P.Enabled(cfg, p, add) && P.Apply(cfg, p, add) == p'
      && P.Enabled(cfg, p', check) && P.Apply(cfg, p', check) == p'
  {
    hide Drains;
    var b := Filled(p.buffer, t);
    assert Adds(Config(100, 5), p.buffer, t, 0, b, []) && Checks(Config(100, 5), b, 0, b, []);
  }

  /** A run that strands a transaction: the last check at shutdown comes before a flush is due. */
  lemma ShutdownStrands(t: Transaction) returns (moves: seq<Move>, s: State)
    ensures Run(Config(100, 5), Start(1, 0), moves, s)
    ensures s.pipeline.added == [t] && s.pipeline.buffer.totalSize == 1 && P.Undelivered(s.pipeline)
    ensures !CanDeliver(Config(100, 5), s)
  {
    moves, s := StrandingRun(t);
    hide Run;
    CanDeliverMeaning(Config(100, 5), 1, 0, moves, s);
  }

  lemma StrandingRun(t: Transaction) returns (moves: seq<Move>, s: State)
    ensures Run(Config(100, 5), Start(1, 0), moves, s)
    ensures s.pipeline.added == [t] && s.pipeline.buffer == Filled(Emptied(0), t)
    ensures s.holder == Nobody && s.flushStarted
  {
    var cfg, start := Config(100, 5), Start(1, 0);
    var p := start.pipeline.(buffer := Filled(Emptied(0), t), added := [t]);
    NothingDue(start.pipeline, t);
    assert start.pipeline.added + [t] == [t];
    hide P.Enabled, P.Apply, Run, PendingOf, Filled, P.Fresh;
    s := State(Nobody, false, true, true, p);
    moves := [];
    Nothing(cfg, s);
    moves := Prepend(cfg, State(FlushDone, false, true, true, p), Release, moves, s);
    moves := Prepend(cfg, State(Flushing, false, true, true, p), LastCheck(0, []), moves, s);
    moves := Prepend(cfg, State(Flushing, false, true, false, p), Stop, moves, s);
    moves := Prepend(cfg, State(Nobody, false, false, false, p), StartFlushing, moves, s);
    moves := Prepend(cfg, State(AdderDone, false, false, false, p), Release, moves, s);
    moves := Prepend(cfg, start.(holder := Adder(t)), AddIt(0, []), moves, s);
    moves := Prepend(cfg, start, Acquire(t), moves, s);
  }

  lemma Nothing(cfg: Config, s: State)
    ensures Run(cfg, s, [], s)
  {
  }

  lemma Prepend(cfg: Config, s: State, m: Move, moves: seq<Move>, s': State) returns (more: seq<Move>)
    requires Enabled(cfg, s, m) && Run(cfg, Apply(cfg, s, m), moves, s')
    ensures Run(cfg, s, more, s')
  {
    more := [m] + moves;
  }

  // ---------------------------------------------------------------- while the flushing task runs

  /** No move is left that would move work along. */
  ghost predicate Rests(cfg: Config, s: State) {
    forall m :: Calm(m) && Enabled(cfg, s, m) && StepOf(s, m).Some? ==>
      !P.Delivers(cfg, s.pipeline, StepOf(s, m).value)
  }

  lemma {:induction false} FlushingRun(cfg: Config, s: State, moves: seq<Move>, s': State) returns (steps: seq<P.Step>)
    requires Run(cfg, s, moves, s') && AllCalm(moves) && Stop !in moves
    requires Ready(cfg, s) && s.holder == Flushing && !s.stopped
    ensures P.Draining(cfg, s.pipeline, steps, s'.pipeline)
    ensures Ready(cfg, s') && s'.holder == Flushing && !s'.stopped
    decreases moves
  {
    hide Ready, P.Enabled, P.Apply;
    if moves == [] {
      steps := [];
    } else {
      var m := moves[0];
      assert Calm(m) && m != Stop && StepOf(s, m).Some?;
      ReadyKeeps(cfg, s, m);
      steps := FlushingRun(cfg, Apply(cfg, s, m), moves[1..], s');
      var step := StepOf(s, m).value;
      assert P.Quiet(step) && ([step] + steps)[1..] == steps;
      steps := [step] + steps;
    }
  }

  lemma SendingGoesOn(cfg: Config, s: State)
    requires Ready(cfg, s) && s.sending
    ensures !Rests(cfg, s)
  {
    var m := SendMove(cfg, s);
    assert Calm(m) && StepOf(s, m) == Some(m.step);
  }

  lemma RestIsRest(cfg: Config, s: State)
    requires Ready(cfg, s) && s.holder == Flushing && Rests(cfg, s)
    ensures P.AtRest(cfg, s.pipeline, P.Timer)
  {
    if s.sending {
      SendingGoesOn(cfg, s);
    }
    forall step | P.Delivers(cfg, s.pipeline, step) && P.Uses(step, P.Timer)
      ensures !P.Enabled(cfg, s.pipeline, step)
    {
      var m := if step.Check? then Check(step.now, step.txs) else Work(step);
      assert StepOf(s, m) == Some(step) && Calm(m);
    }
  }

  /** In normal operation, with the flushing task at work and nothing added, every schedule moves work along a bounded
      number of times, and when nothing is left to move everything ever added has been finished, except what was lost
      before, provided a worker was alive. */
  lemma FlushingDrains(cfg: Config, workerCount: nat, now: nat, before: seq<Move>, s: State, moves: seq<Move>,
                       s': State)
    returns (steps: seq<P.Step>)
    requires Run(cfg, Start(workerCount, now), before, s) && s.holder == Flushing && !s.stopped
    requires Run(cfg, s, moves, s') && AllCalm(moves) && Stop !in moves
    ensures P.Run(cfg, s.pipeline, steps, s'.pipeline) && P.Moves(cfg, s.pipeline, steps) <= P.Measure(s.pipeline)
    ensures Rests(cfg, s') && P.Open(s.pipeline.pool.workers) ==> P.Delivered(s.pipeline, s'.pipeline)
  {
    RunReady(cfg, workerCount, now, before, s);
    steps := FlushingRun(cfg, s, moves, s');
    DrainingRuns(cfg, s.pipeline, steps, s'.pipeline);
    P.EverySchedulingDrains(cfg, s.pipeline, steps, s'.pipeline, P.Timer);
    if Rests(cfg, s') {
      RestIsRest(cfg, s');
    }
  }

  lemma {:induction false} DrainingRuns(cfg: Config, p: P.State, steps: seq<P.Step>, p': P.State)
    requires P.Draining(cfg, p, steps, p')
    ensures P.Run(cfg, p, steps, p')
    decreases steps
  {
    hide P.Enabled, P.Apply;
    if steps != [] {
      DrainingRuns(cfg, P.Apply(cfg, p, steps[0]), steps[1..], p');
    }
  }
}
