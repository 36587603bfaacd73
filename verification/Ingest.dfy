/** Workers processing batches while the API adds and removes addresses: every database statement is
    one atomic step, and steps of different tasks interleave freely. */
module Ingest {
  import opened Transactions
  import opened Store
  import opened Processor

  /** Where a worker stands in `process_batch`. `registered` is history: the endpoints this job has
      registered and that nobody has removed since. */
  datatype Job =
    | Waiting
    | Fetching(signatures: seq<Signature>, snapshot: set<Address>)
    | Registering(txs: seq<Transaction>, todo: set<Address>, registered: set<Address>)

  /** `seeds` (tracked at the start or added through the API) and `observed` (every transaction a worker
      found relevant) are histories. */
  datatype System = System(tables: Tables, jobs: seq<Job>, seeds: set<Address>, observed: set<Transaction>)

  datatype Step =
    | ApiAdd(a: Address, now: nat, ok: bool)
    | ApiRemove(a: Address, ok: bool)
    | Snapshot(w: nat, signatures: seq<Signature>)
    | Fetch(w: nat, answers: seq<Option<Transaction>>)
    | Register(w: nat, a: Address, now: nat, ok: bool)
    | Insert(w: nat, faultAt: Option<nat>)

  ghost predicate Enabled(s: System, step: Step) {
    match step
    case ApiAdd(_, _, _) => true
    case ApiRemove(_, _) => true
    case Snapshot(w, _) => w < |s.jobs| && s.jobs[w].Waiting?
    case Fetch(w, answers) => w < |s.jobs| && s.jobs[w].Fetching? && Answered(s.jobs[w].signatures, answers)
    case Register(w, a, _, _) => w < |s.jobs| && s.jobs[w].Registering? && a in s.jobs[w].todo
    case Insert(w, _) => w < |s.jobs| && s.jobs[w].Registering? && s.jobs[w].todo == {}
  }

  function Forget(j: Job, a: Address): Job {
    if j.Registering? then j.(registered := j.registered - {a}) else j
  }

  function Apply(s: System, step: Step): System
    requires Enabled(s, step)
  {
    match step
    case ApiAdd(a, now, ok) =>
      s.(tables := Registered(s.tables, a, now, ok), seeds := if ok then s.seeds + {a} else s.seeds)
    case ApiRemove(a, ok) =>
      if !ok then s
      else s.(tables := Removed(s.tables, a),
              jobs := seq(|s.jobs|, w requires 0 <= w < |s.jobs| => Forget(s.jobs[w], a)))
    case Snapshot(w, signatures) =>
      s.(jobs := s.jobs[w := Fetching(signatures, s.tables.tracked.Keys)])
    case Fetch(w, answers) =>
      var txs := Relevant(answers, s.jobs[w].snapshot);
      s.(jobs := s.jobs[w := if txs == [] then Waiting else Registering(txs, EndpointsOf(txs), {})],
         observed := s.observed + ToSet(txs))
    case Register(w, a, now, ok) =>
      var j := s.jobs[w];
      s.(tables := Registered(s.tables, a, now, ok),
         jobs := s.jobs[w := j.(todo := j.todo - {a},
                                registered := if ok then j.registered + {a} else j.registered)])
    case Insert(w, faultAt) =>
      s.(tables := Committed(s.tables, s.jobs[w].txs, faultAt).0, jobs := s.jobs[w := Waiting])
  }

  ghost predicate Run(s: System, steps: seq<Step>, s': System)
    decreases steps
  {
    if steps == [] then s' == s
    else Enabled(s, steps[0]) && Run(Apply(s, steps[0]), steps[1..], s')
  }

  ghost predicate Initial(s: System) {
    && Consistent(s.tables)
    && (forall w :: 0 <= w < |s.jobs| ==> s.jobs[w].Waiting?)
    && s.seeds == s.tables.tracked.Keys && s.observed == {}
  }

  // ---------------------------------------------------------------- reachability of addresses

  ghost predicate Linked(a: Address, b: Address, txs: set<Transaction>) {
    exists t :: t in txs && a in t.Endpoints() && b in t.Endpoints()
  }

  /** Consecutive addresses of the path share a transaction. */
  ghost predicate IsPath(path: seq<Address>, txs: set<Transaction>) {
    path != [] && forall i :: 0 <= i < |path| - 1 ==> Linked(path[i], path[i + 1], txs)
  }

  ghost predicate Leads(path: seq<Address>, seeds: set<Address>, txs: set<Transaction>, a: Address) {
    IsPath(path, txs) && path[0] in seeds && path[|path| - 1] == a
  }

  ghost predicate Reachable(seeds: set<Address>, txs: set<Transaction>, a: Address) {
    exists path :: Leads(path, seeds, txs, a)
  }

  lemma ReachMonotone(seeds: set<Address>, txs: set<Transaction>, seeds': set<Address>, txs': set<Transaction>,
                      a: Address)
    requires Reachable(seeds, txs, a) && seeds <= seeds' && txs <= txs'
    ensures Reachable(seeds', txs', a)
  {
    var path :| Leads(path, seeds, txs, a);
    forall i | 0 <= i < |path| - 1
      ensures Linked(path[i], path[i + 1], txs')
    {
      assert Linked(path[i], path[i + 1], txs);
    }
    assert Leads(path, seeds', txs', a);
  }

  lemma ReachSeed(seeds: set<Address>, txs: set<Transaction>, a: Address)
    requires a in seeds
    ensures Reachable(seeds, txs, a)
  {
    assert Leads([a], seeds, txs, a);
  }

  lemma ReachAcross(seeds: set<Address>, txs: set<Transaction>, t: Transaction, a: Address, b: Address)
    requires Reachable(seeds, txs, a) && t in txs && a in t.Endpoints() && b in t.Endpoints()
    ensures Reachable(seeds, txs, b)
  {
    var path :| Leads(path, seeds, txs, a);
    var longer := path + [b];
    forall i | 0 <= i < |longer| - 1
      ensures Linked(longer[i], longer[i + 1], txs)
    {
      if i < |path| - 1 {
        assert Linked(path[i], path[i + 1], txs);
      }
    }
    assert Leads(longer, seeds, txs, b);
  }

  // ---------------------------------------------------------------- the invariant

  ghost predicate AllReachable(s: System, addresses: set<Address>) {
    forall a :: a in addresses ==> Reachable(s.seeds, s.observed, a)
  }

  ghost predicate JobInv(s: System, j: Job) {
    match j
    case Waiting => true
    case Fetching(_, snapshot) => AllReachable(s, snapshot)
    case Registering(txs, todo, registered) =>
      AllReachable(s, EndpointsOf(txs)) && todo <= EndpointsOf(txs) && registered <= s.tables.tracked.Keys
  }

  ghost predicate Inv(s: System) {
    && Consistent(s.tables)
    && AllReachable(s, s.tables.tracked.Keys)
    && forall w :: 0 <= w < |s.jobs| ==> JobInv(s, s.jobs[w])
  }

  /** Histories only grow, so what was reachable stays so; and a job survives the steps of others that
      leave its registered addresses tracked. */
  lemma JobSurvives(s: System, s': System, j: Job)
    requires JobInv(s, j) && s.seeds <= s'.seeds && s.observed <= s'.observed
    requires j.Registering? ==> j.registered <= s'.tables.tracked.Keys
    ensures JobInv(s', j)
  {
    forall a | Reachable(s.seeds, s.observed, a)
      ensures Reachable(s'.seeds, s'.observed, a)
    {
      ReachMonotone(s.seeds, s.observed, s'.seeds, s'.observed, a);
    }
  }

  /** Following a snapshot's addresses across the relevant transactions reaches all their endpoints. */
  lemma RelevantReachable(s: System, answers: seq<Option<Transaction>>, snapshot: set<Address>)
    requires AllReachable(s, snapshot) && ToSet(Relevant(answers, snapshot)) <= s.observed
    ensures AllReachable(s, EndpointsOf(Relevant(answers, snapshot)))
  {
    var txs := Relevant(answers, snapshot);
    forall b | b in EndpointsOf(txs)
      ensures Reachable(s.seeds, s.observed, b)
    {
      var t :| t in txs && b in t.Endpoints();
      RelevantMeaning(answers, snapshot, t);
      var a :| a in t.Endpoints() * snapshot;
      assert t in ToSet(txs);
      ReachAcross(s.seeds, s.observed, t, a, b);
    }
  }

  lemma ApiStepKeeps(s: System, step: Step)
    requires Inv(s) && (step.ApiAdd? || step.ApiRemove?)
    ensures Inv(Apply(s, step))
  {
    var s' := Apply(s, step);
    match step
    case ApiAdd(a, now, ok) =>
      forall b | b in s'.tables.tracked
        ensures Reachable(s'.seeds, s'.observed, b)
      {
        if b == a && ok {
          ReachSeed(s'.seeds, s'.observed, a);
        } else {
          ReachMonotone(s.seeds, s.observed, s'.seeds, s'.observed, b);
        }
      }
      forall w | 0 <= w < |s.jobs|
        ensures JobInv(s', s'.jobs[w])
      {
        JobSurvives(s, s', s.jobs[w]);
      }
    case ApiRemove(a, ok) =>
      RemoveKeeps(s.tables, a);
      forall w | 0 <= w < |s.jobs|
        ensures JobInv(s', s'.jobs[w])
      {
        assert JobInv(s, s.jobs[w]);
      }
  }

  lemma WorkerStepKeeps(s: System, step: Step)
    requires Inv(s) && Enabled(s, step) && !step.ApiAdd? && !step.ApiRemove?
    ensures Inv(Apply(s, step))
  {
    var s' := Apply(s, step);
    var w := step.w;
    assert JobInv(s, s.jobs[w]);
    if step.Insert? {
      CommitKeeps(s.tables, s.jobs[w].txs, step.faultAt);
    }
    forall b | Reachable(s.seeds, s.observed, b)
      ensures Reachable(s'.seeds, s'.observed, b)
    {
      ReachMonotone(s.seeds, s.observed, s'.seeds, s'.observed, b);
    }
    if step.Fetch? {
      RelevantReachable(s', step.answers, s.jobs[w].snapshot);
    }
    forall v | 0 <= v < |s.jobs|
      ensures JobInv(s', s'.jobs[v])
    {
      if v != w {
        JobSurvives(s, s', s.jobs[v]);
      }
    }
  }

  lemma {:induction false} RunKeeps(s: System, steps: seq<Step>, s': System)
    requires Inv(s) && Run(s, steps, s')
    ensures Inv(s') && RowsKept(s.tables, s'.tables) && s.seeds <= s'.seeds && s.observed <= s'.observed
    decreases steps
  {
    if steps != [] {
      var next := Apply(s, steps[0]);
      match steps[0] {
        case ApiAdd(_, _, _) => ApiStepKeeps(s, steps[0]);
        case ApiRemove(a, _) => ApiStepKeeps(s, steps[0]); RemoveKeeps(s.tables, a);
        case Insert(w, faultAt) => WorkerStepKeeps(s, steps[0]); CommitKeeps(s.tables, s.jobs[w].txs, faultAt);
        case _ => WorkerStepKeeps(s, steps[0]);
      }
      RunKeeps(next, steps[1..], s');
    }
  }

  lemma InitialInv(s: System)
    requires Initial(s)
    ensures Inv(s)
  {
    forall a | a in s.tables.tracked
      ensures Reachable(s.seeds, s.observed, a)
    {
      ReachSeed(s.seeds, s.observed, a);
    }
  }

  // ---------------------------------------------------------------- what every run keeps

  /** Referential integrity under any interleaving; and stored rows never change or vanish. */
  lemma ReferentialIntegrity(s: System, steps: seq<Step>, s': System)
    requires Initial(s) && Run(s, steps, s')
    ensures forall sig :: sig in s'.tables.rows ==> EndpointsTracked(s'.tables.rows[sig], s'.tables.tracked)
    ensures RowsKept(s.tables, s'.tables)
  {
    InitialInv(s);
    RunKeeps(s, steps, s');
  }

  /** So, at any moment of a run, a removal succeeds exactly for a tracked address no stored row mentions. */
  lemma RemovalSucceeds(s: System, steps: seq<Step>, s': System, a: Address)
    requires Initial(s) && Run(s, steps, s')
    ensures var after := Apply(s', ApiRemove(a, true)).tables;
      && after.rows == s'.tables.rows
      && (a !in after.tracked <==> forall sig :: sig in s'.tables.rows ==> a !in s'.tables.rows[sig].Endpoints())
  {
    ReferentialIntegrity(s, steps, s');
  }

  /** Tracking spreads only along transactions: every tracked address, and every endpoint of a stored
      row, is joined to an initially tracked or API-added address by a path of observed transactions,
      however stale the snapshots and whatever was removed meanwhile. */
  lemma TrackingReachable(s: System, steps: seq<Step>, s': System, a: Address)
    requires Initial(s) && Run(s, steps, s')
    requires a in s'.tables.tracked || exists sig :: sig in s'.tables.rows && a in s'.tables.rows[sig].Endpoints()
    ensures Reachable(s'.seeds, s'.observed, a)
  {
    InitialInv(s);
    RunKeeps(s, steps, s');
    assert forall sig :: sig in s'.tables.rows ==> EndpointsTracked(s'.tables.rows[sig], s'.tables.tracked);
  }

  /** At any moment of a run, a job whose registrations all succeeded and were not undone commits, unless storage
      fails, and all its transactions are then stored under their signatures. */
  lemma InsertCommits(s: System, steps: seq<Step>, s': System, w: nat)
    requires Initial(s) && Run(s, steps, s')
    requires Enabled(s', Insert(w, None)) && s'.jobs[w].registered == EndpointsOf(s'.jobs[w].txs)
    ensures var after := Apply(s', Insert(w, None)).tables;
      FirstWins(s'.tables.rows, s'.jobs[w].txs, after.rows)
  {
    InitialInv(s);
    RunKeeps(s, steps, s');
    RegisteredCommits(s', w, None);
  }

  lemma RegisteredCommits(s: System, w: nat, faultAt: Option<nat>)
    requires Inv(s) && Enabled(s, Insert(w, faultAt)) && !Faults(s.jobs[w].txs, faultAt)
    requires EndpointsOf(s.jobs[w].txs) <= s.jobs[w].registered
    ensures FirstWins(s.tables.rows, s.jobs[w].txs, Apply(s, Insert(w, faultAt)).tables.rows)
  {
    var txs := s.jobs[w].txs;
    assert JobInv(s, s.jobs[w]);
    InsertAllMeaning(s.tables, txs);
    forall i | 0 <= i < |txs|
      ensures EndpointsTracked(txs[i], s.tables.tracked)
    {
      assert txs[i] in txs && forall a :: a in txs[i].Endpoints() ==> a in EndpointsOf(txs);
    }
    assert Insertable(s.tables, txs);
  }

  /** One step keeps the invariant and every stored row. */
  lemma StepKeeps(s: System, step: Step)
    requires Inv(s) && Enabled(s, step)
    ensures Inv(Apply(s, step)) && RowsKept(s.tables, Apply(s, step).tables)
  {
    hide Inv, Enabled, Apply, RowsKept;
    assert Run(Apply(s, step), [], Apply(s, step)) && [step][1..] == [];
    RunKeeps(s, [step], Apply(s, step));
  }

  // ---------------------------------------------------------------- a job on its own

  lemma {:induction false} RunSplit(s: System, first: seq<Step>, second: seq<Step>, s': System) returns (mid: System)
    requires Run(s, first + second, s')
    ensures Run(s, first, mid) && Run(mid, second, s')
    decreases first
  {
    if first == [] {
      assert first + second == second;
      mid := s;
    } else {
      assert (first + second)[0] == first[0] && (first + second)[1..] == first[1..] + second;
      mid := RunSplit(Apply(s, first[0]), first[1..], second, s');
    }
  }

  function Registrations(w: nat, order: seq<Address>, ok: Address -> bool, now: nat): seq<Step> {
    seq(|order|, i requires 0 <= i < |order| => Register(w, order[i], now, ok(order[i])))
  }

  /** Registering some addresses in any order, with nobody interfering. */
  lemma {:induction false} RegistrationsRun(s: System, w: nat, order: seq<Address>, ok: Address -> bool, now: nat,
                                            s': System)
    requires w < |s.jobs| && s.jobs[w].Registering? && Run(s, Registrations(w, order, ok, now), s')
    ensures s'.tables == RegisterAll(s.tables, ToSet(order), ok, now)
    ensures |s'.jobs| == |s.jobs| && s'.jobs[w].Registering? && s'.jobs[w].txs == s.jobs[w].txs
    ensures ToSet(order) <= s.jobs[w].todo && s'.jobs[w].todo == s.jobs[w].todo - ToSet(order)
    ensures forall v :: 0 <= v < |s.jobs| && v != w ==> s'.jobs[v] == s.jobs[v]
    decreases |order|
  {
    if order == [] {
      assert RegisterAll(s.tables, {}, ok, now).tracked == s.tables.tracked;
    } else {
      var n := |order| - 1;
      var init, a := order[..n], order[n];
      var steps := Registrations(w, init, ok, now);
      assert Registrations(w, order, ok, now) == steps + [Register(w, a, now, ok(a))];
      var mid := RunSplit(s, steps, [Register(w, a, now, ok(a))], s');
      RegistrationsRun(s, w, init, ok, now, mid);
      RegisterOne(s.tables, ToSet(init), a, ok, now);
      assert ToSet(order) == ToSet(init) + {a};
    }
  }

  /** When nobody interferes, the steps of one job do to the tables what the whole function does: in
      whatever order the endpoints are registered, provided each is. */
  lemma UninterruptedJob(s: System, w: nat, signatures: seq<Signature>, answers: seq<Option<Transaction>>,
                         order: seq<Address>, ok: Address -> bool, now: nat, faultAt: Option<nat>, s': System)
    requires Relevant(answers, s.tables.tracked.Keys) != []
    requires Run(s, [Snapshot(w, signatures), Fetch(w, answers)]
                    + (Registrations(w, order, ok, now) + [Insert(w, faultAt)]), s')
    ensures s'.tables == Processed(s.tables, Relevant(answers, s.tables.tracked.Keys), ok, now, faultAt).0
    ensures s'.jobs == s.jobs
  {
    hide Relevant, EndpointsOf, RegisterAll, Committed, Run, Apply, Enabled, Registrations;
    var txs := Relevant(answers, s.tables.tracked.Keys);
    var start := RunSplit(s, [Snapshot(w, signatures), Fetch(w, answers)],
                          Registrations(w, order, ok, now) + [Insert(w, faultAt)], s');
    FetchRun(s, w, signatures, answers, start);
    var ready := RunSplit(start, Registrations(w, order, ok, now), [Insert(w, faultAt)], s');
    RegistrationsRun(start, w, order, ok, now, ready);
    InsertRun(ready, w, faultAt, s');
    assert EndpointsOf(txs) == ToSet(order) + ready.jobs[w].todo == ToSet(order);
    assert forall v :: 0 <= v < |s.jobs| ==> s'.jobs[v] == s.jobs[v];
  }

  lemma InsertRun(s: System, w: nat, faultAt: Option<nat>, s': System)
    requires Run(s, [Insert(w, faultAt)], s')
    ensures w < |s.jobs| && s.jobs[w].Registering? && s.jobs[w].todo == {}
    ensures s'.tables == Committed(s.tables, s.jobs[w].txs, faultAt).0 && s'.jobs == s.jobs[w := Waiting]
  {
    assert [Insert(w, faultAt)][1..] == [];
  }

  lemma FetchRun(s: System, w: nat, signatures: seq<Signature>, answers: seq<Option<Transaction>>, s': System)
    requires Run(s, [Snapshot(w, signatures), Fetch(w, answers)], s')
    requires Relevant(answers, s.tables.tracked.Keys) != []
    ensures var txs := Relevant(answers, s.tables.tracked.Keys);
      && w < |s.jobs| && s.jobs[w].Waiting? && s'.tables == s.tables
      && s'.jobs == s.jobs[w := Registering(txs, EndpointsOf(txs), {})]
  {
    var snapped := Apply(s, Snapshot(w, signatures));
    var steps := [Snapshot(w, signatures), Fetch(w, answers)];
    assert steps[1..] == [Fetch(w, answers)] && steps[1..][1..] == [];
    assert Run(snapped, [Fetch(w, answers)], s') && Run(Apply(snapped, Fetch(w, answers)), [], s');
    var txs := Relevant(answers, s.tables.tracked.Keys);
    assert snapped.jobs[w := Registering(txs, EndpointsOf(txs), {})]
        == s.jobs[w := Registering(txs, EndpointsOf(txs), {})];
  }
}
