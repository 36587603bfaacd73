/** The two tables, their foreign keys, and the operations on them. */
module Store {
  import opened Transactions

  /** `tracked` maps an address to the time it was added; `rows` is keyed by signature. */
  datatype Tables = Tables(tracked: map<Address, nat>, rows: map<Signature, Transaction>)

  /** Rows that failed a constraint, refused addresses, and storage faults. */
  datatype Error = ForeignKey | InvalidAddress | Storage

  predicate EndpointsTracked(t: Transaction, tracked: map<Address, nat>) {
    t.Endpoints() <= tracked.Keys
  }

  /** Every row sits under its own signature and both its endpoints are tracked. */
  ghost predicate Consistent(s: Tables) {
    forall sig :: sig in s.rows ==> s.rows[sig].signature == sig && EndpointsTracked(s.rows[sig], s.tracked)
  }

  predicate Mentions(s: Tables, a: Address) {
    exists sig :: sig in s.rows && a in s.rows[sig].Endpoints()
  }

  /** One INSERT with ON CONFLICT DO NOTHING: keys are checked only when a row is really inserted. */
  function InsertRow(s: Tables, t: Transaction): Result<Tables, Error> {
    if t.signature in s.rows then Ok(s)
    else if !EndpointsTracked(t, s.tracked) then Err(ForeignKey)
    else Ok(s.(rows := s.rows[t.signature := t]))
  }

  function Signatures(txs: seq<Transaction>): set<Signature> {
    set t | t in txs :: t.signature
  }

  /** The rows a whole batch leaves behind when every insert succeeds: an existing row stays, and of
      several new ones under one signature the first wins. */
  ghost predicate FirstWins(rows: map<Signature, Transaction>, txs: seq<Transaction>,
                            rows': map<Signature, Transaction>)
  {
    && rows'.Keys == rows.Keys + Signatures(txs)
    && (forall sig :: sig in rows ==> rows'[sig] == rows[sig])
    && (forall i :: 0 <= i < |txs| && IsFirst(rows, txs, i) ==> rows'[txs[i].signature] == txs[i])
  }

  /** `txs[i]` is the first of its signature, in the table or the batch. */
  ghost predicate IsFirst(rows: map<Signature, Transaction>, txs: seq<Transaction>, i: nat)
    requires i < |txs|
  {
    txs[i].signature !in rows && forall j :: 0 <= j < i ==> txs[j].signature != txs[i].signature
  }

  /** The batch meets the foreign keys: checked exactly at the rows that are really inserted. */
  ghost predicate Insertable(s: Tables, txs: seq<Transaction>) {
    forall i :: 0 <= i < |txs| && IsFirst(s.rows, txs, i) ==> EndpointsTracked(txs[i], s.tracked)
  }

  /** The inserts of a batch one after the other, up to the first failure. */
  function InsertAll(s: Tables, txs: seq<Transaction>): Result<Tables, Error>
    decreases txs
  {
    if txs == [] then Ok(s)
    else match InsertRow(s, txs[0])
      case Ok(next) => InsertAll(next, txs[1..])
      case Err(e) => Err(e)
  }

  lemma {:induction false} InsertAllAppend(s: Tables, txs: seq<Transaction>, t: Transaction)
    ensures InsertAll(s, txs + [t]) ==
      match InsertAll(s, txs)
      case Ok(next) => InsertRow(next, t)
      case Err(e) => Err(e)
    decreases txs
  {
    if txs == [] {
      assert txs + [t] == [t] && [t][1..] == [];
    } else {
      assert (txs + [t])[1..] == txs[1..] + [t];
      match InsertRow(s, txs[0])
      case Ok(next) => InsertAllAppend(next, txs[1..], t);
      case Err(_) =>
    }
  }

  lemma FirstOfPrefix(rows: map<Signature, Transaction>, init: seq<Transaction>, t: Transaction)
    ensures forall i :: 0 <= i < |init| ==> (IsFirst(rows, init, i) <==> IsFirst(rows, init + [t], i))
    ensures IsFirst(rows, init + [t], |init|) <==> t.signature !in rows.Keys + Signatures(init)
  {
    var all := init + [t];
    assert forall i :: 0 <= i < |init| ==> all[i] == init[i];
    forall i | 0 <= i < |init|
      ensures IsFirst(rows, init, i) <==> IsFirst(rows, all, i)
    {
      assert forall j :: 0 <= j < i ==> all[j] == init[j];
    }
  }

  lemma FirstWinsStep(rows: map<Signature, Transaction>, init: seq<Transaction>, t: Transaction,
                      next: map<Signature, Transaction>)
    requires FirstWins(rows, init, next)
    ensures FirstWins(rows, init + [t], if t.signature in next then next else next[t.signature := t])
  {
    var all := init + [t];
    var last := if t.signature in next then next else next[t.signature := t];
    FirstOfPrefix(rows, init, t);
    assert Signatures(all) == Signatures(init) + {t.signature} by {
      assert forall x :: x in all <==> x in init || x == t;
    }
    forall i | 0 <= i < |all| && IsFirst(rows, all, i)
      ensures last[all[i].signature] == all[i]
    {
      if i < |init| {
        assert IsFirst(rows, init, i) && all[i] == init[i] && init[i].signature in Signatures(init);
      }
    }
  }

  lemma InsertableStep(s: Tables, init: seq<Transaction>, t: Transaction)
    ensures Insertable(s, init + [t]) <==>
      && Insertable(s, init)
      && (t.signature !in s.rows.Keys + Signatures(init) ==> EndpointsTracked(t, s.tracked))
  {
    hide Signatures, EndpointsTracked, IsFirst;
    FirstOfPrefix(s.rows, init, t);
    var all := init + [t];
    assert all[|init|] == t && forall i :: 0 <= i < |init| ==> all[i] == init[i];
  }

  /** A batch goes in exactly when it meets the foreign keys, and then first wins. */
  lemma {:induction false} InsertAllMeaning(s: Tables, txs: seq<Transaction>)
    ensures InsertAll(s, txs).Ok? <==> Insertable(s, txs)
    ensures InsertAll(s, txs).Err? ==> InsertAll(s, txs).error == ForeignKey
    ensures InsertAll(s, txs).Ok? ==>
      && InsertAll(s, txs).value.tracked == s.tracked
      && FirstWins(s.rows, txs, InsertAll(s, txs).value.rows)
    decreases txs
  {
    if txs != [] {
      hide Signatures, EndpointsTracked, Insertable, InsertAll;
      var init, t := txs[..|txs| - 1], txs[|txs| - 1];
      assert txs == init + [t];
      InsertAllMeaning(s, init);
      InsertAllAppend(s, init, t);
      InsertableStep(s, init, t);
      if InsertAll(s, init).Ok? {
        FirstWinsStep(s.rows, init, t, InsertAll(s, init).value.rows);
      }
    }
  }

  /** The foreign keys, spelled out. */
  lemma KeysMeaning(s: Tables, txs: seq<Transaction>)
    ensures Insertable(s, txs) <==>
      forall i :: 0 <= i < |txs| && IsFirst(s.rows, txs, i) ==>
        txs[i].source in s.tracked && (txs[i].destination.Some? ==> txs[i].destination.value in s.tracked)
  {
    hide IsFirst;
    forall t: Transaction
      ensures EndpointsTracked(t, s.tracked) <==>
                t.source in s.tracked && (t.destination.Some? ==> t.destination.value in s.tracked)
    {
      if EndpointsTracked(t, s.tracked) {
        assert t.source in t.Endpoints() && (t.destination.Some? ==> t.destination.value in t.Endpoints());
      }
    }
  }

  /** The state of the database file, with the operations that change it. */
  class Database {
    var tracked: map<Address, nat>
    var rows: map<Signature, Transaction>

    ghost function State(): Tables
      reads this
    {
      Tables(tracked, rows)
    }

    constructor ()
      ensures State() == Tables(map[], map[])
    {
      tracked, rows := map[], map[];
    }

    method AddAddress(a: Address, now: nat, valid: Address -> bool, fault: bool) returns (r: Result<(), Error>)
      modifies this
      ensures State() == Registered(old(State()), a, now, valid(a) && !fault)
      ensures rows == old(rows) && tracked == if valid(a) && !fault then old(tracked)[a := now] else old(tracked)
      ensures r.Ok? <==> valid(a) && !fault
    {
      if !valid(a) {
        return Err(InvalidAddress);
      }
      if fault {
        return Err(Storage);
      }
      tracked := tracked[a := now];
      r := Ok(());
    }

    /** The deletion is refused when a stored row still mentions the address. */
    method RemoveAddress(a: Address, fault: bool) returns (r: Result<bool, Error>)
      modifies this
      ensures State() == if fault then old(State()) else Removed(old(State()), a)
      ensures r == if fault then Err(Storage) else if a !in old(tracked) then Ok(false)
                   else if Mentions(old(State()), a) then Err(ForeignKey) else Ok(true)
      ensures r == Ok(true) <==>
        && !fault && a in old(tracked)
        && forall sig :: sig in rows ==> rows[sig].source != a && rows[sig].destination != Some(a)
      ensures rows == old(rows) && tracked == if r == Ok(true) then old(tracked) - {a} else old(tracked)
    {
      if fault {
        return Err(Storage);
      }
      if a !in tracked {
        return Ok(false);
      }
      if exists sig :: sig in rows && a in rows[sig].Endpoints() {
        return Err(ForeignKey);
      }
      tracked := tracked - {a};
      r := Ok(true);
    }

    /** Inserts inside one database transaction. `faultAt` is the statement, counting the commit, at
        which the storage fails, if it does; any failure rolls everything back. */
    method AddTransactions(txs: seq<Transaction>, faultAt: Option<nat>) returns (r: Result<(), Error>)
      modifies this
      ensures r.Ok? <==> Insertable(old(State()), txs) && !Faults(txs, faultAt)
      ensures r.Ok? <==>
        && (faultAt.Some? ==> faultAt.value > |txs|)
        && forall i :: 0 <= i < |txs| && IsFirst(old(rows), txs, i) ==>
             txs[i].source in old(tracked) && (txs[i].destination.Some? ==> txs[i].destination.value in old(tracked))
      ensures r.Ok? ==> tracked == old(tracked) && FirstWins(old(rows), txs, rows)
      ensures r.Err? ==> State() == old(State())
      ensures State() == Committed(old(State()), txs, faultAt).0
    {
      KeysMeaning(State(), txs);
      hide Insertable, FirstWins, Signatures, EndpointsTracked, IsFirst;
      InsertAllMeaning(State(), txs);
      var working := Tables(tracked, rows);
      for i := 0 to |txs|
        invariant InsertAll(old(State()), txs[..i]) == Ok(working)
        invariant working.tracked == tracked && State() == old(State())
        invariant faultAt.Some? ==> faultAt.value >= i
      {
        assert txs[..i + 1] == txs[..i] + [txs[i]];
        InsertAllAppend(State(), txs[..i], txs[i]);
        if faultAt == Some(i) {
          return Err(Storage);
        }
        match InsertRow(working, txs[i])
        case Ok(next) =>
          working := next;
        case Err(e) =>
          InsertAllMeaning(State(), txs[..i + 1]);
          FailsLonger(State(), txs, i + 1);
          return Err(e);
      }
      assert txs[..|txs|] == txs;
      if faultAt == Some(|txs|) {
        return Err(Storage);
      }
      rows := working.rows;
      r := Ok(());
    }
  }

  function Registered(s: Tables, a: Address, now: nat, ok: bool): Tables {
    if ok then s.(tracked := s.tracked[a := now]) else s
  }

  function Removed(s: Tables, a: Address): Tables {
    if a in s.tracked && !Mentions(s, a) then s.(tracked := s.tracked - {a}) else s
  }

  predicate Faults(txs: seq<Transaction>, faultAt: Option<nat>) {
    faultAt.Some? && faultAt.value <= |txs|
  }

  /** The tables after `AddTransactions`, and whether it committed. */
  function Committed(s: Tables, txs: seq<Transaction>, faultAt: Option<nat>): (Tables, bool) {
    match InsertAll(s, txs)
    case Ok(next) => if Faults(txs, faultAt) then (s, false) else (next, true)
    case Err(_) => (s, false)
  }

  /** A batch whose prefix is refused is refused. */
  lemma FailsLonger(s: Tables, txs: seq<Transaction>, n: nat)
    requires n <= |txs| && !Insertable(s, txs[..n])
    ensures !Insertable(s, txs)
  {
  }

  /** No operation changes or drops a stored row. */
  ghost predicate RowsKept(s: Tables, s': Tables) {
    forall sig :: sig in s.rows ==> sig in s'.rows && s'.rows[sig] == s.rows[sig]
  }

  lemma CommitKeeps(s: Tables, txs: seq<Transaction>, faultAt: Option<nat>)
    requires Consistent(s)
    ensures Consistent(Committed(s, txs, faultAt).0) && RowsKept(s, Committed(s, txs, faultAt).0)
    ensures Committed(s, txs, faultAt).0.tracked == s.tracked
  {
    InsertAllMeaning(s, txs);
    if Committed(s, txs, faultAt).1 {
      var rows' := Committed(s, txs, faultAt).0.rows;
      forall sig | sig in rows' && sig !in s.rows
        ensures rows'[sig].signature == sig && EndpointsTracked(rows'[sig], s.tracked)
      {
        var i := FirstWith(s.rows, txs, sig);
      }
    }
  }

  lemma {:induction false} FirstWith(rows: map<Signature, Transaction>, txs: seq<Transaction>, sig: Signature)
    returns (i: nat)
    requires sig in Signatures(txs) && sig !in rows
    ensures i < |txs| && txs[i].signature == sig && IsFirst(rows, txs, i)
  {
    i := 0;
    while txs[i].signature != sig
      invariant i < |txs| && sig in Signatures(txs[i..])
      invariant forall j :: 0 <= j < i ==> txs[j].signature != sig
      decreases |txs| - i
    {
      assert txs[i..] == [txs[i]] + txs[i + 1..];
      i := i + 1;
    }
  }

  /** Removing an address that was just added undoes the addition; an address some row mentions stays. */
  lemma RemoveUndoesAdd(s: Tables, a: Address, now: nat)
    requires Consistent(s)
    ensures var s' := Removed(Registered(s, a, now, true), a);
      if Mentions(s, a) then s' == Registered(s, a, now, true)
      else s'.rows == s.rows && s'.tracked == s.tracked - {a}
    ensures a !in s.tracked ==> Removed(Registered(s, a, now, true), a) == s
  {
    if a !in s.tracked {
      assert !Mentions(s, a);
      assert s.tracked[a := now] - {a} == s.tracked;
    }
  }

  lemma RemoveKeeps(s: Tables, a: Address)
    requires Consistent(s)
    ensures Consistent(Removed(s, a)) && RowsKept(s, Removed(s, a))
  {
  }
}
