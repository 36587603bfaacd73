/** Storing the same transactions again, in other batches or another order, changes nothing. */
module Redelivery {
  import opened Transactions
  import opened Store

  /** One call of `AddTransactions`: its batch and the storage fault it meets, if any. */
  datatype Delivery = Delivery(txs: seq<Transaction>, faultAt: Option<nat>)

  function DeliverAll(s: Tables, ds: seq<Delivery>): Tables
    decreases ds
  {
    if ds == [] then s else DeliverAll(Committed(s, ds[0].txs, ds[0].faultAt).0, ds[1..])
  }

  /** The transactions of the deliveries that met no fault. */
  function Landed(ds: seq<Delivery>): set<Transaction> {
    if ds == [] then {}
    else (if Faults(ds[0].txs, ds[0].faultAt) then {} else ToSet(ds[0].txs)) + Landed(ds[1..])
  }

  /** A row is a function of its signature, and every endpoint is registered. */
  ghost predicate Coherent(s: Tables, txs: set<Transaction>) {
    && (forall t :: t in txs ==> EndpointsTracked(t, s.tracked))
    && (forall t :: t in txs && t.signature in s.rows ==> s.rows[t.signature] == t)
    && (forall t, u :: t in txs && u in txs && t.signature == u.signature ==> t == u)
  }

  /** The table is `rows` with exactly `txs` put in. */
  ghost predicate Holds(rows: map<Signature, Transaction>, txs: set<Transaction>, rows': map<Signature, Transaction>) {
    && rows'.Keys == rows.Keys + (set t | t in txs :: t.signature)
    && (forall sig :: sig in rows ==> rows'[sig] == rows[sig])
    && (forall t :: t in txs ==> rows'[t.signature] == t)
  }

  lemma CommitHolds(s: Tables, txs: seq<Transaction>, faultAt: Option<nat>)
    requires Coherent(s, ToSet(txs)) && !Faults(txs, faultAt)
    ensures var r := Committed(s, txs, faultAt);
      r.1 && r.0.tracked == s.tracked && Holds(s.rows, ToSet(txs), r.0.rows)
  {
    InsertAllMeaning(s, txs);
    assert Insertable(s, txs);
    var rows' := Committed(s, txs, faultAt).0.rows;
    assert Signatures(txs) == set t | t in ToSet(txs) :: t.signature;
    forall t | t in txs
      ensures rows'[t.signature] == t
    {
      if t.signature !in s.rows {
        var i := FirstWith(s.rows, txs, t.signature);
        assert txs[i] in ToSet(txs) && t in ToSet(txs);
      }
    }
  }

  lemma {:induction false} DeliverAllHolds(s: Tables, ds: seq<Delivery>, txs: set<Transaction>)
    requires Coherent(s, txs)
    requires forall i, t :: 0 <= i < |ds| && t in ds[i].txs ==> t in txs
    ensures DeliverAll(s, ds).tracked == s.tracked && Holds(s.rows, Landed(ds), DeliverAll(s, ds).rows)
    decreases ds
  {
    if ds != [] {
      var next := Committed(s, ds[0].txs, ds[0].faultAt).0;
      assert ToSet(ds[0].txs) <= txs;
      if !Faults(ds[0].txs, ds[0].faultAt) {
        CommitHolds(s, ds[0].txs, ds[0].faultAt);
      }
      DeliverAllHolds(next, ds[1..], txs);
    }
  }

  /** Regrouping, reordering and repeating deliveries changes nothing: the tables depend only on which
      transactions landed. */
  lemma SameTables(s: Tables, ds: seq<Delivery>, es: seq<Delivery>, txs: set<Transaction>)
    requires Coherent(s, txs)
    requires forall i, t :: 0 <= i < |ds| && t in ds[i].txs ==> t in txs
    requires forall i, t :: 0 <= i < |es| && t in es[i].txs ==> t in txs
    requires Landed(ds) == Landed(es)
    ensures DeliverAll(s, ds) == DeliverAll(s, es)
  {
    DeliverAllHolds(s, ds, txs);
    DeliverAllHolds(s, es, txs);
    var x, y := DeliverAll(s, ds).rows, DeliverAll(s, es).rows;
    forall sig | sig in x
      ensures x[sig] == y[sig]
    {
      if sig !in s.rows {
        var t :| t in Landed(ds) && t.signature == sig;
      }
    }
    assert x == y;
  }

  lemma CommitOne(s: Tables, t: Transaction)
    requires EndpointsTracked(t, s.tracked)
    ensures Committed(s, [t], None).0 == if t.signature in s.rows then s else s.(rows := s.rows[t.signature := t])
  {
    InsertAllAppend(s, [], t);
    assert [] + [t] == [t];
  }

  /** That a row is a function of its signature is needed: two deliveries commute exactly when they do
      not disagree about one signature. */
  lemma OrderMattersOnlyOnDisagreement(s: Tables, t: Transaction, u: Transaction)
    requires t.signature !in s.rows && u.signature !in s.rows
    requires EndpointsTracked(t, s.tracked) && EndpointsTracked(u, s.tracked)
    ensures DeliverAll(s, [Delivery([t], None), Delivery([u], None)])
         == DeliverAll(s, [Delivery([u], None), Delivery([t], None)])
       <==> (t.signature == u.signature ==> t == u)
  {
    var st, su := s.(rows := s.rows[t.signature := t]), s.(rows := s.rows[u.signature := u]);
    CommitOne(s, t);
    CommitOne(s, u);
    CommitOne(st, u);
    CommitOne(su, t);
    assert [Delivery([t], None), Delivery([u], None)][1..] == [Delivery([u], None)];
    assert [Delivery([u], None), Delivery([t], None)][1..] == [Delivery([t], None)];
    assert DeliverAll(st, [Delivery([u], None)]) == Committed(st, [u], None).0;
    assert DeliverAll(su, [Delivery([t], None)]) == Committed(su, [t], None).0;
    if t.signature == u.signature {
      assert st.rows[t.signature] == t && su.rows[t.signature] == u;
    } else {
      assert s.rows[t.signature := t][u.signature := u] == s.rows[u.signature := u][t.signature := t];
    }
  }
}
