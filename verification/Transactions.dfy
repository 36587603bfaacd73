/** The value types shared by every part of the model, and the few sequence and
    multiset facts that more than one part needs. */
module Transactions {

  datatype Option<+T> = None | Some(value: T)

  datatype Result<+T, +E> = Ok(value: T) | Err(error: E)

  type Address = string

  type Signature = string

  /** One row of the `transactions` table. Amounts are exact reals. */
  datatype Transaction = Transaction(
    signature: Signature,
    blockTime: int,
    slot: int,
    source: Address,
    destination: Option<Address>,
    amount: Option<real>,
    programId: Option<string>,
    success: bool)
  {
    /** The addresses the row's foreign keys name. */
    function Endpoints(): set<Address> {
      if destination.Some? then {source, destination.value} else {source}
    }
  }

  /** All addresses a batch names. */
  function EndpointsOf(txs: seq<Transaction>): set<Address> {
    set t, a | t in txs && a in t.Endpoints() :: a
  }

  function Min(a: int, b: int): int {
    if a < b then a else b
  }

  function Max(a: int, b: int): int {
    if a < b then b else a
  }

  function ToSet<T>(s: seq<T>): set<T> {
    set x | x in s
  }

  function Flatten<T>(s: seq<seq<T>>): seq<T> {
    if s == [] then [] else s[0] + Flatten(s[1..])
  }

  lemma {:induction false} FlattenAppend<T>(s: seq<seq<T>>, t: seq<seq<T>>)
    ensures Flatten(s + t) == Flatten(s) + Flatten(t)
  {
    if s == [] {
      assert s + t == t;
    } else {
      assert (s + t)[1..] == s[1..] + t;
      FlattenAppend(s[1..], t);
    }
  }

  lemma {:induction false} FlattenMember<T>(lists: seq<seq<T>>, t: T) returns (i: nat, j: nat)
    requires t in Flatten(lists)
    ensures i < |lists| && j < |lists[i]| && lists[i][j] == t
  {
    if t in lists[0] {
      i := 0;
      j :| 0 <= j < |lists[0]| && lists[0][j] == t;
    } else {
      i, j := FlattenMember(lists[1..], t);
      i := i + 1;
    }
  }

  lemma {:induction false} FlattenHolds<T>(lists: seq<seq<T>>, i: nat, t: T)
    requires i < |lists| && t in lists[i]
    ensures t in Flatten(lists)
  {
    if i > 0 {
      FlattenHolds(lists[1..], i - 1, t);
    }
  }

  /** The transactions of `txs` whose source is `a`, in order. */
  function Restrict(txs: seq<Transaction>, a: Address): seq<Transaction> {
    if txs == [] then []
    else (if txs[0].source == a then [txs[0]] else []) + Restrict(txs[1..], a)
  }

  lemma {:induction false} RestrictAppend(s: seq<Transaction>, t: seq<Transaction>, a: Address)
    ensures Restrict(s + t, a) == Restrict(s, a) + Restrict(t, a)
  {
    if s == [] {
      assert s + t == t;
    } else {
      assert (s + t)[0] == s[0] && (s + t)[1..] == s[1..] + t;
      RestrictAppend(s[1..], t, a);
      var first := if s[0].source == a then [s[0]] else [];
      assert first + (Restrict(s[1..], a) + Restrict(t, a)) == first + Restrict(s[1..], a) + Restrict(t, a);
    }
  }

  lemma {:induction false} RestrictOwn(s: seq<Transaction>, owner: Address, a: Address)
    requires forall i :: 0 <= i < |s| ==> s[i].source == owner
    ensures Restrict(s, a) == if a == owner then s else []
  {
    if s != [] {
      RestrictOwn(s[1..], owner, a);
      assert s == [s[0]] + s[1..];
    }
  }

  lemma SplitAt<T>(s: seq<T>, i: nat)
    requires i < |s|
    ensures multiset(s) == multiset(s[..i]) + multiset{s[i]} + multiset(s[i + 1..])
  {
    assert s == s[..i] + [s[i]] + s[i + 1..];
  }
}
