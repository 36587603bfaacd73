/** Lexicographic order on strings, sorting and dedup, as used on lists of signatures. */
module Sorting {
  import opened Transactions

  predicate Leq(s: string, t: string) {
    s == [] || (t != [] && (s[0] < t[0] || (s[0] == t[0] && Leq(s[1..], t[1..]))))
  }

  lemma {:induction false} LeqTotal(s: string, t: string)
    ensures Leq(s, t) || Leq(t, s)
    ensures Leq(s, t) && Leq(t, s) ==> s == t
  {
    if s != [] && t != [] {
      LeqTotal(s[1..], t[1..]);
      assert s == [s[0]] + s[1..] && t == [t[0]] + t[1..];
    }
  }

  lemma {:induction false} LeqTransitive(s: string, t: string, u: string)
    requires Leq(s, t) && Leq(t, u)
    ensures Leq(s, u)
  {
    if s != [] && s[0] == t[0] == u[0] {
      LeqTransitive(s[1..], t[1..], u[1..]);
    }
  }

  /** The order of the dictionary: a prefix comes first, otherwise the first different character decides. */
  lemma {:induction false} LeqMeaning(s: string, t: string)
    ensures Leq(s, t) <==>
      s <= t || exists i :: 0 <= i < |s| && i < |t| && s[..i] == t[..i] && s[i] < t[i]
  {
    if s != [] && t != [] && s[0] == t[0] {
      LeqMeaning(s[1..], t[1..]);
      assert s == [s[0]] + s[1..] && t == [t[0]] + t[1..];
      if i :| 0 <= i < |s[1..]| && i < |t[1..]| && s[1..][..i] == t[1..][..i] && s[1..][i] < t[1..][i] {
        assert s[..i + 1] == [s[0]] + s[1..][..i] && t[..i + 1] == [t[0]] + t[1..][..i];
        assert s[i + 1] < t[i + 1];
      }
      if i :| 0 <= i < |s| && i < |t| && s[..i] == t[..i] && s[i] < t[i] {
        assert i > 0 && s[1..][..i - 1] == s[..i][1..] && t[1..][..i - 1] == t[..i][1..];
        assert s[1..][i - 1] < t[1..][i - 1];
      }
    } else if s != [] && t != [] && s[0] < t[0] {
      assert s[..0] == t[..0];
    } else if s != [] && t != [] {
      forall i | 0 < i < |s| && i < |t|
        ensures s[..i] != t[..i]
      {
        assert s[..i][0] == s[0] && t[..i][0] == t[0];
      }
    }
  }

  ghost predicate Sorted(s: seq<string>) {
    forall i, j :: 0 <= i < j < |s| ==> Leq(s[i], s[j])
  }

  ghost predicate Distinct<T>(s: seq<T>) {
    forall i, j :: 0 <= i < j < |s| ==> s[i] != s[j]
  }

  function Insert(x: string, s: seq<string>): seq<string> {
    if s == [] || Leq(x, s[0]) then [x] + s else [s[0]] + Insert(x, s[1..])
  }

  function Sort(s: seq<string>): seq<string> {
    if s == [] then [] else Insert(s[0], Sort(s[1..]))
  }

  /** Removal of consecutive repetitions. */
  function Dedup(s: seq<string>): seq<string> {
    if |s| <= 1 then s
    else if s[0] == s[1] then Dedup(s[1..])
    else [s[0]] + Dedup(s[1..])
  }

  lemma {:induction false} InsertSorted(x: string, s: seq<string>)
    requires Sorted(s)
    ensures Sorted(Insert(x, s)) && ToSet(Insert(x, s)) == {x} + ToSet(s)
  {
    if s == [] {
    } else if Leq(x, s[0]) {
      forall i | 0 <= i < |s|
        ensures Leq(x, s[i])
      {
        if i > 0 {
          LeqTransitive(x, s[0], s[i]);
        }
      }
    } else {
      var rest := Insert(x, s[1..]);
      InsertSorted(x, s[1..]);
      LeqTotal(x, s[0]);
      assert s == [s[0]] + s[1..];
      forall i | 0 <= i < |rest|
        ensures Leq(s[0], rest[i])
      {
        assert rest[i] in ToSet(rest);
      }
      assert ToSet([s[0]] + rest) == {s[0]} + ToSet(rest);
    }
  }

  lemma {:induction false} SortSorted(s: seq<string>)
    ensures Sorted(Sort(s)) && ToSet(Sort(s)) == ToSet(s)
  {
    if s != [] {
      SortSorted(s[1..]);
      InsertSorted(s[0], Sort(s[1..]));
      assert s == [s[0]] + s[1..];
    }
  }

  lemma {:induction false} DedupDistinct(s: seq<string>)
    requires Sorted(s)
    ensures Sorted(Dedup(s)) && Distinct(Dedup(s)) && ToSet(Dedup(s)) == ToSet(s)
  {
    if |s| > 1 {
      var rest := Dedup(s[1..]);
      DedupDistinct(s[1..]);
      assert s == [s[0]] + s[1..];
      if s[0] != s[1] {
        forall i | 0 <= i < |rest|
          ensures Leq(s[0], rest[i]) && s[0] != rest[i]
        {
          assert rest[i] in ToSet(s[1..]);
          var j :| 1 <= j < |s| && s[j] == rest[i];
          LeqTotal(s[0], s[1]);
          assert j == 1 || Leq(s[1], s[j]);
        }
        assert ToSet([s[0]] + rest) == {s[0]} + ToSet(rest);
      } else {
        assert s[0] in s[1..];
      }
    }
  }
}
