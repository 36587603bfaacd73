/** Inferring a transfer from the balances before and after a transaction. */
module Balances {
  import opened Transactions

  const HALF: int := 0x8000_0000_0000_0000

  const FULL: int := 0x1_0000_0000_0000_0000

  /** 64-bit signed arithmetic wraps. */
  function Wrap(x: int): int {
    var low := x % FULL;
    if low < HALF then low else low - FULL
  }

  /** Lamports as the node reports them: unsigned, 64 bits. */
  predicate Lamports(balances: seq<int>) {
    forall i :: 0 <= i < |balances| ==> 0 <= balances[i] < FULL
  }

  /** The running result of the scan. */
  datatype Extremes = Extremes(decrease: int, increase: int, source: nat, target: nat)

  const NO_CHANGE := Extremes(0, 0, 0, 0)

  /** One step of the loop, with every cast, subtraction and negation in 64 bits. */
  function Look(x: Extremes, i: nat, pre: int, post: int): Extremes {
    var change := Wrap(Wrap(post) - Wrap(pre));
    if change < Wrap(-x.decrease) then x.(decrease := Wrap(-change), source := i)
    else if change > x.increase then x.(increase := change, target := i)
    else x
  }

  function Scan(pre: seq<int>, post: seq<int>, n: nat): Extremes
    requires n <= |pre| && n <= |post|
  {
    if n == 0 then NO_CHANGE else Look(Scan(pre, post, n - 1), n - 1, pre[n - 1], post[n - 1])
  }

  /** What each account won, over the accounts both lists report. */
  function Gains(pre: seq<int>, post: seq<int>): seq<int> {
    seq(Min(|pre|, |post|), i requires 0 <= i < Min(|pre|, |post|) => post[i] - pre[i])
  }

  function Losses(pre: seq<int>, post: seq<int>): seq<int> {
    Gains(post, pre)
  }

  /** `best` is the largest of 0 and the first n values; `at` is the first index that reaches it, or 0
      when none is positive. */
  ghost predicate FirstBest(values: seq<int>, n: nat, best: int, at: nat)
    requires n <= |values|
  {
    && best >= 0 && (forall i :: 0 <= i < n ==> values[i] <= best)
    && (best == 0 ==> at == 0)
    && (best > 0 ==> at < n && values[at] == best && forall i :: 0 <= i < at ==> values[i] < best)
  }

  /** Casts wrap, but a difference below 2^63 survives them. */
  lemma CastsCancel(pre: int, post: int)
    requires 0 <= pre < FULL && 0 <= post < FULL && -HALF < post - pre < HALF
    ensures Wrap(Wrap(post) - Wrap(pre)) == post - pre
  {
  }

  lemma WrapSmall(x: int)
    requires -HALF <= x < HALF
    ensures Wrap(x) == x
  {
  }

  /** For a change below 2^63, one step takes the first of the two strict comparisons that holds. */
  lemma LookExact(x: Extremes, i: nat, pre: int, post: int)
    requires 0 <= pre < FULL && 0 <= post < FULL && -HALF < post - pre < HALF && 0 <= x.decrease < HALF
    ensures Look(x, i, pre, post) ==
      if pre - post > x.decrease then x.(decrease := pre - post, source := i)
      else if post - pre > x.increase then x.(increase := post - pre, target := i)
      else x
  {
    CastsCancel(pre, post);
    WrapSmall(pre - post);
    WrapSmall(-x.decrease);
  }

  /** Every one of the first n balances changed by less than 2^63. */
  predicate Moderate(pre: seq<int>, post: seq<int>, n: nat)
    requires n <= |pre| && n <= |post|
  {
    forall i :: 0 <= i < n ==> -HALF < post[i] - pre[i] < HALF
  }

  /** The scan has found the first index of the true largest gain and of the true largest loss. */
  ghost predicate Finds(pre: seq<int>, post: seq<int>, n: nat, x: Extremes)
    requires n <= |pre| && n <= |post|
  {
    FirstBest(Gains(pre, post), n, x.increase, x.target) && FirstBest(Losses(pre, post), n, x.decrease, x.source)
  }

  lemma {:induction false} ModerateFinds(pre: seq<int>, post: seq<int>, n: nat)
    requires n <= |pre| && n <= |post| && Lamports(pre) && Lamports(post) && Moderate(pre, post, n)
    ensures Finds(pre, post, n, Scan(pre, post, n))
    ensures Scan(pre, post, n).decrease < HALF
  {
    hide Wrap;
    if n > 0 {
      ModerateFinds(pre, post, n - 1);
      LookExact(Scan(pre, post, n - 1), n - 1, pre[n - 1], post[n - 1]);
    }
  }

  lemma {:induction false} ScanBelowHalf(pre: seq<int>, post: seq<int>, n: nat)
    requires n <= |pre| && n <= |post|
    ensures Scan(pre, post, n).increase < HALF && Scan(pre, post, n).decrease < HALF
  {
    if n > 0 {
      ScanBelowHalf(pre, post, n - 1);
    }
  }

  /** For all lists of lamports, the scan is right exactly when every change is below 2^63. */
  lemma ScanFindsExtremes(pre: seq<int>, post: seq<int>, n: nat)
    requires n <= |pre| && n <= |post| && Lamports(pre) && Lamports(post)
    ensures Finds(pre, post, n, Scan(pre, post, n)) <==> Moderate(pre, post, n)
  {
    var x := Scan(pre, post, n);
    if Moderate(pre, post, n) {
      ModerateFinds(pre, post, n);
    } else if Finds(pre, post, n, x) {
      ScanBelowHalf(pre, post, n);
      forall i | 0 <= i < n
        ensures -HALF < post[i] - pre[i] < HALF
      {
        assert Gains(pre, post)[i] <= x.increase && Losses(pre, post)[i] <= x.decrease;
      }
    }
  }

  /** In particular it is right whenever all balances are below 2^63. */
  lemma SmallBalances(pre: seq<int>, post: seq<int>, n: nat)
    requires n <= |pre| && n <= |post| && Lamports(pre) && Lamports(post)
    requires forall i :: 0 <= i < n ==> pre[i] < 0x8000_0000_0000_0000 && post[i] < 0x8000_0000_0000_0000
    ensures Finds(pre, post, n, Scan(pre, post, n))
  {
    ScanFindsExtremes(pre, post, n);
  }

  /** A change of 2^63 is taken for a loss. */
  lemma ScanCanWrap()
    ensures var (pre, post) := ([0], [0x8000_0000_0000_0000]);
      Lamports(post) && !Finds(pre, post, 1, Scan(pre, post, 1)) && Scan(pre, post, 1).increase == 0
  {
    ScanFindsExtremes([0], [HALF], 1);
    assert Scan([0], [HALF], 0) == NO_CHANGE;
  }

  // ---------------------------------------------------------------- the inferred transfer

  datatype Inferred = Inferred(destination: Address, lamports: int)

  /** The inference, run when no instruction named a destination. */
  method InferTransfer(pre: seq<int>, post: seq<int>, accountKeys: seq<Address>) returns (r: Option<Inferred>)
    ensures r == Inference(pre, post, accountKeys)
  {
    hide Wrap;
    if post == [] || pre == [] {
      return None;
    }
    var n := Min(|pre|, |post|);
    var decrease, increase, source, target := 0, 0, 0, 0;
    for i := 0 to n
      invariant Extremes(decrease, increase, source, target) == Scan(pre, post, i)
    {
      var change := Wrap(Wrap(post[i]) - Wrap(pre[i]));
      if change < Wrap(-decrease) {
        decrease, source := Wrap(-change), i;
      } else if change > increase {
        increase, target := change, i;
      }
    }
    if decrease > 0 && increase > 0 && source != target {
      if target < |accountKeys| {
        return Some(Inferred(accountKeys[target], increase));
      }
    }
    r := None;
  }

  function Inference(pre: seq<int>, post: seq<int>, accountKeys: seq<Address>): Option<Inferred> {
    var x := Scan(pre, post, Min(|pre|, |post|));
    if x.decrease > 0 && x.increase > 0 && x.source != x.target && x.target < |accountKeys|
    then Some(Inferred(accountKeys[x.target], x.increase)) else None
  }

  function Sum(values: seq<int>): int {
    if values == [] then 0 else values[0] + Sum(values[1..])
  }

  lemma {:induction false} NoLossNoGain(values: seq<int>)
    requires forall i :: 0 <= i < |values| ==> values[i] >= 0
    ensures Sum(values) >= 0 && (Sum(values) == 0 ==> forall i :: 0 <= i < |values| ==> values[i] == 0)
  {
    if values != [] {
      NoLossNoGain(values[1..]);
      assert forall i :: 1 <= i < |values| ==> values[i] == values[1..][i - 1];
    }
  }

  lemma {:induction false} SumOfGains(pre: seq<int>, post: seq<int>)
    requires |pre| == |post|
    ensures Sum(Gains(pre, post)) == Sum(post) - Sum(pre)
  {
    if pre != [] {
      SumOfGains(pre[1..], post[1..]);
      assert Gains(pre, post)[1..] == Gains(pre[1..], post[1..]);
    }
  }

  /** The i-th account is the first of those with the largest gain, and it did gain. */
  ghost predicate GainsMost(pre: seq<int>, post: seq<int>, i: nat) {
    && i < |pre| && i < |post| && post[i] > pre[i]
    && (forall j :: 0 <= j < |pre| && j < |post| ==> post[j] - pre[j] <= post[i] - pre[i])
    && (forall j :: 0 <= j < i ==> post[j] - pre[j] < post[i] - pre[i])
  }

  ghost predicate SomeLoss(pre: seq<int>, post: seq<int>) {
    exists i :: 0 <= i < |pre| && i < |post| && post[i] < pre[i]
  }

  lemma TargetGains(pre: seq<int>, post: seq<int>, increase: int, target: nat)
    requires FirstBest(Gains(pre, post), Min(|pre|, |post|), increase, target)
    ensures forall i: nat :: GainsMost(pre, post, i) <==> increase > 0 && i == target
    ensures increase > 0 ==> target < Min(|pre|, |post|) && post[target] - pre[target] == increase
  {
    var gains := Gains(pre, post);
    assert forall i :: 0 <= i < |gains| ==> gains[i] == post[i] - pre[i];
  }

  lemma SourceLoses(pre: seq<int>, post: seq<int>, decrease: int, source: nat)
    requires FirstBest(Losses(pre, post), Min(|pre|, |post|), decrease, source)
    ensures decrease > 0 <==> SomeLoss(pre, post)
    ensures decrease > 0 ==> source < Min(|pre|, |post|) && pre[source] - post[source] == decrease
  {
    var losses := Losses(pre, post);
    assert forall i :: 0 <= i < |losses| ==> losses[i] == pre[i] - post[i];
    if i :| 0 <= i < |pre| && i < |post| && post[i] < pre[i] {
      assert losses[i] > 0;
    }
  }

  /** For all balances with changes below 2^63, a transfer is inferred exactly when some account lost something and the
      first largest gainer has a listed key; it goes to that account, and its amount is that gain. */
  lemma InferenceExact(pre: seq<int>, post: seq<int>, accountKeys: seq<Address>)
    requires Lamports(pre) && Lamports(post) && Moderate(pre, post, Min(|pre|, |post|))
    ensures Inference(pre, post, accountKeys).Some? <==>
      SomeLoss(pre, post) && (exists i: nat :: GainsMost(pre, post, i) && i < |accountKeys|)
    ensures forall i: nat ::
      GainsMost(pre, post, i) && i < |accountKeys| && Inference(pre, post, accountKeys).Some? ==>
        Inference(pre, post, accountKeys).value == Inferred(accountKeys[i], post[i] - pre[i])
  {
    hide Wrap, Look, Scan, Lamports, GainsMost, FirstBest, Gains, Losses, SomeLoss;
    var x := Scan(pre, post, Min(|pre|, |post|));
    ScanFindsExtremes(pre, post, Min(|pre|, |post|));
    hide Moderate;
    TargetGains(pre, post, x.increase, x.target);
    SourceLoses(pre, post, x.decrease, x.source);
    if x.increase > 0 {
      assert GainsMost(pre, post, x.target);
    }
    if x.increase > 0 && x.decrease > 0 {
      assert pre[x.source] - post[x.source] != pre[x.target] - post[x.target];
    }
  }

  /** When the listed accounts hold no more after than before, as after paying a fee, a transfer is
      inferred exactly when some account gained and the largest gainer has a listed key; it names the first
      account with the largest gain, and that gain. The two extreme indices cannot coincide. */
  lemma InferenceMeaning(pre: seq<int>, post: seq<int>, accountKeys: seq<Address>)
    requires Lamports(pre) && Lamports(post) && Moderate(pre, post, Min(|pre|, |post|))
    requires Sum(Gains(pre, post)) <= 0
    ensures var n := Min(|pre|, |post|);
      var x := Scan(pre, post, n);
      && (x.increase > 0 <==> exists i :: 0 <= i < n && post[i] > pre[i])
      && (x.increase > 0 ==> x.decrease > 0 && x.source != x.target)
      && (Inference(pre, post, accountKeys).Some? <==> x.increase > 0 && x.target < |accountKeys|)
    ensures Inference(pre, post, accountKeys).Some? ==>
      IsFirstGainer(pre, post, accountKeys, Inference(pre, post, accountKeys).value)
  {
    var n := Min(|pre|, |post|);
    var x := Scan(pre, post, n);
    var gains, losses := Gains(pre, post), Losses(pre, post);
    ScanFindsExtremes(pre, post, n);
    hide Wrap, Look, Scan;
    assert forall i :: 0 <= i < n ==> gains[i] == post[i] - pre[i] && losses[i] == -gains[i];
    if x.increase > 0 {
      assert gains[x.target] > 0;
      if x.decrease == 0 {
        forall i | 0 <= i < |gains|
          ensures gains[i] >= 0
        {
          assert losses[i] <= 0;
        }
        NoLossNoGain(gains);
      } else {
        assert losses[x.source] > 0;
      }
    }
  }

  /** In particular when the lists are of one length and the total over all accounts did not grow. */
  lemma InferenceOfTotals(pre: seq<int>, post: seq<int>, accountKeys: seq<Address>)
    requires |pre| == |post| && Lamports(pre) && Lamports(post) && Moderate(pre, post, |pre|)
    requires Sum(post) <= Sum(pre)
    ensures Inference(pre, post, accountKeys).Some? <==>
      var x := Scan(pre, post, |pre|);
      (exists i :: 0 <= i < |pre| && post[i] > pre[i]) && x.target < |accountKeys|
    ensures Inference(pre, post, accountKeys).Some? ==>
      IsFirstGainer(pre, post, accountKeys, Inference(pre, post, accountKeys).value)
  {
    SumOfGains(pre, post);
    InferenceMeaning(pre, post, accountKeys);
  }

  /** The destination is the first account whose gain is the largest, and that gain is positive. */
  ghost predicate IsFirstGainer(pre: seq<int>, post: seq<int>, accountKeys: seq<Address>, r: Inferred) {
    var gains := Gains(pre, post);
    exists i :: 0 <= i < |gains| && i < |accountKeys| && r == Inferred(accountKeys[i], gains[i]) && gains[i] > 0
             && (forall j :: 0 <= j < |gains| ==> gains[j] <= gains[i])
             && (forall j :: 0 <= j < i ==> gains[j] < gains[i])
  }
}
