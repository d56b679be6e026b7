/** The Fisher-Yates shuffle driven by the generator. */
module Shuffle {
  import opened Words
  import opened Wrappers
  import opened Rng

  /** Draw number `j` of a shuffle of `n` items picks a position in the first `n - j`. */
  ghost predicate ValidDraws(n: nat, draws: seq<nat>) {
    |draws| == (if n == 0 then 0 else n - 1) && forall j :: 0 <= j < |draws| ==> draws[j] < n - j
  }

  function Swap<T>(s: seq<T>, i: nat, j: nat): seq<T>
    requires i < |s| && j < |s|
  {
    s[i := s[j]][j := s[i]]
  }

  /** The order a sequence of draws produces: each step settles the last open position. */
  ghost function Shuffled<T>(s: seq<T>, draws: seq<nat>): (r: seq<T>)
    requires ValidDraws(|s|, draws)
    ensures |r| == |s|
    decreases |s|
  {
    if |s| <= 1 then s
    else
      var t := Swap(s, |s| - 1, draws[0]);
      Shuffled(t[..|s| - 1], draws[1..]) + [t[|s| - 1]]
  }

  ghost predicate Distinct<T>(s: seq<T>) {
    forall i, j :: 0 <= i < j < |s| ==> s[i] != s[j]
  }

  lemma SwapPermutes<T>(s: seq<T>, i: nat, j: nat)
    requires i < |s| && j < |s|
    ensures multiset(Swap(s, i, j)) == multiset(s)
  {
  }

  lemma SplitLast<T>(s: seq<T>)
    requires |s| > 0
    ensures multiset(s) == multiset(s[..|s| - 1]) + multiset{s[|s| - 1]}
  {
    assert s == s[..|s| - 1] + [s[|s| - 1]];
  }

  lemma {:induction false} ShuffledIsPermutation<T>(s: seq<T>, draws: seq<nat>)
    requires ValidDraws(|s|, draws)
    ensures multiset(Shuffled(s, draws)) == multiset(s)
    decreases |s|
  {
    if |s| > 1 {
      var t := Swap(s, |s| - 1, draws[0]);
      SwapPermutes(s, |s| - 1, draws[0]);
      ShuffledIsPermutation(t[..|s| - 1], draws[1..]);
      SplitLast(t);
    }
  }

  /** The first draw fixes the last item, the others the rest. */
  lemma {:induction false} ShuffledParts<T>(s: seq<T>, draws: seq<nat>)
    requires |s| > 1 && ValidDraws(|s|, draws)
    ensures var n, r := |s| - 1, Shuffled(s, draws);
      && |r| == |s| && r[n] == s[draws[0]] && r[..n] == Shuffled(Swap(s, n, draws[0])[..n], draws[1..])
  {
  }

  /** Different draws give different orders of distinct items. */
  lemma {:induction false} DrawsAreRecoverable<T>(s: seq<T>, d: seq<nat>, e: seq<nat>)
    requires Distinct(s) && ValidDraws(|s|, d) && ValidDraws(|s|, e)
    requires Shuffled(s, d) == Shuffled(s, e)
    ensures d == e
    decreases |s|
  {
    if |s| > 1 {
      var n := |s| - 1;
      var t, u := Swap(s, n, d[0]), Swap(s, n, e[0]);
      ShuffledParts(s, d);
      ShuffledParts(s, e);
      assert s[d[0]] == s[e[0]] && t == u;
      DrawsAreRecoverable(t[..n], d[1..], e[1..]);
      assert d == [d[0]] + d[1..] && e == [e[0]] + e[1..];
    }
  }

  /** Every order of the items is produced by some draws. */
  lemma {:induction false} EveryOrderIsReached<T>(s: seq<T>, p: seq<T>) returns (draws: seq<nat>)
    requires multiset(p) == multiset(s)
    ensures ValidDraws(|s|, draws)
    ensures Shuffled(s, draws) == p
    decreases |s|
  {
    assert |s| == |multiset(s)| == |multiset(p)| == |p|;
    if |s| <= 1 {
      draws := [];
      if |s| == 1 {
        assert p[0] in multiset(s);
      }
    } else {
      var n := |s| - 1;
      assert p[n] in multiset(s);
      var k: nat :| k < |s| && s[k] == p[n];
      var t := Swap(s, n, k);
      SameExceptLast(s, k, p);
      var rest := EveryOrderIsReached(t[..n], p[..n]);
      draws := [k] + rest;
      FirstDrawReaches(s, p, k, rest);
    }
  }

  /** Draws that order the others put a further draw in front when the last item is as wanted. */
  lemma {:induction false} FirstDrawReaches<T>(s: seq<T>, p: seq<T>, k: nat, rest: seq<nat>)
    requires |s| == |p| > 1 && k < |s| && s[k] == p[|s| - 1] && ValidDraws(|s| - 1, rest)
    requires Shuffled(Swap(s, |s| - 1, k)[..|s| - 1], rest) == p[..|s| - 1]
    ensures ValidDraws(|s|, [k] + rest) && Shuffled(s, [k] + rest) == p
  {
    assert ([k] + rest)[1..] == rest;
    assert p == p[..|s| - 1] + [p[|s| - 1]];
  }

  lemma {:induction false} WithoutLast<T>(s: seq<T>, n: nat)
    requires n + 1 == |s|
    ensures multiset(s[..n]) == multiset(s) - multiset{s[n]}
  {
    SplitLast(s);
  }

  lemma {:induction false} SameExceptLast<T>(s: seq<T>, k: nat, p: seq<T>)
    requires multiset(p) == multiset(s) && |p| == |s| && k < |s|
    requires s[k] == p[|s| - 1]
    ensures multiset(Swap(s, |s| - 1, k)[..|s| - 1]) == multiset(p[..|s| - 1])
  {
    var n := |s| - 1;
    var t := Swap(s, n, k);
    SwapPermutes(s, n, k);
    WithoutLast(t, n);
    WithoutLast(p, n);
  }

  /** The draws a shuffle of `n` items takes from the generator. */
  ghost function DrawList(state: u64, n: nat): (draws: seq<nat>)
    requires n < TWO_TO_THE_64
    ensures ValidDraws(n, draws)
    decreases n
  {
    if n <= 1 then []
    else
      [Sample(state, n)] + DrawList(StateAfterSample(state, n), n - 1)
  }

  ghost function StateAfterShuffle(state: u64, n: nat): u64
    requires n < TWO_TO_THE_64
    decreases n
  {
    if n <= 1 then state else StateAfterShuffle(StateAfterSample(state, n), n - 1)
  }

  lemma NextDraw(state: u64, n: nat)
    requires 1 < n < TWO_TO_THE_64
    ensures DrawList(state, n)[0] == Sample(state, n)
    ensures DrawList(state, n)[1..] == DrawList(StateAfterSample(state, n), n - 1)
    ensures StateAfterShuffle(state, n) == StateAfterShuffle(StateAfterSample(state, n), n - 1)
  {
  }

  /** What a shuffle ends with when the first `index` positions of `s` are still open. */
  ghost function Outcome<T>(s: seq<T>, index: nat, draws: seq<nat>): seq<T>
    requires index <= |s| && ValidDraws(index, draws)
  {
    Shuffled(s[..index], draws) + s[index..]
  }

  lemma OutcomeAtEnds<T>(s: seq<T>, index: nat, draws: seq<nat>)
    requires index <= |s| && ValidDraws(index, draws)
    ensures index == |s| ==> Outcome(s, index, draws) == Shuffled(s, draws)
    ensures index <= 1 ==> Outcome(s, index, draws) == s
  {
    assert s[..index] + s[index..] == s;
    if index == |s| {
      assert s[..index] == s && s[index..] == [];
    }
  }

  lemma OneStep<T>(s: seq<T>, index: nat, draws: seq<nat>)
    requires 0 < index < |s| && ValidDraws(index + 1, draws)
    ensures Outcome(Swap(s, index, draws[0]), index, draws[1..]) == Outcome(s, index + 1, draws)
  {
    var now := Swap(s, index, draws[0]);
    var t := Swap(s[..index + 1], index, draws[0]);
    assert t[..index] == now[..index];
    assert now[index..] == [t[index]] + s[index + 1..];
  }

  /** One turn of the shuffle loop: a drawn item is swapped to position `index` and stays there. */
  method SettlePosition<T>(rng: DeterministicRng, values: array<T>, index: nat, ghost draws: seq<nat>)
    requires 0 < index < values.Length < TWO_TO_THE_64
    requires draws == DrawList(rng.state, index + 1)
    modifies rng, values
    ensures draws[1..] == DrawList(rng.state, index)
    ensures StateAfterShuffle(rng.state, index) == StateAfterShuffle(old(rng.state), index + 1)
    ensures Outcome(values[..], index, draws[1..]) == Outcome(old(values[..]), index + 1, draws)
  {
    NextDraw(rng.state, index + 1);
    OneStep(values[..], index, draws);
    ghost var next := Swap(values[..], index, draws[0]);
    var selected := rng.Below(index + 1);
    match selected {
      case None => assert false;
      case Some(position) =>
        values[index], values[position] := values[position], values[index];
    }
    assert values[..] == next;
  }

  /** In place; the bound of every draw is non-zero, so no position is skipped. */
  method ShuffleInPlace<T>(rng: DeterministicRng, values: array<T>)
    requires values.Length < TWO_TO_THE_64
    modifies rng, values
    ensures values[..] == Shuffled(old(values[..]), DrawList(old(rng.state), values.Length))
    ensures rng.state == StateAfterShuffle(old(rng.state), values.Length)
  {
    var index := values.Length;
    ghost var draws, last := DrawList(rng.state, index), StateAfterShuffle(rng.state, index);
    ghost var goal := Shuffled(values[..], draws);
    OutcomeAtEnds(values[..], index, draws);
    while index > 1
      invariant 0 <= index <= values.Length
      invariant draws == DrawList(rng.state, index)
      invariant StateAfterShuffle(rng.state, index) == last
      invariant Outcome(values[..], index, draws) == goal
    {
      index := index - 1;
      SettlePosition(rng, values, index, draws);
      draws := draws[1..];
    }
    OutcomeAtEnds(values[..], index, draws);
  }
}
