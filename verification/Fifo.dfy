/** Queues that are taken as a whole, worked off from the front, and put back as far as they were not. */
module Fifo {
  import opened Buffers
  import opened Drive

  function Reversed<T>(s: seq<T>): (r: seq<T>)
    ensures |r| == |s| && forall i :: 0 <= i < |s| ==> r[i] == s[|s| - 1 - i]
  {
    seq(|s|, i requires 0 <= i < |s| => s[|s| - 1 - i])
  }

  lemma {:induction false} ReversedTwice<T>(s: seq<T>)
    ensures Reversed(Reversed(s)) == s
  {
  }

  /** The last item of a reversed queue is its front. */
  lemma {:induction false} ReversedEnd<T>(s: seq<T>)
    requires s != []
    ensures Reversed(s)[|s| - 1] == s[0] && Reversed(s)[..|s| - 1] == Reversed(s[1..])
    ensures Reversed(s[1..]) + [s[0]] == Reversed(s)
  {
  }

  lemma {:induction false} MoveOne<T>(done: seq<T>, left: seq<T>)
    requires left != []
    ensures done + [left[0]] + left[1..] == done + left
  {
  }

  /** Applies outputs in order, one step of budget each; what is not applied stays queued, the refused one first. */
  method ApplyOutputs<T>(queue: seq<T>, drive: DriveTurn) returns (applied: seq<T>, rest: seq<T>)
    modifies drive
    ensures applied + rest == queue && |applied| <= old(drive.budget).steps
    ensures rest != [] ==> drive.report.budgetExhausted && !drive.budget.CanContinue()
    ensures Advances(old(drive.budget), old(drive.report), drive.budget, drive.report)
  {
    ghost var b, r, left := drive.budget, drive.report, queue;
    var items := Reversed(queue);
    applied := [];
    var refused := false;
    while items != [] && !refused
      invariant applied + left == queue && items == Reversed(left)
      invariant Advances(b, r, drive.budget, drive.report) && |applied| + drive.budget.steps <= b.steps
      invariant refused ==> drive.report.budgetExhausted && !drive.budget.CanContinue()
      decreases !refused, |items|
    {
      ghost var b1, r1 := drive.budget, drive.report;
      ReversedEnd(left);
      var item := items[|items| - 1];
      items := items[..|items| - 1];
      var ok := drive.ApplyComponentOutput();
      AdvancesIsTransitive(b, r, b1, r1, drive.budget, drive.report);
      if ok {
        MoveOne(applied, left);
        applied, left := applied + [item], left[1..];
      } else {
        items := items + [item];
        refused := true;
      }
    }
    ReversedTwice(left);
    rest := Reversed(items);
  }

  // ---- Event queues whose handlers may append ----

  /** What a handler does with the event it is given, and what it appends to the same queue meanwhile. */
  datatype Verdict<T> = Handled(appends: seq<T>) | PutBack(appends: seq<T>)

  /** The verdict of the `k`th event of a pass; events beyond those listed are simply handled. */
  function VerdictAt<T>(verdicts: seq<Verdict<T>>, k: nat): Verdict<T> {
    if k < |verdicts| then verdicts[k] else Handled([])
  }

  /** How many of `n` events a pass handles, from the `k`th on. */
  function HandledFrom<T>(verdicts: seq<Verdict<T>>, k: nat, n: nat): (h: nat)
    requires k <= n
    ensures h <= n - k
    decreases n - k
  {
    if k == n || VerdictAt(verdicts, k).PutBack? then 0 else 1 + HandledFrom(verdicts, k + 1, n)
  }

  /** What handlers append to the queue while a pass over `n` events works on it, from the `k`th on. */
  function AppendedFrom<T>(verdicts: seq<Verdict<T>>, k: nat, n: nat): seq<T>
    requires k <= n
    decreases n - k
  {
    if k == n then []
    else if VerdictAt(verdicts, k).PutBack? then VerdictAt(verdicts, k).appends
    else VerdictAt(verdicts, k).appends + AppendedFrom(verdicts, k + 1, n)
  }

  /** In the middle of a pass: `k` events handled, and `appends` lost to be. */
  ghost predicate Passing<T>(verdicts: seq<Verdict<T>>, n: nat, k: nat, blocked: bool, appends: seq<T>)
    requires k <= n
  {
    && HandledFrom(verdicts, 0, n) == k + (if blocked then 0 else HandledFrom(verdicts, k, n))
    && AppendedFrom(verdicts, 0, n) == appends + (if blocked then [] else AppendedFrom(verdicts, k, n))
  }

  lemma {:induction false} PassingStarts<T>(verdicts: seq<Verdict<T>>, n: nat)
    ensures Passing(verdicts, n, 0, false, [])
  {
    assert [] + AppendedFrom(verdicts, 0, n) == AppendedFrom(verdicts, 0, n);
  }

  lemma {:induction false} PassingAdvances<T>(verdicts: seq<Verdict<T>>, n: nat, k: nat, appends: seq<T>)
    requires k < n && Passing(verdicts, n, k, false, appends)
    ensures var v := VerdictAt(verdicts, k);
      Passing(verdicts, n, if v.PutBack? then k else k + 1, v.PutBack?, appends + v.appends)
  {
    var v := VerdictAt(verdicts, k);
    if v.PutBack? {
      assert appends + v.appends + [] == appends + v.appends;
    } else {
      Associates(appends, v.appends, AppendedFrom(verdicts, k + 1, n));
    }
  }

  lemma {:induction false} PassingEnds<T>(verdicts: seq<Verdict<T>>, n: nat, k: nat, blocked: bool, appends: seq<T>)
    requires k <= n && Passing(verdicts, n, k, blocked, appends) && (blocked || k == n)
    ensures HandledFrom(verdicts, 0, n) == k && AppendedFrom(verdicts, 0, n) == appends
  {
    assert appends + [] == appends;
  }

  datatype QueueStep<T> = AppendStep(item: T) | PassStep(verdicts: seq<Verdict<T>>)

  class EventQueue<T> {
    var items: seq<T>
    ghost var appended: seq<T>
    ghost var handled: seq<T>
    ghost var lost: seq<T>

    /** Every event ever appended was handled, is queued, or was lost; order is kept while none was lost. */
    ghost predicate Valid()
      reads this
    {
      && |handled| + |items| + |lost| == |appended|
      && (lost == [] ==> handled + items == appended)
    }

    constructor ()
      ensures Valid() && items == [] && appended == [] && handled == [] && lost == []
    {
      items, appended, handled, lost := [], [], [], [];
    }

    method Append(item: T)
      requires Valid()
      modifies this
      ensures Valid() && items == old(items) + [item] && appended == old(appended) + [item]
      ensures handled == old(handled) && lost == old(lost)
    {
      items, appended := items + [item], appended + [item];
      Associates(handled, old(items), [item]);
    }

    /** Events are pushed one after the other. */
    method Extend(items': seq<T>, ghost more: seq<T>)
      requires Valid() && items' == items + more
      modifies this
      ensures Valid() && items == items' && appended == old(appended) + more
      ensures handled == old(handled) && lost == old(lost)
    {
      items, appended := items', appended + more;
      Associates(handled, old(items), more);
    }

    /**
     * Takes the queue, handles its events until one is put back, and stores what is left over the queue, so that
     * whatever the handlers appended to it in the meantime is gone.
     */
    method ProcessPass(verdicts: seq<Verdict<T>>)
      requires Valid()
      modifies this
      ensures Valid()
      ensures var n := HandledFrom(verdicts, 0, |old(items)|);
        handled == old(handled) + old(items)[..n] && items == old(items)[n..]
      ensures lost == old(lost) + AppendedFrom(verdicts, 0, |old(items)|)
      ensures appended == old(appended) + AppendedFrom(verdicts, 0, |old(items)|)
    {
      ghost var ever, all := appended, handled + items;
      ghost var n, left := |items|, items;
      PassingStarts(verdicts, n);
      var batch := Reversed(items);
      items := [];
      var k := 0;
      var blocked := false;
      while batch != [] && !blocked
        invariant handled + left == all && batch == Reversed(left) && |left| == n - k
        invariant appended == ever + items && lost == old(lost)
        invariant k <= n && Passing(verdicts, n, k, blocked, items)
        decreases !blocked, |batch|
      {
        ReversedEnd(left);
        var event := batch[|batch| - 1];
        batch := batch[..|batch| - 1];
        var verdict := VerdictAt(verdicts, k);
        Associates(ever, items, verdict.appends);
        PassingAdvances(verdicts, n, k, items);
        items, appended := items + verdict.appends, appended + verdict.appends;
        if verdict.PutBack? {
          batch := batch + [event];
          blocked := true;
        } else {
          MoveOne(handled, left);
          handled, left := handled + [event], left[1..];
          k := k + 1;
        }
      }
      ReversedTwice(left);
      PassingEnds(verdicts, n, k, blocked, items);
      lost := lost + items;
      items := Reversed(batch);
      SplitOnce(old(handled), old(items), handled, items, k);
    }

    /**
     * Any run of appends and passes: what was handled stays handled, and without reentrant appends exactly the
     * appended items are added to what is handled or queued.
     */
    method Run(steps: seq<QueueStep<T>>)
      requires Valid()
      modifies this
      ensures Valid()
      ensures old(handled) <= handled && old(appended) <= appended && old(lost) <= lost
      ensures handled + items == appended <==> lost == []
      ensures NoReentry(steps) ==> lost == old(lost) && appended == old(appended) + AllAppended(steps)
      ensures NoReentry(steps) && old(lost) == [] ==>
        handled + items == old(handled) + old(items) + AllAppended(steps)
    {
      ghost var was, done, gone := appended, handled, lost;
      Untouched(was);
      for i := 0 to |steps|
        invariant Valid() && done <= handled && was <= appended && gone <= lost
        invariant NoReentry(steps) ==> lost == gone && appended == was + AllAppended(steps[..i])
      {
        NextAppended(was, steps, i);
        match steps[i] {
          case AppendStep(item) =>
            Append(item);
          case PassStep(verdicts) =>
            if NoAppends(verdicts) {
              NothingAppended(verdicts, 0, |items|);
            }
            ProcessPass(verdicts);
        }
      }
      assert steps[..|steps|] == steps;
      assert |handled + items| == |handled| + |items|;
    }
  }

  /** The items that the append steps of a run append, in order. */
  function AllAppended<T>(steps: seq<QueueStep<T>>): seq<T>
    decreases |steps|
  {
    if steps == [] then [] else AllAppended(steps[..|steps| - 1]) + AppendedBy(steps[|steps| - 1])
  }

  function AppendedBy<T>(step: QueueStep<T>): seq<T> {
    if step.AppendStep? then [step.item] else []
  }

  lemma {:induction false} NextAppended<T>(was: seq<T>, steps: seq<QueueStep<T>>, i: nat)
    requires i < |steps|
    ensures was + AllAppended(steps[..i + 1]) == was + AllAppended(steps[..i]) + AppendedBy(steps[i])
  {
    assert steps[..i + 1][..i] == steps[..i];
  }

  lemma {:induction false} Untouched<T>(s: seq<T>)
    ensures s + [] == s
  {
  }

  lemma {:induction false} SplitOnce<T>(done: seq<T>, queue: seq<T>, handled: seq<T>, left: seq<T>, k: nat)
    requires handled + left == done + queue && k <= |queue| && |left| == |queue| - k
    ensures handled == done + queue[..k] && left == queue[k..]
  {
    assert handled == (handled + left)[..|done| + k];
    assert left == (handled + left)[|done| + k..];
  }

  ghost predicate NoAppends<T>(verdicts: seq<Verdict<T>>) {
    forall k :: 0 <= k < |verdicts| ==> verdicts[k].appends == []
  }

  ghost predicate NoReentry<T>(steps: seq<QueueStep<T>>) {
    forall i :: 0 <= i < |steps| && steps[i].PassStep? ==> NoAppends(steps[i].verdicts)
  }

  lemma {:induction false} NothingAppended<T>(verdicts: seq<Verdict<T>>, k: nat, n: nat)
    requires NoAppends(verdicts) && k <= n
    ensures AppendedFrom(verdicts, k, n) == []
    decreases n - k
  {
    if k < n {
      NothingAppended(verdicts, k + 1, n);
    }
  }

  /** A pass loses something exactly when a handler it calls appends to the queue it is working on. */
  lemma {:induction false} LostIffReentrant<T>(verdicts: seq<Verdict<T>>, k: nat, n: nat)
    requires k <= n
    ensures AppendedFrom(verdicts, k, n) == [] <==>
      forall i :: k <= i < n && i <= k + HandledFrom(verdicts, k, n) ==> VerdictAt(verdicts, i).appends == []
    decreases n - k
  {
    if k < n {
      LostIffReentrant(verdicts, k + 1, n);
      var v := VerdictAt(verdicts, k);
      if v.Handled? && v.appends == [] && AppendedFrom(verdicts, k + 1, n) != [] {
        var i :| k + 1 <= i < n && i <= k + 1 + HandledFrom(verdicts, k + 1, n) && VerdictAt(verdicts, i).appends != [];
      }
    }
  }
}
