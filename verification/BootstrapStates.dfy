/** The persisted records of bootstrap steps and how they may change. */
module BootstrapStates {
  import opened Wrappers

  /** Steps are known by their identifiers, numbered here in the order the record map keeps them in. */
  type StepId = nat

  datatype StepStatus = Pending | Running | Passed | Failed

  datatype StepRecord = StepRecord(status: StepStatus, attempt: nat, exitStatus: Option<int>)

  type StepRecords = map<StepId, StepRecord>

  datatype State = State(epoch: nat, steps: StepRecords)

  predicate StepPassed(steps: StepRecords, s: StepId) {
    s in steps && steps[s].status == Passed
  }

  predicate HasStatus(steps: StepRecords, s: StepId, status: StepStatus) {
    s in steps && steps[s].status == status
  }

  /** The number of attempts a step has had. */
  function Attempts(steps: StepRecords, s: StepId): nat {
    if s in steps then steps[s].attempt else 0
  }

  function Started(steps: StepRecords, s: StepId): StepRecords {
    steps[s := StepRecord(Running, Attempts(steps, s) + 1, None)]
  }

  function Marked(steps: StepRecords, s: StepId, status: StepStatus, exitStatus: int): StepRecords {
    steps[s := StepRecord(status, if s in steps then steps[s].attempt else 1, Some(exitStatus))]
  }

  predicate Unfinished(r: StepRecord) {
    r.status == Running || r.status == Failed
  }

  function Retry(r: StepRecord): StepRecord {
    if Unfinished(r) then StepRecord(Pending, r.attempt, None) else r
  }

  function Retried(steps: StepRecords): StepRecords {
    map s | s in steps :: Retry(steps[s])
  }

  ghost predicate SomeUnfinished(steps: StepRecords) {
    exists s :: s in steps && Unfinished(steps[s])
  }

  ghost predicate SomeFailed(steps: StepRecords) {
    exists s :: HasStatus(steps, s, Failed)
  }

  /** The first record with a status, in the order of the map. */
  ghost predicate IsFirst(steps: StepRecords, status: StepStatus, s: StepId) {
    HasStatus(steps, s, status) && forall t :: HasStatus(steps, t, status) ==> s <= t
  }

  // ---- Evolution of what is stored ----

  function Count(starts: seq<StepId>, s: StepId): nat {
    if starts == [] then 0 else (if starts[0] == s then 1 else 0) + Count(starts[1..], s)
  }

  lemma {:induction false} CountAppends(a: seq<StepId>, b: seq<StepId>, s: StepId)
    ensures Count(a + b, s) == Count(a, s) + Count(b, s)
    decreases |a|
  {
    if a == [] {
      assert a + b == b;
    } else {
      CountAppends(a[1..], b, s);
      assert (a + b)[1..] == a[1..] + b;
    }
  }

  /** One for a step that has been started since it was last made pending, or never; zero otherwise. */
  function Busy(steps: StepRecords, s: StepId): nat {
    if s in steps && steps[s].status != Pending then 1 else 0
  }

  /**
   * From one stored state to a later one, with the starts stored in between: each start is one more attempt, a step
   * that has passed stays passed and is not started again, and starting a step twice takes a new epoch in between.
   * The epoch never falls.
   */
  ghost predicate Evolves(from: State, starts: seq<StepId>, to: State) {
    && from.epoch <= to.epoch
    && (forall s :: Attempts(to.steps, s) == Attempts(from.steps, s) + Count(starts, s))
    && (forall s :: StepPassed(from.steps, s) ==> StepPassed(to.steps, s) && Count(starts, s) == 0)
    && (forall s :: Count(starts, s) + Busy(from.steps, s) <= to.epoch - from.epoch + Busy(to.steps, s))
  }

  /** Within an epoch no step is started twice, nor one that was already started in it. */
  lemma {:induction false} StartedOncePerEpoch(from: State, starts: seq<StepId>, to: State, s: StepId)
    requires Evolves(from, starts, to)
    ensures Count(starts, s) <= to.epoch - from.epoch + 1
    ensures from.epoch == to.epoch ==> Count(starts, s) <= 1 - Busy(from.steps, s)
  {
  }

  lemma {:induction false} EvolvesIsTransitive(a: State, x: seq<StepId>, b: State, y: seq<StepId>, c: State)
    requires Evolves(a, x, b) && Evolves(b, y, c)
    ensures Evolves(a, x + y, c)
  {
    forall s
      ensures Count(x + y, s) == Count(x, s) + Count(y, s)
    {
      CountAppends(x, y, s);
    }
  }

  lemma {:induction false} StartEvolves(st: State, s: StepId)
    requires Busy(st.steps, s) == 0
    ensures Evolves(st, [s], st.(steps := Started(st.steps, s)))
  {
    forall t
      ensures Count([s], t) == if t == s then 1 else 0
    {
      assert [s][1..] == [];
    }
  }

  lemma {:induction false} MarkEvolves(st: State, s: StepId, status: StepStatus, exitStatus: int)
    requires HasStatus(st.steps, s, Running) && status != Pending
    ensures Evolves(st, [], st.(steps := Marked(st.steps, s, status, exitStatus)))
  {
  }

  lemma {:induction false} RetryEvolves(st: State)
    ensures Evolves(st, [], State(st.epoch + 1, Retried(st.steps)))
  {
  }

  // ---- What a stored state may be replaced by ----

  /** `Found` stands for what was there before anything was stored. */
  datatype Change =
    | Found
    | Start(step: StepId)
    | Finish(step: StepId, status: StepStatus, exitStatus: int)
    | RetryUnfinished

  /** A step starts when it is new or pending; it passes or fails while running; a retry needs an unfinished step. */
  ghost predicate Allowed(st: State, c: Change) {
    match c
    case Found => false
    case Start(s) => Busy(st.steps, s) == 0
    case Finish(s, status, _) => HasStatus(st.steps, s, Running) && (status == Passed || status == Failed)
    case RetryUnfinished => SomeUnfinished(st.steps)
  }

  function Apply(st: State, c: Change): State {
    match c
    case Found => st
    case Start(s) => st.(steps := Started(st.steps, s))
    case Finish(s, status, exitStatus) => st.(steps := Marked(st.steps, s, status, exitStatus))
    case RetryUnfinished => State(st.epoch + 1, Retried(st.steps))
  }

  function StartsOf(c: Change): (starts: seq<StepId>)
    ensures |starts| <= 1
  {
    if c.Start? then [c.step] else []
  }

  lemma {:induction false} ChangeEvolves(st: State, c: Change)
    requires Allowed(st, c)
    ensures Evolves(st, StartsOf(c), Apply(st, c))
  {
    match c
    case Start(s) => StartEvolves(st, s);
    case Finish(s, status, exitStatus) => MarkEvolves(st, s, status, exitStatus);
    case RetryUnfinished => RetryEvolves(st);
  }

  // ---- The log of what was stored ----

  /** A stored state, how many starts had been stored by then, and the change it was stored for. */
  datatype Entry = Entry(state: State, at: nat, change: Change)

  /** Each stored state is one allowed change away from the one before, and any two of them are related. */
  ghost predicate Chain(log: seq<Entry>, starts: seq<StepId>) {
    && (forall i :: 0 <= i < |log| ==> log[i].at <= |starts|)
    && (forall i, j :: 0 <= i <= j < |log| ==> log[i].at <= log[j].at)
    && (forall i, j {:trigger Between(log, starts, i, j)} :: 0 <= i <= j < |log| ==> Between(log, starts, i, j))
    && AllLinked(log, starts)
  }

  ghost predicate AllLinked(log: seq<Entry>, starts: seq<StepId>) {
    forall i: nat {:trigger Linked(log, starts, i)} :: i + 1 < |log| ==> Linked(log, starts, i)
  }

  ghost predicate Between(log: seq<Entry>, starts: seq<StepId>, i: nat, j: nat)
    requires i < |log| && j < |log| && log[i].at <= log[j].at <= |starts|
  {
    Evolves(log[i].state, starts[log[i].at..log[j].at], log[j].state)
  }

  ghost predicate Linked(log: seq<Entry>, starts: seq<StepId>, i: nat)
    requires i + 1 < |log|
  {
    var a, b := log[i], log[i + 1];
    && Allowed(a.state, b.change) && b.state == Apply(a.state, b.change)
    && a.at <= b.at <= |starts| && starts[a.at..b.at] == StartsOf(b.change)
  }

  lemma {:induction false} StartsSince(starts: seq<StepId>, started: seq<StepId>, at: nat)
    requires at <= |starts|
    ensures (starts + started)[at..|starts + started|] == starts[at..|starts|] + started
  {
  }

  ghost predicate Extends(log: seq<Entry>, starts: seq<StepId>, e: Entry) {
    && Chain(log, starts) && log != [] && log[|log| - 1].at == |starts|
    && Allowed(log[|log| - 1].state, e.change) && e.state == Apply(log[|log| - 1].state, e.change)
    && e.at == |starts| + |StartsOf(e.change)|
  }

  lemma {:induction false} OldPair(log: seq<Entry>, starts: seq<StepId>, e: Entry, started: seq<StepId>, i: nat, j: nat)
    requires i <= j < |log| && log[i].at <= log[j].at <= |starts| && Between(log, starts, i, j)
    ensures Between(log + [e], starts + started, i, j)
  {
    assert (starts + started)[log[i].at..log[j].at] == starts[log[i].at..log[j].at];
  }

  lemma {:induction false} NewPair(log: seq<Entry>, starts: seq<StepId>, e: Entry, i: nat)
    requires i < |log| && Extends(log, starts, e)
    ensures Between(log + [e], starts + StartsOf(e.change), i, |log|)
  {
    var last := |log| - 1;
    assert Between(log, starts, i, last);
    ChangeEvolves(log[last].state, e.change);
    StartsSince(starts, StartsOf(e.change), log[i].at);
    EvolvesIsTransitive(log[i].state, starts[log[i].at..|starts|], log[last].state, StartsOf(e.change), e.state);
  }

  lemma {:induction false} EvolvesAtOnce(st: State, starts: seq<StepId>)
    ensures Evolves(st, starts[|starts|..|starts|], st)
  {
    assert starts[|starts|..|starts|] == [];
  }

  lemma {:induction false} OldLink(log: seq<Entry>, starts: seq<StepId>, e: Entry, started: seq<StepId>, i: nat)
    requires i + 1 < |log| && Linked(log, starts, i)
    ensures Linked(log + [e], starts + started, i)
  {
    assert (starts + started)[log[i].at..log[i + 1].at] == starts[log[i].at..log[i + 1].at];
  }

  lemma {:induction false} NewLink(log: seq<Entry>, starts: seq<StepId>, e: Entry)
    requires Extends(log, starts, e)
    ensures Linked(log + [e], starts + StartsOf(e.change), |log| - 1)
  {
    StartsSince(starts, StartsOf(e.change), |starts|);
    assert starts[|starts|..|starts|] == [];
    assert [] + StartsOf(e.change) == StartsOf(e.change);
  }

  /** Storing the outcome of an allowed change keeps the log. */
  lemma {:induction false} ChainGrows(log: seq<Entry>, starts: seq<StepId>, e: Entry)
    requires Extends(log, starts, e)
    ensures Chain(log + [e], starts + StartsOf(e.change))
  {
    var starts' := starts + StartsOf(e.change);
    forall i, j | 0 <= i <= j < |log| + 1
      ensures (log + [e])[i].at <= (log + [e])[j].at && Between(log + [e], starts', i, j)
    {
      if j < |log| {
        assert Between(log, starts, i, j);
        OldPair(log, starts, e, StartsOf(e.change), i, j);
      } else if i < |log| {
        NewPair(log, starts, e, i);
      } else {
        EvolvesAtOnce(e.state, starts');
      }
    }
    forall i: nat | i < |log|
      ensures Linked(log + [e], starts', i)
    {
      if i + 1 < |log| {
        assert Linked(log, starts, i);
        OldLink(log, starts, e, StartsOf(e.change), i);
      } else {
        NewLink(log, starts, e);
      }
    }
  }

  /** The retries among the last entries of a log. */
  function Retries(entries: seq<Entry>): nat
    decreases |entries|
  {
    if entries == [] then 0
    else Retries(entries[..|entries| - 1]) + if entries[|entries| - 1].change.RetryUnfinished? then 1 else 0
  }

  /** The epoch changes by retries alone, by one each. */
  lemma {:induction false} EpochCountsRetries(log: seq<Entry>, starts: seq<StepId>, i: nat, j: nat)
    requires AllLinked(log, starts) && i <= j < |log|
    ensures log[j].state.epoch == log[i].state.epoch + Retries(log[i + 1..j + 1])
    decreases j
  {
    if i < j {
      EpochCountsRetries(log, starts, i, j - 1);
      RetriesGoOn(log, i, j);
      EpochAfter(log, starts, j - 1);
    } else {
      assert log[i + 1..j + 1] == [];
    }
  }

  lemma {:induction false} RetriesGoOn(log: seq<Entry>, i: nat, j: nat)
    requires i < j < |log|
    ensures Retries(log[i + 1..j + 1]) == Retries(log[i + 1..j]) + if log[j].change.RetryUnfinished? then 1 else 0
  {
    assert log[i + 1..j + 1][..j - i - 1] == log[i + 1..j];
  }

  lemma {:induction false} EpochAfter(log: seq<Entry>, starts: seq<StepId>, i: nat)
    requires i + 1 < |log| && Linked(log, starts, i)
    ensures log[i + 1].state.epoch == log[i].state.epoch + if log[i + 1].change.RetryUnfinished? then 1 else 0
  {
  }

  /** From one log to a longer one within the same epoch. */
  ghost predicate MovesOn(log: seq<Entry>, starts: seq<StepId>, log': seq<Entry>, starts': seq<StepId>) {
    && log != [] && log <= log' && starts <= starts'
    && forall i :: |log| <= i < |log'| ==> log'[i].state.epoch == log[|log| - 1].state.epoch
  }

  lemma {:induction false} MovesOnIsTransitive(a: seq<Entry>, x: seq<StepId>, b: seq<Entry>, y: seq<StepId>,
                                               c: seq<Entry>, z: seq<StepId>)
    requires MovesOn(a, x, b, y) && MovesOn(b, y, c, z)
    ensures MovesOn(a, x, c, z)
  {
    forall i | |a| <= i < |c|
      ensures c[i].state.epoch == a[|a| - 1].state.epoch
    {
      assert i < |b| ==> c[i] == b[i];
    }
  }

  class BootstrapState {
    var epoch: nat
    var steps: StepRecords

    ghost function Value(): State
      reads this
    {
      State(epoch, steps)
    }

    constructor (value: State)
      ensures Value() == value
    {
      epoch, steps := value.epoch, value.steps;
    }

    /** Makes every running or failed step pending again; without one, nothing changes. */
    method PrepareRetry(attemptEpoch: nat) returns (found: bool)
      modifies this
      ensures found <==> SomeUnfinished(old(steps))
      ensures Value() == if found then State(attemptEpoch, Retried(old(steps))) else old(Value())
    {
      found := false;
      var todo := steps.Keys;
      ghost var was := steps;
      while todo != {}
        invariant todo <= was.Keys == steps.Keys && epoch == old(epoch)
        invariant forall s :: s in was ==> steps[s] == if s in todo then was[s] else Retry(was[s])
        invariant found <==> exists s :: s in was && s !in todo && Unfinished(was[s])
        decreases |todo|
      {
        var s :| s in todo;
        todo := todo - {s};
        if Unfinished(steps[s]) {
          found := true;
          steps := steps[s := StepRecord(Pending, steps[s].attempt, None)];
        }
      }
      assert steps == Retried(was);
      if found {
        epoch := attemptEpoch;
      } else {
        assert Retried(was) == was;
      }
    }

    method StartStep(s: StepId) returns (attempt: nat)
      modifies `steps
      ensures steps == Started(old(steps), s) && attempt == Attempts(old(steps), s) + 1
    {
      attempt := Attempts(steps, s) + 1;
      steps := steps[s := StepRecord(Running, attempt, None)];
    }

    method Mark(s: StepId, status: StepStatus, exitStatus: int)
      modifies `steps
      ensures steps == Marked(old(steps), s, status, exitStatus)
    {
      var attempt := if s in steps then steps[s].attempt else 1;
      steps := steps[s := StepRecord(status, attempt, Some(exitStatus))];
    }

    method FindFirst(status: StepStatus) returns (r: Option<StepId>)
      ensures r.None? <==> forall s :: !HasStatus(steps, s, status)
      ensures r.Some? ==> IsFirst(steps, status, r.value)
    {
      r := None;
      var todo := steps.Keys;
      while todo != {}
        invariant todo <= steps.Keys
        invariant r.None? ==> forall s :: HasStatus(steps, s, status) ==> s in todo
        invariant r.Some? ==> HasStatus(steps, r.value, status)
        invariant r.Some? ==> forall s :: HasStatus(steps, s, status) && s !in todo ==> r.value <= s
        decreases |todo|
      {
        var s :| s in todo;
        todo := todo - {s};
        if steps[s].status == status && (r.None? || s < r.value) {
          r := Some(s);
        }
      }
    }
  }
}
