/** What a bootstrap run says and stores, and what its tasks and its surroundings answer. */
module BootstrapEvents {
  import opened BootstrapSchedulers
  import opened BootstrapStates
  import opened Wrappers

  // ---- Events ----

  datatype Lifecycle = LifecyclePending | LifecycleRunning | LifecyclePassed | LifecycleFailed

  datatype Event =
    | Status(epoch: nat, lifecycle: Lifecycle, current: Option<StepId>, completed: seq<StepId>,
             failedStep: Option<StepId>, pending: seq<StepId>)
    | StepStarted(step: StepId, attempt: nat)
    | StepFinished(step: StepId, exitStatus: int)
    | StepOutput(text: string)
    | BootstrapFailed(epoch: nat, step: StepId, exitStatus: int)
    | BootstrapFinished(epoch: nat)

  predicate Terminal(e: Event) {
    e.BootstrapFailed? || e.BootstrapFinished?
  }

  predicate Shows(e: Event, lifecycle: Lifecycle) {
    e.Status? && e.lifecycle == lifecycle
  }

  /** The plan's steps that have passed, or those that have not, in plan order. */
  function Select(plan: seq<Step>, steps: StepRecords, passed: bool): seq<StepId> {
    if plan == [] then []
    else
      (if StepPassed(steps, plan[0].id) == passed then [plan[0].id] else []) + Select(plan[1..], steps, passed)
  }

  function Ids(plan: seq<Step>): seq<StepId> {
    if plan == [] then [] else [plan[0].id] + Ids(plan[1..])
  }

  /** The two lists of a status are the plan, split by what has passed. */
  lemma {:induction false} SelectSplits(plan: seq<Step>, steps: StepRecords)
    ensures multiset(Select(plan, steps, true)) + multiset(Select(plan, steps, false)) == multiset(Ids(plan))
    ensures forall s :: s in Select(plan, steps, true) ==> StepPassed(steps, s)
    ensures forall s :: s in Select(plan, steps, false) ==> !StepPassed(steps, s)
    decreases |plan|
  {
    if plan != [] {
      SelectSplits(plan[1..], steps);
    }
  }

  /** Each list keeps to the plan's order, and no step is in both. */
  ghost predicate SplitsPlan(plan: seq<Step>, e: Event) {
    e.Status? ==>
      && multiset(e.completed) + multiset(e.pending) == multiset(Ids(plan))
      && (forall s :: s in e.completed ==> s !in e.pending)
  }

  /** What a status says is what the state holds. */
  ghost predicate Reports(e: Event, plan: seq<Step>, st: State, lifecycle: Lifecycle, current: Option<StepId>) {
    && e.Status? && e.epoch == st.epoch && e.lifecycle == lifecycle && e.current == current
    && e.completed == Select(plan, st.steps, true) && e.pending == Select(plan, st.steps, false)
    && (if e.failedStep.None? then !SomeFailed(st.steps) else IsFirst(st.steps, Failed, e.failedStep.value))
  }

  ghost predicate AllSplit(plan: seq<Step>, events: seq<Event>) {
    forall i :: 0 <= i < |events| ==> SplitsPlan(plan, events[i])
  }

  ghost predicate NoTerminal(events: seq<Event>) {
    forall i :: 0 <= i < |events| ==> !Terminal(events[i])
  }

  ghost predicate ShowsFailed(events: seq<Event>) {
    exists i :: 0 <= i < |events| && Shows(events[i], LifecycleFailed)
  }

  /** Once a status says failed, none says running or passed. */
  ghost predicate FailedForGood(events: seq<Event>) {
    forall i, j :: 0 <= i < j < |events| ==> StaysFailed(events, i, j)
  }

  predicate StaysFailed(events: seq<Event>, i: nat, j: nat)
    requires i < j < |events|
  {
    Shows(events[i], LifecycleFailed) ==>
      !Shows(events[j], LifecycleRunning) && !Shows(events[j], LifecyclePassed)
  }

  /** What holds of the events of a run as long as it has not ended. */
  ghost predicate Open(plan: seq<Step>, events: seq<Event>) {
    NoTerminal(events) && FailedForGood(events) && AllSplit(plan, events)
  }

  lemma {:induction false} OpenGrows(plan: seq<Step>, events: seq<Event>, e: Event)
    requires Open(plan, events) && !Terminal(e) && SplitsPlan(plan, e)
    requires ShowsFailed(events) ==> !Shows(e, LifecycleRunning) && !Shows(e, LifecyclePassed)
    ensures Open(plan, events + [e])
    ensures ShowsFailed(events + [e]) <==> ShowsFailed(events) || Shows(e, LifecycleFailed)
  {
    var all := events + [e];
    FailedGrows(events, e);
    if ShowsFailed(events) {
      var i :| 0 <= i < |events| && Shows(events[i], LifecycleFailed);
      assert Shows(all[i], LifecycleFailed);
    }
    if Shows(e, LifecycleFailed) {
      assert Shows(all[|events|], LifecycleFailed);
    }
  }

  lemma {:induction false} FailedGrows(events: seq<Event>, e: Event)
    requires FailedForGood(events)
    requires ShowsFailed(events) ==> !Shows(e, LifecycleRunning) && !Shows(e, LifecyclePassed)
    ensures FailedForGood(events + [e])
  {
    var all := events + [e];
    forall i, j | 0 <= i < j < |all|
      ensures StaysFailed(all, i, j)
    {
      if j < |events| {
        assert StaysFailed(events, i, j);
      } else if Shows(events[i], LifecycleFailed) {
        assert ShowsFailed(events);
      }
    }
  }

  lemma {:induction false} OpenCloses(plan: seq<Step>, events: seq<Event>, e: Event)
    requires Open(plan, events) && Terminal(e)
    ensures Closed(plan, events + [e])
  {
    var all := events + [e];
    FailedGrows(events, e);
    assert all[..|all| - 1] == events;
  }

  /** A whole run: exactly one terminal event, the last one, and the other rules. */
  ghost predicate Closed(plan: seq<Step>, events: seq<Event>) {
    && events != [] && Terminal(events[|events| - 1]) && NoTerminal(events[..|events| - 1])
    && FailedForGood(events) && AllSplit(plan, events)
  }

  /** The last event says that the run failed, and at which step. */
  predicate EndsFailed(events: seq<Event>) {
    events != [] && events[|events| - 1].BootstrapFailed?
  }

  // ---- Tasks ----

  /** What reaches the run from its tasks: output, or the end of a running step. */
  datatype TaskEvent =
    | Message(text: string)
    | Finished(step: StepId, exitStatus: int, timedOut: bool)
    | Broke(step: StepId)

  /** What is stored for the end of a step: it has passed exactly with exit status zero, in time. */
  function Outcome(task: TaskEvent): Change
    requires task.Finished?
  {
    Finish(task.step, if task.exitStatus == 0 && !task.timedOut then Passed else Failed, task.exitStatus)
  }

  ghost predicate Reported(tasks: seq<TaskEvent>, c: Change) {
    exists i :: 0 <= i < |tasks| && tasks[i].Finished? && c == Outcome(tasks[i])
  }

  function Texts(tasks: seq<TaskEvent>): seq<string>
    decreases |tasks|
  {
    if tasks == [] then []
    else
      var last := tasks[|tasks| - 1];
      Texts(tasks[..|tasks| - 1]) + if last.Message? then [last.text] else []
  }

  /** The events that forward the output of tasks. */
  function Forwarded(tasks: seq<TaskEvent>): seq<Event>
    decreases |tasks|
  {
    if tasks == [] then []
    else
      var last := tasks[|tasks| - 1];
      Forwarded(tasks[..|tasks| - 1]) + if last.Message? then [StepOutput(last.text)] else []
  }

  /** The output among events, in order. */
  function Outputs(events: seq<Event>): seq<string>
    decreases |events|
  {
    if events == [] then []
    else
      var last := events[|events| - 1];
      Outputs(events[..|events| - 1]) + if last.StepOutput? then [last.text] else []
  }

  /** The steps that events say have started, in order. */
  function Begun(events: seq<Event>): seq<StepId>
    decreases |events|
  {
    if events == [] then []
    else
      var last := events[|events| - 1];
      Begun(events[..|events| - 1]) + if last.StepStarted? then [last.step] else []
  }

  lemma {:induction false} EventSeen(events: seq<Event>, e: Event)
    ensures Outputs(events + [e]) == Outputs(events) + if e.StepOutput? then [e.text] else []
    ensures Begun(events + [e]) == Begun(events) + if e.StepStarted? then [e.step] else []
  {
    assert (events + [e])[..|events|] == events;
  }

  /** Neither output nor starts among the events from some place on. */
  ghost predicate Quiet(events: seq<Event>, from: nat) {
    forall i :: from <= i < |events| ==> !events[i].StepOutput? && !events[i].StepStarted?
  }

  lemma {:induction false} QuietSeesNothing(before: seq<Event>, after: seq<Event>)
    requires before <= after && Quiet(after, |before|)
    ensures Outputs(after) == Outputs(before) && Begun(after) == Begun(before)
    decreases |after|
  {
    if |after| == |before| {
      assert after == before;
    } else {
      var front, e := after[..|after| - 1], after[|after| - 1];
      assert after == front + [e];
      QuietSeesNothing(before, front);
      EventSeen(front, e);
    }
  }

  lemma {:induction false} ForwardedSeen(events: seq<Event>, tasks: seq<TaskEvent>)
    ensures Outputs(events + Forwarded(tasks)) == Outputs(events) + Texts(tasks)
    ensures Begun(events + Forwarded(tasks)) == Begun(events)
    decreases |tasks|
  {
    if tasks == [] {
      assert events + [] == events;
    } else {
      var front, last := tasks[..|tasks| - 1], tasks[|tasks| - 1];
      ForwardedSeen(events, front);
      if last.Message? {
        assert events + Forwarded(tasks) == events + Forwarded(front) + [StepOutput(last.text)];
        EventSeen(events + Forwarded(front), StepOutput(last.text));
      } else {
        assert Forwarded(tasks) == Forwarded(front);
      }
    }
  }

  lemma {:induction false} TextsSplit(a: seq<TaskEvent>, b: seq<TaskEvent>)
    ensures Texts(a + b) == Texts(a) + Texts(b)
    decreases |b|
  {
    if b == [] {
      assert a + b == a;
    } else {
      TextsSplit(a, b[..|b| - 1]);
      assert (a + b)[..|a + b| - 1] == a + b[..|b| - 1];
    }
  }

  // ---- Answers ----

  /** A write can also fail after the new file is in place, because its directory is synchronised last. */
  datatype SaveAnswer = Stored | StoredButFailed | NotStored

  /** Answers are taken in order, all of them good; when that is not `ok`, the last one was not. */
  ghost predicate Took<T>(before: seq<T>, after: seq<T>, good: T, ok: bool) {
    && |after| <= |before| && after == before[|before| - |after|..]
    && var n := |before| - |after|;
      && (forall i :: 0 <= i < n && (ok || i + 1 < n) ==> before[i] == good)
      && (!ok ==> n > 0 && before[n - 1] != good)
  }

  lemma {:induction false} TookNone<T>(a: seq<T>, good: T)
    ensures Took(a, a, good, true)
  {
  }

  lemma {:induction false} TookOn<T>(a: seq<T>, b: seq<T>, c: seq<T>, good: T, ok: bool)
    requires Took(a, b, good, true) && Took(b, c, good, ok)
    ensures Took(a, c, good, ok)
  {
    forall i | |a| - |b| <= i < |a| - |c|
      ensures a[i] == b[i - (|a| - |b|)]
    {
    }
  }

  // ---- What a run has done ----

  /** The events of a run and what it stored, and the answers still to come to either. */
  datatype Past = Past(events: seq<Event>, replies: seq<bool>, log: seq<Entry>, starts: seq<StepId>,
                       answers: seq<SaveAnswer>)

  /** What a run works on. */
  datatype Job = Job(plan: seq<Step>, parallelism: nat, tasks: seq<TaskEvent>)

  /** A start needs a step that may start; an outcome is one that a task has reported. */
  ghost predicate Caused(job: Job, st: State, c: Change) {
    match c
    case Start(s) => Entitled(job.plan, job.parallelism, st.steps, s)
    case Finish(_, _, _) => Reported(job.tasks, c)
    case _ => false
  }

  ghost predicate AllCaused(job: Job, log: seq<Entry>, from: nat) {
    forall i :: from <= i < |log| && i > 0 ==> CausedAt(job, log, i)
  }

  ghost predicate CausedAt(job: Job, log: seq<Entry>, i: nat)
    requires 0 < i < |log|
  {
    Caused(job, log[i - 1].state, log[i].change)
  }

  /** All answers were good, or the last one of the sink or of the store was not. */
  ghost predicate Heard(before: Past, after: Past, ok: bool) {
    if ok then
      && Took(before.replies, after.replies, true, true) && Took(before.answers, after.answers, Stored, true)
    else
      || (Took(before.replies, after.replies, true, false) && Took(before.answers, after.answers, Stored, true))
      || (Took(before.replies, after.replies, true, true) && Took(before.answers, after.answers, Stored, false))
  }

  /** The output forwarded, and that every start stored is said to have happened; the last one only if all went well. */
  ghost predicate Tells(before: Past, after: Past, texts: seq<string>, ok: bool) {
    && before.events <= after.events && before.starts <= after.starts
    && Outputs(after.events) == Outputs(before.events) + texts
    && var begun := Begun(before.events) + after.starts[|before.starts|..];
      if ok then Begun(after.events) == begun else Begun(after.events) <= begun
  }

  /** A part of a run: what it stores has its cause, it says what happened, and it fails only on a bad answer. */
  ghost predicate Goes(job: Job, before: Past, after: Past, texts: seq<string>, ok: bool) {
    && MovesOn(before.log, before.starts, after.log, after.starts) && AllCaused(job, after.log, |before.log|)
    && Heard(before, after, ok) && Tells(before, after, texts, ok)
  }

  lemma {:induction false} GoesNowhere(job: Job, a: Past)
    requires a.log != []
    ensures Goes(job, a, a, [], true)
  {
    assert Begun(a.events) + [] == Begun(a.events) && Outputs(a.events) + [] == Outputs(a.events);
  }

  lemma {:induction false} HeardOn(a: Past, b: Past, c: Past, ok: bool)
    requires Heard(a, b, true) && Heard(b, c, ok)
    ensures Heard(a, c, ok)
  {
    if Took(b.replies, c.replies, true, true) {
      TookOn(a.replies, b.replies, c.replies, true, true);
    } else {
      TookOn(a.replies, b.replies, c.replies, true, false);
    }
    if Took(b.answers, c.answers, Stored, true) {
      TookOn(a.answers, b.answers, c.answers, Stored, true);
    } else {
      TookOn(a.answers, b.answers, c.answers, Stored, false);
    }
  }

  lemma {:induction false} TellsOn(a: Past, b: Past, c: Past, x: seq<string>, y: seq<string>, ok: bool)
    requires Tells(a, b, x, true) && Tells(b, c, y, ok)
    ensures Tells(a, c, x + y, ok)
  {
    var s, t := b.starts[|a.starts|..], c.starts[|b.starts|..];
    assert c.starts[|a.starts|..] == s + t;
    assert Begun(a.events) + s + t == Begun(a.events) + (s + t);
    assert Outputs(a.events) + x + y == Outputs(a.events) + (x + y);
  }

  lemma {:induction false} GoesOn(job: Job, a: Past, b: Past, c: Past, x: seq<string>, y: seq<string>, ok: bool)
    requires Goes(job, a, b, x, true) && Goes(job, b, c, y, ok)
    ensures Goes(job, a, c, x + y, ok)
  {
    MovesOnIsTransitive(a.log, a.starts, b.log, b.starts, c.log, c.starts);
    HeardOn(a, b, c, ok);
    TellsOn(a, b, c, x, y, ok);
    forall i | |a.log| <= i < |c.log|
      ensures CausedAt(job, c.log, i)
    {
      if i < |b.log| {
        assert CausedAt(job, b.log, i);
      } else {
        assert CausedAt(job, c.log, i);
      }
    }
  }

  /** The change was stored, last. */
  ghost predicate StoredLast(before: Past, after: Past, c: Change) {
    Stores(before.log, before.starts, after.log, after.starts, c)
  }

  ghost predicate Stores(log: seq<Entry>, starts: seq<StepId>, log': seq<Entry>, starts': seq<StepId>, c: Change) {
    |log'| == |log| + 1 && log <= log' && log'[|log|].change == c && starts' == starts + StartsOf(c)
  }

  /** A change with a cause, and events that say no more than it: a part of a run. */
  lemma {:induction false} OneChangeGoes(job: Job, before: Past, after: Past, c: Change, ok: bool)
    requires before.log != [] && Caused(job, before.log[|before.log| - 1].state, c)
    requires MovesOn(before.log, before.starts, after.log, after.starts)
    requires StoredLast(before, after, c) || (!ok && after.log == before.log && after.starts == before.starts)
    requires Heard(before, after, ok) && before.events <= after.events
    requires Outputs(after.events) == Outputs(before.events)
    requires if ok then Begun(after.events) == Begun(before.events) + StartsOf(c)
             else Begun(after.events) == Begun(before.events)
    ensures Goes(job, before, after, [], ok)
  {
    if StoredLast(before, after, c) {
      assert after.log[|before.log| - 1] == before.log[|before.log| - 1];
    }
    OneChangeTells(before, after, c, ok);
  }

  lemma {:induction false} OneChangeTells(before: Past, after: Past, c: Change, ok: bool)
    requires before.events <= after.events && Outputs(after.events) == Outputs(before.events)
    requires after.starts == before.starts + StartsOf(c) || (!ok && after.starts == before.starts)
    requires if ok then Begun(after.events) == Begun(before.events) + StartsOf(c)
             else Begun(after.events) == Begun(before.events)
    ensures Tells(before, after, [], ok)
  {
    assert Outputs(before.events) + [] == Outputs(before.events);
    assert after.starts[|before.starts|..] == if after.starts == before.starts then [] else StartsOf(c);
  }

  /** Storing alone: enough for the outcome of a step, and for a start that was not stored well. */
  lemma {:induction false} SaveGoes(job: Job, before: Past, saved: Past, was: State, c: Change, ok: bool)
    requires before.log != [] && before.log[|before.log| - 1].state == was && Caused(job, was, c)
    requires MovesOn(before.log, before.starts, saved.log, saved.starts)
    requires StoredLast(before, saved, c) || (!ok && saved.log == before.log && saved.starts == before.starts)
    requires saved.events == before.events && saved.replies == before.replies
    requires Took(before.answers, saved.answers, Stored, ok) && (ok ==> StartsOf(c) == [])
    ensures Goes(job, before, saved, [], ok)
  {
    TookNone(before.replies, true);
    assert ok ==> Begun(before.events) + StartsOf(c) == Begun(before.events);
    OneChangeGoes(job, before, saved, c, ok);
  }

  /** A part of a run in which steps start and none ends. */
  ghost predicate OnlyStarts(job: Job, before: Past, after: Past, ok: bool) {
    Goes(job, before, after, [], ok) && NoOutcomes(after.log, |before.log|)
  }

  lemma {:induction false} StartsOn(job: Job, a: Past, b: Past, c: Past, ok: bool)
    requires OnlyStarts(job, a, b, true) && OnlyStarts(job, b, c, ok)
    ensures OnlyStarts(job, a, c, ok)
  {
    GoesOn(job, a, b, c, [], [], ok);
  }

  /** A start was stored, and nothing is said about it yet. */
  ghost predicate StartIsDue(job: Job, before: Past, saved: Past, s: StepId) {
    && before.log != [] && Caused(job, before.log[|before.log| - 1].state, Start(s))
    && MovesOn(before.log, before.starts, saved.log, saved.starts) && StoredLast(before, saved, Start(s))
    && saved.events == before.events && saved.replies == before.replies
    && Took(before.answers, saved.answers, Stored, true)
  }

  lemma {:induction false} StartGoes(job: Job, before: Past, saved: Past, after: Past, st: State, s: StepId,
                                     attempt: nat, ok: bool)
    requires StartIsDue(job, before, saved, s)
    requires after.log == saved.log && after.starts == saved.starts && after.answers == saved.answers
    requires Took(saved.replies, after.replies, true, ok) && before.events <= after.events
    requires if ok then SaysStarted(job.plan, before.events, after.events, st, s, attempt)
             else Quiet(after.events, |before.events|)
    ensures OnlyStarts(job, before, after, ok)
  {
    if ok {
      StartSeen(job.plan, before.events, after.events, st, s, attempt);
    } else {
      QuietSeesNothing(before.events, after.events);
    }
    OneChangeGoes(job, before, after, Start(s), ok);
  }

  /** A status, and that the step has started. */
  ghost predicate SaysStarted(plan: seq<Step>, events: seq<Event>, events': seq<Event>, st: State, s: StepId,
                              attempt: nat)
  {
    && |events'| == |events| + 2 && events <= events' && events'[|events| + 1] == StepStarted(s, attempt)
    && Reports(events'[|events|], plan, st, LifecycleRunning, Some(s))
  }

  /** That the step has passed, and a status that still says failed if another step has failed. */
  ghost predicate SaysPassed(plan: seq<Step>, events: seq<Event>, events': seq<Event>, st: State, s: StepId) {
    && |events'| == |events| + 2 && events <= events' && events'[|events|] == StepFinished(s, 0)
    && Reports(events'[|events| + 1], plan, st, if SomeFailed(st.steps) then LifecycleFailed else LifecycleRunning,
               None)
  }

  /** A status only. */
  ghost predicate SaysFailed(plan: seq<Step>, events: seq<Event>, events': seq<Event>, st: State) {
    && |events'| == |events| + 1 && events <= events'
    && Reports(events'[|events|], plan, st, LifecycleFailed, None)
  }

  /** The first failure is the one that is kept. */
  function FailureAfter(failure: Option<Event>, task: TaskEvent, epoch: nat): Option<Event> {
    if failure.None? && task.Finished? && (task.exitStatus != 0 || task.timedOut) then
      Some(BootstrapFailed(epoch, task.step, task.exitStatus))
    else failure
  }

  /** The terminal event for a failed step; one without an exit status counts as interrupted. */
  function FailureOf(st: State, failed: StepId): Event
    requires failed in st.steps
  {
    var exit := st.steps[failed].exitStatus;
    BootstrapFailed(st.epoch, failed, if exit.Some? then exit.value else -1)
  }

  /** The failure kept for the end is one that is stored. */
  ghost predicate Recalls(failure: Option<Event>, st: State) {
    failure.Some? ==>
      && failure.value.BootstrapFailed? && failure.value.step in st.steps
      && failure.value == FailureOf(st, failure.value.step)
  }

  lemma {:induction false} StartSeen(plan: seq<Step>, events: seq<Event>, events': seq<Event>, st: State, s: StepId,
                                     attempt: nat)
    requires SaysStarted(plan, events, events', st, s, attempt)
    ensures Outputs(events') == Outputs(events) && Begun(events') == Begun(events) + [s]
  {
    var status, start := events'[|events|], events'[|events| + 1];
    assert events' == events + [status] + [start];
    EventSeen(events, status);
    EventSeen(events + [status], start);
  }

  /** Events that say neither output nor starts are a part of a run in which nothing is stored. */
  lemma {:induction false} SayingGoes(job: Job, a: Past, b: Past, ok: bool)
    requires a.log == b.log != [] && a.starts == b.starts && a.answers == b.answers
    requires a.events <= b.events && Quiet(b.events, |a.events|) && Took(a.replies, b.replies, true, ok)
    ensures Goes(job, a, b, [], ok)
  {
    QuietSeesNothing(a.events, b.events);
    TookNone(a.answers, Stored);
    assert Begun(a.events) + [] == Begun(a.events) && Outputs(a.events) + [] == Outputs(a.events);
    assert b.starts[|a.starts|..] == [];
  }

  lemma {:induction false} ThenSays(job: Job, a: Past, b: Past, c: Past, x: seq<string>, ok: bool)
    requires Goes(job, a, b, x, true)
    requires b.log == c.log && b.starts == c.starts && b.answers == c.answers
    requires b.events <= c.events && Quiet(c.events, |b.events|) && Took(b.replies, c.replies, true, ok)
    ensures Goes(job, a, c, x, ok)
  {
    SayingGoes(job, b, c, ok);
    GoesOn(job, a, b, c, x, [], ok);
    assert x + [] == x;
  }

  lemma {:induction false} OutputGoes(job: Job, a: Past, b: Past, text: string, ok: bool)
    requires a.log == b.log != [] && a.starts == b.starts && a.answers == b.answers
    requires b.events == if ok then a.events + [StepOutput(text)] else a.events
    requires Took(a.replies, b.replies, true, ok)
    ensures Goes(job, a, b, if ok then [text] else [], ok)
  {
    EventSeen(a.events, StepOutput(text));
    TookNone(a.answers, Stored);
    assert Begun(a.events) + [] == Begun(a.events) && Outputs(a.events) + [] == Outputs(a.events);
    assert b.starts[|a.starts|..] == [];
  }

  lemma {:induction false} ForwardedGoes(job: Job, a: Past, b: Past, tasks: seq<TaskEvent>, ok: bool)
    requires a.log == b.log != [] && a.starts == b.starts && a.answers == b.answers
    requires b.events == a.events + Forwarded(tasks) && Took(a.replies, b.replies, true, ok)
    ensures Goes(job, a, b, Texts(tasks), ok)
  {
    ForwardedSeen(a.events, tasks);
    TookNone(a.answers, Stored);
    assert Begun(a.events) + [] == Begun(a.events);
    assert b.starts[|a.starts|..] == [];
  }

  lemma {:induction false} TaskReports(tasks: seq<TaskEvent>, task: TaskEvent)
    requires task in tasks && task.Finished?
    ensures Reported(tasks, Outcome(task))
  {
    var i :| 0 <= i < |tasks| && tasks[i] == task;
    assert Outcome(tasks[i]) == Outcome(task);
  }

  lemma {:induction false} ForwardsNext(events: seq<Event>, tasks: seq<TaskEvent>, k: nat)
    requires k < |tasks|
    ensures events + Forwarded(tasks[..k + 1])
         == events + Forwarded(tasks[..k]) + if tasks[k].Message? then [StepOutput(tasks[k].text)] else []
  {
    assert tasks[..k + 1][..k] == tasks[..k];
  }

  lemma {:induction false} TextsNext(tasks: seq<TaskEvent>, k: nat)
    requires k < |tasks|
    ensures Texts(tasks[..k + 1]) == Texts(tasks[..k]) + if tasks[k].Message? then [tasks[k].text] else []
  {
    assert tasks[..k + 1][..k] == tasks[..k];
  }

  // ---- Which task events were acted on, and when ----

  /**
   * When this many states had been stored, no step could start, and this event was acted on: the end of a step
   * that was running is the next thing stored.
   */
  ghost predicate Answered(job: Job, log: seq<Entry>, n: nat, task: TaskEvent) {
    && 0 < n <= |log| && NoneMayStart(job.plan, job.parallelism, log[n - 1].state.steps)
    && (!task.Message? && HasStatus(log[n - 1].state.steps, task.step, Running) ==>
          task.Finished? && n < |log| && log[n].change == Outcome(task))
  }

  /** Each task event was acted on, in order, when so many states had been stored. */
  ghost predicate Handled(job: Job, log: seq<Entry>, from: nat, tasks: seq<TaskEvent>, when: seq<nat>) {
    && |when| == |tasks|
    && (forall j :: 0 <= j < |when| ==> from <= when[j] <= |log| && Answered(job, log, when[j], tasks[j]))
    && (forall i, j :: 0 <= i <= j < |when| ==> when[i] <= when[j])
    && (forall i :: from <= i < |log| && log[i].change.Finish? ==> Follows(log, i, tasks, when))
  }

  /** The outcome stored here is the one that the event acted on at that time reports. */
  ghost predicate Follows(log: seq<Entry>, i: nat, tasks: seq<TaskEvent>, when: seq<nat>)
    requires i < |log| && |when| == |tasks|
  {
    exists j :: 0 <= j < |when| && when[j] == i && tasks[j].Finished? && log[i].change == Outcome(tasks[j])
  }

  ghost predicate NoOutcomes(log: seq<Entry>, from: nat) {
    forall i :: from <= i < |log| ==> !log[i].change.Finish?
  }

  lemma {:induction false} HandledNext(job: Job, log: seq<Entry>, log': seq<Entry>, from: nat, tasks: seq<TaskEvent>,
                                       task: TaskEvent, when: seq<nat>)
    requires Handled(job, log, from, tasks, when) && log <= log' && from <= |log|
    requires Answered(job, log', |log|, task)
    requires if task.Finished? then |log'| <= |log| + 1 && (|log| < |log'| ==> log'[|log|].change == Outcome(task))
             else log' == log
    ensures Handled(job, log', from, tasks + [task], when + [|log|])
  {
    var tasks', when' := tasks + [task], when + [|log|];
    forall j | 0 <= j < |when|
      ensures Answered(job, log', when[j], tasks[j])
    {
      assert Answered(job, log, when[j], tasks[j]);
    }
    forall i | from <= i < |log'| && log'[i].change.Finish?
      ensures Follows(log', i, tasks', when')
    {
      FollowsStill(log, log', i, tasks, task, when);
    }
  }

  lemma {:induction false} FollowsStill(log: seq<Entry>, log': seq<Entry>, i: nat, tasks: seq<TaskEvent>,
                                        task: TaskEvent, when: seq<nat>)
    requires log <= log' && i < |log'| && |when| == |tasks|
    requires if i < |log| then Follows(log, i, tasks, when)
             else i == |log| && task.Finished? && log'[i].change == Outcome(task)
    ensures Follows(log', i, tasks + [task], when + [|log|])
  {
    var j: nat;
    if i < |log| {
      j :| 0 <= j < |when| && when[j] == i && tasks[j].Finished? && log[i].change == Outcome(tasks[j]);
    } else {
      j := |tasks|;
    }
    assert (when + [|log|])[j] == i && log'[i].change == Outcome((tasks + [task])[j]);
  }

  lemma {:induction false} HandledLater(job: Job, log: seq<Entry>, log': seq<Entry>, from: nat, tasks: seq<TaskEvent>,
                                        when: seq<nat>)
    requires Handled(job, log, from, tasks, when) && log <= log' && NoOutcomes(log', |log|)
    ensures Handled(job, log', from, tasks, when)
  {
    forall j | 0 <= j < |when|
      ensures Answered(job, log', when[j], tasks[j])
    {
      assert Answered(job, log, when[j], tasks[j]);
    }
    forall i | from <= i < |log'| && log'[i].change.Finish?
      ensures Follows(log', i, tasks, when)
    {
      assert i < |log| && Follows(log, i, tasks, when);
      var j :| 0 <= j < |when| && when[j] == i && tasks[j].Finished? && log[i].change == Outcome(tasks[j]);
      assert when[j] == i && log'[i].change == Outcome(tasks[j]);
    }
  }

  /** The events of tasks up to some place were acted on, and the rest has nothing to do with what is stored. */
  ghost predicate HandledSome(job: Job, log: seq<Entry>, from: nat) {
    exists when: seq<nat> :: |when| <= |job.tasks| && Handled(job, log, from, job.tasks[..|when|], when)
  }

  /**
   * A run that was given no bad answer stops in the middle only for one of two reasons: it has acted on all that its
   * tasks reported and a step is still running, or a task reported that a running step broke.
   */
  ghost predicate Waits(job: Job, log: seq<Entry>, from: nat) {
    exists when: seq<nat> ::
      |when| <= |job.tasks| && Handled(job, log, from, job.tasks[..|when|], when) && Stuck(job, log, |when|)
  }

  ghost predicate Stuck(job: Job, log: seq<Entry>, k: nat) {
    && log != [] && var steps := log[|log| - 1].state.steps;
      if k < |job.tasks| then job.tasks[k].Broke? && HasStatus(steps, job.tasks[k].step, Running)
      else k == |job.tasks| && RunningOf(steps) != {} && NoneMayStart(job.plan, job.parallelism, steps)
  }

  // ---- A whole run ----

  /** A run that finds nothing failed and nothing running, with the output of its first tasks forwarded. */
  ghost predicate Works(job: Job, before: Past, after: Past, ended: bool, heard: nat) {
    && heard <= |job.tasks|
    && var texts := Texts(job.tasks[..heard]);
      if ended then
        heard == |job.tasks| && Goes(job, before, after, texts, true) && HandledSome(job, after.log, |before.log|)
      else
        || Goes(job, before, after, texts, false)
        || (Goes(job, before, after, texts, true) && Waits(job, after.log, |before.log|))
  }

  /** In the middle of a run: so many task events were acted on, and their output was forwarded. */
  ghost predicate Acted(job: Job, before: Past, now: Past, k: nat, when: seq<nat>) {
    && k <= |job.tasks| && Goes(job, before, now, Texts(job.tasks[..k]), true)
    && Handled(job, now.log, |before.log|, job.tasks[..k], when)
  }

  lemma {:induction false} ActedOnNothing(job: Job, before: Past)
    requires before.log != []
    ensures Acted(job, before, before, 0, [])
  {
    GoesNowhere(job, before);
    assert job.tasks[..0] == [];
  }

  /** Starting steps in the middle of a run. */
  lemma {:induction false} StartsGo(job: Job, before: Past, was: Past, now: Past, k: nat, when: seq<nat>, ok: bool)
    requires Acted(job, before, was, k, when) && OnlyStarts(job, was, now, ok)
    ensures ok ==> Acted(job, before, now, k, when)
    ensures !ok ==> Works(job, before, now, false, k)
  {
    var texts := Texts(job.tasks[..k]);
    GoesOn(job, before, was, now, texts, [], ok);
    assert texts + [] == texts;
    HandledLater(job, was.log, now.log, |before.log|, job.tasks[..k], when);
  }

  lemma {:induction false} StopsStuck(job: Job, before: Past, now: Past, k: nat, when: seq<nat>)
    requires Acted(job, before, now, k, when) && Stuck(job, now.log, k)
    ensures Works(job, before, now, false, k)
  {
    assert |when| == k;
  }

  /** Forwarding what is left ends a run. */
  lemma {:induction false} DrainWorks(job: Job, before: Past, was: Past, now: Past, k: nat, when: seq<nat>, done: nat,
                                      ok: bool)
    requires Acted(job, before, was, k, when) && k + done <= |job.tasks| && (ok ==> k + done == |job.tasks|)
    requires Goes(job, was, now, Texts(job.tasks[k..k + done]), ok) && now.log == was.log
    ensures Works(job, before, now, ok, k + done)
  {
    TextsSplit(job.tasks[..k], job.tasks[k..k + done]);
    assert job.tasks[..k] + job.tasks[k..k + done] == job.tasks[..k + done];
    GoesOn(job, before, was, now, Texts(job.tasks[..k]), Texts(job.tasks[k..k + done]), ok);
    assert |when| == k && job.tasks[..|when|] == job.tasks[..k];
  }

  /** Acting on the next task event. */
  lemma {:induction false} EventGoes(job: Job, before: Past, was: Past, now: Past, k: nat, when: seq<nat>)
    requires Acted(job, before, was, k, when) && k < |job.tasks|
    requires var task := job.tasks[k];
      && Goes(job, was, now, if task.Message? then [task.text] else [], true) && Answered(job, now.log, |was.log|, task)
      && if task.Finished? then
           |now.log| <= |was.log| + 1 && (|was.log| < |now.log| ==> now.log[|was.log|].change == Outcome(task))
         else now.log == was.log
    ensures Acted(job, before, now, k + 1, when + [|was.log|])
  {
    var task := job.tasks[k];
    TextsNext(job.tasks, k);
    GoesOn(job, before, was, now, Texts(job.tasks[..k]), if task.Message? then [task.text] else [], true);
    EventHandled(job, was.log, now.log, |before.log|, k, when);
  }

  lemma {:induction false} EventHandled(job: Job, log: seq<Entry>, log': seq<Entry>, from: nat, k: nat, when: seq<nat>)
    requires k < |job.tasks| && Handled(job, log, from, job.tasks[..k], when) && log <= log' && from <= |log|
    requires var task := job.tasks[k];
      && Answered(job, log', |log|, task)
      && if task.Finished? then |log'| <= |log| + 1 && (|log| < |log'| ==> log'[|log|].change == Outcome(task))
         else log' == log
    ensures Handled(job, log', from, job.tasks[..k + 1], when + [|log|])
  {
    HandledNext(job, log, log', from, job.tasks[..k], job.tasks[k], when);
    assert job.tasks[..k] + [job.tasks[k]] == job.tasks[..k + 1];
  }

  /** What acting on a task event does: output is said, an outcome stored, and a step that broke leaves things as is. */
  ghost predicate Reacts(job: Job, was: Past, now: Past, task: TaskEvent, ok: bool) {
    if task.Broke? then !ok && now == was
    else
      && Goes(job, was, now, if ok && task.Message? then [task.text] else [], ok)
      && (ok ==> if task.Message? then now.log == was.log else StoredLast(was, now, Outcome(task)))
  }

  /** One turn: the event was acted on, or it came from a step that is not running and nothing was done. */
  lemma {:induction false} TurnGoes(job: Job, before: Past, was: Past, now: Past, k: nat, when: seq<nat>, acted: bool,
                                    ok: bool)
    requires Acted(job, before, was, k, when) && k < |job.tasks|
    requires if acted then Reacts(job, was, now, job.tasks[k], ok) else ok && now == was
    requires was.log != [] && var steps := was.log[|was.log| - 1].state.steps;
      && NoneMayStart(job.plan, job.parallelism, steps)
      && (acted <==> job.tasks[k].Message? || HasStatus(steps, job.tasks[k].step, Running))
    ensures ok ==> Acted(job, before, now, k + 1, when + [|was.log|])
    ensures !ok ==> Works(job, before, now, false, k)
  {
    if !acted {
      GoesNowhere(job, was);
      EventGoes(job, before, was, now, k, when);
    } else if ok {
      assert now.log[|was.log| - 1] == was.log[|was.log| - 1];
      EventGoes(job, before, was, now, k, when);
    } else if job.tasks[k].Broke? {
      StopsStuck(job, before, now, k, when);
    } else {
      EventStops(job, before, was, now, k);
    }
  }

  /** What stops acting on an event ends a run. */
  lemma {:induction false} EventStops(job: Job, before: Past, was: Past, now: Past, k: nat)
    requires k <= |job.tasks| && Goes(job, before, was, Texts(job.tasks[..k]), true) && Goes(job, was, now, [], false)
    ensures Works(job, before, now, false, k)
  {
    var texts := Texts(job.tasks[..k]);
    GoesOn(job, before, was, now, texts, [], false);
    assert texts + [] == texts;
  }

  /** Of the steps found running only the first is touched, and it becomes failed. */
  ghost predicate MarksInterrupted(was: State, before: Past, after: Past, ended: bool) {
    && after.starts == before.starts && before.log <= after.log && |after.log| <= |before.log| + 1
    && (ended ==> |after.log| > |before.log|)
    && (|after.log| > |before.log| ==> Interrupted(was, after.log[|before.log|]))
  }

  /** Storing that, and saying so. */
  ghost predicate Interrupts(was: State, before: Past, after: Past, ended: bool) {
    && MovesOn(before.log, before.starts, after.log, after.starts) && Heard(before, after, ended)
    && before.events <= after.events && Quiet(after.events, |before.events|)
    && MarksInterrupted(was, before, after, ended)
  }

  lemma {:induction false} InterruptsOn(was: State, before: Past, saved: Past, after: Past, ended: bool)
    requires Interrupts(was, before, saved, true)
    requires saved.events <= after.events && Quiet(after.events, |saved.events|)
    requires after.log == saved.log && after.starts == saved.starts && after.answers == saved.answers
    requires Took(saved.replies, after.replies, true, ended)
    ensures Interrupts(was, before, after, ended)
  {
    TookNone(saved.answers, Stored);
    HeardOn(before, saved, after, ended);
    QuietOn(before.events, saved.events, after.events);
  }

  ghost predicate Interrupted(was: State, e: Entry) {
    && e.change.Finish? && IsFirst(was.steps, Running, e.change.step)
    && e.change.status == Failed && e.change.exitStatus == -1
  }

  /** What a run makes of the state it finds: a failure is only repeated, an interruption becomes one, else it works. */
  ghost predicate RunsFrom(job: Job, was: State, before: Past, after: Past, ended: bool) {
    && MovesOn(before.log, before.starts, after.log, after.starts)
    && if SomeFailed(was.steps) then
      && Heard(before, after, ended) && Quiet(after.events, |before.events|)
      && after.log == before.log && after.starts == before.starts
    else if RunningOf(was.steps) != {} then
      Heard(before, after, ended) && Quiet(after.events, |before.events|) && MarksInterrupted(was, before, after, ended)
    else
      exists heard: nat :: Works(job, before, after, ended, heard)
  }

  /** A status was said and nothing else was done. */
  ghost predicate Starting(job: Job, before: Past, first: Past) {
    && Goes(job, before, first, [], true) && first.log == before.log && first.starts == before.starts
    && Quiet(first.events, |before.events|)
  }

  lemma {:induction false} CutAtOnce(job: Job, was: State, before: Past, after: Past)
    requires Goes(job, before, after, [], false) && Quiet(after.events, |before.events|)
    requires after.log == before.log && after.starts == before.starts
    ensures RunsFrom(job, was, before, after, false)
  {
    assert job.tasks[..0] == [];
    assert Works(job, before, after, false, 0);
  }

  lemma {:induction false} RepeatsFailure(job: Job, was: State, before: Past, first: Past, after: Past, ended: bool)
    requires SomeFailed(was.steps) && Starting(job, before, first)
    requires first.events <= after.events && Quiet(after.events, |first.events|)
    requires after.log == first.log && after.starts == first.starts && after.answers == first.answers
    requires Took(first.replies, after.replies, true, ended)
    ensures RunsFrom(job, was, before, after, ended)
  {
    TookNone(first.answers, Stored);
    HeardOn(before, first, after, ended);
    QuietOn(before.events, first.events, after.events);
  }

  lemma {:induction false} EndsInterrupted(job: Job, was: State, before: Past, first: Past, after: Past, ended: bool)
    requires !SomeFailed(was.steps) && RunningOf(was.steps) != {} && Starting(job, before, first)
    requires Interrupts(was, first, after, ended)
    ensures RunsFrom(job, was, before, after, ended)
  {
    HeardOn(before, first, after, ended);
    QuietOn(before.events, first.events, after.events);
  }

  lemma {:induction false} QuietOn(a: seq<Event>, b: seq<Event>, c: seq<Event>)
    requires a <= b <= c && Quiet(b, |a|) && Quiet(c, |b|)
    ensures Quiet(c, |a|)
  {
    assert forall i :: |a| <= i < |b| ==> c[i] == b[i];
  }

  /** A run whose first events said nothing of output or starts. */
  lemma {:induction false} WorksAfter(job: Job, before: Past, first: Past, after: Past, ended: bool, heard: nat)
    requires Goes(job, before, first, [], true) && first.log == before.log && Works(job, first, after, ended, heard)
    ensures Works(job, before, after, ended, heard)
  {
    var texts := Texts(job.tasks[..heard]);
    assert [] + texts == texts;
    if Goes(job, first, after, texts, true) {
      GoesOn(job, before, first, after, [], texts, true);
    } else {
      GoesOn(job, before, first, after, [], texts, false);
    }
  }

  /** Its last events. */
  lemma {:induction false} WorksToEnd(job: Job, before: Past, middle: Past, after: Past, heard: nat, ok: bool)
    requires Works(job, before, middle, true, heard)
    requires middle.log == after.log && middle.starts == after.starts && middle.answers == after.answers
    requires middle.events <= after.events && Quiet(after.events, |middle.events|)
    requires Took(middle.replies, after.replies, true, ok)
    ensures Works(job, before, after, ok, heard)
  {
    ThenSays(job, before, middle, after, Texts(job.tasks[..heard]), ok);
  }

  /** Whenever a step was started, it was one that could be. */
  ghost predicate StartsEntitled(plan: seq<Step>, parallelism: nat, log: seq<Entry>, from: nat) {
    forall i :: from <= i < |log| && i > 0 ==> StartEntitled(plan, parallelism, log, i)
  }

  ghost predicate StartEntitled(plan: seq<Step>, parallelism: nat, log: seq<Entry>, i: nat)
    requires 0 < i < |log|
  {
    log[i].change.Start? ==> Entitled(plan, parallelism, log[i - 1].state.steps, log[i].change.step)
  }

  lemma {:induction false} StartsEntitledOn(plan: seq<Step>, parallelism: nat, log: seq<Entry>, log': seq<Entry>,
                                            from: nat)
    requires StartsEntitled(plan, parallelism, log, from)
    requires log <= log' && StartsEntitled(plan, parallelism, log', |log|)
    ensures StartsEntitled(plan, parallelism, log', from)
  {
    forall i | from <= i < |log'| && i > 0
      ensures StartEntitled(plan, parallelism, log', i)
    {
      if i < |log| {
        assert StartEntitled(plan, parallelism, log, i);
      }
    }
  }

  lemma {:induction false} RunStartsEntitled(job: Job, was: State, before: Past, after: Past, ended: bool)
    requires RunsFrom(job, was, before, after, ended)
    ensures StartsEntitled(job.plan, job.parallelism, after.log, |before.log|)
  {
    if !SomeFailed(was.steps) && RunningOf(was.steps) == {} {
      var heard: nat :| Works(job, before, after, ended, heard);
      assert AllCaused(job, after.log, |before.log|);
      forall i | |before.log| <= i < |after.log| && i > 0
        ensures StartEntitled(job.plan, job.parallelism, after.log, i)
      {
        assert CausedAt(job, after.log, i);
      }
    }
  }
}
