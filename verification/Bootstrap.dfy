/** Runs a bootstrap plan, step by step, from and to a state that is stored after every change. */
module Bootstrap {
  import opened BootstrapEvents
  import opened BootstrapOrder
  import opened BootstrapSchedulers
  import opened BootstrapStates
  import opened Wrappers

  type PlanHash = nat

  // ---- What outlives a run ----

  datatype Saved = Saved(planHash: PlanHash, state: State)

  /** The state file. Writing replaces it as a whole or not at all. */
  class Store {
    var saved: Option<Saved>
    var answers: seq<SaveAnswer>

    /** The steps whose start has been stored, in order, and every state stored for one plan. */
    ghost var starts: seq<StepId>
    ghost var log: seq<Entry>

    constructor (saved: Option<Saved>, answers: seq<SaveAnswer>, ghost planHash: PlanHash)
      ensures this.saved == saved && this.answers == answers && Valid(planHash) && starts == [] && |log| == 1
    {
      this.saved, this.answers, starts := saved, answers, [];
      ghost var found :=
        if saved.Some? && saved.value.planHash == planHash then saved.value.state else State(0, map[]);
      log := [Entry(found, 0, Found)];
      EvolvesAtOnce(found, []);
    }

    /** What the next write will answer. */
    function Answer(): SaveAnswer
      reads this
    {
      if answers == [] then Stored else answers[0]
    }

    /** The log ends with what is stored now, and leads there by allowed changes. */
    ghost predicate Valid(planHash: PlanHash)
      reads this
    {
      log != [] && EndsAt(log, Current(planHash), starts) && Chain(log, starts)
    }

    /** The state a run of this plan finds: nothing done, when the file is missing or belongs to another plan. */
    function Current(planHash: PlanHash): State
      reads this
    {
      if saved.Some? && saved.value.planHash == planHash then saved.value.state else State(0, map[])
    }

    method Load(planHash: PlanHash) returns (state: BootstrapState)
      ensures fresh(state) && state.Value() == Current(planHash)
    {
      state := new BootstrapState(Current(planHash));
    }

    method Save(planHash: PlanHash, state: BootstrapState, ghost change: Change)
      returns (ok: bool, ghost stored: bool)
      requires Valid(planHash)
      requires Allowed(Current(planHash), change) && state.Value() == Apply(Current(planHash), change)
      modifies this
      ensures Valid(planHash) && ok == old(Answer()).Stored? && stored == !old(Answer()).NotStored?
      ensures Took(old(answers), answers, Stored, ok)
      ensures Current(planHash) == if stored then state.Value() else old(Current(planHash))
      ensures starts == if stored then old(starts) + StartsOf(change) else old(starts)
      ensures log == if stored then old(log) + [Entry(state.Value(), |starts|, change)] else old(log)
    {
      var answer := Answer();
      answers := if answers == [] then [] else answers[1..];
      ok, stored := answer.Stored?, !answer.NotStored?;
      if !answer.NotStored? {
        ghost var e := Entry(state.Value(), |starts| + |StartsOf(change)|, change);
        LogGrows(log, starts, e);
        saved := Some(Saved(planHash, State(state.epoch, state.steps)));
        starts := starts + StartsOf(change);
        log := log + [e];
      }
    }
  }

  ghost predicate EndsAt(log: seq<Entry>, st: State, starts: seq<StepId>)
    requires log != []
  {
    log[|log| - 1].state == st && log[|log| - 1].at == |starts|
  }

  lemma {:induction false} LogGrows(log: seq<Entry>, starts: seq<StepId>, e: Entry)
    requires Extends(log, starts, e)
    ensures Chain(log + [e], starts + StartsOf(e.change)) && EndsAt(log + [e], e.state, starts + StartsOf(e.change))
  {
    ChainGrows(log, starts, e);
  }

  // ---- The sink ----

  class Sink {
    var events: seq<Event>
    var answers: seq<bool>

    constructor (answers: seq<bool>)
      ensures events == [] && this.answers == answers
    {
      events, this.answers := [], answers;
    }

    method Emit(e: Event) returns (ok: bool)
      modifies this
      ensures events == if ok then old(events) + [e] else old(events)
      ensures Took(old(answers), answers, true, ok)
    {
      ok := answers == [] || answers[0];
      answers := if answers == [] then [] else answers[1..];
      if ok {
        events := events + [e];
      }
    }
  }

  ghost function Now(sink: Sink, store: Store): Past
    reads sink, store
  {
    Past(sink.events, sink.answers, store.log, store.starts, store.answers)
  }

  // ---- Runs ----

  /** A run with what its sink answers and its tasks report, or a request to retry. */
  datatype Action = RunAction(sinkAnswers: seq<bool>, tasks: seq<TaskEvent>) | RetryAction(epoch: nat)

  /** A part of a run: it goes on, it has said its last word, or it was cut off. */
  datatype Stage = GoOn | RunEnded | Cut

  datatype RunStatus = Completed | StepFailed(failure: Event) | Aborted

  /** A plan without an order is refused; any other run ends, or is cut off. */
  datatype RunOutcome = PlanRefused(error: OrderError) | Ended | CutOff

  /** What the host offers: at least one step at a time. */
  type Parallelism = n: nat | n >= 1 witness 1

  /** Between the events of a run of steps: what is running, whether a step has failed, and what was said so far. */
  ghost predicate Underway(plan: seq<Step>, steps: StepRecords, running: set<StepId>, stopping: bool,
                          failure: Option<Event>, events: seq<Event>)
  {
    && (forall s :: s in running ==> HasStatus(steps, s, Running) && InPlan(plan, s))
    && (forall s :: HasStatus(steps, s, Failed) ==> InPlan(plan, s) && stopping)
    && (stopping <==> SomeFailed(steps)) && (stopping <==> failure.Some?)
    && (failure.Some? ==> failure.value.BootstrapFailed? && HasStatus(steps, failure.value.step, Failed))
    && Open(plan, events) && (ShowsFailed(events) ==> stopping)
  }

  /** No step is recorded as running but these. */
  ghost predicate OnlyRunning(steps: StepRecords, running: set<StepId>) {
    forall s :: HasStatus(steps, s, Running) ==> s in running
  }

  class Executor {
    const plan: seq<Step>
    const planHash: PlanHash

    const parallelism: Parallelism

    constructor (plan: seq<Step>, planHash: PlanHash, parallelism: Parallelism)
      ensures this.plan == plan && this.planHash == planHash && this.parallelism == parallelism
    {
      this.plan, this.planHash, this.parallelism := plan, planHash, parallelism;
    }

    ghost function Work(tasks: seq<TaskEvent>): Job {
      Job(plan, parallelism, tasks)
    }

    method EmitStatus(sink: Sink, state: BootstrapState, lifecycle: Lifecycle, current: Option<StepId>)
      returns (ok: bool)
      requires Open(plan, sink.events)
      requires ShowsFailed(sink.events) ==> lifecycle != LifecycleRunning && lifecycle != LifecyclePassed
      modifies sink
      ensures Open(plan, sink.events) && old(sink.events) <= sink.events && Quiet(sink.events, |old(sink.events)|)
      ensures ShowsFailed(sink.events) ==> ShowsFailed(old(sink.events)) || lifecycle == LifecycleFailed
      ensures Took(old(sink.answers), sink.answers, true, ok)
      ensures |sink.events| == |old(sink.events)| + if ok then 1 else 0
      ensures ok ==> Reports(sink.events[|sink.events| - 1], plan, state.Value(), lifecycle, current)
    {
      var failedStep := state.FindFirst(Failed);
      var e := Status(state.epoch, lifecycle, current, Select(plan, state.steps, true), failedStep,
                      Select(plan, state.steps, false));
      SelectSplits(plan, state.steps);
      OpenGrows(plan, sink.events, e);
      ok := sink.Emit(e);
    }

    method EmitPlain(sink: Sink, e: Event) returns (ok: bool)
      requires Open(plan, sink.events) && !Terminal(e) && !e.Status?
      modifies sink
      ensures Open(plan, sink.events) && (ShowsFailed(sink.events) <==> ShowsFailed(old(sink.events)))
      ensures sink.events == if ok then old(sink.events) + [e] else old(sink.events)
      ensures Took(old(sink.answers), sink.answers, true, ok)
    {
      OpenGrows(plan, sink.events, e);
      ok := sink.Emit(e);
    }

    /**
     * A repeated epoch changes nothing. The next epoch is taken exactly when there are unfinished steps, which become
     * pending, and the store keeps it; a store that then reports failure hides that the request took effect.
     */
    method PrepareRetry(store: Store, attemptEpoch: nat) returns (r: Result<bool, ()>, ghost took: bool)
      requires store.Valid(planHash)
      modifies store
      ensures store.Valid(planHash) && store.starts == old(store.starts)
      ensures store.log == old(store.log)
        + if took then [Entry(store.Current(planHash), |store.starts|, RetryUnfinished)] else []
      ensures var was := old(store.Current(planHash));
        var due := attemptEpoch == was.epoch + 1 && SomeUnfinished(was.steps);
        && (r == Ok(false) <==> attemptEpoch == was.epoch)
        && (r == Ok(true) <==> due && old(store.Answer()).Stored?)
        && (took <==> due && !old(store.Answer()).NotStored?)
        && store.Current(planHash) == (if took then State(was.epoch + 1, Retried(was.steps)) else was)
    {
      took := false;
      var state := store.Load(planHash);
      ghost var was := store.Current(planHash);
      if attemptEpoch == state.epoch {
        return Ok(false), false;
      }
      if attemptEpoch != state.epoch + 1 {
        return Err(()), false;
      }
      var found := state.PrepareRetry(attemptEpoch);
      if !found {
        return Err(()), false;
      }
      var ok;
      ok, took := store.Save(planHash, state, RetryUnfinished);
      assert store.starts == old(store.starts) + [] == old(store.starts);
      r := if ok then Ok(true) else Err(());
    }

    /** The last two events: a status with what is stored, and the terminal event. */
    ghost predicate EndsWith(events: seq<Event>, st: State, lifecycle: Lifecycle, last: Event) {
      && |events| >= 2 && events[|events| - 1] == last
      && Reports(events[|events| - 2], plan, st, lifecycle, None)
    }

    /** A failure found in the state ends the run at once. */
    method ReportExistingFailure(sink: Sink, state: BootstrapState) returns (r: Stage)
      requires Open(plan, sink.events)
      modifies sink
      ensures Took(old(sink.answers), sink.answers, true, !r.Cut?)
      ensures old(sink.events) <= sink.events && Quiet(sink.events, |old(sink.events)|)
      ensures r.Cut? ==> Open(plan, sink.events)
      ensures r.GoOn? <==> !SomeFailed(state.steps)
      ensures r.GoOn? ==> sink.events == old(sink.events) && sink.answers == old(sink.answers)
      ensures r.RunEnded? ==> Closed(plan, sink.events) && EndsFailed(sink.events)
      ensures r.RunEnded? ==>
        var s := sink.events[|sink.events| - 1].step;
        && IsFirst(state.steps, Failed, s)
        && EndsWith(sink.events, state.Value(), LifecycleFailed, FailureOf(state.Value(), s))
    {
      var failed := state.FindFirst(Failed);
      if failed.None? {
        return GoOn;
      }
      r := FailRun(sink, state, failed.value);
    }

    /** The failed status, then the terminal event. */
    method FailRun(sink: Sink, state: BootstrapState, failed: StepId) returns (r: Stage)
      requires Open(plan, sink.events) && failed in state.steps
      modifies sink
      ensures Took(old(sink.answers), sink.answers, true, !r.Cut?) && !r.GoOn?
      ensures old(sink.events) <= sink.events && Quiet(sink.events, |old(sink.events)|)
      ensures r.Cut? ==> Open(plan, sink.events)
      ensures r.RunEnded? ==> Closed(plan, sink.events)
      ensures r.RunEnded? ==>
        EndsWith(sink.events, state.Value(), LifecycleFailed, FailureOf(state.Value(), failed))
    {
      var exit := state.steps[failed].exitStatus;
      r := EndFailed(sink, state, BootstrapFailed(state.epoch, failed, if exit.Some? then exit.value else -1));
    }

    method EndFailed(sink: Sink, state: BootstrapState, failure: Event) returns (r: Stage)
      requires Open(plan, sink.events) && failure.BootstrapFailed?
      modifies sink
      ensures Took(old(sink.answers), sink.answers, true, !r.Cut?) && !r.GoOn?
      ensures old(sink.events) <= sink.events && Quiet(sink.events, |old(sink.events)|)
      ensures r.Cut? ==> Open(plan, sink.events)
      ensures r.RunEnded? ==> Closed(plan, sink.events)
      ensures r.RunEnded? ==> EndsWith(sink.events, state.Value(), LifecycleFailed, failure)
    {
      ghost var before := sink.answers;
      var ok := EmitStatus(sink, state, LifecycleFailed, None);
      if !ok {
        return Cut;
      }
      ghost var between := sink.answers;
      OpenCloses(plan, sink.events, failure);
      ok := sink.Emit(failure);
      TookOn(before, between, sink.answers, true, ok);
      r := if ok then RunEnded else Cut;
    }

    /** What a run stores moves the log on within the epoch, whether or not the store then reports success. */
    method SaveInRun(store: Store, state: BootstrapState, ghost change: Change) returns (ok: bool)
      requires store.Valid(planHash) && !change.RetryUnfinished?
      requires Allowed(store.Current(planHash), change) && state.Value() == Apply(store.Current(planHash), change)
      modifies store
      ensures store.Valid(planHash) && MovesOn(old(store.log), old(store.starts), store.log, store.starts)
      ensures Took(old(store.answers), store.answers, Stored, ok)
      ensures ok ==> store.Current(planHash) == state.Value()
      ensures Stores(old(store.log), old(store.starts), store.log, store.starts, change)
        || (!ok && store.log == old(store.log) && store.starts == old(store.starts))
    {
      ghost var stored;
      ok, stored := store.Save(planHash, state, change);
    }

    /** Of the steps a crash left running, the first, and only it, becomes failed. */
    method MarkInterruptedStep(sink: Sink, store: Store, state: BootstrapState)
      returns (r: Stage, ghost failed: StepId)
      requires Open(plan, sink.events) && store.Valid(planHash) && store.Current(planHash) == state.Value()
      modifies sink, store, state
      ensures store.Valid(planHash)
      ensures r.Cut? ==> Open(plan, sink.events)
      ensures r.GoOn? <==> RunningOf(old(state.steps)) == {}
      ensures r.GoOn? ==> Now(sink, store) == old(Now(sink, store)) && state.Value() == old(state.Value())
      ensures r.GoOn? ==> store.Current(planHash) == old(store.Current(planHash))
      ensures !r.GoOn? ==> Interrupts(old(state.Value()), old(Now(sink, store)), Now(sink, store), r.RunEnded?)
      ensures r.RunEnded? ==> Closed(plan, sink.events) && IsFirst(old(state.steps), Running, failed)
      ensures r.RunEnded? ==>
        && store.Current(planHash) == old(state.Value()).(steps := Marked(old(state.steps), failed, Failed, -1))
        && EndsWith(sink.events, store.Current(planHash), LifecycleFailed,
                    BootstrapFailed(old(state.epoch), failed, -1))
    {
      ghost var was, before := state.Value(), Now(sink, store);
      RunningOfIsEmpty(was.steps);
      var interrupted := state.FindFirst(Running);
      failed := 0;
      if interrupted.None? {
        return GoOn, failed;
      }
      failed := interrupted.value;
      var ok := SaveInterrupted(sink, store, state, interrupted.value);
      if !ok {
        return Cut, failed;
      }
      ghost var saved := Now(sink, store);
      r := FailRun(sink, state, interrupted.value);
      InterruptsOn(was, before, saved, Now(sink, store), r.RunEnded?);
    }

    method SaveInterrupted(sink: Sink, store: Store, state: BootstrapState, s: StepId) returns (ok: bool)
      requires store.Valid(planHash) && store.Current(planHash) == state.Value() && IsFirst(state.steps, Running, s)
      modifies store, state
      ensures store.Valid(planHash) && Interrupts(old(state.Value()), old(Now(sink, store)), Now(sink, store), ok)
      ensures state.Value() == old(state.Value()).(steps := Marked(old(state.steps), s, Failed, -1))
      ensures ok ==> store.Current(planHash) == state.Value()
    {
      state.Mark(s, Failed, -1);
      ok := SaveInRun(store, state, Finish(s, Failed, -1));
      TookNone(sink.answers, true);
    }

    // ---- Steps ----

    /** The scheduler has the steps of the plan, in an order that will do. */
    ghost predicate Fits(scheduler: Scheduler) {
      SameSteps(plan, scheduler.steps) && Topological(scheduler.steps) && scheduler.maxParallelism == parallelism
    }

    /** The state is stored as it is, and the run is under way. */
    ghost predicate InStep(sink: Sink, store: Store, state: BootstrapState, scheduler: Scheduler,
                           failure: Option<Event>)
      reads sink, store, state, scheduler
    {
      && store.Valid(planHash) && store.Current(planHash) == state.Value() && Fits(scheduler)
      && Underway(plan, state.steps, scheduler.running, scheduler.stopping, failure, sink.events)
      && Recalls(failure, state.Value())
    }

    /** And what is recorded as running is what runs. */
    ghost predicate Settled(sink: Sink, store: Store, state: BootstrapState, scheduler: Scheduler,
                            failure: Option<Event>)
      reads sink, store, state, scheduler
    {
      InStep(sink, store, state, scheduler, failure) && OnlyRunning(state.steps, scheduler.running)
    }

    /** Stores that a step is running, says so, and only then lets it run. */
    method StartStep(sink: Sink, store: Store, state: BootstrapState, scheduler: Scheduler, step: Step,
                     ghost failure: Option<Event>, ghost tasks: seq<TaskEvent>)
      returns (ok: bool)
      requires Settled(sink, store, state, scheduler, failure)
      requires MayStart(plan, parallelism, state.steps, step)
      modifies sink, store, state, scheduler`running
      ensures store.Valid(planHash) && OnlyStarts(Work(tasks), old(Now(sink, store)), Now(sink, store), ok)
      ensures ok ==> Settled(sink, store, state, scheduler, failure)
      ensures ok ==> scheduler.running == old(scheduler.running) + {step.id}
      ensures ok ==> |scheduler.running| == |old(scheduler.running)| + 1
      ensures ok ==>
        SaysStarted(plan, old(sink.events), sink.events, state.Value(), step.id,
                    Attempts(old(state.steps), step.id) + 1)
      ensures ok ==> state.steps == Started(old(state.steps), step.id)
      ensures !ok ==> Open(plan, sink.events)
    {
      ghost var before := Now(sink, store);
      StepInPlan(plan, step);
      StartKeepsUnderway(plan, state.steps, scheduler.running, failure, sink.events, step.id);
      var attempt;
      ok, attempt := SaveStart(sink, store, state, step.id, tasks);
      if !ok {
        return;
      }
      ok := ReportStarted(sink, store, state, step.id, attempt, before, tasks);
      if !ok {
        return;
      }
      scheduler.MarkRunning(step.id);
    }

    method SaveStart(sink: Sink, store: Store, state: BootstrapState, s: StepId, ghost tasks: seq<TaskEvent>)
      returns (ok: bool, attempt: nat)
      requires store.Valid(planHash) && Entitled(plan, parallelism, store.Current(planHash).steps, s)
      requires store.Current(planHash) == state.Value()
      modifies store, state
      ensures store.Valid(planHash) && attempt == Attempts(old(state.steps), s) + 1
      ensures state.Value() == old(state.Value()).(steps := Started(old(state.steps), s))
      ensures if ok then StartIsDue(Work(tasks), old(Now(sink, store)), Now(sink, store), s)
              else OnlyStarts(Work(tasks), old(Now(sink, store)), Now(sink, store), false)
      ensures ok ==> store.Current(planHash) == state.Value()
    {
      ghost var was, before := store.Current(planHash), Now(sink, store);
      EntitledIsFree(plan, parallelism, was.steps, s);
      attempt := state.StartStep(s);
      ok := SaveInRun(store, state, Start(s));
      if !ok {
        SaveGoes(Work(tasks), before, Now(sink, store), was, Start(s), ok);
      }
    }

    method ReportStarted(sink: Sink, store: Store, state: BootstrapState, s: StepId, attempt: nat, ghost before: Past,
                         ghost tasks: seq<TaskEvent>)
      returns (ok: bool)
      requires Open(plan, sink.events) && !ShowsFailed(sink.events)
      requires StartIsDue(Work(tasks), before, Now(sink, store), s)
      modifies sink
      ensures Open(plan, sink.events) && !ShowsFailed(sink.events)
      ensures OnlyStarts(Work(tasks), before, Now(sink, store), ok)
      ensures ok ==> SaysStarted(plan, old(sink.events), sink.events, state.Value(), s, attempt)
    {
      ghost var saved := Now(sink, store);
      ok := EmitStatus(sink, state, LifecycleRunning, Some(s));
      if ok {
        ghost var between := sink.answers;
        ok := EmitPlain(sink, StepStarted(s, attempt));
        TookOn(saved.replies, between, sink.answers, true, ok);
      }
      StartGoes(Work(tasks), before, saved, Now(sink, store), state.Value(), s, attempt, ok);
    }

    /** Stores the outcome of a step. */
    method SaveOutcome(sink: Sink, store: Store, state: BootstrapState, s: StepId, status: StepStatus, exitStatus: int,
                       ghost tasks: seq<TaskEvent>)
      returns (ok: bool)
      requires store.Valid(planHash) && Reported(tasks, Finish(s, status, exitStatus))
      requires HasStatus(state.steps, s, Running) && (status == Passed || status == Failed)
      requires store.Current(planHash) == state.Value()
      modifies store, state
      ensures state.Value() == old(state.Value()).(steps := Marked(old(state.steps), s, status, exitStatus))
      ensures store.Valid(planHash) && Goes(Work(tasks), old(Now(sink, store)), Now(sink, store), [], ok)
      ensures ok ==> StoredLast(old(Now(sink, store)), Now(sink, store), Finish(s, status, exitStatus))
      ensures ok ==> store.Current(planHash) == state.Value()
    {
      ghost var was, before := store.Current(planHash), Now(sink, store);
      state.Mark(s, status, exitStatus);
      ok := SaveInRun(store, state, Finish(s, status, exitStatus));
      SaveGoes(Work(tasks), before, Now(sink, store), was, Finish(s, status, exitStatus), ok);
    }

    /** A step that ended well becomes passed; the status after it still says failed if another step has failed. */
    method FinishPassedStep(sink: Sink, store: Store, state: BootstrapState, scheduler: Scheduler, s: StepId,
                            ghost failure: Option<Event>, ghost tasks: seq<TaskEvent>)
      returns (ok: bool)
      requires InStep(sink, store, state, scheduler, failure) && HasStatus(state.steps, s, Running)
      requires OnlyRunning(state.steps, scheduler.running + {s})
      requires s !in scheduler.running && InPlan(plan, s) && Reported(tasks, Finish(s, Passed, 0))
      modifies sink, store, state
      ensures store.Valid(planHash) && Goes(Work(tasks), old(Now(sink, store)), Now(sink, store), [], ok)
      ensures ok ==> Settled(sink, store, state, scheduler, failure)
      ensures ok ==> StoredLast(old(Now(sink, store)), Now(sink, store), Finish(s, Passed, 0))
      ensures ok ==> state.steps == Marked(old(state.steps), s, Passed, 0)
      ensures ok ==> SaysPassed(plan, old(sink.events), sink.events, state.Value(), s)
      ensures !ok ==> Open(plan, sink.events)
    {
      ghost var before := Now(sink, store);
      PassKeepsUnderway(plan, state.Value(), scheduler.running, scheduler.stopping, failure, sink.events, s);
      ok := SaveOutcome(sink, store, state, s, Passed, 0, tasks);
      if !ok {
        return;
      }
      ok := ReportPassed(sink, store, state, s, before, tasks);
    }

    /** That a step passed, then a status that still says failed if another step has failed. */
    method ReportPassed(sink: Sink, store: Store, state: BootstrapState, s: StepId, ghost before: Past,
                        ghost tasks: seq<TaskEvent>)
      returns (ok: bool)
      requires Open(plan, sink.events) && (ShowsFailed(sink.events) ==> SomeFailed(state.steps))
      requires Goes(Work(tasks), before, Now(sink, store), [], true)
      modifies sink
      ensures Open(plan, sink.events) && (ShowsFailed(sink.events) ==> SomeFailed(state.steps))
      ensures Goes(Work(tasks), before, Now(sink, store), [], ok)
      ensures ok ==> SaysPassed(plan, old(sink.events), sink.events, state.Value(), s)
    {
      ghost var saved := Now(sink, store);
      ok := EmitPlain(sink, StepFinished(s, 0));
      ghost var said := Now(sink, store);
      ThenSays(Work(tasks), before, saved, said, [], ok);
      if !ok {
        return;
      }
      var failed := state.FindFirst(Failed);
      ok := EmitStatus(sink, state, if failed.Some? then LifecycleFailed else LifecycleRunning, None);
      ThenSays(Work(tasks), before, said, Now(sink, store), [], ok);
    }

    method ReportFailed(sink: Sink, store: Store, state: BootstrapState, ghost before: Past,
                        ghost tasks: seq<TaskEvent>)
      returns (ok: bool)
      requires Open(plan, sink.events) && Goes(Work(tasks), before, Now(sink, store), [], true)
      modifies sink
      ensures Open(plan, sink.events) && Goes(Work(tasks), before, Now(sink, store), [], ok)
      ensures ok ==> SaysFailed(plan, old(sink.events), sink.events, state.Value())
    {
      ghost var saved := Now(sink, store);
      ok := EmitStatus(sink, state, LifecycleFailed, None);
      ThenSays(Work(tasks), before, saved, Now(sink, store), [], ok);
    }

    /** Any other end makes the step failed and stops the scheduler; the first failure is the one reported. */
    method FinishFailedStep(sink: Sink, store: Store, state: BootstrapState, scheduler: Scheduler, s: StepId,
                            exitStatus: int, failure: Option<Event>, ghost tasks: seq<TaskEvent>)
      returns (ok: bool, failure': Option<Event>)
      requires InStep(sink, store, state, scheduler, failure) && HasStatus(state.steps, s, Running)
      requires OnlyRunning(state.steps, scheduler.running + {s})
      requires s !in scheduler.running && InPlan(plan, s) && Reported(tasks, Finish(s, Failed, exitStatus))
      modifies sink, store, state, scheduler`stopping
      ensures store.Valid(planHash) && Goes(Work(tasks), old(Now(sink, store)), Now(sink, store), [], ok)
      ensures ok ==> Settled(sink, store, state, scheduler, failure') && scheduler.stopping
      ensures ok ==> StoredLast(old(Now(sink, store)), Now(sink, store), Finish(s, Failed, exitStatus))
      ensures ok ==> state.steps == Marked(old(state.steps), s, Failed, exitStatus)
      ensures ok ==> SaysFailed(plan, old(sink.events), sink.events, state.Value())
      ensures failure' == if failure.Some? then failure else Some(BootstrapFailed(old(state.epoch), s, exitStatus))
      ensures !ok ==> Open(plan, sink.events)
    {
      ghost var before := Now(sink, store);
      failure' := if failure.Some? then failure else Some(BootstrapFailed(state.epoch, s, exitStatus));
      FailKeepsUnderway(plan, state.Value(), scheduler.running, scheduler.stopping, failure, failure'.value,
                        sink.events, s, exitStatus);
      ok := SaveOutcome(sink, store, state, s, Failed, exitStatus, tasks);
      if !ok {
        return;
      }
      ok := ReportFailed(sink, store, state, before, tasks);
      if !ok {
        return;
      }
      scheduler.Stop();
    }

    /** A step that ended with exit status zero, in time, becomes passed; any other end makes it failed. */
    method FinishStep(sink: Sink, store: Store, state: BootstrapState, scheduler: Scheduler, event: TaskEvent,
                      failure: Option<Event>, ghost tasks: seq<TaskEvent>)
      returns (ok: bool, failure': Option<Event>)
      requires Settled(sink, store, state, scheduler, failure) && event in tasks
      requires event.Finished? && event.step in scheduler.running
      modifies sink, store, state, scheduler
      ensures store.Valid(planHash) && Reacts(Work(tasks), old(Now(sink, store)), Now(sink, store), event, ok)
      ensures ok ==> Settled(sink, store, state, scheduler, failure')
      ensures ok ==>
        state.steps == Marked(old(state.steps), event.step,
                              if event.exitStatus == 0 && !event.timedOut then Passed else Failed, event.exitStatus)
      ensures ok ==> if event.exitStatus == 0 && !event.timedOut
        then SaysPassed(plan, old(sink.events), sink.events, state.Value(), event.step)
        else SaysFailed(plan, old(sink.events), sink.events, state.Value())
      ensures failure' == FailureAfter(failure, event, old(state.epoch))
      ensures !ok ==> Open(plan, sink.events)
    {
      failure' := failure;
      TaskReports(tasks, event);
      scheduler.MarkFinished(event.step);
      if event.exitStatus == 0 && !event.timedOut {
        ok := FinishPassedStep(sink, store, state, scheduler, event.step, failure, tasks);
      } else {
        ok, failure' := FinishFailedStep(sink, store, state, scheduler, event.step, event.exitStatus, failure, tasks);
      }
    }

    /** Output is forwarded and changes nothing else; the end of a step is stored; a step that broke ends the run. */
    method HandleTaskEvent(sink: Sink, store: Store, state: BootstrapState, scheduler: Scheduler, event: TaskEvent,
                           failure: Option<Event>, ghost tasks: seq<TaskEvent>)
      returns (ok: bool, failure': Option<Event>)
      requires Settled(sink, store, state, scheduler, failure) && event in tasks
      requires !event.Message? ==> event.step in scheduler.running
      modifies sink, store, state, scheduler
      ensures store.Valid(planHash) && Reacts(Work(tasks), old(Now(sink, store)), Now(sink, store), event, ok)
      ensures ok ==> Settled(sink, store, state, scheduler, failure')
      ensures ok && event.Message? ==>
        sink.events == old(sink.events) + [StepOutput(event.text)] && state.Value() == old(state.Value())
      ensures ok && event.Finished? ==>
        state.steps == Marked(old(state.steps), event.step,
                              if event.exitStatus == 0 && !event.timedOut then Passed else Failed, event.exitStatus)
      ensures event.Broke? ==> !ok
      ensures failure' == FailureAfter(failure, event, old(state.epoch))
      ensures !ok ==> Open(plan, sink.events)
    {
      failure' := failure;
      match event {
        case Message(text) =>
          ok := ForwardOutput(sink, store, text, tasks);
        case Finished(_, _, _) =>
          ok, failure' := FinishStep(sink, store, state, scheduler, event, failure, tasks);
        case Broke(s) =>
          scheduler.MarkFinished(s);
          ok := false;
      }
    }

    method ForwardOutput(sink: Sink, store: Store, text: string, ghost tasks: seq<TaskEvent>) returns (ok: bool)
      requires Open(plan, sink.events) && store.log != []
      modifies sink
      ensures Goes(Work(tasks), old(Now(sink, store)), Now(sink, store), if ok then [text] else [], ok)
      ensures Open(plan, sink.events) && (ShowsFailed(sink.events) <==> ShowsFailed(old(sink.events)))
      ensures sink.events == if ok then old(sink.events) + [StepOutput(text)] else old(sink.events)
    {
      ghost var before := Now(sink, store);
      ok := EmitPlain(sink, StepOutput(text));
      OutputGoes(Work(tasks), before, Now(sink, store), text, ok);
    }

    /** Starts steps until none may start; it never stops short with nothing running and work left. */
    method StartReadySteps(sink: Sink, store: Store, state: BootstrapState, scheduler: Scheduler,
                           ghost failure: Option<Event>, ghost tasks: seq<TaskEvent>)
      returns (ok: bool)
      requires Settled(sink, store, state, scheduler, failure)
      modifies sink, store, state, scheduler`running
      ensures store.Valid(planHash) && OnlyStarts(Work(tasks), old(Now(sink, store)), Now(sink, store), ok)
      ensures ok ==> Settled(sink, store, state, scheduler, failure)
      ensures ok ==> NoneMayStart(plan, parallelism, state.steps)
      ensures ok && !scheduler.stopping && !AllPassed(plan, state.steps) ==> scheduler.running != {}
      ensures !ok ==> Open(plan, sink.events)
    {
      ghost var before := Now(sink, store);
      GoesNowhere(Work(tasks), before);
      ok := true;
      var more := true;
      while ok && more && scheduler.CanStart()
        invariant store.Valid(planHash) && OnlyStarts(Work(tasks), before, Now(sink, store), ok)
        invariant ok ==> Settled(sink, store, state, scheduler, failure)
        invariant !ok ==> Open(plan, sink.events)
        invariant !more ==>
          forall i :: 0 <= i < |scheduler.steps| ==> !scheduler.Ready(scheduler.steps[i], state.steps)
        decreases ok, more, scheduler.maxParallelism - |scheduler.running|
      {
        ok, more := StartNext(sink, store, state, scheduler, failure, tasks, before);
      }
      SameStepsSamePassed(plan, scheduler.steps, state.steps);
      if ok {
        NothingLeftToStart(scheduler, state.steps);
        if !scheduler.stopping && !AllPassed(plan, state.steps) && scheduler.running == {} {
          scheduler.DrainedFindsAStep(state.steps);
        }
      }
    }

    /** Starts the first step the scheduler offers, if any. */
    method StartNext(sink: Sink, store: Store, state: BootstrapState, scheduler: Scheduler,
                     ghost failure: Option<Event>, ghost tasks: seq<TaskEvent>, ghost before: Past)
      returns (ok: bool, more: bool)
      requires Settled(sink, store, state, scheduler, failure)
      requires scheduler.CanStart() && OnlyStarts(Work(tasks), before, Now(sink, store), true)
      modifies sink, store, state, scheduler`running
      ensures store.Valid(planHash) && OnlyStarts(Work(tasks), before, Now(sink, store), ok)
      ensures ok ==> Settled(sink, store, state, scheduler, failure)
      ensures !ok ==> Open(plan, sink.events)
      ensures !more ==>
        && scheduler.running == old(scheduler.running)
        && forall i :: 0 <= i < |scheduler.steps| ==> !scheduler.Ready(scheduler.steps[i], state.steps)
      ensures ok && more ==> |scheduler.running| > |old(scheduler.running)|
    {
      ok, more := true, true;
      var step := scheduler.NextReady(state.steps);
      if step.None? {
        more := false;
      } else {
        ghost var was := Now(sink, store);
        OfferedMayStart(scheduler, state.steps, step.value);
        ok := StartStep(sink, store, state, scheduler, step.value, failure, tasks);
        StartsOn(Work(tasks), before, was, Now(sink, store), ok);
      }
    }

    /** All that can be started between two task events. */
    method StartRound(sink: Sink, store: Store, state: BootstrapState, scheduler: Scheduler,
                      ghost failure: Option<Event>, ghost tasks: seq<TaskEvent>, ghost k: nat, ghost before: Past,
                      ghost when: seq<nat>)
      returns (ok: bool)
      requires Settled(sink, store, state, scheduler, failure)
      requires k <= |tasks| && Acted(Work(tasks), before, Now(sink, store), k, when)
      modifies sink, store, state, scheduler`running
      ensures store.Valid(planHash)
      ensures ok ==> Settled(sink, store, state, scheduler, failure) && NoneMayStart(plan, parallelism, state.steps)
      ensures ok && !scheduler.stopping && !AllPassed(plan, state.steps) ==> scheduler.running != {}
      ensures ok ==> Acted(Work(tasks), before, Now(sink, store), k, when)
      ensures !ok ==> Open(plan, sink.events) && Works(Work(tasks), before, Now(sink, store), false, k)
    {
      ghost var was := Now(sink, store);
      ok := StartReadySteps(sink, store, state, scheduler, failure, tasks);
      StartsGo(Work(tasks), before, was, Now(sink, store), k, when, ok);
    }

    ghost predicate Agree(scheduler: Scheduler, steps: StepRecords)
      reads scheduler
    {
      && Fits(scheduler) && (scheduler.stopping <==> SomeFailed(steps)) && OnlyRunning(steps, scheduler.running)
      && forall s :: s in scheduler.running ==> HasStatus(steps, s, Running)
    }

    lemma {:induction false} OfferedMayStart(scheduler: Scheduler, steps: StepRecords, step: Step)
      requires Agree(scheduler, steps) && scheduler.CanStart() && step in scheduler.steps
      requires scheduler.Ready(step, steps)
      ensures MayStart(plan, parallelism, steps, step)
    {
      assert scheduler.running == RunningOf(steps);
      scheduler.ReadyIffMayStart(plan, step, steps);
    }

    lemma {:induction false} NothingLeftToStart(scheduler: Scheduler, steps: StepRecords)
      requires Agree(scheduler, steps)
      requires !scheduler.CanStart()
        || forall i :: 0 <= i < |scheduler.steps| ==> !scheduler.Ready(scheduler.steps[i], steps)
      ensures NoneMayStart(plan, parallelism, steps)
    {
      assert scheduler.running == RunningOf(steps);
      forall step | step in plan
        ensures !MayStart(plan, parallelism, steps, step)
      {
        SameStepsSameMembers(plan, scheduler.steps, step);
        scheduler.ReadyIffMayStart(plan, step, steps);
      }
    }

    /** Forwards the output that is still waiting when the steps have ended. */
    method DrainMessages(sink: Sink, tasks: seq<TaskEvent>) returns (ok: bool, ghost done: nat)
      requires Open(plan, sink.events)
      modifies sink
      ensures Open(plan, sink.events) && (ShowsFailed(sink.events) <==> ShowsFailed(old(sink.events)))
      ensures done <= |tasks| && sink.events == old(sink.events) + Forwarded(tasks[..done])
      ensures Took(old(sink.answers), sink.answers, true, ok) && (ok ==> done == |tasks|)
    {
      ghost var was, answers := sink.events, sink.answers;
      TookNone(answers, true);
      ok, done := true, 0;
      var k := 0;
      assert was + [] == was;
      while k < |tasks| && ok
        invariant done <= k <= |tasks| && (ok ==> done == k)
        invariant Open(plan, sink.events) && (ShowsFailed(sink.events) <==> ShowsFailed(was))
        invariant sink.events == was + Forwarded(tasks[..done]) && Took(answers, sink.answers, true, ok)
      {
        ForwardsNext(was, tasks, k);
        if tasks[k].Message? {
          ghost var between := sink.answers;
          ok := EmitPlain(sink, StepOutput(tasks[k].text));
          TookOn(answers, between, sink.answers, true, ok);
        }
        k := k + 1;
        done := if ok then k else done;
      }
    }

    /** The events of tasks that are left after the last step has ended. */
    method DrainRest(sink: Sink, store: Store, tasks: seq<TaskEvent>, k: nat, ghost before: Past, ghost when: seq<nat>)
      returns (ok: bool, ghost heard: nat)
      requires Open(plan, sink.events) && store.log != [] && Acted(Work(tasks), before, Now(sink, store), k, when)
      modifies sink
      ensures Open(plan, sink.events) && (ShowsFailed(sink.events) <==> ShowsFailed(old(sink.events)))
      ensures Works(Work(tasks), before, Now(sink, store), ok, heard)
    {
      ghost var was, done := Now(sink, store), 0;
      ok, done := DrainMessages(sink, tasks[k..]);
      heard := k + done;
      assert tasks[k..][..done] == tasks[k..k + done];
      ForwardedGoes(Work(tasks), was, Now(sink, store), tasks[k..k + done], ok);
      DrainWorks(Work(tasks), before, was, Now(sink, store), k, when, done, ok);
    }

    /** Acts on the next task event; one for a step that is not running has no task behind it. */
    method TakeEvent(sink: Sink, store: Store, state: BootstrapState, scheduler: Scheduler, tasks: seq<TaskEvent>,
                     k: nat, failure: Option<Event>, ghost before: Past, ghost when: seq<nat>)
      returns (ok: bool, failure': Option<Event>)
      requires Settled(sink, store, state, scheduler, failure)
      requires k < |tasks| && NoneMayStart(plan, parallelism, state.steps)
      requires Acted(Work(tasks), before, Now(sink, store), k, when)
      modifies sink, store, state, scheduler
      ensures store.Valid(planHash)
      ensures ok ==> Settled(sink, store, state, scheduler, failure')
      ensures ok ==> Acted(Work(tasks), before, Now(sink, store), k + 1, when + [|old(store.log)|])
      ensures !ok ==> Open(plan, sink.events) && Works(Work(tasks), before, Now(sink, store), false, k)
    {
      ghost var was := Now(sink, store);
      ghost var acted := tasks[k].Message? || tasks[k].step in scheduler.running;
      ok, failure' := true, failure;
      if tasks[k].Message? || tasks[k].step in scheduler.running {
        ok, failure' := HandleTaskEvent(sink, store, state, scheduler, tasks[k], failure, tasks);
      }
      TurnGoes(Work(tasks), before, was, Now(sink, store), k, when, acted, ok);
    }

    lemma {:induction false} StillRunning(scheduler: Scheduler, steps: StepRecords)
      requires scheduler.running != {} && forall s :: s in scheduler.running ==> HasStatus(steps, s, Running)
      ensures RunningOf(steps) != {}
    {
      var s :| s in scheduler.running;
      assert s in RunningOf(steps);
    }

    /**
     * Runs steps until all have passed, or one has failed and the others have ended, or the process ends. All output
     * is forwarded, and without a bad answer the run stops early only when it has to.
     */
    method RunSteps(sink: Sink, store: Store, state: BootstrapState, scheduler: Scheduler, tasks: seq<TaskEvent>)
      returns (r: RunStatus, ghost heard: nat)
      requires Settled(sink, store, state, scheduler, None)
      modifies sink, store, state, scheduler
      ensures store.Valid(planHash) && Open(plan, sink.events)
      ensures Works(Work(tasks), old(Now(sink, store)), Now(sink, store), !r.Aborted?, heard)
      ensures !r.Aborted? ==> EndsSteps(sink, store, state, r)
    {
      ghost var before := Now(sink, store);
      ghost var when: seq<nat> := [];
      ActedOnNothing(Work(tasks), before);
      var failure: Option<Event> := None;
      var k := 0;
      var more := true;
      r, heard := Aborted, 0;
      while more
        invariant k <= |tasks| && store.Valid(planHash)
        invariant if more then
            Settled(sink, store, state, scheduler, failure) && Acted(Work(tasks), before, Now(sink, store), k, when)
          else Open(plan, sink.events) && Works(Work(tasks), before, Now(sink, store), !r.Aborted?, heard)
        invariant !more && !r.Aborted? ==> EndsSteps(sink, store, state, r)
        decreases more, |tasks| - k
      {
        more := StartRound(sink, store, state, scheduler, failure, tasks, k, before, when);
        r, heard := Aborted, k;
        if more {
          ghost var n := |store.log|;
          more, failure, r, heard := NextRound(sink, store, state, scheduler, tasks, k, failure, before, when);
          when, k := if more then when + [n] else when, if more then k + 1 else k;
        }
      }
    }

    /** Nothing runs any more, and the status tells how it came. */
    ghost predicate EndsSteps(sink: Sink, store: Store, state: BootstrapState, r: RunStatus)
      reads sink, store, state
    {
      && store.Current(planHash) == state.Value() && OnlyRunning(state.steps, {})
      && (r.Completed? ==> AllPassed(plan, state.steps) && !ShowsFailed(sink.events))
      && (r.StepFailed? ==> Recalls(Some(r.failure), state.Value()) && HasStatus(state.steps, r.failure.step, Failed))
    }

    /** Ends the steps, or acts on the next task event. */
    method NextRound(sink: Sink, store: Store, state: BootstrapState, scheduler: Scheduler, tasks: seq<TaskEvent>,
                     k: nat, failure: Option<Event>, ghost before: Past, ghost when: seq<nat>)
      returns (more: bool, failure': Option<Event>, r: RunStatus, ghost heard: nat)
      requires Settled(sink, store, state, scheduler, failure)
      requires k <= |tasks| && NoneMayStart(plan, parallelism, state.steps)
      requires !scheduler.stopping && !AllPassed(plan, state.steps) ==> scheduler.running != {}
      requires Acted(Work(tasks), before, Now(sink, store), k, when)
      modifies sink, store, state, scheduler
      ensures store.Valid(planHash)
      ensures more ==>
        && k < |tasks| && Settled(sink, store, state, scheduler, failure')
        && Acted(Work(tasks), before, Now(sink, store), k + 1, when + [|old(store.log)|])
      ensures !more ==> Open(plan, sink.events) && Works(Work(tasks), before, Now(sink, store), !r.Aborted?, heard)
      ensures !more && !r.Aborted? ==> EndsSteps(sink, store, state, r)
    {
      more, failure', r, heard := false, failure, Aborted, k;
      SameStepsSamePassed(plan, scheduler.steps, state.steps);
      if AllPassed(scheduler.steps, state.steps) {
        AllPassedNoneFailed(plan, state.steps);
        var ok;
        ok, heard := DrainRest(sink, store, tasks, k, before, when);
        r := if ok then Completed else Aborted;
      } else if scheduler.running == {} {
        if !scheduler.stopping {
          // The error for a scheduler without runnable steps would be reported here.
          assert false;
        }
        var ok;
        ok, heard := DrainRest(sink, store, tasks, k, before, when);
        r := if ok then StepFailed(failure.value) else Aborted;
      } else if k == |tasks| {
        StillRunning(scheduler, state.steps);
        StopsStuck(Work(tasks), before, Now(sink, store), k, when);
      } else {
        more, failure' := TakeEvent(sink, store, state, scheduler, tasks, k, failure, before, when);
      }
    }

    // ---- A whole run ----

    /**
     * A plan that has no order is refused before anything is loaded. Any other run, from whatever was stored, moves
     * the stored state on, and if it returns normally its events end with the one terminal event, which tells whether
     * all steps of the plan have passed or which step failed. What is stored has its cause, all that tasks report is
     * acted on and forwarded, and a run is cut off only when it has to be.
     */
    method Run(store: Store, sink: Sink, tasks: seq<TaskEvent>) returns (r: RunOutcome)
      requires store.Valid(planHash) && sink.events == []
      modifies store, sink
      ensures store.Valid(planHash) && MovesOn(old(store.log), old(store.starts), store.log, store.starts)
      ensures r.PlanRefused? <==> !Orderable(plan)
      ensures r.PlanRefused? ==> Explains(plan, r.error) && Now(sink, store) == old(Now(sink, store))
      ensures !r.PlanRefused? ==>
        RunsFrom(Work(tasks), old(store.Current(planHash)), old(Now(sink, store)), Now(sink, store), r.Ended?)
      ensures sink.events != [] ==> Reports(sink.events[0], plan, old(store.Current(planHash)), LifecyclePending, None)
      ensures r.CutOff? ==> Open(plan, sink.events)
      ensures r.Ended? ==> Closed(plan, sink.events) && EndsTruly(sink.events, store.Current(planHash))
    {
      var ordered := OrderedSteps(plan);
      if ordered.Err? {
        return PlanRefused(ordered.error);
      }
      var scheduler := new Scheduler(ordered.value, parallelism);
      var state := store.Load(planHash);
      var ok := RunState(store, sink, state, scheduler, tasks);
      r := if ok then Ended else CutOff;
    }

    /** The last status is what is stored. In the end all steps have passed, or the one named has failed as it says. */
    ghost predicate EndsTruly(events: seq<Event>, st: State) {
      && |events| >= 2
      && var last := events[|events| - 1];
        if last.BootstrapFailed? then
          && HasStatus(st.steps, last.step, Failed) && last == FailureOf(st, last.step)
          && Reports(events[|events| - 2], plan, st, LifecycleFailed, None)
        else
          && AllPassed(plan, st.steps) && Reports(events[|events| - 2], plan, st, LifecyclePassed, None)
          && last == BootstrapFinished(st.epoch)
    }

    method RunState(store: Store, sink: Sink, state: BootstrapState, scheduler: Scheduler, tasks: seq<TaskEvent>)
      returns (ok: bool)
      requires store.Valid(planHash) && store.Current(planHash) == state.Value() && sink.events == []
      requires Fits(scheduler) && scheduler.running == {} && !scheduler.stopping
      modifies store, sink, state, scheduler
      ensures store.Valid(planHash) && MovesOn(old(store.log), old(store.starts), store.log, store.starts)
      ensures RunsFrom(Work(tasks), old(state.Value()), old(Now(sink, store)), Now(sink, store), ok)
      ensures sink.events != [] ==> Reports(sink.events[0], plan, old(state.Value()), LifecyclePending, None)
      ensures !ok ==> Open(plan, sink.events)
      ensures ok ==> Closed(plan, sink.events) && EndsTruly(sink.events, store.Current(planHash))
    {
      ghost var before := Now(sink, store);
      ok := SayPending(store, sink, state, tasks);
      if !ok {
        return;
      }
      ok := RunFound(store, sink, state, scheduler, tasks, before);
    }

    /** What is found is said first. */
    method SayPending(store: Store, sink: Sink, state: BootstrapState, ghost tasks: seq<TaskEvent>) returns (ok: bool)
      requires store.log != [] && sink.events == []
      modifies sink
      ensures Open(plan, sink.events) && !ShowsFailed(sink.events)
      ensures if ok then Starting(Work(tasks), old(Now(sink, store)), Now(sink, store))
              else RunsFrom(Work(tasks), state.Value(), old(Now(sink, store)), Now(sink, store), false)
      ensures if ok then |sink.events| == 1 && Reports(sink.events[0], plan, state.Value(), LifecyclePending, None)
              else sink.events == []
    {
      ghost var before := Now(sink, store);
      ok := EmitStatus(sink, state, LifecyclePending, None);
      SayingGoes(Work(tasks), before, Now(sink, store), ok);
      if !ok {
        CutAtOnce(Work(tasks), state.Value(), before, Now(sink, store));
      }
    }

    /** The state that was found, after the first status. */
    method RunFound(store: Store, sink: Sink, state: BootstrapState, scheduler: Scheduler, tasks: seq<TaskEvent>,
                    ghost before: Past)
      returns (ok: bool)
      requires store.Valid(planHash) && store.Current(planHash) == state.Value()
      requires Open(plan, sink.events) && !ShowsFailed(sink.events)
      requires Fits(scheduler) && scheduler.running == {} && !scheduler.stopping
      requires Starting(Work(tasks), before, Now(sink, store))
      modifies store, sink, state, scheduler
      ensures store.Valid(planHash) && old(sink.events) <= sink.events
      ensures RunsFrom(Work(tasks), old(state.Value()), before, Now(sink, store), ok)
      ensures !ok ==> Open(plan, sink.events)
      ensures ok ==> Closed(plan, sink.events) && EndsTruly(sink.events, store.Current(planHash))
    {
      ghost var was, first := state.Value(), Now(sink, store);
      var ended := ReportExistingFailure(sink, state);
      if !ended.GoOn? {
        RepeatsFailure(Work(tasks), was, before, first, Now(sink, store), ended.RunEnded?);
        return ended.RunEnded?;
      }
      ok := RunUnfailed(store, sink, state, scheduler, tasks, before);
    }

    /** A state in which no step has failed. */
    method RunUnfailed(store: Store, sink: Sink, state: BootstrapState, scheduler: Scheduler, tasks: seq<TaskEvent>,
                       ghost before: Past)
      returns (ok: bool)
      requires store.Valid(planHash) && store.Current(planHash) == state.Value() && !SomeFailed(state.steps)
      requires Open(plan, sink.events) && !ShowsFailed(sink.events)
      requires Fits(scheduler) && scheduler.running == {} && !scheduler.stopping
      requires Starting(Work(tasks), before, Now(sink, store))
      modifies store, sink, state, scheduler
      ensures store.Valid(planHash) && old(sink.events) <= sink.events
      ensures RunsFrom(Work(tasks), old(state.Value()), before, Now(sink, store), ok)
      ensures !ok ==> Open(plan, sink.events)
      ensures ok ==> Closed(plan, sink.events) && EndsTruly(sink.events, store.Current(planHash))
    {
      ghost var was, first := state.Value(), Now(sink, store);
      RunningOfIsEmpty(was.steps);
      var ended, _ := MarkInterruptedStep(sink, store, state);
      if !ended.GoOn? {
        EndsInterrupted(Work(tasks), was, before, first, Now(sink, store), ended.RunEnded?);
        return ended.RunEnded?;
      }
      ok := RunToEnd(sink, store, state, scheduler, tasks, before);
    }

    method EndPassed(sink: Sink, state: BootstrapState) returns (ok: bool)
      requires Open(plan, sink.events) && !ShowsFailed(sink.events)
      modifies sink
      ensures Took(old(sink.answers), sink.answers, true, ok)
      ensures old(sink.events) <= sink.events && Quiet(sink.events, |old(sink.events)|)
      ensures !ok ==> Open(plan, sink.events)
      ensures ok ==> Closed(plan, sink.events)
      ensures ok ==> EndsWith(sink.events, state.Value(), LifecyclePassed, BootstrapFinished(state.epoch))
    {
      ghost var before := sink.answers;
      ok := EmitStatus(sink, state, LifecyclePassed, None);
      if ok {
        ghost var between := sink.answers;
        OpenCloses(plan, sink.events, BootstrapFinished(state.epoch));
        ok := sink.Emit(BootstrapFinished(state.epoch));
        TookOn(before, between, sink.answers, true, ok);
      }
    }

    method RunToEnd(sink: Sink, store: Store, state: BootstrapState, scheduler: Scheduler, tasks: seq<TaskEvent>,
                    ghost before: Past)
      returns (ok: bool)
      requires Settled(sink, store, state, scheduler, None)
      requires Goes(Work(tasks), before, Now(sink, store), [], true) && before.log == store.log
      modifies sink, store, state, scheduler
      ensures store.Valid(planHash)
      ensures exists heard: nat :: Works(Work(tasks), before, Now(sink, store), ok, heard)
      ensures old(sink.events) <= sink.events
      ensures !ok ==> Open(plan, sink.events)
      ensures ok ==> Closed(plan, sink.events) && EndsTruly(sink.events, store.Current(planHash))
    {
      ghost var start := Now(sink, store);
      var status;
      ghost var heard;
      status, heard := RunSteps(sink, store, state, scheduler, tasks);
      ghost var middle := Now(sink, store);
      WorksAfter(Work(tasks), before, start, middle, !status.Aborted?, heard);
      match status {
        case Completed =>
          ok := EndPassed(sink, state);
          WorksToEnd(Work(tasks), before, middle, Now(sink, store), heard, ok);
        case StepFailed(failure) =>
          var ended := EndFailed(sink, state, failure);
          ok := ended.RunEnded?;
          WorksToEnd(Work(tasks), before, middle, Now(sink, store), heard, ok);
        case Aborted =>
          ok := false;
      }
    }

    method OneRun(store: Store, sinkAnswers: seq<bool>, tasks: seq<TaskEvent>)
      requires store.Valid(planHash)
      modifies store
      ensures store.Valid(planHash) && MovesOn(old(store.log), old(store.starts), store.log, store.starts)
      ensures StartsEntitled(plan, parallelism, store.log, |old(store.log)|)
    {
      var sink := new Sink(sinkAnswers);
      ghost var before, was := Now(sink, store), store.Current(planHash);
      var r := Run(store, sink, tasks);
      if !r.PlanRefused? {
        RunStartsEntitled(Work(tasks), was, before, Now(sink, store), r.Ended?);
      }
    }

    /**
     * Any sequence of runs and retries, each cut off anywhere. Every stored state is one allowed change away from the
     * one before. Between any two of them, each start is one more attempt of its step, a step that had passed stays
     * passed and is not started again, and a step is started at most once in an epoch. The epoch moves by one with
     * each stored retry, which needs a running or failed step, and never otherwise. Whenever a step was started, none
     * had failed, its dependencies had passed, and the steps running beside it were few enough and shared no resource.
     */
    method History(store: Store, actions: seq<Action>)
      requires store.Valid(planHash)
      modifies store
      ensures store.Valid(planHash) && old(store.log) <= store.log && old(store.starts) <= store.starts
      ensures Chain(store.log, store.starts) && StartsEntitled(plan, parallelism, store.log, |old(store.log)|)
      ensures var was, retries := old(store.Current(planHash)), Retries(store.log[|old(store.log)|..]);
        && store.Current(planHash).epoch == was.epoch + retries && retries <= Requests(actions)
        && forall s :: Count(store.starts[|old(store.starts)|..], s) <= retries + 1 - Busy(was.steps, s)
    {
      ghost var log, starts := store.log, store.starts;
      for i := 0 to |actions|
        invariant store.Valid(planHash) && log <= store.log && starts <= store.starts
        invariant StartsEntitled(plan, parallelism, store.log, |log|)
        invariant store.Current(planHash).epoch <= log[|log| - 1].state.epoch + Requests(actions[..i])
      {
        assert actions[..i + 1][..i] == actions[..i];
        ghost var was := store.log;
        match actions[i] {
          case RunAction(sinkAnswers, tasks) =>
            OneRun(store, sinkAnswers, tasks);
          case RetryAction(epoch) =>
            var _, _ := PrepareRetry(store, epoch);
        }
        StartsEntitledOn(plan, parallelism, was, store.log, |log|);
      }
      assert actions[..|actions|] == actions;
      HistoryCounts(log, starts, store.log, store.starts);
    }
  }

  /** How many of the actions ask for a retry. */
  function Requests(actions: seq<Action>): nat
    decreases |actions|
  {
    if actions == [] then 0
    else Requests(actions[..|actions| - 1]) + if actions[|actions| - 1].RetryAction? then 1 else 0
  }

  /** From one end of a history to the other, retries raise the epoch, and starts are few. */
  lemma {:induction false} HistoryCounts(log: seq<Entry>, starts: seq<StepId>, log': seq<Entry>, starts': seq<StepId>)
    requires log != [] && log <= log' && starts <= starts' && Chain(log', starts')
    requires log[|log| - 1].at == |starts| && log'[|log'| - 1].at == |starts'|
    ensures var was, now, retries := log[|log| - 1].state, log'[|log'| - 1].state, Retries(log'[|log|..]);
      && now.epoch == was.epoch + retries
      && forall s :: Count(starts'[|starts|..], s) <= retries + 1 - Busy(was.steps, s)
  {
    var i, j := |log| - 1, |log'| - 1;
    EpochCountsRetries(log', starts', i, j);
    assert log'[i + 1..j + 1] == log'[|log|..];
    assert log'[i] == log[i] && Between(log', starts', i, j);
    assert starts'[|starts|..|starts'|] == starts'[|starts|..];
  }

  /** A step may start while none has failed. */
  lemma {:induction false} StartKeepsUnderway(plan: seq<Step>, steps: StepRecords, running: set<StepId>,
                                              failure: Option<Event>, events: seq<Event>, s: StepId)
    requires Underway(plan, steps, running, false, failure, events) && InPlan(plan, s) && OnlyRunning(steps, running)
    ensures Underway(plan, Started(steps, s), running + {s}, false, failure, events)
    ensures OnlyRunning(Started(steps, s), running + {s})
    ensures Busy(steps, s) == 0 ==> |running + {s}| == |running| + 1
  {
  }

  lemma {:induction false} PassKeepsUnderway(plan: seq<Step>, st: State, running: set<StepId>, stopping: bool,
                                             failure: Option<Event>, events: seq<Event>, s: StepId)
    requires Underway(plan, st.steps, running, stopping, failure, events) && Recalls(failure, st)
    requires HasStatus(st.steps, s, Running) && s !in running && OnlyRunning(st.steps, running + {s})
    ensures var after := Marked(st.steps, s, Passed, 0);
      && Underway(plan, after, running, stopping, failure, events) && Recalls(failure, st.(steps := after))
      && OnlyRunning(after, running)
  {
    var after := Marked(st.steps, s, Passed, 0);
    if SomeFailed(st.steps) {
      var t :| HasStatus(st.steps, t, Failed);
      assert HasStatus(after, t, Failed);
    }
    assert forall t :: HasStatus(after, t, Failed) ==> HasStatus(st.steps, t, Failed);
  }

  lemma {:induction false} FailKeepsUnderway(plan: seq<Step>, st: State, running: set<StepId>, stopping: bool,
                                             failure: Option<Event>, failure': Event, events: seq<Event>, s: StepId,
                                             exitStatus: int)
    requires Underway(plan, st.steps, running, stopping, failure, events) && Recalls(failure, st)
    requires HasStatus(st.steps, s, Running) && s !in running && OnlyRunning(st.steps, running + {s}) && InPlan(plan, s)
    requires failure' == if failure.Some? then failure.value else BootstrapFailed(st.epoch, s, exitStatus)
    ensures var after := Marked(st.steps, s, Failed, exitStatus);
      && Underway(plan, after, running, true, Some(failure'), events) && Recalls(Some(failure'), st.(steps := after))
      && OnlyRunning(after, running)
  {
    assert HasStatus(Marked(st.steps, s, Failed, exitStatus), s, Failed);
  }

  lemma {:induction false} AllPassedNoneFailed(plan: seq<Step>, steps: StepRecords)
    requires AllPassed(plan, steps)
    ensures forall s :: InPlan(plan, s) ==> !HasStatus(steps, s, Failed)
  {
  }
}
