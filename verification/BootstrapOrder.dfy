/** The order in which the steps of a plan are considered. */
module BootstrapOrder {
  import opened BootstrapSchedulers
  import opened BootstrapStates
  import opened Wrappers

  datatype OrderError = DuplicateStep | UnknownDependency | SystemDependsOnUser | Cycle

  // ---- What a plan must be ----

  ghost predicate DistinctIds(plan: seq<Step>) {
    forall i, j :: 0 <= i < j < |plan| ==> plan[i].id != plan[j].id
  }

  ghost predicate KnownDependencies(plan: seq<Step>) {
    forall i, d :: 0 <= i < |plan| && 0 <= d < |plan[i].dependsOn| ==> InPlan(plan, plan[i].dependsOn[d])
  }

  ghost predicate SystemApart(plan: seq<Step>) {
    forall i, j :: 0 <= i < |plan| && 0 <= j < |plan| && plan[i].system && DependsOn(plan[i], plan[j].id) ==>
      plan[j].system
  }

  predicate DependsOn(step: Step, s: StepId) {
    exists d :: 0 <= d < |step.dependsOn| && step.dependsOn[d] == s
  }

  ghost predicate SomeOrder(plan: seq<Step>) {
    exists ordered: seq<Step> :: SameSteps(plan, ordered) && DependenciesFirst(ordered)
  }

  /** What a plan must be for its steps to have an order. */
  ghost predicate Orderable(plan: seq<Step>) {
    DistinctIds(plan) && KnownDependencies(plan) && SystemApart(plan) && SomeOrder(plan)
  }

  /** What is wrong with a plan that is refused. */
  ghost predicate Explains(plan: seq<Step>, e: OrderError) {
    match e
    case DuplicateStep => !DistinctIds(plan)
    case UnknownDependency => DistinctIds(plan) && !KnownDependencies(plan)
    case SystemDependsOnUser => DistinctIds(plan) && !SystemApart(plan)
    case Cycle => DistinctIds(plan) && KnownDependencies(plan) && SystemApart(plan) && !SomeOrder(plan)
  }

  // ---- Counting dependencies ----

  /** The dependencies not among those done, each as often as it is named. */
  function Unmet(deps: seq<StepId>, done: set<StepId>): nat {
    if deps == [] then 0 else (if deps[0] in done then 0 else 1) + Unmet(deps[1..], done)
  }

  lemma {:induction false} UnmetAtStart(deps: seq<StepId>)
    ensures Unmet(deps, {}) == |deps|
  {
    if deps != [] {
      UnmetAtStart(deps[1..]);
    }
  }

  lemma {:induction false} UnmetDrops(deps: seq<StepId>, done: set<StepId>, x: StepId)
    requires x !in done
    ensures Unmet(deps, done) == Unmet(deps, done + {x}) + Count(deps, x)
  {
    if deps != [] {
      UnmetDrops(deps[1..], done, x);
    }
  }

  lemma {:induction false} UnmetIsZero(deps: seq<StepId>, done: set<StepId>)
    ensures Unmet(deps, done) == 0 <==> forall d :: 0 <= d < |deps| ==> deps[d] in done
  {
    if deps != [] {
      UnmetIsZero(deps[1..], done);
      assert forall d :: 0 <= d < |deps| - 1 ==> deps[1..][d] == deps[d + 1];
    }
  }

  lemma {:induction false} CountIsPositive(deps: seq<StepId>, x: StepId)
    ensures Count(deps, x) > 0 <==> exists d :: 0 <= d < |deps| && deps[d] == x
  {
    if deps != [] {
      CountIsPositive(deps[1..], x);
      if Count(deps[1..], x) > 0 {
        var d :| 0 <= d < |deps| - 1 && deps[1..][d] == x;
        assert deps[d + 1] == x;
      }
      if d :| 0 < d < |deps| && deps[d] == x {
        assert deps[1..][d - 1] == x;
      }
    }
  }

  lemma {:induction false} CountOneMore(s: seq<StepId>, x: StepId, y: StepId)
    ensures Count(s + [x], y) == Count(s, y) + if x == y then 1 else 0
  {
    CountAppends(s, [x], y);
    assert [x][1..] == [];
  }

  /** How often the steps of a plan with this identifier name a dependency. */
  function Wants(plan: seq<Step>, s: StepId, x: StepId): nat {
    if plan == [] then 0
    else
      var last := plan[|plan| - 1];
      Wants(plan[..|plan| - 1], s, x) + if last.id == s then Count(last.dependsOn, x) else 0
  }

  lemma {:induction false} WantsOfNone(plan: seq<Step>, s: StepId, x: StepId)
    requires forall i :: 0 <= i < |plan| ==> plan[i].id != s
    ensures Wants(plan, s, x) == 0
    decreases |plan|
  {
    if plan != [] {
      WantsOfNone(plan[..|plan| - 1], s, x);
    }
  }

  lemma {:induction false} WantsOfOne(plan: seq<Step>, k: nat, x: StepId)
    requires DistinctIds(plan) && k < |plan|
    ensures Wants(plan, plan[k].id, x) == Count(plan[k].dependsOn, x)
    decreases |plan|
  {
    var front := plan[..|plan| - 1];
    if k < |front| {
      WantsOfOne(front, k, x);
    } else {
      WantsOfNone(front, plan[k].id, x);
    }
  }

  // ---- Tables ----

  /** The steps by identifier; None when two share one. */
  method StepsById(plan: seq<Step>) returns (r: Option<map<StepId, Step>>)
    ensures r.Some? <==> DistinctIds(plan)
    ensures r.Some? ==> IsTable(plan, r.value)
  {
    var byId: map<StepId, Step> := map[];
    for i := 0 to |plan|
      invariant DistinctIds(plan[..i]) && IsTable(plan[..i], byId)
    {
      if plan[i].id in byId {
        assert plan[..i][..] == plan[..i];
        return None;
      }
      byId := byId[plan[i].id := plan[i]];
      assert plan[..i + 1] == plan[..i] + [plan[i]];
    }
    assert plan[..|plan|] == plan;
    r := Some(byId);
  }

  ghost predicate IsTable(plan: seq<Step>, byId: map<StepId, Step>) {
    && (forall i :: 0 <= i < |plan| ==> plan[i].id in byId && byId[plan[i].id] == plan[i])
    && (forall s :: s in byId ==> InPlan(plan, s))
  }

  type Dependents = map<StepId, seq<StepId>>

  function Of(dependents: Dependents, x: StepId): seq<StepId> {
    if x in dependents then dependents[x] else []
  }

  /** Each step is listed under a dependency as often as it names it. */
  ghost predicate Lists(dependents: Dependents, plan: seq<Step>) {
    forall x, s :: Count(Of(dependents, x), s) == Wants(plan, s, x)
  }

  /** The same while the step behind those of `plan` has had some of its dependencies listed. */
  ghost predicate ListsPartly(dependents: Dependents, plan: seq<Step>, step: Step, d: nat)
    requires d <= |step.dependsOn|
  {
    forall x, s :: Count(Of(dependents, x), s)
      == Wants(plan, s, x) + if s == step.id then Count(step.dependsOn[..d], x) else 0
  }

  lemma {:induction false} ListOneMore(dependents: Dependents, plan: seq<Step>, step: Step, d: nat)
    requires d < |step.dependsOn| && ListsPartly(dependents, plan, step, d)
    ensures var x := step.dependsOn[d];
      ListsPartly(dependents[x := Of(dependents, x) + [step.id]], plan, step, d + 1)
  {
    var dep := step.dependsOn[d];
    var after := dependents[dep := Of(dependents, dep) + [step.id]];
    assert step.dependsOn[..d + 1] == step.dependsOn[..d] + [dep];
    forall x, s
      ensures Count(Of(after, x), s)
           == Wants(plan, s, x) + if s == step.id then Count(step.dependsOn[..d + 1], x) else 0
    {
      CountOneMore(Of(dependents, dep), step.id, s);
      CountOneMore(step.dependsOn[..d], dep, x);
    }
  }

  lemma {:induction false} ListWhole(dependents: Dependents, plan: seq<Step>, i: nat)
    requires i < |plan| && ListsPartly(dependents, plan[..i], plan[i], |plan[i].dependsOn|)
    ensures Lists(dependents, plan[..i + 1])
  {
    var step := plan[i];
    assert step.dependsOn[..|step.dependsOn|] == step.dependsOn;
    assert plan[..i + 1][..i] == plan[..i] && plan[..i + 1][i] == step;
  }

  /** Whether the dependencies of a step are known, and system steps where the step is one. */
  ghost predicate Sound(byId: map<StepId, Step>, step: Step, d: nat)
    requires d <= |step.dependsOn|
  {
    forall e :: 0 <= e < d ==>
      step.dependsOn[e] in byId && (step.system ==> byId[step.dependsOn[e]].system)
  }

  lemma {:induction false} SoundPlan(plan: seq<Step>, byId: map<StepId, Step>)
    requires IsTable(plan, byId)
    ensures (forall i :: 0 <= i < |plan| ==> Sound(byId, plan[i], |plan[i].dependsOn|)) <==>
      KnownDependencies(plan) && SystemApart(plan)
  {
    if forall i :: 0 <= i < |plan| ==> Sound(byId, plan[i], |plan[i].dependsOn|) {
      forall i, d | 0 <= i < |plan| && 0 <= d < |plan[i].dependsOn|
        ensures InPlan(plan, plan[i].dependsOn[d])
      {
        assert Sound(byId, plan[i], |plan[i].dependsOn|);
      }
      forall i, j | 0 <= i < |plan| && 0 <= j < |plan| && plan[i].system && DependsOn(plan[i], plan[j].id)
        ensures plan[j].system
      {
        assert Sound(byId, plan[i], |plan[i].dependsOn|);
      }
    }
    if KnownDependencies(plan) && SystemApart(plan) {
      forall i, e | 0 <= i < |plan| && 0 <= e < |plan[i].dependsOn|
        ensures plan[i].dependsOn[e] in byId && (plan[i].system ==> byId[plan[i].dependsOn[e]].system)
      {
        assert InPlan(plan, plan[i].dependsOn[e]);
        var j :| 0 <= j < |plan| && plan[j].id == plan[i].dependsOn[e];
        assert DependsOn(plan[i], plan[j].id);
      }
    }
  }

  lemma {:induction false} NotApart(plan: seq<Step>, byId: map<StepId, Step>, i: nat, d: nat)
    requires IsTable(plan, byId) && i < |plan| && d < |plan[i].dependsOn| && plan[i].dependsOn[d] in byId
    requires plan[i].system && !byId[plan[i].dependsOn[d]].system
    ensures !SystemApart(plan)
  {
    var s := plan[i].dependsOn[d];
    assert InPlan(plan, s);
    var j :| 0 <= j < |plan| && plan[j].id == s;
    assert byId[plan[j].id] == plan[j] && DependsOn(plan[i], plan[j].id);
  }

  /** Lists every step under each of its dependencies, or finds one that must not be there. */
  method CollectDependents(plan: seq<Step>, byId: map<StepId, Step>) returns (r: Result<Dependents, OrderError>)
    requires IsTable(plan, byId)
    ensures r.Ok? <==> KnownDependencies(plan) && SystemApart(plan)
    ensures r.Ok? ==> Lists(r.value, plan)
    ensures r.Err? && DistinctIds(plan) ==> Explains(plan, r.error)
  {
    SoundPlan(plan, byId);
    var dependents: Dependents := map[];
    for i := 0 to |plan|
      invariant Lists(dependents, plan[..i])
      invariant forall k :: 0 <= k < i ==> Sound(byId, plan[k], |plan[k].dependsOn|)
    {
      var step := plan[i];
      for d := 0 to |step.dependsOn|
        invariant ListsPartly(dependents, plan[..i], step, d) && Sound(byId, step, d)
      {
        var dependency := step.dependsOn[d];
        if dependency !in byId {
          assert !Sound(byId, plan[i], |plan[i].dependsOn|);
          assert !InPlan(plan, plan[i].dependsOn[d]);
          return Err(UnknownDependency);
        }
        if step.system && !byId[dependency].system {
          assert !Sound(byId, plan[i], |plan[i].dependsOn|);
          NotApart(plan, byId, i, d);
          return Err(SystemDependsOnUser);
        }
        ListOneMore(dependents, plan[..i], step, d);
        dependents := dependents[dependency := Of(dependents, dependency) + [step.id]];
      }
      ListWhole(dependents, plan, i);
    }
    assert plan[..|plan|] == plan;
    r := Ok(dependents);
  }

  // ---- Ordering ----

  /** System steps come first, and by identifier among themselves. */
  predicate ComesFirst(a: Step, b: Step) {
    if a.system == b.system then a.id <= b.id else a.system
  }

  /** A step that is not among these, and all it depends on is. */
  ghost predicate IsNext(front: seq<Step>, step: Step) {
    !InPlan(front, step.id) && forall d :: 0 <= d < |step.dependsOn| ==> InPlan(front, step.dependsOn[d])
  }

  /** At each place stands the first of the steps that could stand there: no other order has this property. */
  ghost predicate Greedy(plan: seq<Step>, ordered: seq<Step>) {
    forall k, step :: 0 <= k < |ordered| && step in plan && IsNext(ordered[..k], step) ==> ComesFirst(ordered[k], step)
  }

  ghost predicate IsOrderOf(plan: seq<Step>, ordered: seq<Step>) {
    SameSteps(plan, ordered) && DistinctIds(ordered) && DependenciesFirst(ordered) && Greedy(plan, ordered)
  }

  lemma {:induction false} EachIsNext(ordered: seq<Step>, k: nat)
    requires DistinctIds(ordered) && DependenciesFirst(ordered) && k < |ordered|
    ensures IsNext(ordered[..k], ordered[k])
  {
    var front := ordered[..k];
    forall d | 0 <= d < |ordered[k].dependsOn|
      ensures InPlan(front, ordered[k].dependsOn[d])
    {
      var j := EarlierDependency(ordered, k, d);
      assert front[j].id == ordered[k].dependsOn[d];
    }
  }

  lemma {:induction false} GreedyAt(plan: seq<Step>, ordered: seq<Step>, k: nat, step: Step)
    requires Greedy(plan, ordered) && k < |ordered| && step in plan && IsNext(ordered[..k], step)
    ensures ComesFirst(ordered[k], step)
  {
  }

  lemma {:induction false} SameNext(p: seq<Step>, q: seq<Step>, a: seq<Step>, b: seq<Step>, k: nat)
    requires SameSteps(p, q) && IsOrderOf(p, a) && IsOrderOf(q, b) && k < |a| == |b| && a[..k] == b[..k]
    ensures a[k] == b[k]
  {
    EachIsNext(a, k);
    EachIsNext(b, k);
    var x, y := a[k], b[k];
    assert x in multiset(a) && y in multiset(b);
    SameStepsSameMembers(q, a, x);
    SameStepsSameMembers(p, b, y);
    GreedyAt(p, a, k, y);
    GreedyAt(q, b, k, x);
    SameIdSameStep(a, x, y);
  }

  /** However a plan lists its steps, their order is the same. */
  lemma {:induction false} OrderIsUnique(p: seq<Step>, q: seq<Step>, a: seq<Step>, b: seq<Step>, k: nat)
    requires SameSteps(p, q) && IsOrderOf(p, a) && IsOrderOf(q, b) && k <= |a|
    ensures |a| == |b| && a[..k] == b[..k]
  {
    assert |multiset(a)| == |multiset(b)|;
    if k > 0 {
      OrderIsUnique(p, q, a, b, k - 1);
      SameNext(p, q, a, b, k - 1);
    }
  }

  lemma {:induction false} SameIdSameStep(ordered: seq<Step>, x: Step, y: Step)
    requires DistinctIds(ordered) && x in multiset(ordered) && y in multiset(ordered) && x.id == y.id
    ensures x == y
  {
    var i :| 0 <= i < |ordered| && ordered[i] == x;
    var j :| 0 <= j < |ordered| && ordered[j] == y;
  }

  ghost predicate Chosen(byId: map<StepId, Step>, front: seq<Step>, step: Step) {
    forall s :: s in byId && IsNext(front, byId[s]) ==> ComesFirst(step, byId[s])
  }

  ghost predicate AllChosen(byId: map<StepId, Step>, ordered: seq<Step>) {
    forall k :: 0 <= k < |ordered| ==> Chosen(byId, ordered[..k], ordered[k])
  }

  lemma {:induction false} AllChosenGrows(byId: map<StepId, Step>, ordered: seq<Step>, step: Step)
    requires AllChosen(byId, ordered) && Chosen(byId, ordered, step)
    ensures AllChosen(byId, ordered + [step])
  {
    var all := ordered + [step];
    forall k | 0 <= k < |all|
      ensures Chosen(byId, all[..k], all[k])
    {
      if k < |ordered| {
        assert all[..k] == ordered[..k];
      } else {
        assert all[..k] == ordered;
      }
    }
  }

  lemma {:induction false} ChosenIsGreedy(plan: seq<Step>, byId: map<StepId, Step>, ordered: seq<Step>)
    requires IsTable(plan, byId) && AllChosen(byId, ordered)
    ensures Greedy(plan, ordered)
  {
    forall k, step | 0 <= k < |ordered| && step in plan && IsNext(ordered[..k], step)
      ensures ComesFirst(ordered[k], step)
    {
      var i :| 0 <= i < |plan| && plan[i] == step;
      assert byId[plan[i].id] == plan[i];
      assert Chosen(byId, ordered[..k], ordered[k]);
    }
  }

  /** What can stand next is ready. */
  lemma {:induction false} NextIsReady(byId: map<StepId, Step>, remaining: map<StepId, nat>, ordered: seq<Step>,
                                       done: set<StepId>, system: set<StepId>, user: set<StepId>, s: StepId)
    requires Ordering(byId, remaining, ordered, done, system, user) && s in byId && byId[s].id == s
    requires IsNext(ordered, byId[s])
    ensures s in if byId[s].system then system else user
  {
    forall d | 0 <= d < |byId[s].dependsOn|
      ensures byId[s].dependsOn[d] in done
    {
      assert InPlan(ordered, byId[s].dependsOn[d]);
    }
    UnmetIsZero(byId[s].dependsOn, done);
  }

  lemma {:induction false} PoppedIsChosen(plan: seq<Step>, byId: map<StepId, Step>, remaining: map<StepId, nat>,
                                          ordered: seq<Step>, done: set<StepId>, system: set<StepId>,
                                          user: set<StepId>, next: StepId)
    requires IsTable(plan, byId) && Ordering(byId, remaining, ordered, done, system, user) && next in byId
    requires byId[next].system == (system != {})
    requires byId[next].system ==> forall s :: s in system ==> next <= s
    requires !byId[next].system ==> forall s :: s in user ==> next <= s
    ensures Chosen(byId, ordered, byId[next])
  {
    forall s | s in byId && IsNext(ordered, byId[s])
      ensures ComesFirst(byId[next], byId[s])
    {
      assert InPlan(plan, s) && InPlan(plan, next);
      NextIsReady(byId, remaining, ordered, done, system, user, s);
    }
  }

  /** A number for each step: how many of its dependencies are not done. */
  ghost predicate Counts(byId: map<StepId, Step>, remaining: map<StepId, nat>, done: set<StepId>) {
    && remaining.Keys == byId.Keys
    && forall s :: s in byId && s !in done ==> remaining[s] == Unmet(byId[s].dependsOn, done)
  }

  /** The steps not done that wait for nothing, system steps and user steps apart. */
  ghost predicate ReadySets(byId: map<StepId, Step>, remaining: map<StepId, nat>, done: set<StepId>,
                            system: set<StepId>, user: set<StepId>)
    requires remaining.Keys == byId.Keys
  {
    && (forall s :: s in system <==> s in byId && s !in done && byId[s].system && remaining[s] == 0)
    && (forall s :: s in user <==> s in byId && s !in done && !byId[s].system && remaining[s] == 0)
  }

  predicate IsStep(byId: map<StepId, Step>, step: Step) {
    step.id in byId && byId[step.id] == step
  }

  /** The steps put in order so far are those done, after what they depend on, user steps last. */
  ghost predicate Placed(byId: map<StepId, Step>, ordered: seq<Step>, done: set<StepId>) {
    && (forall i :: 0 <= i < |ordered| ==> ordered[i].id in done && IsStep(byId, ordered[i]))
    && (forall s :: s in done ==> InPlan(ordered, s))
    && DistinctIds(ordered) && Topological(ordered) && |done| == |ordered|
  }

  ghost predicate UserPlaced(ordered: seq<Step>) {
    exists i :: 0 <= i < |ordered| && !ordered[i].system
  }

  method TakeFirst(ready: set<StepId>) returns (first: StepId)
    requires ready != {}
    ensures first in ready && forall s :: s in ready ==> first <= s
  {
    first :| first in ready;
    var rest := ready - {first};
    while rest != {}
      invariant rest <= ready && first in ready && forall s :: s in ready && s !in rest ==> first <= s
      decreases |rest|
    {
      var s :| s in rest;
      rest := rest - {s};
      if s < first {
        first := s;
      }
    }
  }

  lemma {:induction false} PlaceOne(byId: map<StepId, Step>, ordered: seq<Step>, done: set<StepId>, x: StepId)
    requires Placed(byId, ordered, done) && x in byId && x !in done && byId[x].id == x
    requires Unmet(byId[x].dependsOn, done) == 0
    requires byId[x].system ==> !UserPlaced(ordered)
    ensures Placed(byId, ordered + [byId[x]], done + {x})
  {
    PlacedIds(ordered, done, byId[x]);
    UnmetIsZero(byId[x].dependsOn, done);
    TopologicalGrows(ordered, byId[x]);
  }

  lemma {:induction false} PlacedIds(ordered: seq<Step>, done: set<StepId>, step: Step)
    requires forall s :: s in done ==> InPlan(ordered, s)
    ensures forall s :: s in done + {step.id} ==> InPlan(ordered + [step], s)
  {
    var all := ordered + [step];
    forall s | s in done + {step.id}
      ensures InPlan(all, s)
    {
      if s == step.id {
        assert all[|ordered|].id == s;
      } else {
        assert InPlan(ordered, s);
        var i :| 0 <= i < |ordered| && ordered[i].id == s;
        assert all[i].id == s;
      }
    }
  }

  lemma {:induction false} TopologicalGrows(ordered: seq<Step>, step: Step)
    requires Topological(ordered) && (step.system ==> !UserPlaced(ordered))
    requires forall d :: 0 <= d < |step.dependsOn| ==> InPlan(ordered, step.dependsOn[d])
    ensures Topological(ordered + [step])
  {
    var all := ordered + [step];
    forall i, d | 0 <= i < |all| && 0 <= d < |all[i].dependsOn|
      ensures exists j :: 0 <= j < i && all[j].id == all[i].dependsOn[d]
    {
      if i < |ordered| {
        assert all[i] == ordered[i];
        var j := EarlierDependency(ordered, i, d);
        assert all[j].id == all[i].dependsOn[d];
      } else {
        assert InPlan(ordered, step.dependsOn[d]);
        var j :| 0 <= j < |ordered| && ordered[j].id == step.dependsOn[d];
        assert all[j].id == all[i].dependsOn[d];
      }
    }
  }

  /** With work left but nothing ready, no order of the whole plan puts dependencies first. */
  lemma {:induction false} StuckMeansCycle(plan: seq<Step>, byId: map<StepId, Step>, done: set<StepId>, s: StepId)
    requires IsTable(plan, byId) && s in byId && s !in done
    requires forall t :: t in byId && t !in done ==> Unmet(byId[t].dependsOn, done) > 0
    ensures !SomeOrder(plan)
  {
    if SomeOrder(plan) {
      var ordered: seq<Step> :| SameSteps(plan, ordered) && DependenciesFirst(ordered);
      var i := FirstOutside(plan, ordered, byId, done, s);
      var step := ordered[i];
      forall d | 0 <= d < |step.dependsOn|
        ensures step.dependsOn[d] in done
      {
        var j := EarlierDependency(ordered, i, d);
      }
      UnmetIsZero(step.dependsOn, done);
      assert false;
    }
  }

  lemma {:induction false} FirstOutside(plan: seq<Step>, ordered: seq<Step>, byId: map<StepId, Step>,
                                        done: set<StepId>, s: StepId) returns (i: nat)
    requires IsTable(plan, byId) && SameSteps(plan, ordered) && s in byId && s !in done
    ensures i < |ordered| && ordered[i].id !in done && ordered[i].id in byId && byId[ordered[i].id] == ordered[i]
    ensures forall j :: 0 <= j < i ==> ordered[j].id in done
  {
    assert InPlan(plan, s);
    var p :| 0 <= p < |plan| && plan[p].id == s;
    assert plan[p] in multiset(plan) && plan[p] in ordered;
    var q :| 0 <= q < |ordered| && ordered[q] == plan[p];
    i := 0;
    while ordered[i].id in done
      invariant i <= q && forall j :: 0 <= j < i ==> ordered[j].id in done
      decreases q - i
    {
      i := i + 1;
    }
    assert ordered[i] in multiset(ordered) && ordered[i] in plan;
  }

  /** While the steps waiting for `x` are released: what those still listed will be counted down by. */
  ghost predicate Releasing(byId: map<StepId, Step>, remaining: map<StepId, nat>, done: set<StepId>,
                            left: seq<StepId>)
  {
    && remaining.Keys == byId.Keys
    && (forall s :: s in byId && s !in done ==> remaining[s] == Unmet(byId[s].dependsOn, done) + Count(left, s))
    && (forall s :: s in byId && s in done ==> Count(left, s) == 0)
    && (forall s :: s !in byId ==> Count(left, s) == 0)
  }

  lemma {:induction false} ReleaseStarts(plan: seq<Step>, byId: map<StepId, Step>, dependents: Dependents,
                                         remaining: map<StepId, nat>, done: set<StepId>, x: StepId)
    requires DistinctIds(plan) && IsTable(plan, byId) && Lists(dependents, plan)
    requires Counts(byId, remaining, done) && x in byId && x !in done && remaining[x] == 0
    requires forall s :: s in done ==> s in byId && Unmet(byId[s].dependsOn, done) == 0
    ensures Releasing(byId, remaining, done + {x}, Of(dependents, x))
  {
    forall s
      ensures Count(Of(dependents, x), s) == if s in byId then Count(byId[s].dependsOn, x) else 0
    {
      if s in byId {
        assert InPlan(plan, s);
        var k :| 0 <= k < |plan| && plan[k].id == s;
        WantsOfOne(plan, k, x);
      } else {
        WantsOfNone(plan, s, x);
      }
    }
    forall s | s in byId
      ensures Unmet(byId[s].dependsOn, done) == Unmet(byId[s].dependsOn, done + {x}) + Count(byId[s].dependsOn, x)
    {
      UnmetDrops(byId[s].dependsOn, done, x);
    }
  }

  lemma {:induction false} ReleaseOne(byId: map<StepId, Step>, remaining: map<StepId, nat>, done: set<StepId>,
                                      left: seq<StepId>)
    requires left != [] && Releasing(byId, remaining, done, left)
    ensures left[0] in byId && left[0] !in done && remaining[left[0]] > 0
    ensures Releasing(byId, remaining[left[0] := remaining[left[0]] - 1], done, left[1..])
  {
    assert Count(left, left[0]) > 0;
  }

  lemma {:induction false} ReadyGrows(byId: map<StepId, Step>, remaining: map<StepId, nat>, done: set<StepId>,
                                      system: set<StepId>, user: set<StepId>, s: StepId)
    requires remaining.Keys == byId.Keys && ReadySets(byId, remaining, done, system, user)
    requires s in byId && s !in done && remaining[s] > 0
    ensures var ready := if remaining[s] == 1 then {s} else {};
      ReadySets(byId, remaining[s := remaining[s] - 1], done, if byId[s].system then system + ready else system,
                if byId[s].system then user else user + ready)
  {
  }

  /** Counts the steps waiting for one that is now done down, and makes those ready that wait for nothing more. */
  method Release(byId: map<StepId, Step>, remaining: map<StepId, nat>, waiting: seq<StepId>, system: set<StepId>,
                 user: set<StepId>, ghost done: set<StepId>)
    returns (remaining': map<StepId, nat>, system': set<StepId>, user': set<StepId>)
    requires Releasing(byId, remaining, done, waiting) && ReadySets(byId, remaining, done, system, user)
    ensures Counts(byId, remaining', done) && ReadySets(byId, remaining', done, system', user')
    ensures (forall s :: s in waiting && s in byId ==> !byId[s].system) ==> system' == system
  {
    remaining', system', user' := remaining, system, user;
    ghost var left := waiting;
    for k := 0 to |waiting|
      invariant left == waiting[k..] && Releasing(byId, remaining', done, left)
      invariant ReadySets(byId, remaining', done, system', user')
      invariant (forall s :: s in waiting && s in byId ==> !byId[s].system) ==> system' == system
    {
      var s := waiting[k];
      ReleaseOne(byId, remaining', done, left);
      ReadyGrows(byId, remaining', done, system', user', s);
      left := left[1..];
      remaining' := remaining'[s := remaining'[s] - 1];
      if remaining'[s] == 0 {
        if byId[s].system {
          system' := system' + {s};
        } else {
          user' := user' + {s};
        }
      }
    }
  }

  lemma {:induction false} DoneWaitForNothing(byId: map<StepId, Step>, ordered: seq<Step>, done: set<StepId>)
    requires Placed(byId, ordered, done)
    ensures forall s :: s in done ==> s in byId && Unmet(byId[s].dependsOn, done) == 0
  {
    forall s | s in done
      ensures s in byId && Unmet(byId[s].dependsOn, done) == 0
    {
      assert InPlan(ordered, s);
      var i :| 0 <= i < |ordered| && ordered[i].id == s;
      assert IsStep(byId, ordered[i]);
      forall d | 0 <= d < |ordered[i].dependsOn|
        ensures ordered[i].dependsOn[d] in done
      {
        var j := EarlierDependency(ordered, i, d);
      }
      UnmetIsZero(byId[s].dependsOn, done);
    }
  }

  /** Nothing that waits for a user step is a system step. */
  lemma {:induction false} UsersReleaseUsers(plan: seq<Step>, byId: map<StepId, Step>, dependents: Dependents,
                                             x: StepId, s: StepId)
    requires DistinctIds(plan) && IsTable(plan, byId) && Lists(dependents, plan) && SystemApart(plan)
    requires x in byId && !byId[x].system && s in byId && s in Of(dependents, x)
    ensures !byId[s].system
  {
    assert InPlan(plan, s) && InPlan(plan, x);
    var k :| 0 <= k < |plan| && plan[k].id == s;
    var j :| 0 <= j < |plan| && plan[j].id == x;
    var d :| 0 <= d < |Of(dependents, x)| && Of(dependents, x)[d] == s;
    CountIsPositive(Of(dependents, x), s);
    WantsOfOne(plan, k, x);
    CountIsPositive(plan[k].dependsOn, x);
    assert DependsOn(plan[k], plan[j].id);
  }

  /** The state of the ordering loop. */
  ghost predicate Ordering(byId: map<StepId, Step>, remaining: map<StepId, nat>, ordered: seq<Step>,
                           done: set<StepId>, system: set<StepId>, user: set<StepId>)
  {
    && Counts(byId, remaining, done) && ReadySets(byId, remaining, done, system, user)
    && Placed(byId, ordered, done) && done <= byId.Keys && (UserPlaced(ordered) ==> system == {})
  }

  lemma {:induction false} OrderingStarts(plan: seq<Step>, byId: map<StepId, Step>, remaining: map<StepId, nat>)
    requires IsTable(plan, byId)
    requires remaining == map s | s in byId :: |byId[s].dependsOn|
    ensures Ordering(byId, remaining, [], {}, set s | s in byId && byId[s].system && remaining[s] == 0,
                     set s | s in byId && !byId[s].system && remaining[s] == 0)
  {
    forall s | s in byId
      ensures Unmet(byId[s].dependsOn, {}) == |byId[s].dependsOn|
    {
      UnmetAtStart(byId[s].dependsOn);
    }
  }

  lemma {:induction false} FewerLeft(keys: set<StepId>, done: set<StepId>, x: StepId)
    requires x in keys && x !in done
    ensures |keys - (done + {x})| < |keys - done|
  {
    assert keys - (done + {x}) == (keys - done) - {x};
  }

  lemma {:induction false} StillNoUser(ordered: seq<Step>, step: Step)
    requires !UserPlaced(ordered) && step.system
    ensures !UserPlaced(ordered + [step])
  {
    forall i | 0 <= i < |ordered| + 1
      ensures (ordered + [step])[i].system
    {
      assert i < |ordered| ==> (ordered + [step])[i] == ordered[i];
    }
  }

  lemma {:induction false} NothingReady(byId: map<StepId, Step>, remaining: map<StepId, nat>, ordered: seq<Step>,
                                        done: set<StepId>)
    requires Ordering(byId, remaining, ordered, done, {}, {})
    ensures forall s :: s in byId && s !in done ==> Unmet(byId[s].dependsOn, done) > 0
  {
    forall s | s in byId && s !in done
      ensures remaining[s] > 0
    {
      assert s !in {};
    }
  }

  /** Places the steps, first those of the system, each as soon as it waits for nothing. */
  method PlaceAll(plan: seq<Step>, byId: map<StepId, Step>, dependents: Dependents)
    returns (ordered: seq<Step>, ghost done: set<StepId>)
    requires DistinctIds(plan) && IsTable(plan, byId) && Lists(dependents, plan) && SystemApart(plan)
    ensures Placed(byId, ordered, done) && done <= byId.Keys && AllChosen(byId, ordered)
    ensures forall s :: s in byId && s !in done ==> Unmet(byId[s].dependsOn, done) > 0
  {
    var remaining: map<StepId, nat> := map s | s in byId :: |byId[s].dependsOn|;
    var system := set s | s in byId && byId[s].system && remaining[s] == 0;
    var user := set s | s in byId && !byId[s].system && remaining[s] == 0;
    OrderingStarts(plan, byId, remaining);
    remaining, ordered, done := PlaceReady(plan, byId, dependents, remaining, system, user);
    NothingReady(byId, remaining, ordered, done);
  }

  method PlaceReady(plan: seq<Step>, byId: map<StepId, Step>, dependents: Dependents, waiting: map<StepId, nat>,
                    systemFirst: set<StepId>, userFirst: set<StepId>)
    returns (remaining: map<StepId, nat>, ordered: seq<Step>, ghost done: set<StepId>)
    requires DistinctIds(plan) && IsTable(plan, byId) && Lists(dependents, plan) && SystemApart(plan)
    requires Ordering(byId, waiting, [], {}, systemFirst, userFirst)
    ensures Ordering(byId, remaining, ordered, done, {}, {}) && AllChosen(byId, ordered)
  {
    var system, user := systemFirst, userFirst;
    remaining, ordered, done := waiting, [], {};
    while system != {} || user != {}
      invariant Ordering(byId, remaining, ordered, done, system, user) && AllChosen(byId, ordered)
      decreases |byId.Keys - done|
    {
      remaining, ordered, system, user, done :=
        PlaceNext(plan, byId, dependents, remaining, ordered, system, user, done);
    }
  }

  method PlaceNext(plan: seq<Step>, byId: map<StepId, Step>, dependents: Dependents, remaining: map<StepId, nat>,
                   ordered: seq<Step>, system: set<StepId>, user: set<StepId>, ghost done: set<StepId>)
    returns (remaining': map<StepId, nat>, ordered': seq<Step>, system': set<StepId>, user': set<StepId>,
             ghost done': set<StepId>)
    requires DistinctIds(plan) && IsTable(plan, byId) && Lists(dependents, plan) && SystemApart(plan)
    requires Ordering(byId, remaining, ordered, done, system, user) && (system != {} || user != {})
    requires AllChosen(byId, ordered)
    ensures Ordering(byId, remaining', ordered', done', system', user') && AllChosen(byId, ordered')
    ensures |byId.Keys - done'| < |byId.Keys - done|
  {
    var next, rest, others := PopNextReady(byId, remaining, ordered, system, user, done);
    PoppedIsChosen(plan, byId, remaining, ordered, done, system, user, next);
    AllChosenGrows(byId, ordered, byId[next]);
    remaining', ordered', system', user', done' :=
      PlaceStep(plan, byId, dependents, remaining, ordered, rest, others, next, done);
    FewerLeft(byId.Keys, done, next);
  }

  /** The first ready system step, or the first ready user step when there is none. */
  method PopNextReady(byId: map<StepId, Step>, ghost remaining: map<StepId, nat>, ghost ordered: seq<Step>,
                      system: set<StepId>, user: set<StepId>, ghost done: set<StepId>)
    returns (next: StepId, system': set<StepId>, user': set<StepId>)
    requires Ordering(byId, remaining, ordered, done, system, user) && (system != {} || user != {})
    ensures next in byId && next !in done && remaining[next] == 0
    ensures ReadySets(byId, remaining, done + {next}, system', user')
    ensures UserPlaced(ordered) || !byId[next].system ==> system' == {}
    ensures byId[next].system ==> !UserPlaced(ordered)
    ensures byId[next].system == (system != {})
    ensures byId[next].system ==> next in system && forall s :: s in system ==> next <= s
    ensures !byId[next].system ==> next in user && forall s :: s in user ==> next <= s
  {
    system', user' := system, user;
    if system != {} {
      next := TakeFirst(system);
      system' := system - {next};
    } else {
      next := TakeFirst(user);
      user' := user - {next};
    }
  }

  /** Places one step that waits for nothing and releases those that waited for it. */
  method PlaceStep(plan: seq<Step>, byId: map<StepId, Step>, dependents: Dependents, remaining: map<StepId, nat>,
                   ordered: seq<Step>, system: set<StepId>, user: set<StepId>, x: StepId, ghost done: set<StepId>)
    returns (remaining': map<StepId, nat>, ordered': seq<Step>, system': set<StepId>, user': set<StepId>,
             ghost done': set<StepId>)
    requires DistinctIds(plan) && IsTable(plan, byId) && Lists(dependents, plan) && SystemApart(plan)
    requires Counts(byId, remaining, done) && Placed(byId, ordered, done) && done <= byId.Keys
    requires x in byId && x !in done && remaining[x] == 0
    requires ReadySets(byId, remaining, done + {x}, system, user)
    requires UserPlaced(ordered) || !byId[x].system ==> system == {}
    requires byId[x].system ==> !UserPlaced(ordered)
    ensures done' == done + {x} && Ordering(byId, remaining', ordered', done', system', user')
    ensures ordered' == ordered + [byId[x]]
  {
    assert InPlan(plan, x);
    PlaceOne(byId, ordered, done, x);
    DoneWaitForNothing(byId, ordered, done);
    ReleaseStarts(plan, byId, dependents, remaining, done, x);
    ordered' := ordered + [byId[x]];
    done' := done + {x};
    var waiting := if x in dependents then dependents[x] else [];
    if !byId[x].system {
      forall s | s in waiting && s in byId
        ensures !byId[s].system
      {
        UsersReleaseUsers(plan, byId, dependents, x, s);
      }
    }
    remaining', system', user' := Release(byId, remaining, waiting, system, user, done');
    if byId[x].system {
      StillNoUser(ordered, byId[x]);
    }
  }

  // ---- The whole order ----

  lemma {:induction false} DistinctCounts(s: seq<Step>, x: Step)
    requires DistinctIds(s)
    ensures multiset(s)[x] == if x in s then 1 else 0
    decreases |s|
  {
    if s != [] {
      var front, last := s[..|s| - 1], s[|s| - 1];
      assert s == front + [last];
      DistinctCounts(front, x);
    }
  }

  lemma {:induction false} AllPlaced(plan: seq<Step>, byId: map<StepId, Step>, ordered: seq<Step>, done: set<StepId>)
    requires DistinctIds(plan) && IsTable(plan, byId) && Placed(byId, ordered, done) && done == byId.Keys
    ensures SameSteps(plan, ordered)
  {
    forall x: Step
      ensures multiset(plan)[x] == multiset(ordered)[x]
    {
      DistinctCounts(plan, x);
      DistinctCounts(ordered, x);
      if x in plan {
        var i :| 0 <= i < |plan| && plan[i] == x;
        assert x.id in done && InPlan(ordered, x.id);
        var j :| 0 <= j < |ordered| && ordered[j].id == x.id;
        assert IsStep(byId, ordered[j]);
      }
      if x in ordered {
        var j :| 0 <= j < |ordered| && ordered[j] == x;
        assert IsStep(byId, ordered[j]) && InPlan(plan, x.id);
        var i :| 0 <= i < |plan| && plan[i].id == x.id;
        assert byId[plan[i].id] == plan[i];
      }
    }
  }

  lemma {:induction false} TableSize(plan: seq<Step>, byId: map<StepId, Step>)
    requires DistinctIds(plan) && IsTable(plan, byId)
    ensures |byId.Keys| == |plan|
    decreases |plan|
  {
    if plan == [] {
      assert forall s :: s in byId ==> InPlan(plan, s);
      assert byId.Keys == {};
    } else {
      var front, last := plan[..|plan| - 1], plan[|plan| - 1];
      var rest := byId - {last.id};
      forall s | s in rest
        ensures InPlan(front, s)
      {
        assert InPlan(plan, s);
        var i :| 0 <= i < |plan| && plan[i].id == s;
        assert front[i].id == s;
      }
      TableSize(front, rest);
      assert byId.Keys == rest.Keys + {last.id};
    }
  }

  /**
   * Succeeds exactly for plans with distinct identifiers and known dependencies in which no system step depends on a
   * user step and some order puts all dependencies first; the order found does, with system steps before user steps,
   * and it is the one in which each step comes as early as its identifier allows.
   */
  method OrderedSteps(plan: seq<Step>) returns (r: Result<seq<Step>, OrderError>)
    ensures r.Ok? <==> Orderable(plan)
    ensures r.Ok? ==> IsOrderOf(plan, r.value) && Topological(r.value)
    ensures r.Err? ==> Explains(plan, r.error)
  {
    var byId := StepsById(plan);
    if byId.None? {
      return Err(DuplicateStep);
    }
    var dependents := CollectDependents(plan, byId.value);
    if dependents.Err? {
      return Err(dependents.error);
    }
    var ordered, done := PlaceAll(plan, byId.value, dependents.value);
    TableSize(plan, byId.value);
    if |ordered| != |plan| {
      assert byId.value.Keys != done;
      ghost var s :| s in byId.value.Keys && s !in done;
      StuckMeansCycle(plan, byId.value, done, s);
      return Err(Cycle);
    }
    SubsetOfSize(done, byId.value.Keys);
    AllPlaced(plan, byId.value, ordered, done);
    ChosenIsGreedy(plan, byId.value, ordered);
    assert SameSteps(plan, ordered) && DependenciesFirst(ordered);
    r := Ok(ordered);
  }

  lemma {:induction false} SubsetOfSize(a: set<StepId>, b: set<StepId>)
    requires a <= b && |a| == |b|
    ensures a == b
  {
    if a != b {
      var s :| s in b && s !in a;
      assert |b| == |b - {s}| + 1;
      SmallerSubset(a, b - {s});
    }
  }

  lemma {:induction false} SmallerSubset(a: set<StepId>, b: set<StepId>)
    requires a <= b
    ensures |a| <= |b|
    decreases |a|
  {
    if a != {} {
      var s :| s in a;
      SmallerSubset(a - {s}, b - {s});
    }
  }
}
