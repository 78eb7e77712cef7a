/** `PipelineValidator.validate`: the recursive walk over all paths, proved to accept exactly
    the acceptable pipelines.
 */
module PipelineValidator {
  import opened Sequences
  import opened Ordering
  import opened PipelineOrder
  import opened Pipelines

  datatype DefinitionError =
    | DuplicateStep
    | UnknownEntry
    | StepRejected(step: string)
    | Cycle(step: string)
    | TooLong
    | MissingState(step: string, missing: set<string>)
    | Unreachable(steps: set<string>)
    | NoResult

  // --------------------------------------------- what the walk computes, as recursive functions

  /** The walk from a step, after a path, raises nothing. */
  ghost predicate Clean(c: Checked, id: string, available: set<string>, path: seq<string>)
    decreases c.maxSteps - |path|
  {
    && id !in path && |path| < c.maxSteps
    && Needs(c, id) <= available
    && forall t | t in After(c, id) :: Clean(c, t, available + Gives(c, id), path + [id])
  }

  /** Steps the walk visits. */
  ghost function Reach(c: Checked, id: string, path: seq<string>): set<string>
    decreases c.maxSteps - |path|
  {
    {id} + if |path| >= c.maxSteps then {} else set t, x | t in After(c, id) && x in Reach(c, t, path + [id]) :: x
  }

  /** Every terminal step the walk meets finds a result. */
  ghost predicate Results(c: Checked, id: string, available: set<string>, path: seq<string>)
    decreases c.maxSteps - |path|
  {
    var next := available + Gives(c, id);
    && (Terminal(c, id) ==> "result" in next)
    && (|path| < c.maxSteps ==> forall t | t in After(c, id) :: Results(c, t, next, path + [id]))
  }

  ghost predicate AllTrue(s: seq<bool>) { forall b | b in s :: b }

  // ------------------------------------------------------------ paths explain the functions

  /** Entry paths that continue a given one. */
  ghost predicate Continues(c: Checked, base: seq<string>, q: seq<string>) {
    EntryPath(c, q) && base <= q
  }

  lemma AvailableStep(c: Checked, base: seq<string>, id: string)
    ensures Available(c, base + [id]) == Available(c, base) + Gives(c, id)
  {
    assert Init(base + [id]) == base;
  }

  /** One more step of a continuation. */
  lemma NextOnPath(c: Checked, base: seq<string>, id: string, q: seq<string>)
    requires Continues(c, base + [id], q) && |q| > |base| + 1
    ensures q[|base| + 1] in After(c, id) && Continues(c, base + [id] + [q[|base| + 1]], q)
  {
    hide After;
    var i := |base| + 1;
    assert q[i - 1] == id && q[i] in After(c, q[i - 1]);
    assert q[..i + 1] == base + [id] + [q[i]];
  }

  lemma PathContinues(c: Checked, base: seq<string>, id: string, t: string)
    requires EntryPath(c, base + [id]) && t in After(c, id)
    ensures EntryPath(c, base + [id] + [t])
  {
    hide EntryPath;
    assert Last(base + [id]) == id;
    PathGrows(c, base + [id], t);
  }

  lemma {:induction false} CleanCoversPath(c: Checked, base: seq<string>, id: string, q: seq<string>)
    requires EntryPath(c, base + [id]) && NoRepeat(base)
    requires Clean(c, id, Available(c, base), base) && Continues(c, base + [id], q)
    ensures GoodPath(c, q)
    decreases |q| - |base|
  {
    hide EntryPath;
    hide NoRepeat;
    NoRepeatStep(base, id);
    AvailableStep(c, base, id);
    if |q| == |base| + 1 {
      assert q == base + [id] && Init(q) == base;
    } else {
      var t := q[|base| + 1];
      NextOnPath(c, base, id, q);
      PathContinues(c, base, id, t);
      CleanCoversPath(c, base + [id], t, q);
    }
  }

  /** Paths that continue further continue here. */
  lemma ContinuesEarlier(c: Checked, base: seq<string>, id: string, t: string, q: seq<string>)
    requires Continues(c, base + [id] + [t], q)
    ensures Continues(c, base + [id], q)
  {
    hide EntryPath;
  }

  lemma {:induction false} PathsAreClean(c: Checked, base: seq<string>, id: string)
    requires EntryPath(c, base + [id])
    requires forall q | Continues(c, base + [id], q) :: GoodPath(c, q)
    ensures Clean(c, id, Available(c, base), base)
    decreases c.maxSteps - |base|
  {
    hide EntryPath;
    hide NoRepeat;
    assert Continues(c, base + [id], base + [id]);
    assert GoodPath(c, base + [id]) && Init(base + [id]) == base;
    NoRepeatStep(base, id);
    AvailableStep(c, base, id);
    forall t | t in After(c, id) ensures Clean(c, t, Available(c, base) + Gives(c, id), base + [id]) {
      PathContinues(c, base, id, t);
      forall q | Continues(c, base + [id] + [t], q) ensures GoodPath(c, q) { ContinuesEarlier(c, base, id, t, q); }
      PathsAreClean(c, base + [id], t);
    }
  }

  lemma {:induction false} ReachIsPaths(c: Checked, base: seq<string>, id: string, x: string)
    requires EntryPath(c, base + [id]) && x in Reach(c, id, base)
    ensures exists q :: Continues(c, base + [id], q) && Last(q) == x
    decreases c.maxSteps - |base|
  {
    hide EntryPath;
    if x == id {
      assert Continues(c, base + [id], base + [id]) && Last(base + [id]) == x;
    } else {
      var t :| t in After(c, id) && x in Reach(c, t, base + [id]);
      PathContinues(c, base, id, t);
      ReachIsPaths(c, base + [id], t, x);
      var q :| Continues(c, base + [id] + [t], q) && Last(q) == x;
      ContinuesEarlier(c, base, id, t, q);
    }
  }

  lemma {:induction false} PathsAreReached(c: Checked, base: seq<string>, id: string, q: seq<string>)
    requires EntryPath(c, base + [id]) && Continues(c, base + [id], q) && |q| <= c.maxSteps
    ensures Last(q) in Reach(c, id, base)
    decreases |q| - |base|
  {
    hide EntryPath;
    if |q| == |base| + 1 {
      assert q == base + [id];
    } else {
      var t := q[|base| + 1];
      NextOnPath(c, base, id, q);
      PathContinues(c, base, id, t);
      PathsAreReached(c, base + [id], t, q);
    }
  }

  lemma {:induction false} ResultsCoverPath(c: Checked, base: seq<string>, id: string, q: seq<string>)
    requires EntryPath(c, base + [id]) && Results(c, id, Available(c, base), base)
    requires Continues(c, base + [id], q) && |q| <= c.maxSteps && Terminal(c, Last(q))
    ensures "result" in Available(c, q)
    decreases |q| - |base|
  {
    hide EntryPath;
    AvailableStep(c, base, id);
    if |q| == |base| + 1 {
      assert q == base + [id];
    } else {
      var t := q[|base| + 1];
      NextOnPath(c, base, id, q);
      PathContinues(c, base, id, t);
      ResultsCoverPath(c, base + [id], t, q);
    }
  }

  lemma {:induction false} PathsHaveResults(c: Checked, base: seq<string>, id: string)
    requires EntryPath(c, base + [id])
    requires forall q | Continues(c, base + [id], q) && Terminal(c, Last(q)) :: "result" in Available(c, q)
    ensures Results(c, id, Available(c, base), base)
    decreases c.maxSteps - |base|
  {
    hide EntryPath;
    AvailableStep(c, base, id);
    assert Continues(c, base + [id], base + [id]) && Last(base + [id]) == id;
    if |base| < c.maxSteps {
      forall t | t in After(c, id) ensures Results(c, t, Available(c, base) + Gives(c, id), base + [id]) {
        PathContinues(c, base, id, t);
        forall q | Continues(c, base + [id] + [t], q) && Terminal(c, Last(q)) ensures "result" in Available(c, q) {
          ContinuesEarlier(c, base, id, t, q);
        }
        PathsHaveResults(c, base + [id], t);
      }
    }
  }

  lemma EntryStartsPaths(c: Checked, q: seq<string>)
    ensures EntryPath(c, [] + [c.entry])
    ensures EntryPath(c, q) ==> Continues(c, [] + [c.entry], q)
  {
  }

  lemma CleanIsAllPathsGood(c: Checked)
    ensures Clean(c, c.entry, INITIAL, []) <==> AllPathsGood(c)
  {
    hide EntryPath;
    hide GoodPath;
    EntryStartsPaths(c, []);
    if Clean(c, c.entry, INITIAL, []) {
      forall q | EntryPath(c, q) ensures GoodPath(c, q) {
        EntryStartsPaths(c, q);
        CleanCoversPath(c, [], c.entry, q);
      }
    }
    if AllPathsGood(c) { PathsAreClean(c, [], c.entry); }
  }

  /** The visited steps are the ones some path ends at. */
  lemma ReachIsPathEnds(c: Checked)
    requires Sound(c) && AllPathsGood(c)
    ensures Reach(c, c.entry, []) <= c.steps.Keys
    ensures forall id :: id in Reach(c, c.entry, []) <==> exists q :: EntryPath(c, q) && Last(q) == id
  {
    hide EntryPath;
    hide NoRepeat;
    hide Sound;
    hide Reach;
    EntryStartsPaths(c, []);
    forall x | x in Reach(c, c.entry, []) ensures x in c.steps && exists q :: EntryPath(c, q) && Last(q) == x {
      ReachIsPaths(c, [], c.entry, x);
      var q :| Continues(c, [] + [c.entry], q) && Last(q) == x;
      PathInSteps(c, q);
      assert Last(q) in q;
    }
    forall q | EntryPath(c, q) ensures Last(q) in Reach(c, c.entry, []) {
      EntryStartsPaths(c, q);
      assert GoodPath(c, q);
      PathsAreReached(c, [], c.entry, q);
    }
  }

  lemma ReachIsAllStepsReached(c: Checked)
    requires Sound(c) && AllPathsGood(c)
    ensures Reach(c, c.entry, []) == c.steps.Keys <==> AllStepsReached(c)
  {
    hide EntryPath;
    hide Sound;
    hide Reach;
    ReachIsPathEnds(c);
  }

  lemma ResultsIsAllEndsProduceResult(c: Checked)
    requires AllPathsGood(c)
    ensures Results(c, c.entry, INITIAL, []) <==> AllEndsProduceResult(c)
  {
    hide EntryPath;
    hide NoRepeat;
    hide Results;
    EntryStartsPaths(c, []);
    if Results(c, c.entry, INITIAL, []) {
      forall q | EntryPath(c, q) && Terminal(c, Last(q)) ensures "result" in Available(c, q) {
        EntryStartsPaths(c, q);
        assert GoodPath(c, q);
        ResultsCoverPath(c, [], c.entry, q);
      }
    }
    if AllEndsProduceResult(c) { PathsHaveResults(c, [], c.entry); }
  }

  // -------------------------------------------------------------------------- the methods

  datatype Outcome = Pass | Fail(error: DefinitionError)

  /** An error of the walk names a real path that goes wrong at its last step. */
  ghost predicate Explains(c: Checked, error: DefinitionError, trail: seq<string>) {
    && EntryPath(c, trail)
    && match error
       case Cycle(step) => step == Last(trail) && step in Init(trail)
       case TooLong => |trail| > c.maxSteps
       case MissingState(step, missing) =>
         step == Last(trail) && missing != {} && missing == Needs(c, step) - Available(c, Init(trail))
       case _ => false
  }

  class Walker {
    const c: Checked
    var visited: set<string>
    var terminalResults: seq<bool>

    constructor (c: Checked)
      ensures this.c == c && visited == {} && terminalResults == []
    {
      this.c := c;
      visited, terminalResults := {}, [];
    }

    /** The nested function `walk` with the two collections it appends to. */
    method Walk(stepId: string, available: set<string>, path: seq<string>) returns (r: Outcome, ghost trail: seq<string>)
      requires Sound(c) && stepId in c.steps
      requires EntryPath(c, path + [stepId]) && available == Available(c, path)
      modifies this
      ensures r.Pass? <==> Clean(c, stepId, available, path)
      ensures r.Pass? ==> visited == old(visited) + Reach(c, stepId, path)
      ensures r.Pass? ==> (AllTrue(terminalResults) <==> AllTrue(old(terminalResults)) && Results(c, stepId, available, path))
      ensures r.Fail? ==> Explains(c, r.error, trail)
      decreases c.maxSteps - |path|
    {
      hide EntryPath;
      hide Sound;
      hide Clean;
      hide Results;
      hide Reach;
      hide AllTrue;
      hide StringLess;
      CleanNeeds(c, stepId, available, path);
      trail := path + [stepId];
      assert Init(trail) == path;
      if stepId in path { return Fail(Cycle(stepId)), trail; }
      if |path| + 1 > c.maxSteps { return Fail(TooLong), trail; }
      visited := visited + {stepId};
      SoundStep(c, stepId);
      var step := c.steps[stepId];
      var action := c.reg[step.action];
      var missing := action.needs - available;
      if missing != {} { return Fail(MissingState(stepId, missing)), trail; }
      forall x | x in action.needs ensures x in available { assert x !in missing; }
      var next := available + action.gives;
      AvailableStep(c, path, stepId);
      if step.terminal {
        AllTrueAppend(terminalResults, "result" in next);
        CleanFromBelow(c, stepId, available, path, []);
        terminalResults := terminalResults + ["result" in next];
        return Pass, trail;
      }
      var targets := step.routes.Values;
      if step.next.Some? { targets := targets + {step.next.value}; }
      assert targets == After(c, stepId);
      var order := SortedStrings(targets);
      CleanFromBelow(c, stepId, available, path, order);
      ghost var here := trail;
      for i := 0 to |order|
        invariant forall j :: 0 <= j < i ==> Clean(c, order[j], next, here)
        invariant forall x :: x in visited <==>
                    x in old(visited) || x == stepId || exists j :: 0 <= j < i && x in Reach(c, order[j], here)
        invariant AllTrue(terminalResults) <==>
                    AllTrue(old(terminalResults)) && forall j :: 0 <= j < i ==> Results(c, order[j], next, here)
      {
        assert order[i] in After(c, stepId);
        AfterInSteps(c, stepId);
        PathContinues(c, path, stepId, order[i]);
        var below;
        below, trail := Walk(order[i], next, path + [stepId]);
        if below.Fail? { return below, trail; }
      }
      assert visited == old(visited) + Reach(c, stepId, path);
      r := Pass;
    }
  }

  lemma CleanNeeds(c: Checked, id: string, available: set<string>, path: seq<string>)
    ensures Clean(c, id, available, path) ==> id !in path && |path| < c.maxSteps && Needs(c, id) <= available
  {
  }

  lemma AllTrueAppend(s: seq<bool>, b: bool)
    ensures AllTrue(s + [b]) <==> AllTrue(s) && b
  {
    assert b in s + [b];
    assert forall x :: x in s ==> x in s + [b];
  }

  /** The answers for the targets, in any listing of them, make the answer for the step. */
  lemma CleanFromBelow(c: Checked, id: string, available: set<string>, path: seq<string>, order: seq<string>)
    requires forall t :: t in order <==> t in After(c, id)
    requires |path| < c.maxSteps
    ensures Clean(c, id, available, path) <==>
              && id !in path && Needs(c, id) <= available
              && forall j :: 0 <= j < |order| ==> Clean(c, order[j], available + Gives(c, id), path + [id])
    ensures Results(c, id, available, path) <==>
              && (Terminal(c, id) ==> "result" in available + Gives(c, id))
              && forall j :: 0 <= j < |order| ==> Results(c, order[j], available + Gives(c, id), path + [id])
    ensures forall x :: x in Reach(c, id, path) <==>
              x == id || exists j :: 0 <= j < |order| && x in Reach(c, order[j], path + [id])
  {
    hide After;
    hide Needs;
    hide Gives;
    assert forall j :: 0 <= j < |order| ==> order[j] in order;
    forall x | x in Reach(c, id, path) && x != id
      ensures exists j :: 0 <= j < |order| && x in Reach(c, order[j], path + [id])
    {
      var t :| t in After(c, id) && x in Reach(c, t, path + [id]);
      var j :| 0 <= j < |order| && order[j] == t;
    }
    if forall j :: 0 <= j < |order| ==> Clean(c, order[j], available + Gives(c, id), path + [id]) {
      forall t | t in After(c, id) ensures Clean(c, t, available + Gives(c, id), path + [id]) {
        var j :| 0 <= j < |order| && order[j] == t;
      }
    }
    if forall j :: 0 <= j < |order| ==> Results(c, order[j], available + Gives(c, id), path + [id]) {
      forall t | t in After(c, id) ensures Results(c, t, available + Gives(c, id), path + [id]) {
        var j :| 0 <= j < |order| && order[j] == t;
      }
    }
  }

  lemma SoundStep(c: Checked, id: string)
    requires Sound(c) && id in c.steps
    ensures c.steps[id].action in c.reg && After(c, id) == Targets(c.steps[id])
    ensures Needs(c, id) == c.reg[c.steps[id].action].needs && Gives(c, id) == c.reg[c.steps[id].action].gives
    ensures c.steps[id].terminal ==> After(c, id) == {}
  {
    assert StepAccepted(c.reg, c.steps, c.steps[id]);
  }

  /** Each reported error is a real defect of the pipeline. */
  ghost predicate Justified(reg: Registry, p: Pipeline, error: DefinitionError) {
    var c := Check(reg, p);
    match error
    case DuplicateStep => !UniqueIds(p.steps)
    case UnknownEntry => p.entry !in c.steps
    case StepRejected(id) => exists s :: s in p.steps && s.id == id && !StepAccepted(reg, c.steps, s)
    case Unreachable(steps) => steps != {} && forall id :: id in steps <==> id in c.steps && !exists q :: EntryPath(c, q) && Last(q) == id
    case NoResult => exists q :: EntryPath(c, q) && Terminal(c, Last(q)) && "result" !in Available(c, q)
    case _ => exists trail :: Explains(c, error, trail)
  }

  /** The step dictionary and the checks made step by step. */
  method CheckSteps(reg: Registry, p: Pipeline) returns (r: Outcome, steps: map<string, Step>)
    ensures r.Pass? <==> StepsAccepted(reg, p)
    ensures r.Pass? ==> steps == StepMap(p.steps)
    ensures r.Fail? ==> Justified(reg, p, r.error)
  {
    hide StepAccepted;
    hide UniqueIds;
    steps := map[];
    for i := 0 to |p.steps|
      invariant steps == StepMap(p.steps[..i])
    {
      assert p.steps[..i + 1][..i] == p.steps[..i];
      steps := steps[p.steps[i].id := p.steps[i]];
    }
    assert p.steps[..|p.steps|] == p.steps;
    StepMapSize(p.steps);
    if |steps| != |p.steps| { return Fail(DuplicateStep), steps; }
    if p.entry !in steps { return Fail(UnknownEntry), steps; }
    for i := 0 to |p.steps|
      invariant forall s | s in p.steps[..i] :: StepAccepted(reg, steps, s)
    {
      assert p.steps[..i + 1] == p.steps[..i] + [p.steps[i]];
      assert p.steps[i] in p.steps;
      if !StepAccepted(reg, steps, p.steps[i]) { return Fail(StepRejected(p.steps[i].id)), steps; }
    }
    assert p.steps[..|p.steps|] == p.steps;
    r := Pass;
  }

  /** Accepts exactly the acceptable pipelines. Over the default actions these are the pipelines all
      steps of which are reached, and all paths of which are in order. */
  method Validate(reg: Registry, p: Pipeline) returns (r: Outcome)
    requires WellFormed(p)
    ensures r.Pass? <==> StepsAccepted(reg, p) && Acceptable(Check(reg, p))
    ensures reg == DefaultRegistry() ==>
              (r.Pass? <==> StepsAccepted(reg, p) && AllStepsReached(Check(reg, p)) && PathsInOrder(Check(reg, p)))
    ensures r.Fail? ==> Justified(reg, p, r.error)
  {
    hide EntryPath;
    hide Sound;
    hide StepsAccepted;
    hide Justified;
    hide Clean;
    hide Results;
    hide Reach;
    hide Explains;
    hide AllPathsGood;
    hide AllStepsReached;
    hide AllEndsProduceResult;
    hide PathsInOrder;
    hide DefaultRegistry;
    if reg == DefaultRegistry() && StepsAccepted(reg, p) { AcceptedInOrder(p); }
    var steps;
    r, steps := CheckSteps(reg, p);
    if r.Fail? { return r; }
    CheckIsSound(reg, p);
    var c := Checked(reg, steps, p.entry, p.maxSteps);
    var walker := new Walker(c);
    EntryStartsPaths(c, []);
    SoundEntry(c);
    assert Available(c, []) == INITIAL;
    var walked, trail := walker.Walk(p.entry, INITIAL, []);
    CleanIsAllPathsGood(c);
    if walked.Fail? {
      WalkErrorIsJustified(reg, p, walked.error, trail);
      return walked;
    }
    ReachIsAllStepsReached(c);
    ResultsIsAllEndsProduceResult(c);
    assert walker.visited == Reach(c, c.entry, []);
    if walker.visited != steps.Keys {
      UnreachedIsJustified(reg, p);
      return Fail(Unreachable(steps.Keys - walker.visited));
    }
    if false in walker.terminalResults {
      MissingResultIsJustified(reg, p);
      return Fail(NoResult);
    }
    r := Pass;
  }

  lemma WalkErrorIsJustified(reg: Registry, p: Pipeline, error: DefinitionError, trail: seq<string>)
    requires Explains(Check(reg, p), error, trail)
    ensures Justified(reg, p, error)
  {
    hide EntryPath;
  }

  lemma MissingResultIsJustified(reg: Registry, p: Pipeline)
    requires !AllEndsProduceResult(Check(reg, p))
    ensures Justified(reg, p, NoResult)
  {
    hide EntryPath;
  }

  lemma UnreachedIsJustified(reg: Registry, p: Pipeline)
    requires Sound(Check(reg, p)) && AllPathsGood(Check(reg, p))
    ensures var c := Check(reg, p);
            var u := c.steps.Keys - Reach(c, c.entry, []);
            Reach(c, c.entry, []) != c.steps.Keys ==> Justified(reg, p, Unreachable(u))
  {
    hide EntryPath;
    hide Sound;
    hide Reach;
    var c := Check(reg, p);
    ReachIsPathEnds(c);
    if Reach(c, c.entry, []) != c.steps.Keys {
      var x :| x in c.steps && x !in Reach(c, c.entry, []);
      assert x in c.steps.Keys - Reach(c, c.entry, []);
    }
  }

  lemma SoundEntry(c: Checked)
    requires Sound(c)
    ensures c.entry in c.steps
  {
  }
}
