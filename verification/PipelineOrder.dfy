/** What acceptance means for the default actions, in kinds of steps: on every path, what a step
    works on has been made by a step before it, and every end has been finalized.
 */
module PipelineOrder {
  import opened Outcomes
  import opened Pipelines
  import opened Sequences

  /** A step of this kind is on the path. */
  ghost predicate Has(c: Checked, path: seq<string>, kind: Kind) {
    exists i :: 0 <= i < |path| && KindOf(c, path[i]) == Some(kind)
  }

  /** What has to come before a step of a kind. */
  ghost predicate Prepared(c: Checked, before: seq<string>, kind: Kind) {
    match kind
    case Retrieve => Has(c, before, NormalizeQuery)
    case ExpandGraph => Has(c, before, Retrieve)
    case ManageContextBudget => Has(c, before, Retrieve)
    case RequireEvidence => Has(c, before, ManageContextBudget)
    case EnforceTransmission => Has(c, before, Retrieve) && Has(c, before, ManageContextBudget)
    case CallModel =>
      && Has(c, before, NormalizeQuery) && Has(c, before, ManageContextBudget) && Has(c, before, EnforceTransmission)
    case Finalize => Has(c, before, CallModel) && Has(c, before, ManageContextBudget)
    case StartTurn => Has(c, before, ResolveConversation)
    case LoadHistory => Has(c, before, ResolveConversation)
    case FinalizeTurn => Has(c, before, StartTurn) && Has(c, before, CallModel)
    case FailTurn => Has(c, before, StartTurn)
    case _ => true
  }

  /** Every step of the path is prepared by the steps before it. */
  ghost predicate InOrder(c: Checked, path: seq<string>) {
    forall i | 0 <= i < |path| :: KindOf(c, path[i]).Some? && Prepared(c, path[..i], KindOf(c, path[i]).value)
  }

  /** Every step of the path finds the state it needs. */
  ghost predicate Supplied(c: Checked, path: seq<string>) {
    forall i | 0 <= i < |path| :: Needs(c, path[i]) <= Available(c, path[..i])
  }

  ghost predicate InSteps(c: Checked, path: seq<string>) { forall id | id in path :: KindOf(c, id).Some? }

  // --------------------------------------------------------------- what a piece of state stands for

  lemma HasStep(c: Checked, path: seq<string>, kind: Kind)
    requires path != []
    ensures Has(c, path, kind) <==> Has(c, Init(path), kind) || KindOf(c, Last(path)) == Some(kind)
  {
    if Has(c, path, kind) && KindOf(c, Last(path)) != Some(kind) {
      var i :| 0 <= i < |path| && KindOf(c, path[i]) == Some(kind);
      assert Init(path)[i] == path[i];
    }
    if Has(c, Init(path), kind) {
      var i :| 0 <= i < |Init(path)| && KindOf(c, Init(path)[i]) == Some(kind);
      assert path[i] == Init(path)[i];
    }
  }

  lemma InOrderStep(c: Checked, path: seq<string>)
    requires path != []
    ensures InOrder(c, path) <==>
              InOrder(c, Init(path)) && KindOf(c, Last(path)).Some? && Prepared(c, Init(path), KindOf(c, Last(path)).value)
  {
    hide Prepared;
    hide KindOf;
    assert forall i | 0 <= i < |path| - 1 :: Init(path)[..i] == path[..i] && Init(path)[i] == path[i];
    assert path[..|path| - 1] == Init(path);
  }

  lemma SuppliedStep(c: Checked, path: seq<string>)
    requires path != []
    ensures Supplied(c, path) <==> Supplied(c, Init(path)) && Needs(c, Last(path)) <= Available(c, Init(path))
  {
    hide Needs;
    hide Available;
    assert forall i | 0 <= i < |path| - 1 :: Init(path)[..i] == path[..i] && Init(path)[i] == path[i];
    assert path[..|path| - 1] == Init(path);
  }

  /** The pieces of state that the steps so far have provided. */
  ghost predicate Stands(c: Checked, path: seq<string>) {
    var a := Available(c, path);
    && {"command", "domain", "conversation_history_service"} <= a
    && ("normalized_query" in a <==> Has(c, path, NormalizeQuery))
    && ("hits" in a <==> Has(c, path, Retrieve))
    && ("evidence" in a <==> Has(c, path, ManageContextBudget))
    && ("citations" in a <==> Has(c, path, ManageContextBudget))
    && ("model_transmission_policy" in a <==> Has(c, path, EnforceTransmission))
    && ("answer" in a <==> Has(c, path, CallModel))
    && ("result" in a <==> Has(c, path, Finalize))
    && ("conversation" in a <==> Has(c, path, ResolveConversation))
    && ("conversation_turn" in a <==> Has(c, path, StartTurn))
  }

  /** What the default action of each kind provides. */
  lemma ProvidedByKind(c: Checked, id: string)
    requires c.reg == DefaultRegistry() && KindOf(c, id).Some?
    ensures var kind, given := KindOf(c, id).value, Gives(c, id);
            && ("normalized_query" in given <==> kind.NormalizeQuery?)
            && ("hits" in given <==> kind.Retrieve? || kind.ExpandGraph?)
            && ("evidence" in given <==> kind.ManageContextBudget?)
            && ("citations" in given <==> kind.ManageContextBudget?)
            && ("model_transmission_policy" in given <==> kind.EnforceTransmission?)
            && ("answer" in given <==> kind.CallModel?)
            && ("result" in given <==> kind.Finalize?)
            && ("conversation" in given <==> kind.ResolveConversation?)
            && ("conversation_turn" in given <==> kind.StartTurn?)
  {
  }

  /** One more step provides what its kind provides. */
  lemma StandsStep(c: Checked, path: seq<string>)
    requires c.reg == DefaultRegistry() && path != [] && KindOf(c, Last(path)).Some?
    requires Stands(c, Init(path)) && Prepared(c, Init(path), KindOf(c, Last(path)).value)
    ensures Stands(c, path)
  {
    hide Has;
    HasStep(c, path, NormalizeQuery);
    HasStep(c, path, Retrieve);
    HasStep(c, path, ManageContextBudget);
    HasStep(c, path, EnforceTransmission);
    HasStep(c, path, CallModel);
    HasStep(c, path, Finalize);
    HasStep(c, path, ResolveConversation);
    HasStep(c, path, StartTurn);
    ProvidedByKind(c, Last(path));
    hide KindOf;
    hide Gives;
    assert Available(c, path) == Available(c, Init(path)) + Gives(c, Last(path));
    hide Available;
  }

  /** Where the pieces stand for steps, a step is supplied exactly if it is prepared. */
  lemma SuppliedIsPrepared(c: Checked, path: seq<string>, id: string)
    requires c.reg == DefaultRegistry() && KindOf(c, id).Some? && Stands(c, path)
    ensures Needs(c, id) <= Available(c, path) <==> Prepared(c, path, KindOf(c, id).value)
  {
    hide Has;
    hide Available;
  }

  lemma NothingStands(c: Checked)
    ensures Stands(c, [])
  {
  }

  lemma {:induction false} SuppliedIsInOrder(c: Checked, path: seq<string>)
    requires c.reg == DefaultRegistry() && InSteps(c, path)
    ensures Supplied(c, path) <==> InOrder(c, path)
    ensures InOrder(c, path) ==> Stands(c, path)
    decreases |path|
  {
    hide Stands;
    hide Prepared;
    hide Supplied;
    hide InOrder;
    if path == [] {
      NothingStands(c);
      EmptyIsInOrder(c);
    } else {
      assert path == Init(path) + [Last(path)];
      SuppliedIsInOrder(c, Init(path));
      SuppliedStep(c, path);
      InOrderStep(c, path);
      if InOrder(c, Init(path)) {
        SuppliedIsPrepared(c, Init(path), Last(path));
        if InOrder(c, path) { StandsStep(c, path); }
      }
    }
  }

  lemma EmptyIsInOrder(c: Checked)
    ensures Supplied(c, []) && InOrder(c, [])
  {
  }

  // ---------------------------------------------------------------------------- acceptance

  /** Every path may be walked, its steps in order, and every end has been finalized. */
  ghost predicate PathsInOrder(c: Checked) {
    forall q | EntryPath(c, q) ::
      && NoRepeat(q) && |q| <= c.maxSteps && InOrder(c, q)
      && (Terminal(c, Last(q)) ==> Has(c, q, Finalize))
  }

  lemma PathKinds(c: Checked, q: seq<string>)
    requires Sound(c) && EntryPath(c, q)
    ensures InSteps(c, q)
  {
    hide EntryPath;
    hide ConfigAccepted;
    hide Targets;
    PathInSteps(c, q);
    forall id | id in q ensures KindOf(c, id).Some? { assert StepAccepted(c.reg, c.steps, c.steps[id]); }
  }

  lemma GoodPathsAreSupplied(c: Checked, q: seq<string>)
    requires EntryPath(c, q) && AllPathsGood(c)
    ensures Supplied(c, q)
  {
    hide EntryPath;
    hide NoRepeat;
    hide Needs;
    hide Available;
    forall i | 0 <= i < |q| ensures Needs(c, q[i]) <= Available(c, q[..i]) {
      PathPrefix(c, q, i + 1);
      assert GoodPath(c, q[..i + 1]);
      assert Init(q[..i + 1]) == q[..i] && Last(q[..i + 1]) == q[i];
    }
  }

  lemma SuppliedIsGood(c: Checked, q: seq<string>)
    requires EntryPath(c, q) && Supplied(c, q) && NoRepeat(q) && |q| <= c.maxSteps
    ensures q != [] && GoodPath(c, q)
  {
    NotEmpty(c, q);
    hide EntryPath;
    hide NoRepeat;
    hide Needs;
    hide Available;
    assert q[..|q| - 1] == Init(q);
  }

  /** For the default actions acceptance speaks of kinds of steps only. */
  lemma AcceptanceInKinds(c: Checked)
    requires c.reg == DefaultRegistry() && Sound(c)
    ensures Acceptable(c) <==> AllStepsReached(c) && PathsInOrder(c)
  {
    hide EntryPath;
    hide Sound;
    hide NoRepeat;
    hide InOrder;
    hide Supplied;
    hide Available;
    hide Needs;
    hide Has;
    hide Terminal;
    hide AllStepsReached;
    if Acceptable(c) {
      forall q | EntryPath(c, q)
        ensures q != [] && NoRepeat(q) && |q| <= c.maxSteps && InOrder(c, q)
        ensures Terminal(c, Last(q)) ==> Has(c, q, Finalize)
      {
        NotEmpty(c, q);
        GoodPathsAreSupplied(c, q);
        PathKinds(c, q);
        SuppliedIsInOrder(c, q);
        assert GoodPath(c, q);
      }
    }
    if PathsInOrder(c) {
      forall q | EntryPath(c, q) ensures q != [] && GoodPath(c, q)
                                   ensures Terminal(c, Last(q)) ==> "result" in Available(c, q)
      {
        NotEmpty(c, q);
        PathKinds(c, q);
        SuppliedIsInOrder(c, q);
        SuppliedIsGood(c, q);
      }
    }
  }

  lemma NotEmpty(c: Checked, q: seq<string>)
    requires EntryPath(c, q)
    ensures q != []
  {
  }

  lemma AcceptedInOrder(p: Pipeline)
    requires WellFormed(p) && StepsAccepted(DefaultRegistry(), p)
    ensures var c := Check(DefaultRegistry(), p); Acceptable(c) <==> AllStepsReached(c) && PathsInOrder(c)
  {
    hide Acceptable;
    hide AllStepsReached;
    hide PathsInOrder;
    hide DefaultRegistry;
    CheckIsSound(DefaultRegistry(), p);
    AcceptanceInKinds(Check(DefaultRegistry(), p));
  }
}
