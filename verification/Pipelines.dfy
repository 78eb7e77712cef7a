/** Pipeline definitions, the registry of actions, and what it means for every path through a
    pipeline to be sound.
 */
module Pipelines {
  import opened Outcomes
  import opened Sequences

  datatype TextSource = Answer | LastModelResponse | NormalizedQuery | Evidence

  /** What a part of a prompt is made of. */
  datatype PromptSource = TheQuery | TheEvidence | ContextChunkIds | CitationsText | TraceSummary | TheHistory

  datatype PromptPart = PromptPart(source: PromptSource, template: string)

  /** Parsed step configuration, as far as it decides where a run goes or what a model receives. */
  datatype Config =
    | Plain
    | RetrieveConfig(fromCommand: bool)
    | BudgetConfig(maximum: nat)
    | VariablesConfig(targets: set<TextSource>)
    | CallConfig(parts: seq<PromptPart>, useHistory: bool)
    | LoopGuardConfig(maxLoops: int, onAllow: string, onDeny: string)
    | PrefixConfig(source: TextSource, prefixes: seq<(string, string)>, onOther: string)
    | JsonConfig(source: TextSource, decisions: set<string>, otherDecision: Option<string>)
    | RepeatConfig(source: TextSource, parseJson: bool, onOk: string, onRepeat: string)
    | TransmissionConfig(selected: string, externalAllowed: bool)
    | ExpandConfig(enabled: bool)

  datatype Kind =
    | NormalizeQuery | Retrieve | ExpandGraph | ManageContextBudget | RequireEvidence
    | EnforceTransmission | SetVariables | PrefixRouter | JsonRouter | LoopGuard | RepeatGuard
    | ResolveConversation | StartTurn | LoadHistory | CallModel | Finalize | FinalizeTurn | FailTurn

  datatype Action = Action(kind: Kind, version: string, needs: set<string>, gives: set<string>)

  type Registry = map<string, Action>

  datatype Step = Step(
    id: string, action: string, version: string, next: Option<string>, routes: map<string, string>,
    terminal: bool, config: Config)

  datatype Pipeline = Pipeline(entry: string, maxSteps: nat, steps: seq<Step>)

  /** What the constructors of steps and pipelines already guarantee. */
  predicate WellFormedStep(s: Step) {
    if s.terminal then s.next.None? && s.routes == map[] else s.next.Some? || s.routes != map[]
  }

  predicate WellFormed(p: Pipeline) {
    p.maxSteps >= 1 && p.steps != [] && forall s | s in p.steps :: WellFormedStep(s)
  }

  const INITIAL: set<string> := {"command", "domain", "conversation_history_service"}

  /** The default registry: the identifiers, versions and state contracts of its actions. */
  function DefaultRegistry(): Registry {
    map[
      "normalize_query" := Action(NormalizeQuery, "1.0", {"command"}, {"normalized_query"}),
      "retrieve" := Action(Retrieve, "1.0", {"normalized_query", "domain"}, {"hits"}),
      "expand_graph" := Action(ExpandGraph, "1.0", {"hits", "domain"}, {"hits"}),
      "manage_context_budget" := Action(ManageContextBudget, "1.0", {"hits"}, {"evidence", "citations"}),
      "require_evidence" := Action(RequireEvidence, "1.0", {"evidence", "citations"}, {}),
      "enforce_model_transmission_policy" :=
        Action(EnforceTransmission, "2.0", {"hits", "evidence", "citations"}, {"model_transmission_policy"}),
      "set_variables" := Action(SetVariables, "1.0", {}, {}),
      "prefix_router" := Action(PrefixRouter, "1.0", {}, {}),
      "json_decision_router" := Action(JsonRouter, "1.0", {}, {}),
      "loop_guard" := Action(LoopGuard, "1.0", {}, {}),
      "repeat_query_guard" := Action(RepeatGuard, "1.0", {}, {}),
      "resolve_conversation" :=
        Action(ResolveConversation, "1.0", {"command", "domain", "conversation_history_service"}, {"conversation"}),
      "start_conversation_turn" :=
        Action(StartTurn, "1.0", {"conversation", "conversation_history_service"}, {"conversation_turn"}),
      "load_conversation_history" :=
        Action(LoadHistory, "1.0", {"conversation", "conversation_history_service"}, {"conversation_history"}),
      "call_model" :=
        Action(CallModel, "1.0", {"normalized_query", "evidence", "domain", "model_transmission_policy"}, {"answer"}),
      "finalize" := Action(Finalize, "1.0", {"answer", "citations"}, {"result"}),
      "finalize_conversation_turn" :=
        Action(FinalizeTurn, "1.0", {"conversation_turn", "answer", "conversation_history_service"}, {}),
      "fail_conversation_turn" :=
        Action(FailTurn, "1.0", {"conversation_turn", "conversation_history_service"}, {})
    ]
  }

  /** Only the transmission policy provides what a model call needs from it. */
  predicate PolicyIsGuarded(reg: Registry) {
    forall a | a in reg ::
      && (reg[a].kind.CallModel? ==> "model_transmission_policy" in reg[a].needs)
      && ("model_transmission_policy" in reg[a].gives ==> reg[a].kind.EnforceTransmission?)
  }

  lemma DefaultRegistryGuardsPolicy()
    ensures PolicyIsGuarded(DefaultRegistry())
  {
  }

  /** The template has a place for the value. */
  predicate HasPlace(template: string) {
    exists i :: 0 <= i < |template| - 1 && template[i] == '{' && template[i + 1] == '}'
  }

  /** `validate_config` of the step's action: configured routes are declared. */
  predicate ConfigAccepted(kind: Kind, s: Step) {
    match kind
    case LoopGuard =>
      s.config.LoopGuardConfig? && s.config.maxLoops >= 1 && s.config.onAllow in s.routes && s.config.onDeny in s.routes
    case PrefixRouter =>
      && s.config.PrefixConfig? && s.config.prefixes != [] && s.config.onOther in s.routes
      && forall x | x in s.config.prefixes :: x.0 in s.routes && x.1 != ""
    case JsonRouter =>
      && s.config.JsonConfig? && s.config.decisions != {} && s.config.decisions <= s.routes.Keys
      && (s.config.otherDecision.Some? ==> s.config.otherDecision.value in s.routes)
    case RepeatGuard => s.config.RepeatConfig? && s.config.onOk in s.routes && s.config.onRepeat in s.routes
    case EnforceTransmission => s.config.TransmissionConfig?
    case ExpandGraph => s.config.ExpandConfig?
    case Retrieve => s.config.RetrieveConfig?
    case ManageContextBudget => s.config.BudgetConfig? && s.config.maximum >= 1
    case SetVariables => s.config.VariablesConfig?
    case CallModel =>
      && s.config.CallConfig? && s.config.parts != []
      && forall x | x in s.config.parts :: HasPlace(x.template) && (x.source.TheHistory? ==> s.config.useHistory)
    case _ => s.config.Plain?
  }

  predicate Routes(kind: Kind) {
    kind.LoopGuard? || kind.PrefixRouter? || kind.JsonRouter? || kind.RepeatGuard?
  }

  function Targets(s: Step): set<string> {
    s.routes.Values + if s.next.Some? then {s.next.value} else {}
  }

  // ------------------------------------------------------------------ the checked pipeline

  /** A pipeline whose steps passed the checks made step by step, with the step dictionary. */
  datatype Checked = Checked(reg: Registry, steps: map<string, Step>, entry: string, maxSteps: nat)

  predicate StepAccepted(reg: Registry, steps: map<string, Step>, s: Step) {
    && s.action in reg && reg[s.action].version == s.version
    && Targets(s) <= steps.Keys
    && ConfigAccepted(reg[s.action].kind, s)
  }

  predicate Sound(c: Checked) {
    && c.entry in c.steps && c.maxSteps >= 1
    && forall id | id in c.steps ::
         c.steps[id].id == id && WellFormedStep(c.steps[id]) && StepAccepted(c.reg, c.steps, c.steps[id])
  }

  /** State a step needs and provides, where it leads, and whether it ends a run. */
  function Needs(c: Checked, id: string): set<string> {
    if id in c.steps && c.steps[id].action in c.reg then c.reg[c.steps[id].action].needs else {}
  }

  function Gives(c: Checked, id: string): set<string> {
    if id in c.steps && c.steps[id].action in c.reg then c.reg[c.steps[id].action].gives else {}
  }

  function KindOf(c: Checked, id: string): Option<Kind> {
    if id in c.steps && c.steps[id].action in c.reg then Some(c.reg[c.steps[id].action].kind) else None
  }

  function After(c: Checked, id: string): set<string> {
    if id in c.steps then Targets(c.steps[id]) else {}
  }

  predicate Terminal(c: Checked, id: string) { id in c.steps && c.steps[id].terminal }

  ghost predicate UniqueIds(steps: seq<Step>) {
    forall i, j :: 0 <= i < j < |steps| ==> steps[i].id != steps[j].id
  }

  ghost function StepMap(steps: seq<Step>): map<string, Step> {
    if steps == [] then map[]
    else StepMap(steps[..|steps| - 1])[steps[|steps| - 1].id := steps[|steps| - 1]]
  }

  ghost predicate StepsAccepted(reg: Registry, p: Pipeline) {
    && UniqueIds(p.steps) && p.entry in StepMap(p.steps)
    && forall s | s in p.steps :: StepAccepted(reg, StepMap(p.steps), s)
  }

  ghost function Check(reg: Registry, p: Pipeline): Checked {
    Checked(reg, StepMap(p.steps), p.entry, p.maxSteps)
  }

  lemma {:induction false} StepMapKeys(steps: seq<Step>)
    ensures forall s | s in steps :: s.id in StepMap(steps)
    ensures forall id | id in StepMap(steps) :: StepMap(steps)[id] in steps && StepMap(steps)[id].id == id
  {
    if steps != [] {
      StepMapKeys(steps[..|steps| - 1]);
      assert steps == steps[..|steps| - 1] + [steps[|steps| - 1]];
    }
  }

  lemma UniqueIdsSplit(before: seq<Step>, last: Step)
    ensures UniqueIds(before + [last]) <==> UniqueIds(before) && forall s | s in before :: s.id != last.id
  {
    var all := before + [last];
    if UniqueIds(all) {
      forall i, j | 0 <= i < j < |before| ensures before[i].id != before[j].id {
        assert all[i] == before[i] && all[j] == before[j];
      }
      forall s | s in before ensures s.id != last.id {
        var i :| 0 <= i < |before| && before[i] == s;
        assert all[i] == s && all[|before|] == last;
      }
    }
  }

  lemma SizeOfUpdate<K, V>(m: map<K, V>, k: K, v: V)
    ensures |m[k := v]| == |m| + if k in m then 0 else 1
  {
    assert |m| == |m.Keys| && |m[k := v]| == |m[k := v].Keys|;
    assert m[k := v].Keys == m.Keys + {k};
  }

  /** Comparing sizes, as the code does, detects repeated identifiers. */
  lemma {:induction false} StepMapSize(steps: seq<Step>)
    ensures |StepMap(steps)| <= |steps|
    ensures |StepMap(steps)| == |steps| <==> UniqueIds(steps)
  {
    hide UniqueIds;
    if steps == [] {
      assert UniqueIds(steps) by { NoIdsRepeat(); }
    } else {
      var before, last := steps[..|steps| - 1], steps[|steps| - 1];
      StepMapSize(before);
      StepMapKeys(before);
      UniqueIdsSplit(before, last);
      assert steps == before + [last];
      var m := StepMap(before);
      SizeOfUpdate(m, last.id, last);
      if last.id in m {
        assert m[last.id] in before && m[last.id].id == last.id;
      } else {
        forall s | s in before ensures s.id != last.id { assert s.id in m; }
      }
    }
  }

  lemma NoIdsRepeat()
    ensures UniqueIds([])
  {
  }

  lemma {:induction false} StepMapHoldsAll(steps: seq<Step>)
    requires UniqueIds(steps)
    ensures forall s | s in steps :: s.id in StepMap(steps) && StepMap(steps)[s.id] == s
  {
    if steps != [] {
      var before, last := steps[..|steps| - 1], steps[|steps| - 1];
      assert steps == before + [last];
      UniqueIdsSplit(before, last);
      StepMapHoldsAll(before);
    }
  }

  lemma CheckIsSound(reg: Registry, p: Pipeline)
    requires WellFormed(p) && StepsAccepted(reg, p)
    ensures Sound(Check(reg, p))
  {
    StepMapKeys(p.steps);
  }

  // ----------------------------------------------------------------------------- paths

  /** A path from the entry step along declared transitions. */
  ghost predicate EntryPath(c: Checked, q: seq<string>) {
    q != [] && q[0] == c.entry && forall i :: 0 < i < |q| ==> q[i] in After(c, q[i - 1])
  }

  /** State provided once the steps of a path have run. */
  ghost function Available(c: Checked, q: seq<string>): set<string> {
    if q == [] then INITIAL else Available(c, Init(q)) + Gives(c, Last(q))
  }

  function Init<T>(q: seq<T>): seq<T>
    requires q != []
  {
    q[..|q| - 1]
  }

  function Last<T>(q: seq<T>): T
    requires q != []
  {
    q[|q| - 1]
  }

  /** A path that may be walked: no step twice, short enough, last step supplied. */
  ghost predicate GoodPath(c: Checked, q: seq<string>)
    requires q != []
  {
    NoRepeat(q) && |q| <= c.maxSteps && Needs(c, Last(q)) <= Available(c, Init(q))
  }

  ghost predicate AllPathsGood(c: Checked) {
    forall q | EntryPath(c, q) :: GoodPath(c, q)
  }

  ghost predicate AllStepsReached(c: Checked) {
    forall id | id in c.steps :: exists q :: EntryPath(c, q) && Last(q) == id
  }

  ghost predicate AllEndsProduceResult(c: Checked) {
    forall q | EntryPath(c, q) && Terminal(c, Last(q)) :: "result" in Available(c, q)
  }

  ghost predicate Acceptable(c: Checked) {
    AllPathsGood(c) && AllStepsReached(c) && AllEndsProduceResult(c)
  }

  lemma PathGrows(c: Checked, q: seq<string>, t: string)
    requires EntryPath(c, q) && t in After(c, Last(q))
    ensures EntryPath(c, q + [t])
  {
    hide After;
    var r := q + [t];
    forall i | 0 < i < |r| ensures r[i] in After(c, r[i - 1]) {
      if i < |q| { assert r[i] == q[i] && r[i - 1] == q[i - 1]; }
    }
  }

  lemma PathPrefix(c: Checked, q: seq<string>, k: nat)
    requires EntryPath(c, q) && 0 < k <= |q|
    ensures EntryPath(c, q[..k])
  {
    hide After;
  }

  lemma AfterInSteps(c: Checked, id: string)
    requires Sound(c)
    ensures After(c, id) <= c.steps.Keys
  {
    if id in c.steps { assert StepAccepted(c.reg, c.steps, c.steps[id]); }
  }

  /** A path of a sound pipeline stays inside its steps. */
  lemma {:induction false} PathInSteps(c: Checked, q: seq<string>)
    requires Sound(c) && EntryPath(c, q)
    ensures forall x | x in q :: x in c.steps
    decreases |q|
  {
    hide StepAccepted;
    hide WellFormedStep;
    hide After;
    if |q| > 1 {
      PathPrefix(c, q, |q| - 1);
      PathInSteps(c, Init(q));
      AfterInSteps(c, q[|q| - 2]);
      assert q == Init(q) + [Last(q)];
    }
  }
}
