/** What acceptance by the validator does not exclude, each shown on a straight pipeline over the
    default registry.
 */
module PipelineLimits {
  import opened Outcomes
  import opened PipelineRuns
  import opened Pipelines
  import opened StraightPipelines
  import EvidenceContext
  import Identifiers
  import Security

  // ---------------------------------------------------------------------------- the pipelines

  function Normalizing(byRoute: bool): Row { Row("normalize_query", "1.0", Plain, byRoute) }

  function Retrieving(): Row { Row("retrieve", "1.0", RetrieveConfig(false), false) }

  function Rendering(): Row { Row("manage_context_budget", "1.0", BudgetConfig(BUDGET), false) }

  function Checking(): Row { Row("enforce_model_transmission_policy", "2.0", TransmissionConfig("m", false), false) }

  function Asking(source: PromptSource): Row {
    Row("call_model", "1.0", CallConfig([PromptPart(source, "{}")], false), false)
  }

  function Finishing(): Row { Row("finalize", "1.0", Plain, false) }

  lemma UsedActions()
    ensures var r := DefaultRegistry();
            && "normalize_query" in r && r["normalize_query"] == Action(NormalizeQuery, "1.0", {"command"}, {"normalized_query"})
            && "retrieve" in r && r["retrieve"] == Action(Retrieve, "1.0", {"normalized_query", "domain"}, {"hits"})
            && "manage_context_budget" in r
            && r["manage_context_budget"] == Action(ManageContextBudget, "1.0", {"hits"}, {"evidence", "citations"})
            && "enforce_model_transmission_policy" in r
            && r["enforce_model_transmission_policy"] ==
                 Action(EnforceTransmission, "2.0", {"hits", "evidence", "citations"}, {"model_transmission_policy"})
            && "call_model" in r
            && r["call_model"] ==
                 Action(CallModel, "1.0", {"normalized_query", "evidence", "domain", "model_transmission_policy"}, {"answer"})
            && "finalize" in r && r["finalize"] == Action(Finalize, "1.0", {"answer", "citations"}, {"result"})
  {
  }

  /** The rows are of these six kinds. */
  predicate Usual(row: Row) {
    row in {Normalizing(false), Normalizing(true), Retrieving(), Rendering(), Checking(), Asking(TheEvidence),
            Asking(TraceSummary), Finishing()}
  }

  lemma GivenNext(rows: seq<Row>, i: nat)
    requires i < |rows| && Usual(rows[i])
    ensures rows[i].action in DefaultRegistry()
    ensures Given(DefaultRegistry(), rows[..i + 1]) == Given(DefaultRegistry(), rows[..i]) + DefaultRegistry()[rows[i].action].gives
  {
    hide DefaultRegistry;
    UsedActions();
    assert Init(rows[..i + 1]) == rows[..i] && Last(rows[..i + 1]) == rows[i];
  }

  /** The kind of a usual row. */
  function KindOfRow(row: Row): Kind {
    if row == Retrieving() then Retrieve
    else if row == Rendering() then ManageContextBudget
    else if row == Checking() then EnforceTransmission
    else if row == Finishing() then Finalize
    else if row.config.CallConfig? then CallModel
    else NormalizeQuery
  }

  lemma UsualKind(row: Row)
    requires Usual(row)
    ensures row.action in DefaultRegistry()
    ensures DefaultRegistry()[row.action].kind == KindOfRow(row) && DefaultRegistry()[row.action].version == row.version
  {
    hide DefaultRegistry;
    UsedActions();
  }

  lemma UsualConfig(row: Row, step: Step)
    requires Usual(row) && step.config == row.config
    ensures ConfigAccepted(KindOfRow(row), step)
  {
    var template := "{}";
    assert template[0] == '{' && template[1] == '}';
    assert HasPlace(template);
  }

  lemma UsualFits(rows: seq<Row>, i: nat)
    requires i < |rows| && Usual(rows[i]) && rows[i].action in DefaultRegistry()
    requires DefaultRegistry()[rows[i].action].needs <= Given(DefaultRegistry(), rows[..i])
    ensures Fits(DefaultRegistry(), rows, i)
  {
    hide DefaultRegistry;
    hide Given;
    hide Usual;
    hide KindOfRow;
    hide ConfigAccepted;
    hide LineStep;
    LineEnd(rows, i);
    UsualKind(rows[i]);
    UsualConfig(rows[i], LineStep(rows, i));
  }

  /** What a row gives is available to all later ones. */
  lemma {:induction false} Supplies(rows: seq<Row>, k: nat, j: nat)
    requires k < j <= |rows| && forall i | k <= i < j :: Usual(rows[i])
    ensures rows[k].action in DefaultRegistry()
    ensures DefaultRegistry()[rows[k].action].gives <= Given(DefaultRegistry(), rows[..j])
    decreases j
  {
    hide DefaultRegistry;
    hide Given;
    hide Usual;
    GivenNext(rows, j - 1);
    if k < j - 1 { Supplies(rows, k, j - 1); }
  }

  lemma {:induction false} InitialIsGiven(rows: seq<Row>, j: nat)
    requires j <= |rows|
    ensures INITIAL <= Given(DefaultRegistry(), rows[..j])
  {
    hide DefaultRegistry;
    if j > 0 {
      InitialIsGiven(rows, j - 1);
      assert Init(rows[..j]) == rows[..j - 1];
    }
  }

  /** A question is normalised, searched for, rendered in row 2, checked in row `check`, asked and
      finished in the last two rows. */
  ghost predicate Answers(rows: seq<Row>, check: nat) {
    && 2 < check < |rows| - 2 && (forall i | 0 <= i < |rows| :: Usual(rows[i]))
    && rows[0].action == "normalize_query" && rows[1] == Retrieving() && rows[2] == Rendering() && rows[check] == Checking()
    && rows[|rows| - 2].action == "call_model" && rows[|rows| - 1] == Finishing()
    && forall i | 2 < i < |rows| - 2 && i != check :: rows[i] == Retrieving()
  }

  lemma AnswersFit(rows: seq<Row>, check: nat, i: nat)
    requires Answers(rows, check) && i < |rows|
    ensures Fits(DefaultRegistry(), rows, i)
  {
    hide DefaultRegistry;
    hide Given;
    hide Fits;
    UsedActions();
    InitialIsGiven(rows, i);
    assert Usual(rows[i]);
    if i > 0 { Supplies(rows, 0, i); }
    if i > 1 { Supplies(rows, 1, i); }
    if i > 2 { Supplies(rows, 2, i); }
    if i > check { Supplies(rows, check, i); }
    if i == |rows| - 1 { Supplies(rows, i - 1, i); }
    UsualFits(rows, i);
  }

  lemma AnswersAreAccepted(rows: seq<Row>, check: nat)
    requires Answers(rows, check)
    ensures WellFormed(Line(rows)) && StepsAccepted(DefaultRegistry(), Line(rows))
    ensures Acceptable(Check(DefaultRegistry(), Line(rows)))
  {
    hide DefaultRegistry;
    hide Given;
    hide Fits;
    hide Line;
    hide Acceptable;
    hide StepsAccepted;
    hide WellFormed;
    hide Check;
    forall i | 0 <= i < |rows| ensures Fits(DefaultRegistry(), rows, i) { AnswersFit(rows, check, i); }
    UsedActions();
    Supplies(rows, |rows| - 1, |rows|);
    assert rows[..|rows|] == rows;
    LineIsAccepted(DefaultRegistry(), rows);
  }

  // ------------------------------------------------------------------------------ the worlds

  const SECRET := "plans"

  const SECRET_ID := "c"

  const BUDGET := 100

  function SecretHit(): Hit {
    Hit(EvidenceContext.Hit("s", SECRET_ID, "bm25", "1", "u", SECRET), Security.Chunk("t", "d", {}, Security.Labels(None, {"secret"})))
  }

  function OpenServer(): Security.Server { Security.Server("m", Security.Internal, Security.ProfileLabels({}), None) }

  /** A template that is nothing but its place is replaced by the value. */
  ghost predicate FillsPlaces(base: World) { forall value :: base.format("{}", value) == value }

  ghost predicate Holds(text: string, part: string) { exists before: string, after: string :: text == before + part + after }

  /** Nothing fails; the step at position `at` finds a secret document, which the subject may see
      and the only model server may not. Texts are decoded, stripped and filled in as in any world. */
  function Finding(base: World, at: nat): World {
    base.(request := Security.Request("t", "d", {}, Security.LabelsModel({"secret"}), Security.Labels(None, {"secret"})),
          replies := (n: nat) => Reply(false, false, if n == at then [SecretHit()] else [], "", Texts("", "", "", "")),
          servers := map["m" := OpenServer()], subjectMayUseExternal := false, recordFails := (n: nat) => false)
  }

  lemma WorldAnswers(base: World, at: nat, n: nat)
    ensures var w := Finding(base, at);
            && ReplyTo(w, n).hits == (if n == at then [SecretHit()] else [])
            && !ReplyTo(w, n).fails && !ReplyTo(w, n).lost && !RecordFails(w, n)
            && AllVisible(w.request, ReplyTo(w, n).hits)
  {
    var w := Finding(base, at);
    assert Security.MemoryFilter(w.request, SecretHit().chunk) == Ok(true);
  }

  lemma EmptyContextIsCleared(base: World, at: nat)
    ensures var w := Finding(base, at);
            Security.TransmissionDecision(w.request.model, w.servers, "m", LabelsOf([]), false, w.subjectMayUseExternal) ==
            Ok(Security.Transmission(true, "model_server_allowed", "m", Some("m"), false, Some(OpenServer())))
  {
    var w := Finding(base, at);
    assert LabelsOf([]) == [];
    assert Security.RequirementOf(w.request.model, []) == Ok(Security.RequireLabels({}));
  }

  lemma SecretIsNotForServer(base: World, at: nat)
    ensures forall external :: !Cleared(Finding(base, at), OpenServer(), [SecretHit()], external)
  {
    var labels := SecretHit().chunk.security;
    assert LabelsOf([SecretHit()])[0] == labels;
    assert "secret" in labels.classification;
    assert !Security.Sees(Finding(base, at).request.model, labels, Security.AsSubject(OpenServer().profile));
  }

  // -------------------------------------------------------------------------------- the runs

  /** Where a run stands: the hits, what the evidence was made of, and whether the policy allowed. */
  datatype Stage = Stage(hits: seq<Hit>, rendered: seq<Hit>, original: bool, permitted: bool)

  ghost predicate At(w: World, s: State, n: nat, stage: Stage) {
    && s.trace == Ids(n) && s.calls == []
    && s.hits == stage.hits && s.rendered == stage.rendered && s.original == stage.original
    && (s.original ==> s.maximum == BUDGET && s.texts.evidence == Rendered(s.rendered, BUDGET))
    && s.model == OpenServer() && (stage.permitted ==> Permitted(s))
  }

  function Later(row: Row, stage: Stage, found: seq<Hit>): Stage {
    if row == Retrieving() then stage.(hits := found)
    else if row == Rendering() then stage.(rendered := stage.hits, original := true)
    else if row == Checking() then stage.(permitted := true)
    else stage
  }

  predicate Before(row: Row) { row in {Normalizing(false), Retrieving(), Rendering(), Checking()} }

  /** A step of such a row, as it stands in a line. */
  ghost predicate StepOf(row: Row, step: Step) {
    step.config == row.config && ConfigAccepted(KindOfRow(row), step)
  }

  lemma StepIsConfigured(row: Row, step: Step)
    ensures StepOf(row, step) ==> ConfigAccepted(KindOfRow(row), step)
  {
  }

  lemma RetrieveGoesOn(step: Step, base: World, at: nat, s: State, n: nat, stage: Stage)
    requires StepOf(Retrieving(), step) && At(Finding(base, at), s, n, stage)
    ensures var r := ActRetrieve(step, s, Finding(base, at));
            && r.outcome == Ok(None)
            && At(Finding(base, at), r.state.(trace := Ids(n + 1)), n + 1, stage.(hits := ReplyTo(Finding(base, at), n).hits))
  {
    hide Finding;
    hide Ids;
    hide AllVisible;
    assert |s.trace| == n by { assert |Ids(n)| == n; }
    WorldAnswers(base, at, n);
  }

  lemma RenderGoesOn(step: Step, base: World, at: nat, s: State, n: nat, stage: Stage)
    requires StepOf(Rendering(), step) && At(Finding(base, at), s, n, stage)
    ensures var r := ActBudget(step, s);
            && r.outcome == Ok(None)
            && At(Finding(base, at), r.state.(trace := Ids(n + 1)), n + 1, stage.(rendered := stage.hits, original := true))
  {
    hide Finding;
    hide Ids;
  }

  lemma CheckGoesOn(step: Step, base: World, at: nat, s: State, n: nat, stage: Stage)
    requires StepOf(Checking(), step) && At(Finding(base, at), s, n, stage) && stage.hits == []
    ensures var r := ActEnforce(step, s, Finding(base, at));
            && r.outcome == Ok(None) && r.state.checkedHits == []
            && At(Finding(base, at), r.state.(trace := Ids(n + 1)), n + 1, stage.(permitted := true))
  {
    hide Finding;
    hide Ids;
    hide LabelsOf;
    hide Security.TransmissionDecision;
    EmptyContextIsCleared(base, at);
  }

  /** One round of a run through a row before the model call. */
  lemma RowGoesOn(step: Step, row: Row, base: World, at: nat, s: State, n: nat, stage: Stage)
    requires Before(row) && StepOf(row, step) && At(Finding(base, at), s, n, stage) && (row == Checking() ==> stage.hits == [])
    ensures var r := Act(KindOfRow(row), step, s, Finding(base, at));
            && r.outcome == Ok(None)
            && At(Finding(base, at), r.state.(trace := Ids(n + 1)), n + 1, Later(row, stage, ReplyTo(Finding(base, at), n).hits))
  {
    hide ActRetrieve;
    hide ActBudget;
    hide ActEnforce;
    hide Finding;
    hide Ids;
    if row == Retrieving() {
      hide At;
      RetrieveGoesOn(step, base, at, s, n, stage);
    } else if row == Rendering() {
      hide At;
      RenderGoesOn(step, base, at, s, n, stage);
    } else if row == Checking() {
      hide At;
      CheckGoesOn(step, base, at, s, n, stage);
    }
  }

  /** How the n-th row of a line is found. */
  lemma RowInLine(rows: seq<Row>, n: nat)
    requires n < |rows| && Usual(rows[n])
    ensures var c := Check(DefaultRegistry(), Line(rows));
            var step := LineStep(rows, n);
            && Id(n) in c.steps && c.steps[Id(n)] == step && step.action in c.reg && c.maxSteps == |rows|
            && c.reg[step.action].kind == KindOfRow(rows[n]) && StepOf(rows[n], step)
  {
    hide DefaultRegistry;
    hide Usual;
    hide KindOfRow;
    hide ConfigAccepted;
    hide Line;
    hide LineStep;
    hide Id;
    LineEnd(rows, n);
    LineSize(rows);
    LineSteps(DefaultRegistry(), rows);
    UsualKind(rows[n]);
    UsualConfig(rows[n], LineStep(rows, n));
  }

  /** How it is left. */
  lemma RowLeadsOn(rows: seq<Row>, n: nat)
    requires n < |rows| && !rows[n].byRoute
    ensures NextStep(LineStep(rows, n), None) == Ok(if n == |rows| - 1 then None else Some(Id(n + 1)))
  {
    hide Id;
  }

  lemma Advance(rows: seq<Row>, base: World, at: nat, s: State, n: nat, log: seq<Audit>, stage: Stage)
    returns (t: State, written: seq<Audit>)
    requires n + 1 < |rows| && Before(rows[n])
    requires At(Finding(base, at), s, n, stage) && (rows[n] == Checking() ==> stage.hits == [])
    ensures var c := Check(DefaultRegistry(), Line(rows));
            Run(c, Finding(base, at), s, Id(n), log) == Run(c, Finding(base, at), t, Id(n + 1), written)
    ensures At(Finding(base, at), t, n + 1, Later(rows[n], stage, ReplyTo(Finding(base, at), n).hits))
  {
    hide DefaultRegistry;
    hide Line;
    hide LineStep;
    hide Id;
    hide Act;
    hide StepOf;
    hide ConfigAccepted;
    hide NextStep;
    hide Finding;
    hide Ids;
    var c := Check(DefaultRegistry(), Line(rows));
    RowInLine(rows, n);
    RowLeadsOn(rows, n);
    var step := LineStep(rows, n);
    assert StepOf(rows[n], step) ==> ConfigAccepted(KindOfRow(rows[n]), step) by { StepIsConfigured(rows[n], step); }
    RowGoesOn(step, rows[n], base, at, s, n, stage);
    WorldAnswers(base, at, n);
    IdsGrow(n);
    t := Act(KindOfRow(rows[n]), step, s, Finding(base, at)).state.(trace := s.trace + [Id(n)]);
    written := log + [Audit(|s.trace| + 1, Id(n), step.action, step.version, Some(Id(n + 1)))];
  }

  /** What the model call sends. */
  lemma CallGoesOut(step: Step, source: PromptSource, base: World, at: nat, s: State, n: nat, stage: Stage)
    requires StepOf(Asking(source), step) && At(Finding(base, at), s, n, stage) && stage.permitted
    ensures var r := ActCall(step, s, Finding(base, at));
            && r.outcome == Ok(None) && r.state.trace == s.trace
            && r.state.calls == [SentCall(step, s, Finding(base, at))]
            && var call := SentCall(step, s, Finding(base, at));
            && call.at == n && call.server == OpenServer() && call.parts == [PromptPart(source, "{}")]
            && call.shown.hits == stage.hits && call.shown.rendered == stage.rendered && call.original == stage.original
            && call.prompt == Prompt(call.parts, call.shown, Finding(base, at))
            && (call.original ==> call.shown.evidence == Rendered(call.shown.rendered, BUDGET))
  {
    hide Finding;
    hide Ids;
    hide Prompt;
    assert |s.trace| == n by { assert |Ids(n)| == n; }
    WorldAnswers(base, at, n);
  }

  /** The last row ends the run. */
  lemma FinishEnds(rows: seq<Row>, base: World, at: nat, s: State, log: seq<Audit>)
    requires |rows| >= 1 && rows[|rows| - 1] == Finishing() && |s.trace| == |rows| - 1
    ensures var f := Run(Check(DefaultRegistry(), Line(rows)), Finding(base, at), s, Id(|rows| - 1), log);
            f.error.None? && f.state.calls == s.calls
  {
    hide DefaultRegistry;
    hide Line;
    hide LineStep;
    hide Id;
    hide ActFinalize;
    hide StepOf;
    hide ConfigAccepted;
    hide NextStep;
    hide Finding;
    hide Usual;
    var n := |rows| - 1;
    UsualEnd();
    RowInLine(rows, n);
    RowLeadsOn(rows, n);
    StepIsConfigured(rows[n], LineStep(rows, n));
    WorldAnswers(base, at, n);
  }

  /** The last two rows send one prompt and end the run. */
  lemma AskAndFinish(rows: seq<Row>, source: PromptSource, base: World, at: nat, s: State, log: seq<Audit>, stage: Stage)
    returns (call: Call)
    requires |rows| >= 2 && rows[|rows| - 2] == Asking(source) && rows[|rows| - 1] == Finishing() && Usual(rows[|rows| - 2])
    requires At(Finding(base, at), s, |rows| - 2, stage) && stage.permitted
    ensures var f := Run(Check(DefaultRegistry(), Line(rows)), Finding(base, at), s, Id(|rows| - 2), log);
            f.error.None? && f.state.calls == [call]
    ensures call.server == OpenServer() && call.parts == [PromptPart(source, "{}")]
    ensures call.shown.hits == stage.hits && call.shown.rendered == stage.rendered && call.original == stage.original
    ensures call.prompt == Prompt(call.parts, call.shown, Finding(base, at))
    ensures call.original ==> call.shown.evidence == Rendered(call.shown.rendered, BUDGET)
  {
    hide DefaultRegistry;
    hide Line;
    hide LineStep;
    hide Id;
    hide ActCall;
    hide SentCall;
    hide Prompt;
    hide StepOf;
    hide ConfigAccepted;
    hide NextStep;
    hide Finding;
    hide Ids;
    hide Usual;
    var n := |rows| - 2;
    var w := Finding(base, at);
    RowInLine(rows, n);
    RowLeadsOn(rows, n);
    var step := LineStep(rows, n);
    StepIsConfigured(rows[n], step);
    CallGoesOut(step, source, base, at, s, n, stage);
    WorldAnswers(base, at, n);
    assert |s.trace| == n by { IdsGrow(n); }
    call := SentCall(step, s, w);
    var t := ActCall(step, s, w).state.(trace := s.trace + [Id(n)]);
    FinishEnds(rows, base, at, t, log + [Audit(n + 1, Id(n), step.action, step.version, Some(Id(n + 1)))]);
  }

  lemma UsualEnd()
    ensures Usual(Finishing())
  {
  }

  /** A first step that only declares a route: accepted, and every run ends at once with the
      missing-route error. */
  lemma AcceptedCanMissRoute(w: World, server: Security.Server)
    ensures var p := Line([Normalizing(true), Retrieving(), Rendering(), Checking(), Asking(TheEvidence), Finishing()]);
            var c := Check(DefaultRegistry(), p);
            && WellFormed(p) && StepsAccepted(DefaultRegistry(), p) && Acceptable(c)
            && Whole(c, w, server).error == Some(RouteRequired(p.entry))
  {
    hide DefaultRegistry;
    hide Line;
    hide LineStep;
    hide Id;
    hide StepsAccepted;
    hide Acceptable;
    hide WellFormed;
    hide ConfigAccepted;
    var rows := [Normalizing(true), Retrieving(), Rendering(), Checking(), Asking(TheEvidence), Finishing()];
    AnswersAreAccepted(rows, 3);
    RowInLine(rows, 0);
    StepIsConfigured(rows[0], LineStep(rows, 0));
    FirstByRoute(rows);
  }

  lemma FirstByRoute(rows: seq<Row>)
    requires |rows| > 1 && rows[0].byRoute
    ensures NextStep(LineStep(rows, 0), None) == Err(RouteRequired(Id(0))) && Line(rows).entry == Id(0)
  {
    hide Id;
    assert "on" in LineStep(rows, 0).routes;
  }

  /** Searching again between check and call: accepted, and the prompt lists a document that the
      server was never cleared for. */
  lemma AcceptedCanSendUncheckedHits(base: World)
    requires FillsPlaces(base)
    ensures var p := Line([Normalizing(false), Retrieving(), Rendering(), Checking(), Retrieving(), Asking(TraceSummary),
                           Finishing()]);
            var c, w := Check(DefaultRegistry(), p), Finding(base, 4);
            && WellFormed(p) && StepsAccepted(DefaultRegistry(), p) && Acceptable(c)
            && Whole(c, w, OpenServer()).error.None?
            && exists call | call in Whole(c, w, OpenServer()).state.calls ::
                 call.prompt == EvidenceContext.TraceSummary(Contents([SecretHit()])) && Holds(call.prompt, "chunk_id=" + SECRET_ID)
                 && forall external :: !Cleared(w, call.server, call.shown.hits, external)
  {
    hide DefaultRegistry;
    hide Line;
    hide Id;
    hide Ids;
    hide StepsAccepted;
    hide Acceptable;
    hide WellFormed;
    hide Cleared;
    hide Run;
    hide At;
    var rows := [Normalizing(false), Retrieving(), Rendering(), Checking(), Retrieving(), Asking(TraceSummary), Finishing()];
    AnswersAreAccepted(rows, 3);
    var s0 := StartsAt(rows, base, 4);
    var stage := Stage([], [], false, false);
    WorldsFind(base, 4);
    var s1, l1 := Advance(rows, base, 4, s0, 0, [], stage);
    var s2, l2 := Advance(rows, base, 4, s1, 1, l1, stage);
    var s3, l3 := Advance(rows, base, 4, s2, 2, l2, stage);
    var s4, l4 := Advance(rows, base, 4, s3, 3, l3, Stage([], [], true, false));
    var s5, l5 := Advance(rows, base, 4, s4, 4, l4, Stage([], [], true, true));
    var call := AskAndFinish(rows, TraceSummary, base, 4, s5, l5, Stage([SecretHit()], [], true, true));
    SummaryNamesSecret(base, 4, call.shown);
    SecretIsNotForServer(base, 4);
  }

  lemma StartsAt(rows: seq<Row>, base: World, at: nat) returns (s: State)
    requires rows != []
    ensures s == Initial(OpenServer()) && At(Finding(base, at), s, 0, Stage([], [], false, false))
    ensures Line(rows).entry == Id(0)
  {
    hide Id;
    s := Initial(OpenServer());
    assert Ids(0) == [];
  }

  lemma WorldsFind(base: World, at: nat)
    ensures forall n: nat :: ReplyTo(Finding(base, at), n).hits == if n == at then [SecretHit()] else []
  {
  }

  /** The list of documents in the prompt names the secret one. */
  lemma SummaryNamesSecret(base: World, at: nat, shown: Shown)
    requires FillsPlaces(base) && shown.hits == [SecretHit()]
    ensures var prompt := Prompt([PromptPart(TraceSummary, "{}")], shown, Finding(base, at));
            prompt == EvidenceContext.TraceSummary(Contents([SecretHit()])) && Holds(prompt, "chunk_id=" + SECRET_ID)
  {
    var content := SecretHit().content;
    var prompt := EvidenceContext.TraceLine(1, content);
    assert Contents(shown.hits) == [content];
    assert EvidenceContext.TraceSummary([content]) == prompt;
    assert SourceText(TraceSummary, shown) == prompt;
    PlaceIsFilled(base, at, prompt);
    var before := Identifiers.Decimal(1) + ". source_id=" + content.sourceId + "; ";
    var after := "; " + content.scoreType + "=" + content.scoreText;
    assert prompt == before + ("chunk_id=" + SECRET_ID) + after;
  }

  /** The evidence in the prompt holds the text of the secret document. */
  lemma EvidenceHoldsSecret(base: World, at: nat, shown: Shown)
    requires FillsPlaces(base) && shown.rendered == [SecretHit()] && shown.evidence == Rendered(shown.rendered, BUDGET)
    ensures var prompt := Prompt([PromptPart(TheEvidence, "{}")], shown, Finding(base, at));
            prompt == Rendered([SecretHit()], BUDGET) && Holds(prompt, SECRET)
  {
    var content := SecretHit().content;
    assert Contents(shown.rendered) == [content];
    var block := EvidenceContext.Block(content);
    SecretBlockFits();
    assert EvidenceContext.Excerpts([content], BUDGET) == [block] by { assert [content][1..] == []; }
    assert Rendered(shown.rendered, BUDGET) == block;
    PlaceIsFilled(base, at, block);
    var before := "[source_id=" + content.sourceId + "; chunk_id=" + content.chunkId + "; "
                  + content.scoreType + "=" + content.scoreText + "]\n";
    assert block == before + SECRET + "";
  }

  lemma SecretBlockFits()
    ensures 0 < |EvidenceContext.Block(SecretHit().content)| <= BUDGET
  {
  }

  lemma PlaceIsFilled(base: World, at: nat, value: string)
    requires FillsPlaces(base)
    ensures Filled(Finding(base, at), "{}", value) + "" == value
  {
    assert Filled(Finding(base, at), "{}", value) == base.format("{}", value);
  }

  /** Searching again between rendering and check: accepted, and the prompt holds the text of a
      document that the server was never cleared for, although the check saw the hits of the moment. */
  lemma AcceptedCanSendUncheckedEvidence(base: World)
    requires FillsPlaces(base)
    ensures var p := Line([Normalizing(false), Retrieving(), Rendering(), Retrieving(), Checking(), Asking(TheEvidence),
                           Finishing()]);
            var c, w := Check(DefaultRegistry(), p), Finding(base, 1);
            && WellFormed(p) && StepsAccepted(DefaultRegistry(), p) && Acceptable(c)
            && Whole(c, w, OpenServer()).error.None?
            && exists call | call in Whole(c, w, OpenServer()).state.calls ::
                 call.prompt == Rendered([SecretHit()], BUDGET) && Holds(call.prompt, SECRET) && call.shown.hits == []
                 && forall external :: !Cleared(w, call.server, call.shown.rendered, external)
  {
    hide DefaultRegistry;
    hide Line;
    hide Id;
    hide Ids;
    hide StepsAccepted;
    hide Acceptable;
    hide WellFormed;
    hide Cleared;
    hide Run;
    hide At;
    var rows := [Normalizing(false), Retrieving(), Rendering(), Retrieving(), Checking(), Asking(TheEvidence), Finishing()];
    AnswersAreAccepted(rows, 4);
    var s0 := StartsAt(rows, base, 1);
    var found := [SecretHit()];
    WorldsFind(base, 1);
    var s1, l1 := Advance(rows, base, 1, s0, 0, [], Stage([], [], false, false));
    var s2, l2 := Advance(rows, base, 1, s1, 1, l1, Stage([], [], false, false));
    var s3, l3 := Advance(rows, base, 1, s2, 2, l2, Stage(found, [], false, false));
    var s4, l4 := Advance(rows, base, 1, s3, 3, l3, Stage(found, found, true, false));
    var s5, l5 := Advance(rows, base, 1, s4, 4, l4, Stage([], found, true, false));
    var call := AskAndFinish(rows, TheEvidence, base, 1, s5, l5, Stage([], found, true, true));
    EvidenceHoldsSecret(base, 1, call.shown);
    SecretIsNotForServer(base, 1);
  }
}
