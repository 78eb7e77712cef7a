/** What a run returns and what its prompts say: the result of a successful run, the error of any
    other, and every part of every prompt, traced to the steps and answers they come from.
 */
module PipelineResults {
  import opened Outcomes
  import opened Pipelines
  import opened PipelineDocuments
  import opened PipelineOrder
  import opened PipelineRuns
  import opened PipelineTexts
  import EvidenceContext
  import Security

  /** The step at `k` is the last that sets the text. */
  ghost predicate LastSetter(c: Checked, path: seq<string>, f: Told, k: nat) {
    && k < |path| && Sets(c, path[k], f)
    && forall j | k < j < |path| :: !Sets(c, path[j], f)
  }

  ghost predicate NeverSet(c: Checked, path: seq<string>, f: Told) { forall j | 0 <= j < |path| :: !Sets(c, path[j], f) }

  /** The step at `k` is the last that rendered the hits. */
  ghost predicate LastBudget(c: Checked, path: seq<string>, k: nat) {
    && k < |path| && KindOf(c, path[k]) == Some(ManageContextBudget) && c.steps[path[k]].config.BudgetConfig?
    && forall j | k < j < |path| :: KindOf(c, path[j]) != Some(ManageContextBudget)
  }

  /** The step at `k` is the only one behind `from` that finalizes. */
  ghost predicate OnlyFinalizer(c: Checked, path: seq<string>, from: nat, k: nat) {
    && from < k < |path| && KindOf(c, path[k]) == Some(Finalize)
    && forall j | from < j < |path| && j != k :: KindOf(c, path[j]) != Some(Finalize)
  }

  // ------------------------------------------------------------------ from positions to stamps

  lemma {:induction false} LastSetIs(c: Checked, path: seq<string>, f: Told, k: nat)
    requires LastSetter(c, path, f, k)
    ensures LastSet(c, path, f) == k + 1
  {
    hide Sets;
    if k < |path| - 1 { LastSetIs(c, Init(path), f, k); }
  }

  lemma {:induction false} NeverSetIs(c: Checked, path: seq<string>, f: Told)
    requires NeverSet(c, path, f)
    ensures LastSet(c, path, f) == 0
  {
    hide Sets;
    if path != [] { NeverSetIs(c, Init(path), f); }
  }

  /** Without a finalizing step behind the last setter nothing is added, and with one, once. */
  lemma {:induction false} FinalizedOnce(c: Checked, path: seq<string>, k: nat, m: nat)
    requires LastSetter(c, path, AnswerText, k)
    ensures OnlyFinalizer(c, path, k, m) ==> Finalizations(c, path) == 1
    ensures (forall j | k < j < |path| :: KindOf(c, path[j]) != Some(Finalize)) ==> Finalizations(c, path) == 0
  {
    hide Sets;
    hide KindOf;
    if k < |path| - 1 { FinalizedOnce(c, Init(path), k, m); }
  }

  lemma {:induction false} LastBudgetIs(c: Checked, path: seq<string>, k: nat)
    requires LastBudget(c, path, k)
    ensures EvidenceStamp(c, path) == Stamp(c, path[..k]) && MaximumBy(c, path) == c.steps[path[k]].config.maximum
  {
    hide Stamp;
    if k < |path| - 1 {
      LastBudgetIs(c, Init(path), k);
      assert Init(path)[..k] == path[..k];
    } else {
      assert Init(path) == path[..k];
    }
  }

  /** What the last budget step rendered. */
  lemma RenderedThen(c: Checked, w: World, path: seq<string>, k: nat)
    requires LastBudget(c, path, k)
    ensures HitsBy(c, w, path[..EvidenceStamp(c, path)]) == HitsBy(c, w, path[..k])
  {
    hide HitsBy;
    hide Stamp;
    LastBudgetIs(c, path, k);
    HitsSinceStamp(c, w, path[..k]);
    assert path[..k][..Stamp(c, path[..k])] == path[..Stamp(c, path[..k])];
  }

  // ------------------------------------------------------------------------------ the result

  /** The citations are those of the first hits, as many as the budget leaves. */
  ghost predicate Cites(citations: seq<EvidenceContext.Citation>, hits: seq<Hit>, maximum: nat) {
    && |citations| == |EvidenceContext.Excerpts(Contents(hits), maximum)| <= |hits|
    && forall i | 0 <= i < |citations| ::
         && citations[i].sourceId == hits[i].content.sourceId && citations[i].chunkId == hits[i].content.chunkId
         && citations[i].scoreType == hits[i].content.scoreType && citations[i].scoreText == hits[i].content.scoreText
         && citations[i].uri == hits[i].content.uri
  }

  /** The result of a run along this path. */
  ghost predicate ResultFollows(c: Checked, w: World, path: seq<string>, r: QueryResult) {
    && r.trace == path
    && (forall k: nat | LastSetter(c, path, AnswerText, k) ::
          r.answer == Disclaimed(
            w, if KindOf(c, path[k]) == Some(CallModel) then ReplyTo(w, k).text else ReplyTo(w, k).texts.answer,
            Finalizations(c, path)))
    && (forall k: nat | LastBudget(c, path, k) :: Cites(r.citations, HitsBy(c, w, path[..k]), c.steps[path[k]].config.maximum))
  }

  lemma CitationsOfHits(hits: seq<Hit>, maximum: nat)
    ensures Cites(EvidenceContext.Citations(Cited(hits, maximum)), hits, maximum)
  {
    hide EvidenceContext.Excerpts;
  }

  lemma StateGivesResult(c: Checked, w: World, s: State)
    requires Follows(c, w, s) && Tracked(c, w, s)
    ensures ResultFollows(c, w, s.trace, ResultOf(s))
  {
    hide TextFollows;
    hide Sets;
    hide Talks;
    hide HitsBy;
    hide Disclaimed;
    hide Cites;
    hide Original;
    hide Finalizations;
    hide LastBudget;
    hide LastSetter;
    hide CallsBacked;
    hide Visible;
    hide Rendered;
    assert TextFollows(c, w, s.trace, AnswerText, TextIn(s, AnswerText));
    forall k: nat | LastSetter(c, s.trace, AnswerText, k)
      ensures k < |s.trace|
      ensures s.texts.answer == Disclaimed(
        w, if KindOf(c, s.trace[k]) == Some(CallModel) then ReplyTo(w, k).text else ReplyTo(w, k).texts.answer,
        Finalizations(c, s.trace))
    {
      AnswerIsSet(c, w, s.trace, k, s.texts.answer);
    }
    forall k: nat | LastBudget(c, s.trace, k)
      ensures k < |s.trace| && s.trace[k] in c.steps && c.steps[s.trace[k]].config.BudgetConfig?
      ensures Cites(ResultOf(s).citations, HitsBy(c, w, s.trace[..k]), c.steps[s.trace[k]].config.maximum)
    {
      BudgetStep(c, s.trace, k);
      LastBudgetIs(c, s.trace, k);
      RenderedThen(c, w, s.trace, k);
      CitationsOfHits(s.rendered, s.maximum);
    }
  }

  lemma BudgetStep(c: Checked, path: seq<string>, k: nat)
    requires LastBudget(c, path, k)
    ensures k < |path| && path[k] in c.steps && c.steps[path[k]].config.BudgetConfig?
  {
  }

  lemma AnswerIsSet(c: Checked, w: World, path: seq<string>, k: nat, text: string)
    requires LastSetter(c, path, AnswerText, k) && TextFollows(c, w, path, AnswerText, text)
    ensures k < |path|
    ensures text == Disclaimed(
              w, if KindOf(c, path[k]) == Some(CallModel) then ReplyTo(w, k).text else ReplyTo(w, k).texts.answer,
              Finalizations(c, path))
  {
    hide Disclaimed;
    hide Finalizations;
    LastSetIs(c, path, AnswerText, k);
  }

  // ----------------------------------------------------------------------------- the outcome

  /** A turn was started on the path and not closed. */
  ghost predicate TurnIsOpen(c: Checked, path: seq<string>) {
    Has(c, path, StartTurn) && !Has(c, path, FinalizeTurn) && !Has(c, path, FailTurn)
  }

  /** What the caller gets. A run that reached its end gives its result, unless the audit raises.
      Any other gives an error: that of the audit if the failure cannot be marked, else that of the
      conversation history if an open turn cannot be closed, else the one that ended the run. */
  ghost predicate IsOutcome(c: Checked, w: World, f: Finished, r: Result<QueryResult, EngineError>) {
    if f.error.None? && !w.succeedFails then r.Ok? && ResultFollows(c, w, f.state.trace, r.value)
    else
      && r.Err?
      && (if w.failFails then r.error == AuditFailed
          else if TurnIsOpen(c, f.state.trace) && w.closingFails then r.error == HistoryFailed
          else if f.error.Some? then r.error == f.error.value
          else r.error == AuditFailed)
  }

  /** How the audit marks the run, and that no turn is left open that could be closed. */
  ghost predicate IsMarked(c: Checked, w: World, f: Finished, e: Ended) {
    && (e.succeeded <==> e.outcome.Ok?)
    && (if e.outcome.Err? && !w.failFails then e.failure == Some(e.outcome.error) else e.failure.None?)
    && (e.outcome.Err? && TurnIsOpen(c, f.state.trace) ==> (e.state.finalized <==> !w.closingFails))
  }

  lemma OutcomeOfRun(c: Checked, w: World, server: Security.Server)
    ensures var f := Whole(c, w, server);
            IsOutcome(c, w, f, Conclude(w, f).outcome) && IsMarked(c, w, f, Conclude(w, f))
  {
    hide Run;
    hide Follows;
    hide Tracked;
    hide CallsFollow;
    hide CallsBacked;
    hide ResultFollows;
    hide ResultOf;
    hide Has;
    InitialFollows(c, w, server);
    InitialIsTracked(c, w, server);
    RunFollows(c, w, Initial(server), c.entry, []);
    RunTracks(c, w, Initial(server), c.entry, []);
    var f := Whole(c, w, server);
    if f.error.None? { StateGivesResult(c, w, f.state); }
  }

  /** The usual case: one model step gives the answer, one finalizing step behind it adds the
      disclaimer, if the domain has one. */
  lemma AnswerOfRun(c: Checked, w: World, server: Security.Server, k: nat, m: nat)
    requires var f := Whole(c, w, server);
             && f.error.None? && !w.succeedFails
             && LastSetter(c, f.state.trace, AnswerText, k) && KindOf(c, f.state.trace[k]) == Some(CallModel)
             && OnlyFinalizer(c, f.state.trace, k, m)
    ensures var r := Conclude(w, Whole(c, w, server)).outcome;
            && r.Ok?
            && r.value.answer == if w.disclaimer == "" then ReplyTo(w, k).text
                                 else Strip(w, ReplyTo(w, k).text + "\n\n---\n\n" + w.disclaimer)
  {
    hide Run;
    hide LastSetter;
    hide OnlyFinalizer;
    hide Conclude;
    OutcomeOfRun(c, w, server);
    var trace := Whole(c, w, server).state.trace;
    FinalizedOnce(c, trace, k, m);
    assert Disclaimed(w, ReplyTo(w, k).text, 0) == ReplyTo(w, k).text;
  }

  // ---------------------------------------------------------------- runs of accepted pipelines

  lemma PrefixInOrder(c: Checked, path: seq<string>, n: nat)
    requires InOrder(c, path) && n <= |path|
    ensures InOrder(c, path[..n])
  {
    hide KindOf;
    hide Prepared;
    assert forall i | 0 <= i < n :: path[..n][..i] == path[..i];
  }

  lemma PathIsInOrder(c: Checked, path: seq<string>)
    requires PathsInOrder(c) && EntryPath(c, path)
    ensures InOrder(c, path) && path != [] && (Terminal(c, Last(path)) ==> Has(c, path, Finalize))
  {
    hide InOrder;
    hide Has;
    hide Terminal;
    NotEmpty(c, path);
  }

  /** A step on a path in order is prepared by what comes before. */
  lemma PreparedOnPath(c: Checked, path: seq<string>, kind: Kind)
    requires InOrder(c, path) && Has(c, path, kind)
    ensures exists i :: 0 <= i < |path| && KindOf(c, path[i]) == Some(kind) && Prepared(c, path[..i], kind)
  {
    hide Prepared;
    var i :| 0 <= i < |path| && KindOf(c, path[i]) == Some(kind);
  }

  lemma HasInPrefix(c: Checked, path: seq<string>, n: nat, kind: Kind)
    requires n <= |path| && Has(c, path[..n], kind)
    ensures Has(c, path, kind)
  {
    var i :| 0 <= i < n && KindOf(c, path[..n][i]) == Some(kind);
    assert path[i] == path[..n][i];
  }

  /** A finalized path in order has gone through the whole chain. */
  lemma FinalizedIsComplete(c: Checked, path: seq<string>)
    requires InOrder(c, path) && Has(c, path, Finalize)
    ensures Has(c, path, NormalizeQuery) && Has(c, path, Retrieve) && Has(c, path, ManageContextBudget)
    ensures Has(c, path, EnforceTransmission) && Has(c, path, CallModel)
  {
    hide Has;
    hide InOrder;
    hide KindOf;
    PreparedOnPath(c, path, Finalize);
    var i :| 0 <= i < |path| && KindOf(c, path[i]) == Some(Finalize) && Prepared(c, path[..i], Finalize);
    HasInPrefix(c, path, i, CallModel);
    HasInPrefix(c, path, i, ManageContextBudget);
    PreparedOnPath(c, path, CallModel);
    var j :| 0 <= j < |path| && KindOf(c, path[j]) == Some(CallModel) && Prepared(c, path[..j], CallModel);
    HasInPrefix(c, path, j, NormalizeQuery);
    HasInPrefix(c, path, j, EnforceTransmission);
    PreparedOnPath(c, path, ManageContextBudget);
    var k :| 0 <= k < |path| && KindOf(c, path[k]) == Some(ManageContextBudget) && Prepared(c, path[..k], ManageContextBudget);
    HasInPrefix(c, path, k, Retrieve);
  }

  /** Runs of accepted pipelines over the default actions: the steps of the trace are in order, so is
      the step at which a run fails, and a run that reaches its end has normalized, retrieved,
      rendered, checked, called and finalized. */
  lemma AcceptedRunsAreInOrder(p: Pipeline, w: World, server: Security.Server)
    requires WellFormed(p) && StepsAccepted(DefaultRegistry(), p) && Acceptable(Check(DefaultRegistry(), p))
    ensures var c := Check(DefaultRegistry(), p);
            var f := Whole(c, w, server);
            && InOrder(c, f.state.trace)
            && (f.error.Some? && f.error.value.ActionFailed? ==> InOrder(c, f.state.trace + [f.error.value.step]))
            && (f.error.None? ==>
                  && Has(c, f.state.trace, NormalizeQuery) && Has(c, f.state.trace, Retrieve)
                  && Has(c, f.state.trace, ManageContextBudget) && Has(c, f.state.trace, EnforceTransmission)
                  && Has(c, f.state.trace, CallModel) && Has(c, f.state.trace, Finalize))
  {
    hide Run;
    hide Acceptable;
    hide StepsAccepted;
    hide DefaultRegistry;
    hide PathsInOrder;
    hide InOrder;
    hide Has;
    hide EntryPath;
    hide Linked;
    hide LoopsAllowed;
    hide CallsCleared;
    hide Available;
    hide Terminal;
    hide NeedsRoute;
    var c := Check(DefaultRegistry(), p);
    var f := Whole(c, w, server);
    DefaultRegistryGuardsPolicy();
    AcceptedRunsAreSafe(DefaultRegistry(), p, w, server);
    AcceptedInOrder(p);
    var trace := f.state.trace;
    if f.error.Some? && (f.error.value.ActionFailed? || f.error.value.PolicyDenied?) {
      var path := trace + [f.error.value.step];
      PathIsInOrder(c, path);
      PrefixInOrder(c, path, |trace|);
      assert path[..|trace|] == trace;
    } else {
      PathIsInOrder(c, trace);
      if f.error.None? { FinalizedIsComplete(c, trace); }
    }
  }

  // ------------------------------------------------------------------------------ the prompts

  /** What a part of a prompt is filled with, given the path before the call. */
  ghost predicate IsValue(c: Checked, w: World, before: seq<string>, source: PromptSource, value: string) {
    match source
    case TheQuery =>
      forall k: nat | LastSetter(c, before, QueryText, k) ::
        value == if KindOf(c, before[k]) == Some(NormalizeQuery) then w.collapse(w.query)
                 else ReplyTo(w, k).texts.normalizedQuery
    case TheHistory =>
      && (forall k: nat | LastSetter(c, before, HistoryText, k) :: value == ReplyTo(w, k).text)
      && (NeverSet(c, before, HistoryText) ==> value == "")
    case TheEvidence =>
      forall k: nat | LastBudget(c, before, k) && Original(c, before) ::
        value == EvidenceContext.Evidence(Contents(HitsBy(c, w, before[..k])), c.steps[before[k]].config.maximum)
    case ContextChunkIds =>
      forall k: nat | LastBudget(c, before, k) ::
        exists ids: seq<string> :: value == EvidenceContext.Lines(ids) && Names(ids, CitedThen(c, w, before, k))
    case CitationsText =>
      forall k: nat | LastBudget(c, before, k) ::
        value == EvidenceContext.CitationsText(EvidenceContext.Citations(CitedThen(c, w, before, k)))
    case TraceSummary => value == EvidenceContext.TraceSummary(Contents(HitsBy(c, w, before)))
  }

  /** The hits that the budget step at `k` left in the context. */
  ghost function CitedThen(c: Checked, w: World, path: seq<string>, k: nat): seq<EvidenceContext.Hit>
    requires LastBudget(c, path, k)
  {
    Cited(HitsBy(c, w, path[..k]), c.steps[path[k]].config.maximum)
  }

  ghost predicate Names(ids: seq<string>, hits: seq<EvidenceContext.Hit>) {
    |ids| == |hits| && forall i | 0 <= i < |ids| :: ids[i] == hits[i].chunkId
  }

  /** Templates filled with values, one behind the other. */
  ghost predicate IsFilled(w: World, parts: seq<PromptPart>, values: seq<string>, prompt: string) {
    && |values| == |parts|
    && if parts == [] then prompt == ""
       else exists rest :: IsFilled(w, parts[1..], values[1..], rest) && prompt == Filled(w, parts[0].template, values[0]) + rest
  }

  function Values(parts: seq<PromptPart>, shown: Shown): (r: seq<string>)
    ensures |r| == |parts| && forall i | 0 <= i < |r| :: r[i] == SourceText(parts[i].source, shown)
  {
    if parts == [] then [] else [SourceText(parts[0].source, shown)] + Values(parts[1..], shown)
  }

  lemma {:induction false} PromptIsFilled(w: World, parts: seq<PromptPart>, shown: Shown)
    ensures IsFilled(w, parts, Values(parts, shown), Prompt(parts, shown, w))
  {
    hide SourceText;
    if parts != [] {
      PromptIsFilled(w, parts[1..], shown);
      assert Values(parts, shown)[1..] == Values(parts[1..], shown);
    }
  }

  lemma ValueFollows(c: Checked, w: World, before: seq<string>, call: Call, source: PromptSource)
    requires CallFollows(c, w, before, call) && Backed(c, w, before, call)
    ensures IsValue(c, w, before, source, SourceText(source, call.shown))
  {
    hide Prompt;
    hide HitsBy;
    hide Original;
    hide LastBudget;
    hide LastSetter;
    hide Sets;
    hide NeverSet;
    hide Visible;
    match source
    case TheQuery =>
      forall k: nat | LastSetter(c, before, QueryText, k)
        ensures k < |before|
        ensures call.shown.query == if KindOf(c, before[k]) == Some(NormalizeQuery) then w.collapse(w.query)
                                    else ReplyTo(w, k).texts.normalizedQuery
      {
        SetterInside(c, before, QueryText, k);
        LastSetIs(c, before, QueryText, k);
      }
    case TheHistory =>
      forall k: nat | LastSetter(c, before, HistoryText, k) ensures call.shown.history == ReplyTo(w, k).text {
        SetterInside(c, before, HistoryText, k);
        LastSetIs(c, before, HistoryText, k);
      }
      if NeverSet(c, before, HistoryText) { NeverSetIs(c, before, HistoryText); }
    case TraceSummary =>
    case TheEvidence => RenderedForCall(c, w, before, call);
    case CitationsText => RenderedForCall(c, w, before, call);
    case ContextChunkIds =>
      RenderedForCall(c, w, before, call);
      IdsName(Cited(call.shown.rendered, call.shown.maximum));
  }

  lemma RenderedForCall(c: Checked, w: World, before: seq<string>, call: Call)
    requires CallFollows(c, w, before, call) && Backed(c, w, before, call)
    ensures forall k: nat | LastBudget(c, before, k) ::
              && k < |before| && before[k] in c.steps && c.steps[before[k]].config.BudgetConfig?
              && call.shown.rendered == HitsBy(c, w, before[..k])
              && call.shown.maximum == c.steps[before[k]].config.maximum
  {
    hide Prompt;
    hide HitsBy;
    hide Original;
    hide LastBudget;
    hide TextFollows;
    hide Visible;
    forall k: nat | LastBudget(c, before, k)
      ensures k < |before| && before[k] in c.steps && c.steps[before[k]].config.BudgetConfig?
      ensures call.shown.rendered == HitsBy(c, w, before[..k]) && call.shown.maximum == c.steps[before[k]].config.maximum
    {
      BudgetStep(c, before, k);
      LastBudgetIs(c, before, k);
      RenderedThen(c, w, before, k);
    }
  }

  lemma SetterInside(c: Checked, path: seq<string>, f: Told, k: nat)
    requires LastSetter(c, path, f, k)
    ensures k < |path|
  {
  }

  lemma IdsName(hits: seq<EvidenceContext.Hit>)
    ensures Names(EvidenceContext.Ids(hits), hits)
  {
  }

  /** Every prompt of every run is its step's templates filled, in order, with what the path before
      the call tells of their sources. */
  lemma PromptsFollow(c: Checked, w: World, server: Security.Server, call: Call) returns (values: seq<string>)
    requires call in Whole(c, w, server).state.calls
    ensures var trace := Whole(c, w, server).state.trace;
            && call.at <= |trace| && IsFilled(w, call.parts, values, call.prompt)
            && (forall i | 0 <= i < |values| :: IsValue(c, w, trace[..call.at], call.parts[i].source, values[i]))
    ensures exists id ::
              KindOf(c, id) == Some(CallModel) && c.steps[id].config.CallConfig? && call.parts == c.steps[id].config.parts
  {
    hide Run;
    hide Follows;
    hide Tracked;
    hide CallFollows;
    hide Backed;
    hide IsValue;
    hide Prompt;
    hide SourceText;
    hide IsFilled;
    InitialFollows(c, w, server);
    InitialIsTracked(c, w, server);
    RunFollows(c, w, Initial(server), c.entry, []);
    RunTracks(c, w, Initial(server), c.entry, []);
    var before := Whole(c, w, server).state.trace[..call.at];
    CallParts(c, w, before, call);
    values := Values(call.parts, call.shown);
    PromptIsFilled(w, call.parts, call.shown);
    forall i | 0 <= i < |values| ensures IsValue(c, w, before, call.parts[i].source, values[i]) {
      ValueFollows(c, w, before, call, call.parts[i].source);
    }
  }

  lemma CallParts(c: Checked, w: World, before: seq<string>, call: Call)
    requires CallFollows(c, w, before, call) && Backed(c, w, before, call)
    ensures call.prompt == Prompt(call.parts, call.shown, w)
    ensures exists id ::
              KindOf(c, id) == Some(CallModel) && c.steps[id].config.CallConfig? && call.parts == c.steps[id].config.parts
  {
    hide TextFollows;
    hide Prompt;
    hide HitsBy;
  }

  lemma RowIsLinked(c: Checked, rows: seq<Audit>, path: seq<string>, i: nat)
    requires Linked(c, rows, path) && (forall id | id in path :: id in c.steps) && i < |rows|
    ensures rows[i].step in c.steps && (rows[i].next.Some? ==> rows[i].next.value in c.steps)
    ensures rows[i].action == c.steps[rows[i].step].action && rows[i].version == c.steps[rows[i].step].version
  {
    assert rows[i].step == path[i] && path[i] in path;
    if rows[i].next.Some? {
      assert rows[i].next == StepAt(path, i + 1);
      assert path[i + 1] in path;
    }
  }

  lemma StepIsRegistered(c: Checked, id: string)
    requires Sound(c) && id in c.steps
    ensures c.steps[id].action in c.reg && c.reg[c.steps[id].action].version == c.steps[id].version
  {
    assert StepAccepted(c.reg, c.steps, c.steps[id]);
  }

  /** The audit of an accepted run names registered actions in their registered version, and every
      step it announces is one of the pipeline. */
  lemma AuditNamesRegistered(reg: Registry, p: Pipeline, w: World, server: Security.Server)
    requires WellFormed(p) && StepsAccepted(reg, p) && Acceptable(Check(reg, p)) && PolicyIsGuarded(reg)
    ensures var c := Check(reg, p);
            forall row | row in Whole(c, w, server).rows ::
              && row.action in reg && row.version == reg[row.action].version
              && row.step in c.steps && (row.next.Some? ==> row.next.value in c.steps)
  {
    hide Run;
    hide Acceptable;
    hide StepsAccepted;
    hide PolicyIsGuarded;
    hide LoopsAllowed;
    hide CallsCleared;
    hide Available;
    hide Terminal;
    hide NeedsRoute;
    hide EntryPath;
    hide Sound;
    hide Linked;
    var c := Check(reg, p);
    var f := Whole(c, w, server);
    AcceptedRunsAreSafe(reg, p, w, server);
    CheckIsSound(reg, p);
    var path := match f.error
      case Some(ActionFailed(id)) => f.state.trace + [id]
      case Some(PolicyDenied(id, _)) => f.state.trace + [id]
      case _ => f.state.trace;
    assert SafePath(c, w, f, path);
    PathInSteps(c, path);
    forall row | row in f.rows
      ensures row.action in reg && row.version == reg[row.action].version
      ensures row.step in c.steps && (row.next.Some? ==> row.next.value in c.steps)
    {
      var i :| 0 <= i < |f.rows| && f.rows[i] == row;
      RowIsLinked(c, f.rows, path, i);
      StepIsRegistered(c, row.step);
    }
  }
}
