/** What the texts of a run are, read off its path and the answers from outside: the result it
    returns, the query, history and evidence that a model is shown, and the error it ends with.
 */
module PipelineTexts {
  import opened Outcomes
  import opened Pipelines
  import opened PipelineDocuments
  import opened PipelineOrder
  import opened PipelineRuns
  import EvidenceContext
  import Security

  /** Texts of the context that steps set. */
  datatype Told = AnswerText | QueryText | HistoryText | ResponseText

  function TextIn(s: State, f: Told): string {
    match f
    case AnswerText => s.texts.answer
    case QueryText => s.texts.normalizedQuery
    case HistoryText => s.history
    case ResponseText => s.texts.lastModelResponse
  }

  /** A variables step with this target. */
  predicate Overwrites(c: Checked, id: string, target: TextSource) {
    KindOf(c, id) == Some(SetVariables) && c.steps[id].config.VariablesConfig? && target in c.steps[id].config.targets
  }

  /** The step sets the text anew; a finalizing step only adds to the answer. */
  predicate Sets(c: Checked, id: string, f: Told) {
    match f
    case AnswerText => KindOf(c, id) == Some(CallModel) || Overwrites(c, id, Answer)
    case QueryText => KindOf(c, id) == Some(NormalizeQuery) || Overwrites(c, id, NormalizedQuery)
    case HistoryText => KindOf(c, id) == Some(LoadHistory)
    case ResponseText =>
      || KindOf(c, id) in {Some(CallModel), Some(PrefixRouter), Some(JsonRouter)}
      || Overwrites(c, id, LastModelResponse)
  }

  /** What a setting step at position `n` sets the text to; none where it depends on the text before. */
  function SetTo(c: Checked, w: World, id: string, n: nat, f: Told): Option<string> {
    var reply := ReplyTo(w, n);
    match f
    case AnswerText => Some(if KindOf(c, id) == Some(CallModel) then reply.text else reply.texts.answer)
    case QueryText =>
      Some(if KindOf(c, id) == Some(NormalizeQuery) then w.collapse(w.query) else reply.texts.normalizedQuery)
    case HistoryText => Some(reply.text)
    case ResponseText =>
      if KindOf(c, id) == Some(CallModel) then Some(reply.text)
      else if KindOf(c, id) == Some(SetVariables) then Some(reply.texts.lastModelResponse)
      else None
  }

  /** Length of the path up to the last step that sets the text; 0 before the first. */
  ghost function LastSet(c: Checked, path: seq<string>, f: Told): (r: nat)
    ensures r <= |path|
  {
    if path == [] then 0 else if Sets(c, Last(path), f) then |path| else LastSet(c, Init(path), f)
  }

  /** Finalizing steps since the answer was last set. */
  ghost function Finalizations(c: Checked, path: seq<string>): nat {
    if path == [] || Sets(c, Last(path), AnswerText) then 0
    else Finalizations(c, Init(path)) + if KindOf(c, Last(path)) == Some(Finalize) then 1 else 0
  }

  /** An answer that has been finalized so many times. */
  function Disclaimed(w: World, text: string, times: nat): string {
    if times == 0 then text
    else
      var before := Disclaimed(w, text, times - 1);
      if w.disclaimer == "" then before else Strip(w, before + "\n\n---\n\n" + w.disclaimer)
  }

  /** What a text is, given what the last setting step set it to. */
  ghost function Becomes(c: Checked, w: World, path: seq<string>, f: Told, text: string): string {
    if f == AnswerText then Disclaimed(w, text, Finalizations(c, path)) else text
  }

  ghost predicate TextFollows(c: Checked, w: World, path: seq<string>, f: Told, text: string) {
    var k := LastSet(c, path, f);
    if k == 0 then text == Becomes(c, w, path, f, "")
    else
      var value := SetTo(c, w, path[k - 1], k - 1, f);
      value.Some? ==> text == Becomes(c, w, path, f, value.value)
  }

  /** The maximum of the last budget step. */
  ghost function MaximumBy(c: Checked, path: seq<string>): nat {
    if path == [] then 0
    else if KindOf(c, Last(path)) == Some(ManageContextBudget) && c.steps[Last(path)].config.BudgetConfig? then
      c.steps[Last(path)].config.maximum
    else MaximumBy(c, Init(path))
  }

  /** Where the conversation stands, as the path before tells. */
  ghost predicate Talks(c: Checked, s: State) {
    && (s.resolved <==> Has(c, s.trace, ResolveConversation))
    && (s.started <==> Has(c, s.trace, StartTurn))
    && (s.finalized <==> Has(c, s.trace, FinalizeTurn) || Has(c, s.trace, FailTurn))
    && (s.started ==> s.resolved)
  }

  /** Texts, budget and conversation of a context, as the path before it tells them. */
  ghost predicate Follows(c: Checked, w: World, s: State) {
    && (forall f :: TextFollows(c, w, s.trace, f, TextIn(s, f)))
    && s.maximum == MaximumBy(c, s.trace) && Talks(c, s)
  }

  // ----------------------------------------------------------------------------- one action

  /** How texts, budget and conversation change over one action that returns. */
  ghost predicate Rewritten(kind: Kind, step: Step, s: State, w: World, t: State)
    requires ConfigAccepted(kind, step)
  {
    var reply := ReplyTo(w, |s.trace|);
    && t.texts.answer == (
         match kind
         case CallModel => reply.text
         case SetVariables => if Answer in step.config.targets then reply.texts.answer else s.texts.answer
         case Finalize => Disclaimed(w, s.texts.answer, 1)
         case _ => s.texts.answer)
    && t.texts.normalizedQuery == (
         match kind
         case NormalizeQuery => w.collapse(w.query)
         case SetVariables =>
           if NormalizedQuery in step.config.targets then reply.texts.normalizedQuery else s.texts.normalizedQuery
         case _ => s.texts.normalizedQuery)
    && t.history == (if kind.LoadHistory? then reply.text else s.history)
    && (match kind
        case CallModel => t.texts.lastModelResponse == reply.text
        case SetVariables =>
          t.texts.lastModelResponse ==
          if LastModelResponse in step.config.targets then reply.texts.lastModelResponse else s.texts.lastModelResponse
        case PrefixRouter => true
        case JsonRouter => true
        case _ => t.texts.lastModelResponse == s.texts.lastModelResponse)
    && t.maximum == (if kind.ManageContextBudget? then step.config.maximum else s.maximum)
    && t.resolved == (s.resolved || kind.ResolveConversation?)
    && t.started == (s.started || kind.StartTurn?) && (kind.StartTurn? ==> s.resolved)
    && t.finalized == (s.finalized || kind.FinalizeTurn? || kind.FailTurn?)
  }

  lemma CallRewrites(step: Step, s: State, w: World)
    requires ConfigAccepted(CallModel, step)
    ensures ActCall(step, s, w).outcome.Ok? ==> Rewritten(CallModel, step, s, w, ActCall(step, s, w).state)
  {
    hide Prompt;
  }

  lemma VariablesKeepRest(step: Step, s: State, w: World)
    requires ConfigAccepted(SetVariables, step)
    ensures var t, reply := ActSetVariables(step, s, w).state, ReplyTo(w, |s.trace|);
            && t.texts == Overwritten(s.texts, step.config.targets, reply.texts)
            && t.history == s.history && t.maximum == s.maximum
            && t.resolved == s.resolved && t.started == s.started && t.finalized == s.finalized
  {
    hide Overwritten;
  }

  lemma VariablesRewrite(step: Step, s: State, w: World)
    requires ConfigAccepted(SetVariables, step)
    ensures Rewritten(SetVariables, step, s, w, ActSetVariables(step, s, w).state)
  {
    VariablesKeepRest(step, s, w);
    hide ActSetVariables;
    hide Disclaimed;
    assert step.config.VariablesConfig?;
    hide ConfigAccepted;
  }

  lemma FinalizeRewrites(step: Step, s: State, w: World)
    requires ConfigAccepted(Finalize, step)
    ensures Rewritten(Finalize, step, s, w, ActFinalize(s, w).state)
  {
    assert Disclaimed(w, s.texts.answer, 0) == s.texts.answer;
    assert DISCLAIMER_RULE == "\n\n---\n\n";
  }

  lemma EnforceRewrites(step: Step, s: State, w: World)
    requires ConfigAccepted(EnforceTransmission, step)
    ensures ActEnforce(step, s, w).outcome.Ok? ==>
              Rewritten(EnforceTransmission, step, s, w, ActEnforce(step, s, w).state)
  {
    hide Security.TransmissionDecision;
  }

  lemma SearchRewrites(kind: Kind, step: Step, s: State, w: World)
    requires ConfigAccepted(kind, step) && (kind.Retrieve? || kind.ExpandGraph? || kind.ManageContextBudget?)
    ensures var r := Act(kind, step, s, w); r.outcome.Ok? ==> Rewritten(kind, step, s, w, r.state)
  {
    hide AllVisible;
    hide Merge;
    hide Rendered;
  }

  lemma RoutesRewrite(kind: Kind, step: Step, s: State, w: World)
    requires ConfigAccepted(kind, step) && Routes(kind)
    ensures var r := Act(kind, step, s, w); r.outcome.Ok? ==> Rewritten(kind, step, s, w, r.state)
  {
    hide PrefixChoice;
    hide JsonChoice;
    hide Remembered;
    hide GuardQuery;
  }

  lemma ActRewrites(kind: Kind, step: Step, s: State, w: World)
    requires ConfigAccepted(kind, step)
    ensures var r := Act(kind, step, s, w); r.outcome.Ok? ==> Rewritten(kind, step, s, w, r.state)
  {
    hide ActLoopGuard;
    hide ActPrefixRouter;
    hide ActJsonRouter;
    hide ActRepeatGuard;
    hide ActEnforce;
    hide ActCall;
    hide ActRetrieve;
    hide ActExpand;
    hide ActBudget;
    hide ActSetVariables;
    hide ActFinalize;
    hide Disclaimed;
    match kind {
      case CallModel => hide Rewritten; CallRewrites(step, s, w);
      case SetVariables => hide Rewritten; VariablesRewrite(step, s, w);
      case Finalize => hide Rewritten; FinalizeRewrites(step, s, w);
      case EnforceTransmission => hide Rewritten; EnforceRewrites(step, s, w);
      case Retrieve => hide Rewritten; SearchRewrites(kind, step, s, w);
      case ExpandGraph => hide Rewritten; SearchRewrites(kind, step, s, w);
      case ManageContextBudget => hide Rewritten; SearchRewrites(kind, step, s, w);
      case LoopGuard => hide Rewritten; RoutesRewrite(kind, step, s, w);
      case PrefixRouter => hide Rewritten; RoutesRewrite(kind, step, s, w);
      case JsonRouter => hide Rewritten; RoutesRewrite(kind, step, s, w);
      case RepeatGuard => hide Rewritten; RoutesRewrite(kind, step, s, w);
      case _ =>
    }
  }

  // ------------------------------------------------------------------- the context follows

  /** What one step sets, as the path sees it. */
  lemma SetsIsRewritten(c: Checked, w: World, s: State, current: string, t: State, f: Told)
    requires Runs(c, current) && Rewritten(c.reg[c.steps[current].action].kind, c.steps[current], s, w, t)
    ensures Sets(c, current, f) ==>
              var value := SetTo(c, w, current, |s.trace|, f); value.Some? ==> TextIn(t, f) == value.value
    ensures !Sets(c, current, f) ==>
              TextIn(t, f) ==
              if f == AnswerText && KindOf(c, current) == Some(Finalize) then Disclaimed(w, TextIn(s, f), 1) else TextIn(s, f)
  {
    hide Disclaimed;
  }

  lemma DisclaimedOnce(w: World, text: string, times: nat)
    ensures Disclaimed(w, Disclaimed(w, text, times), 1) == Disclaimed(w, text, times + 1)
  {
    var before := Disclaimed(w, text, times);
    assert Disclaimed(w, before, 0) == before;
  }

  /** The step at the end of the path sets the text. */
  lemma SetFollows(c: Checked, w: World, path: seq<string>, current: string, f: Told, text: string)
    requires Sets(c, current, f)
    requires var value := SetTo(c, w, current, |path|, f); value.Some? ==> text == value.value
    ensures TextFollows(c, w, path + [current], f, text)
  {
    hide Sets;
    hide SetTo;
    var done := path + [current];
    assert Last(done) == current && done[|path|] == current;
    assert LastSet(c, done, f) == |path| + 1;
    if f == AnswerText { assert Finalizations(c, done) == 0; }
    NotDisclaimed(w, text);
  }

  /** The step at the end of the path leaves the text, or adds to it once. */
  lemma UnsetFollows(c: Checked, w: World, path: seq<string>, current: string, f: Told, before: string, text: string)
    requires !Sets(c, current, f) && TextFollows(c, w, path, f, before)
    requires text == if f == AnswerText && KindOf(c, current) == Some(Finalize) then Disclaimed(w, before, 1) else before
    ensures TextFollows(c, w, path + [current], f, text)
  {
    hide Sets;
    hide SetTo;
    hide KindOf;
    hide Disclaimed;
    var done := path + [current];
    assert Init(done) == path && Last(done) == current;
    var k := LastSet(c, path, f);
    assert LastSet(c, done, f) == k;
    if k > 0 { assert done[k - 1] == path[k - 1]; }
    forall x: string ensures Becomes(c, w, done, f, x) ==
                             if f == AnswerText && KindOf(c, current) == Some(Finalize) then Disclaimed(w, Becomes(c, w, path, f, x), 1)
                             else Becomes(c, w, path, f, x)
    {
      if f == AnswerText { DisclaimedOnce(w, x, Finalizations(c, path)); }
    }
    hide Becomes;
    hide LastSet;
  }

  lemma TextAdvances(c: Checked, w: World, s: State, current: string, t: State, f: Told)
    requires Runs(c, current) && Rewritten(c.reg[c.steps[current].action].kind, c.steps[current], s, w, t)
    requires TextFollows(c, w, s.trace, f, TextIn(s, f))
    ensures TextFollows(c, w, s.trace + [current], f, TextIn(t, f))
  {
    SetsIsRewritten(c, w, s, current, t, f);
    hide Rewritten;
    hide ConfigAccepted;
    hide Disclaimed;
    hide TextIn;
    hide Sets;
    hide SetTo;
    hide TextFollows;
    if Sets(c, current, f) {
      SetFollows(c, w, s.trace, current, f, TextIn(t, f));
    } else {
      UnsetFollows(c, w, s.trace, current, f, TextIn(s, f), TextIn(t, f));
    }
  }

  lemma NotDisclaimed(w: World, text: string)
    ensures Disclaimed(w, text, 0) == text
  {
  }

  lemma FollowsAdvances(c: Checked, w: World, s: State, current: string)
    requires Runs(c, current) && Follows(c, w, s)
    ensures var r := Act(c.reg[c.steps[current].action].kind, c.steps[current], s, w);
            r.outcome.Ok? ==> Follows(c, w, r.state.(trace := s.trace + [current]))
  {
    hide Act;
    hide TextFollows;
    var kind, step := c.reg[c.steps[current].action].kind, c.steps[current];
    var r := Act(kind, step, s, w);
    if r.outcome.Ok? {
      var t := r.state.(trace := s.trace + [current]);
      ActRewrites(kind, step, s, w);
      forall f ensures TextFollows(c, w, t.trace, f, TextIn(t, f)) {
        TextAdvances(c, w, s, current, r.state, f);
        assert TextIn(t, f) == TextIn(r.state, f);
      }
      RestAdvances(c, w, s, current, r.state);
    }
  }

  lemma RestAdvances(c: Checked, w: World, s: State, current: string, t: State)
    requires Runs(c, current) && Rewritten(c.reg[c.steps[current].action].kind, c.steps[current], s, w, t)
    requires Follows(c, w, s)
    ensures var done := s.trace + [current];
            && t.maximum == MaximumBy(c, done)
            && (t.resolved <==> Has(c, done, ResolveConversation)) && (t.started <==> Has(c, done, StartTurn))
            && (t.finalized <==> Has(c, done, FinalizeTurn) || Has(c, done, FailTurn))
            && (t.started ==> t.resolved)
  {
    hide TextFollows;
    hide Has;
    hide Disclaimed;
    var done := s.trace + [current];
    assert Init(done) == s.trace && Last(done) == current;
    HasStep(c, done, ResolveConversation);
    HasStep(c, done, StartTurn);
    HasStep(c, done, FinalizeTurn);
    HasStep(c, done, FailTurn);
  }

  // -------------------------------------------------------------------------------- whole runs

  /** What a transmission shows besides documents, as the path before it tells. */
  ghost predicate CallFollows(c: Checked, w: World, before: seq<string>, call: Call) {
    && TextFollows(c, w, before, QueryText, call.shown.query)
    && TextFollows(c, w, before, HistoryText, call.shown.history)
    && call.shown.maximum == MaximumBy(c, before)
    && exists id :: KindOf(c, id) == Some(CallModel) && c.steps[id].config.CallConfig? && call.parts == c.steps[id].config.parts
  }

  ghost predicate CallsFollow(c: Checked, w: World, trace: seq<string>, calls: seq<Call>) {
    forall call | call in calls :: call.at <= |trace| && CallFollows(c, w, trace[..call.at], call)
  }

  lemma NewCallFollows(c: Checked, w: World, s: State, current: string)
    requires Runs(c, current) && Follows(c, w, s) && c.reg[c.steps[current].action].kind.CallModel?
    ensures CallFollows(c, w, s.trace, SentCall(c.steps[current], s, w))
  {
    hide Prompt;
    hide LastSet;
    assert KindOf(c, current) == Some(CallModel);
    assert TextFollows(c, w, s.trace, QueryText, TextIn(s, QueryText));
    assert TextFollows(c, w, s.trace, HistoryText, TextIn(s, HistoryText));
  }

  lemma CallsAdvanceTold(c: Checked, w: World, s: State, current: string)
    requires Runs(c, current) && Follows(c, w, s) && CallsFollow(c, w, s.trace, s.calls)
    ensures var calls := Act(c.reg[c.steps[current].action].kind, c.steps[current], s, w).state.calls;
            CallsFollow(c, w, s.trace, calls) && CallsFollow(c, w, s.trace + [current], calls)
  {
    hide Act;
    hide Follows;
    hide CallFollows;
    hide ConfigAccepted;
    hide Prompt;
    var kind := c.reg[c.steps[current].action].kind;
    ActSends(kind, c.steps[current], s, w);
    forall call | call in Act(kind, c.steps[current], s, w).state.calls
      ensures call.at <= |s.trace| && CallFollows(c, w, s.trace[..call.at], call)
      ensures (s.trace + [current])[..call.at] == s.trace[..call.at]
    {
      if call !in s.calls {
        NewCallFollows(c, w, s, current);
        assert s.trace[..|s.trace|] == s.trace;
      }
    }
  }

  predicate KeepsTalk(s: State, t: State) {
    t.resolved == s.resolved && t.started == s.started && t.finalized == s.finalized
  }

  lemma RoutersKeepTalk(kind: Kind, step: Step, s: State, w: World)
    requires ConfigAccepted(kind, step) && Routes(kind)
    ensures KeepsTalk(s, Act(kind, step, s, w).state)
  {
    hide PrefixChoice;
    hide JsonChoice;
    hide GuardQuery;
    hide Remembered;
  }

  lemma EnforceKeepsTalk(step: Step, s: State, w: World)
    requires ConfigAccepted(EnforceTransmission, step)
    ensures KeepsTalk(s, ActEnforce(step, s, w).state)
  {
    hide Security.TransmissionDecision;
  }

  lemma CallKeepsTalk(step: Step, s: State, w: World)
    requires ConfigAccepted(CallModel, step)
    ensures KeepsTalk(s, ActCall(step, s, w).state)
  {
    hide Prompt;
  }

  /** An action that raises leaves the conversation where it stood. */
  lemma RaisingKeepsTalk(kind: Kind, step: Step, s: State, w: World)
    requires ConfigAccepted(kind, step)
    ensures var r := Act(kind, step, s, w); r.outcome.Err? ==> KeepsTalk(s, r.state)
  {
    hide AllVisible;
    hide Merge;
    hide Rendered;
    hide ActLoopGuard;
    hide ActPrefixRouter;
    hide ActJsonRouter;
    hide ActRepeatGuard;
    hide ActEnforce;
    hide ActCall;
    if Routes(kind) {
      hide KeepsTalk;
      RoutersKeepTalk(kind, step, s, w);
    } else if kind.EnforceTransmission? {
      hide KeepsTalk;
      EnforceKeepsTalk(step, s, w);
    } else if kind.CallModel? {
      hide KeepsTalk;
      CallKeepsTalk(step, s, w);
    }
  }

  lemma {:induction false} RunFollows(c: Checked, w: World, s: State, current: string, rows: seq<Audit>)
    requires Follows(c, w, s) && CallsFollow(c, w, s.trace, s.calls)
    ensures var f := Run(c, w, s, current, rows);
            && CallsFollow(c, w, f.state.trace, f.state.calls) && Talks(c, f.state)
            && (f.error.None? ==> Follows(c, w, f.state))
    decreases c.maxSteps - |s.trace|
  {
    hide Act;
    hide CallsFollow;
    hide ConfigAccepted;
    hide NextStep;
    hide TextFollows;
    hide Has;
    if |s.trace| < c.maxSteps && Runs(c, current) {
      var step := c.steps[current];
      var kind := c.reg[step.action].kind;
      var acted := Act(kind, step, s, w);
      FollowsAdvances(c, w, s, current);
      CallsAdvanceTold(c, w, s, current);
      ActKeepsTrace(kind, step, s, w);
      RaisingKeepsTalk(kind, step, s, w);
      if acted.outcome.Ok? {
        var done := acted.state.(trace := s.trace + [current]);
        var next := NextStep(step, acted.outcome.value);
        if next.Ok? && !RecordFails(w, |s.trace|) && next.value.Some? {
          RunFollows(c, w, done, next.value.value, rows + [Audit(|s.trace| + 1, current, step.action, step.version, next.value)]);
        }
      }
    }
  }

  lemma InitialFollows(c: Checked, w: World, server: Security.Server)
    ensures Follows(c, w, Initial(server)) && CallsFollow(c, w, [], [])
  {
  }
}
