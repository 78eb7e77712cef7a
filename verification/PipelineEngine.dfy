/** `PipelineEngine.execute`: the loop that mutates the context and the audit log, proved to
    carry out the run that module PipelineRuns defines.
 */
module PipelineEngine {
  import opened Outcomes
  import opened Pipelines
  import opened PipelineResults
  import opened PipelineRuns
  import EvidenceContext
  import Security

  /** Fields of the context that change together: the two that routers leave, what the evidence was
      made of, what the policy step recorded, and where the conversation stands. */
  datatype Choice = Choice(route: string, prefix: string)

  datatype Rendering = Rendering(hits: seq<Hit>, maximum: nat, original: bool)

  datatype Policy = Policy(model: Security.Server, decision: Option<Security.Transmission>, checkedHits: seq<Hit>)

  datatype Conversation = Conversation(resolved: bool, started: bool, finalized: bool)

  class Context {
    var trace: seq<string>
    var counters: map<string, nat>
    var asked: set<string>
    var texts: Texts
    var history: string
    var choice: Choice
    var seedHits: seq<Hit>
    var hits: seq<Hit>
    var rendering: Rendering
    var policy: Policy
    var conversation: Conversation
    var calls: seq<Call>

    ghost function Value(): State
      reads this
    {
      State(trace, counters, asked, texts, history, choice.route, choice.prefix, seedHits, hits,
            rendering.hits, rendering.maximum, rendering.original, policy.model, policy.decision, policy.checkedHits,
            conversation.resolved, conversation.started, conversation.finalized, calls)
    }

    constructor (server: Security.Server)
      ensures Value() == Initial(server)
    {
      trace, counters, asked, texts, history := [], map[], {}, Texts("", "", "", ""), "";
      choice, seedHits, hits, rendering := Choice("", ""), [], [], Rendering([], 0, false);
      policy, conversation, calls := Policy(server, None, []), Conversation(false, false, false), [];
    }

    /** An action leaves the context and answers as specified, also when it raises. */
    ghost predicate Matches(e: Acted, r: Result<Option<string>, EngineError>)
      reads this
    {
      r == e.outcome && Value() == e.state
    }

    method GuardLoop(step: Step) returns (r: Result<Option<string>, EngineError>)
      requires ConfigAccepted(LoopGuard, step)
      modifies this`counters, this`choice
      ensures Matches(ActLoopGuard(step, old(Value())), r)
    {
      assert step.config.LoopGuardConfig?;
      hide ConfigAccepted;
      hide Quiet;
      hide Chooses;
      hide Returns;
      hide KeepsPolicy;
      hide KeepsHits;
      hide KeepsEvidence;
      var current := (if step.id in counters then counters[step.id] else 0) + 1;
      counters := counters[step.id := current];
      choice := choice.(route := if current <= step.config.maxLoops then step.config.onAllow else step.config.onDeny);
      r := Ok(Some(choice.route));
    }

    method RouteByPrefix(step: Step, w: World) returns (r: Result<Option<string>, EngineError>)
      requires ConfigAccepted(PrefixRouter, step)
      modifies this`texts, this`choice
      ensures Matches(ActPrefixRouter(step, old(Value()), w), r)
    {
      assert step.config.PrefixConfig?;
      hide ConfigAccepted;
      hide Quiet;
      hide Chooses;
      hide Returns;
      hide KeepsPolicy;
      hide KeepsHits;
      hide KeepsEvidence;
      hide TextOf;
      hide FirstPrefix;
      var text := Strip(w, TextOf(texts, step.config.source));
      var found := FindPrefix(step.config.prefixes, text);
      var route := if found.Some? then found.value.0 else step.config.onOther;
      choice := Choice(route, if found.Some? then found.value.0 else "");
      texts := texts.(lastModelResponse := if found.Some? then Strip(w, text[|found.value.1|..]) else text);
      r := Ok(Some(route));
    }

    method RouteByDecision(step: Step, w: World) returns (r: Result<Option<string>, EngineError>)
      requires ConfigAccepted(JsonRouter, step)
      modifies this`texts, this`choice
      ensures Matches(ActJsonRouter(step, old(Value()), w), r)
    {
      assert step.config.JsonConfig?;
      hide ConfigAccepted;
      hide Quiet;
      hide Chooses;
      hide Returns;
      hide KeepsPolicy;
      hide KeepsHits;
      hide KeepsEvidence;
      hide TextOf;
      var other := step.config.otherDecision;
      var payload := Decode(w, Strip(w, TextOf(texts, step.config.source)));
      if !payload.Object? {
        if other.None? { return Err(ActionFailed(step.id)); }
        choice := choice.(route := other.value);
        return Ok(other);
      }
      texts := texts.(lastModelResponse := payload.cleaned);
      if payload.decision in step.config.decisions {
        choice := choice.(route := payload.decision);
        return Ok(Some(payload.decision));
      }
      if other.None? { return Err(ActionFailed(step.id)); }
      choice := choice.(route := other.value);
      r := Ok(other);
    }

    method GuardRepeatedQuery(step: Step, w: World) returns (r: Result<Option<string>, EngineError>)
      requires ConfigAccepted(RepeatGuard, step)
      modifies this`asked, this`choice
      ensures Matches(ActRepeatGuard(step, old(Value()), w), r)
    {
      assert step.config.RepeatConfig?;
      hide ConfigAccepted;
      hide Quiet;
      hide Chooses;
      hide Returns;
      hide KeepsPolicy;
      hide KeepsHits;
      hide KeepsEvidence;
      hide TextOf;
      hide GuardQuery;
      var query := ReadGuardQuery(step.config, TextOf(texts, step.config.source), w);
      if query.None? { return Err(ActionFailed(step.id)); }
      var normalized := Normalize(w, query.value);
      if normalized == "" || normalized in asked {
        choice := choice.(route := step.config.onRepeat);
      } else {
        asked := asked + {normalized};
        choice := choice.(route := step.config.onOk);
      }
      r := Ok(Some(choice.route));
    }

    /** Writes a decision to the fields of the context. */
    method Record(t: Security.Transmission)
      modifies this`policy
      ensures Value() == Recorded(old(Value()), t)
    {
      policy := Policy(if t.receiver.Some? then t.receiver.value else policy.model, Some(t), hits);
    }

    method EnforcePolicy(step: Step, w: World) returns (r: Result<Option<string>, EngineError>)
      requires ConfigAccepted(EnforceTransmission, step)
      modifies this`policy
      ensures Matches(ActEnforce(step, old(Value()), w), r)
    {
      assert step.config.TransmissionConfig?;
      hide ConfigAccepted;
      hide Quiet;
      hide Chooses;
      hide Returns;
      hide KeepsPolicy;
      hide KeepsHits;
      hide KeepsEvidence;
      hide Security.TransmissionDecision;
      hide Recorded;
      hide LabelsOf;
      var t := Security.TransmissionDecision(
        w.request.model, w.servers, step.config.selected, LabelsOf(hits), step.config.externalAllowed, w.subjectMayUseExternal);
      if t.Err? { return Err(ActionFailed(step.id)); }
      Record(t.value);
      r := if t.value.allowed then Ok(None) else Err(PolicyDenied(step.id, t.value.reason));
    }

    method CallTheModel(step: Step, w: World) returns (r: Result<Option<string>, EngineError>)
      requires ConfigAccepted(CallModel, step)
      modifies this`texts, this`calls
      ensures Matches(ActCall(step, old(Value()), w), r)
    {
      assert step.config.CallConfig?;
      hide ConfigAccepted;
      hide Quiet;
      hide Chooses;
      hide Returns;
      hide KeepsPolicy;
      hide KeepsHits;
      hide KeepsEvidence;
      hide Prompt;
      if policy.decision.None? { return Err(PolicyNotEnforced); }
      if !policy.decision.value.allowed { return Err(PolicyBlocked); }
      var reply := ReplyTo(w, |trace|);
      if reply.fails { return Err(ActionFailed(step.id)); }
      var shown := Shown(texts.normalizedQuery, texts.evidence, rendering.hits, rendering.maximum, hits, history);
      var prompt := RenderUserPrompt(step.config.parts, shown, w);
      calls := calls + [Call(|trace|, policy.model, prompt, step.config.parts, shown, rendering.original, policy.checkedHits)];
      if reply.lost { return Err(ActionFailed(step.id)); }
      texts := texts.(answer := reply.text, lastModelResponse := reply.text);
      r := Ok(None);
    }

    method Search(step: Step, w: World) returns (r: Result<Option<string>, EngineError>)
      requires ConfigAccepted(Retrieve, step)
      modifies this`seedHits, this`hits, this`asked
      ensures Matches(ActRetrieve(step, old(Value()), w), r)
    {
      assert step.config.RetrieveConfig?;
      hide ConfigAccepted;
      hide Quiet;
      hide Chooses;
      hide Returns;
      hide KeepsPolicy;
      hide KeepsHits;
      hide KeepsEvidence;
      hide AllVisible;
      var reply := ReplyTo(w, |trace|);
      if reply.fails { return Err(ActionFailed(step.id)); }
      seedHits := reply.hits;
      asked := asked + {Normalize(w, if step.config.fromCommand then w.query else texts.normalizedQuery)};
      var checked := VerifyHits(w.request, seedHits);
      if !checked { return Err(ActionFailed(step.id)); }
      hits := seedHits;
      r := Ok(None);
    }

    method Expand(step: Step, w: World) returns (r: Result<Option<string>, EngineError>)
      requires ConfigAccepted(ExpandGraph, step)
      modifies this`hits
      ensures Matches(ActExpand(step, old(Value()), w), r)
    {
      assert step.config.ExpandConfig?;
      hide ConfigAccepted;
      hide Quiet;
      hide Chooses;
      hide Returns;
      hide KeepsPolicy;
      hide KeepsHits;
      hide KeepsEvidence;
      hide AllVisible;
      hide Merge;
      if !step.config.enabled || hits == [] { return Ok(None); }
      var reply := ReplyTo(w, |trace|);
      if reply.fails { return Err(ActionFailed(step.id)); }
      var checked := VerifyHits(w.request, reply.hits);
      if !checked { return Err(ActionFailed(step.id)); }
      hits := MergeHits(seedHits, reply.hits);
      r := Ok(None);
    }

    method SetVariables(step: Step, w: World) returns (r: Result<Option<string>, EngineError>)
      requires ConfigAccepted(Kind.SetVariables, step)
      modifies this`texts, this`rendering
      ensures Matches(ActSetVariables(step, old(Value()), w), r)
    {
      assert step.config.VariablesConfig?;
      hide ConfigAccepted;
      hide Quiet;
      hide Chooses;
      hide Returns;
      hide KeepsPolicy;
      hide KeepsHits;
      hide KeepsEvidence;
      var reply := ReplyTo(w, |trace|);
      texts := Overwritten(texts, step.config.targets, reply.texts);
      if Evidence in step.config.targets { rendering := rendering.(original := false); }
      r := if reply.fails then Err(ActionFailed(step.id)) else Ok(None);
    }

    /** The actions on the conversation and its turn. */
    method Converse(kind: Kind, step: Step, w: World) returns (r: Result<Option<string>, EngineError>)
      modifies this`conversation, this`history
      ensures Matches(ActConversation(kind, step, old(Value()), w), r)
    {
      hide Quiet;
      hide Chooses;
      hide Returns;
      hide KeepsPolicy;
      hide KeepsHits;
      hide KeepsEvidence;
      var reply := ReplyTo(w, |trace|);
      var ready :=
        match kind
        case ResolveConversation => true
        case StartTurn => conversation.resolved
        case LoadHistory => conversation.resolved
        case FinalizeTurn => conversation.resolved && conversation.started && texts.answer != ""
        case _ => conversation.resolved && conversation.started;
      if !ready || reply.fails { return Err(ActionFailed(step.id)); }
      match kind {
        case ResolveConversation => conversation := conversation.(resolved := true);
        case StartTurn => conversation := conversation.(started := true);
        case LoadHistory => history := reply.text;
        case _ => conversation := conversation.(finalized := true);
      }
      r := Ok(None);
    }

    method ManageBudget(step: Step) returns (r: Result<Option<string>, EngineError>)
      requires ConfigAccepted(ManageContextBudget, step)
      modifies this`texts, this`rendering
      ensures Matches(ActBudget(step, old(Value())), r)
    {
      hide EvidenceContext.Evidence;
      var evidence, citations, cited, omitted := EvidenceContext.BuildContext(Contents(hits), step.config.maximum);
      rendering := Rendering(hits, step.config.maximum, true);
      texts := texts.(evidence := evidence);
      r := Ok(None);
    }

    method Finish(w: World) returns (r: Result<Option<string>, EngineError>)
      modifies this`texts
      ensures Matches(ActFinalize(old(Value()), w), r)
    {
      if w.disclaimer != "" {
        texts := texts.(answer := Strip(w, texts.answer + DISCLAIMER_RULE + w.disclaimer));
      }
      r := Ok(None);
    }

    method Perform(kind: Kind, step: Step, w: World) returns (r: Result<Option<string>, EngineError>)
      requires ConfigAccepted(kind, step)
      modifies this
      ensures Matches(Act(kind, step, old(Value()), w), r)
    {
      hide ConfigAccepted;
      hide ActLoopGuard;
      hide ActPrefixRouter;
      hide ActJsonRouter;
      hide ActRepeatGuard;
      hide ActEnforce;
      hide ActCall;
      hide ActRetrieve;
      hide ActExpand;
      hide ActBudget;
      hide ActSetVariables;
      hide ActFinalize;
      hide ActConversation;
      match kind
      case LoopGuard => r := GuardLoop(step);
      case PrefixRouter => r := RouteByPrefix(step, w);
      case JsonRouter => r := RouteByDecision(step, w);
      case RepeatGuard => r := GuardRepeatedQuery(step, w);
      case EnforceTransmission => r := EnforcePolicy(step, w);
      case CallModel => r := CallTheModel(step, w);
      case Retrieve => r := Search(step, w);
      case ExpandGraph => r := Expand(step, w);
      case NormalizeQuery =>
        texts := texts.(normalizedQuery := w.collapse(w.query));
        r := Ok(None);
      case ManageContextBudget => r := ManageBudget(step);
      case RequireEvidence => r := if texts.evidence == "" || rendering.hits == [] then Err(ActionFailed(step.id)) else Ok(None);
      case SetVariables => r := SetVariables(step, w);
      case Finalize => r := Finish(w);
      case _ => r := Converse(kind, step, w);
    }
  }

  /** The first configured prefix that the text starts with. */
  method FindPrefix(prefixes: seq<(string, string)>, text: string) returns (r: Option<(string, string)>)
    ensures r == FirstPrefix(prefixes, text)
  {
    for i := 0 to |prefixes|
      invariant FirstPrefix(prefixes, text) == FirstPrefix(prefixes[i..], text)
    {
      if prefixes[i].1 <= text { return Some(prefixes[i]); }
      assert prefixes[i..][1..] == prefixes[i + 1..];
    }
    r := None;
  }

  /** `_guard_query`: none where the code raises. */
  method ReadGuardQuery(config: Config, raw: string, w: World) returns (query: Option<string>)
    requires config.RepeatConfig?
    ensures query == GuardQuery(config, raw, w)
  {
    if !config.parseJson { return Some(raw); }
    var payload := Decode(w, raw);
    if !payload.Object? { return None; }
    query := payload.query;
  }

  /** `_render_user_prompt`: the parts filled in and joined, in order. */
  method RenderUserPrompt(parts: seq<PromptPart>, shown: Shown, w: World) returns (prompt: string)
    ensures prompt == Prompt(parts, shown, w)
  {
    prompt := "";
    for i := 0 to |parts|
      invariant Prompt(parts, shown, w) == prompt + Prompt(parts[i..], shown, w)
    {
      var filled := Filled(w, parts[i].template, SourceText(parts[i].source, shown));
      assert parts[i..][1..] == parts[i + 1..];
      assert prompt + (filled + Prompt(parts[i + 1..], shown, w)) == (prompt + filled) + Prompt(parts[i + 1..], shown, w);
      prompt := prompt + filled;
    }
    assert parts[|parts|..] == [];
  }

  /** `_verify_retrieval_boundary` over the chunks of the hits. */
  method VerifyHits(q: Security.Request, hits: seq<Hit>) returns (passed: bool)
    ensures passed <==> AllVisible(q, hits)
  {
    var chunks := ChunksOf(hits);
    var r := Security.VerifyRetrievalBoundary(q, chunks);
    forall h | h in hits ensures h.chunk in chunks {
      var i :| 0 <= i < |hits| && hits[i] == h;
      assert chunks[i] == h.chunk;
    }
    forall chunk | chunk in chunks ensures exists h :: h in hits && h.chunk == chunk {
      var i :| 0 <= i < |chunks| && chunks[i] == chunk;
      assert hits[i] in hits;
    }
    passed := r.Ok?;
  }

  /** The dictionary of seeds and expanded hits, by chunk identifier. */
  method MergeHits(seeds: seq<Hit>, expanded: seq<Hit>) returns (merged: seq<Hit>)
    ensures merged == Merge(seeds, expanded)
  {
    merged := [];
    for i := 0 to |seeds|
      invariant merged == Keyed(seeds[..i])
    {
      assert seeds[..i + 1][..i] == seeds[..i];
      merged := Put(merged, seeds[i]);
    }
    assert seeds[..|seeds|] == seeds;
    for i := 0 to |expanded|
      invariant merged == Merge(seeds, expanded[..i])
    {
      assert expanded[..i + 1][..i] == expanded[..i];
      if !HasId(merged, expanded[i].content.chunkId) { merged := merged + [expanded[i]]; }
    }
    assert expanded[..|expanded|] == expanded;
  }

  class AuditLog {
    var rows: seq<Audit>
    var succeeded: bool
    var failure: Option<EngineError>

    constructor ()
      ensures rows == [] && !succeeded && failure.None?
    {
      rows, succeeded, failure := [], false, None;
    }
  }

  method FindStep(p: Pipeline, id: string) returns (r: Option<Step>)
    requires UniqueIds(p.steps)
    ensures r == if id in StepMap(p.steps) then Some(StepMap(p.steps)[id]) else None
  {
    StepMapKeys(p.steps);
    StepMapHoldsAll(p.steps);
    for i := 0 to |p.steps|
      invariant forall j :: 0 <= j < i ==> p.steps[j].id != id
    {
      if p.steps[i].id == id {
        assert p.steps[i] in p.steps;
        return Some(p.steps[i]);
      }
    }
    r := None;
  }

  /** The loop performs the run, leaves its context, its audit rows and its outcome, and
      concludes it, also when the audit or the conversation history raises. */
  method PerformRun(reg: Registry, p: Pipeline, context: Context, log: AuditLog, w: World)
    returns (r: Result<QueryResult, EngineError>)
    requires UniqueIds(p.steps)
    requires context.trace == [] && log.rows == [] && !log.succeeded && log.failure.None?
    modifies context, log
    ensures var f := Run(Check(reg, p), w, old(context.Value()), p.entry, []);
            && log.rows == f.rows && context.Value() == Conclude(w, f).state && r == Conclude(w, f).outcome
            && log.succeeded == Conclude(w, f).succeeded && log.failure == Conclude(w, f).failure
  {
    hide Act;
    hide Conclude;
    hide ConfigAccepted;
    hide UniqueIds;
    hide StepMap;
    ghost var c := Check(reg, p);
    ghost var f := Run(c, w, context.Value(), p.entry, []);
    var current := Some(p.entry);
    var error: Option<EngineError> := None;
    while current.Some? && error.None?
      invariant error.None? && current.Some? ==> Run(c, w, context.Value(), current.value, log.rows) == f
      invariant error.Some? || current.None? ==> f == Finished(context.Value(), log.rows, error)
      invariant !log.succeeded && log.failure.None?
      decreases error.None?, if current.None? then 0 else 1, p.maxSteps - |context.trace|
    {
      error, current := ExecuteStep(reg, p, context, log, w, current.value);
    }
    r := ConcludeRun(context, log, w, error);
  }

  /** The run with its conclusion; and from a fresh context its outcome, told by the path and the
      answers from outside. */
  method Execute(reg: Registry, p: Pipeline, context: Context, log: AuditLog, w: World)
    returns (r: Result<QueryResult, EngineError>)
    requires UniqueIds(p.steps)
    requires context.trace == [] && log.rows == [] && !log.succeeded && log.failure.None?
    modifies context, log
    ensures var f := Run(Check(reg, p), w, old(context.Value()), p.entry, []);
            && log.rows == f.rows && context.Value() == Conclude(w, f).state && r == Conclude(w, f).outcome
            && log.succeeded == Conclude(w, f).succeeded && log.failure == Conclude(w, f).failure
    ensures old(context.Value() == Initial(context.policy.model)) ==>
              var f := Whole(Check(reg, p), w, old(context.policy.model));
              && IsOutcome(Check(reg, p), w, f, r)
              && IsMarked(Check(reg, p), w, f, Ended(context.Value(), r, log.succeeded, log.failure))
  {
    hide Run;
    hide Conclude;
    hide IsOutcome;
    hide IsMarked;
    hide StepMap;
    hide UniqueIds;
    OutcomeOfRun(Check(reg, p), w, context.policy.model);
    r := PerformRun(reg, p, context, log, w);
  }

  /** What `execute` does behind its loop and in its handler. */
  method ConcludeRun(context: Context, log: AuditLog, w: World, failure: Option<EngineError>)
    returns (r: Result<QueryResult, EngineError>)
    requires !log.succeeded && log.failure.None?
    modifies context`conversation, log`succeeded, log`failure
    ensures var e := Conclude(w, Finished(old(context.Value()), log.rows, failure));
            && context.Value() == e.state && r == e.outcome && log.succeeded == e.succeeded && log.failure == e.failure
  {
    var error := failure;
    if error.None? {
      if !w.succeedFails {
        log.succeeded := true;
        return Ok(QueryResult(context.texts.answer, EvidenceContext.Citations(Cited(context.rendering.hits, context.rendering.maximum)),
                              context.trace));
      }
      error := Some(AuditFailed);
    }
    if context.conversation.started && !context.conversation.finalized {
      if !context.conversation.resolved || w.closingFails {
        error := Some(HistoryFailed);
      } else {
        context.conversation := context.conversation.(finalized := true);
      }
    }
    if w.failFails { return Err(AuditFailed); }
    log.failure := error;
    r := Err(error.value);
  }

  /** One round of the loop. */
  method ExecuteStep(reg: Registry, p: Pipeline, context: Context, log: AuditLog, w: World, current: string)
    returns (error: Option<EngineError>, next: Option<string>)
    requires UniqueIds(p.steps)
    modifies context, log`rows
    ensures var f := Run(Check(reg, p), w, old(context.Value()), current, old(log.rows));
            if error.Some? || next.None? then f == Finished(context.Value(), log.rows, error)
            else
              && |context.trace| == |old(context.trace)| + 1 && |old(context.trace)| < p.maxSteps
              && f == Run(Check(reg, p), w, context.Value(), next.value, log.rows)
  {
    hide Act;
    hide ConfigAccepted;
    hide UniqueIds;
    next := None;
    if |context.trace| + 1 > p.maxSteps { return Some(StepLimit), None; }
    var step := FindStep(p, current);
    if step.None? { return Some(UnknownStep(current)), None; }
    if step.value.action !in reg { return Some(UnknownAction(current)), None; }
    var kind := reg[step.value.action].kind;
    if !ConfigAccepted(kind, step.value) { return Some(ConfigRejected(current)), None; }
    ActKeepsTrace(kind, step.value, context.Value(), w);
    var route := context.Perform(kind, step.value, w);
    if route.Err? { return Some(route.error), None; }
    context.trace := context.trace + [current];
    var followed := NextStep(step.value, route.value);
    if followed.Err? { return Some(followed.error), None; }
    if RecordFails(w, |context.trace| - 1) { return Some(AuditFailed), None; }
    log.rows := log.rows + [Audit(|context.trace|, current, step.value.action, step.value.version, followed.value)];
    return None, followed.value;
  }
}
