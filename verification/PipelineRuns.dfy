/** The meaning of running a pipeline: what each action does to the context, which step follows,
    the whole run as a function of what the outside world answers, and how a run is concluded.
 */
module PipelineRuns {
  import opened Outcomes
  import opened Sequences
  import opened Pipelines
  import EvidenceContext
  import Security

  datatype Texts = Texts(answer: string, lastModelResponse: string, normalizedQuery: string, evidence: string)

  /** A search hit: what is rendered of it, and what decides who may see its chunk. */
  datatype Hit = Hit(content: EvidenceContext.Hit, chunk: Security.Chunk)

  /** What a prompt can be made of: texts, the hits behind evidence and citations with their
      budget, and the hits of the moment. */
  datatype Shown = Shown(query: string, evidence: string, rendered: seq<Hit>, maximum: nat, hits: seq<Hit>, history: string)

  /** One transmission to a model: who received which prompt, what it was made of, whether the
      evidence text was still the rendered one, and the hits the policy had checked. `at` is the
      position in the run. */
  datatype Call = Call(
    at: nat, server: Security.Server, prompt: string, parts: seq<PromptPart>, shown: Shown, original: bool, checkedHits: seq<Hit>)

  /** The pipeline context. `decision` is what the policy step recorded last, with `checkedHits`. */
  datatype State = State(
    trace: seq<string>, counters: map<string, nat>, asked: set<string>, texts: Texts, history: string,
    lastRoute: string, lastPrefix: string, seedHits: seq<Hit>, hits: seq<Hit>,
    rendered: seq<Hit>, maximum: nat, original: bool,
    model: Security.Server, decision: Option<Security.Transmission>, checkedHits: seq<Hit>,
    resolved: bool, started: bool, finalized: bool, calls: seq<Call>)

  datatype Json = Invalid | NotAnObject | Object(decision: string, cleaned: string, query: Option<string>)

  /** What the outside answers to the n-th action: a failure before the action has any effect, hits,
      or text. `lost` is a model that raises after the prompt was sent to it. */
  datatype Reply = Reply(fails: bool, lost: bool, hits: seq<Hit>, text: string, texts: Texts)

  /** Everything a run depends on besides the pipeline: the command and its authorization, the
      answers of the outside, the text functions, the model servers, and which calls to the audit
      and to the conversation history of the failure handler raise. */
  datatype World = World(
    query: string, disclaimer: string, request: Security.Request, replies: nat -> Reply,
    decode: string -> Json, strip: string -> string, collapse: string -> string, normalize: string -> string,
    format: (string, string) -> string,
    servers: map<string, Security.Server>, subjectMayUseExternal: bool,
    recordFails: nat -> bool, succeedFails: bool, failFails: bool, closingFails: bool)

  function ReplyTo(w: World, n: nat): Reply { w.replies(n) }

  function Decode(w: World, text: string): Json { w.decode(text) }

  function Strip(w: World, text: string): string { w.strip(text) }

  function Normalize(w: World, text: string): string { w.normalize(text) }

  function Filled(w: World, template: string, value: string): string { w.format(template, value) }

  predicate RecordFails(w: World, n: nat) { w.recordFails(n) }

  datatype EngineError =
    | StepLimit
    | UnknownStep(step: string)
    | UnknownAction(step: string)
    | ConfigRejected(step: string)
    | UnknownRoute(step: string, route: string)
    | TerminalRoute(step: string)
    | RouteRequired(step: string)
    | PolicyNotEnforced
    | PolicyBlocked
    | PolicyDenied(step: string, reason: string)
    | ActionFailed(step: string)
    | AuditFailed
    | HistoryFailed

  datatype Audit = Audit(sequence: nat, step: string, action: string, version: string, next: Option<string>)

  datatype Finished = Finished(state: State, rows: seq<Audit>, error: Option<EngineError>)

  /** The context an action leaves behind, and the route it chose or the error it raised. */
  datatype Acted = Acted(state: State, outcome: Result<Option<string>, EngineError>)

  function TextOf(texts: Texts, source: TextSource): string {
    match source
    case Answer => texts.answer
    case LastModelResponse => texts.lastModelResponse
    case NormalizedQuery => texts.normalizedQuery
    case Evidence => texts.evidence
  }

  /** The first configured prefix the text starts with. */
  function FirstPrefix(prefixes: seq<(string, string)>, text: string): (r: Option<(string, string)>)
    ensures r.Some? ==> r.value in prefixes && r.value.1 <= text
    ensures r.None? ==> forall x | x in prefixes :: !(x.1 <= text)
  {
    if prefixes == [] then None
    else if prefixes[0].1 <= text then Some(prefixes[0])
    else FirstPrefix(prefixes[1..], text)
  }

  // ----------------------------------------------------------------------------- documents

  function ChunksOf(hits: seq<Hit>): seq<Security.Chunk> {
    seq(|hits|, i requires 0 <= i < |hits| => hits[i].chunk)
  }

  function Contents(hits: seq<Hit>): seq<EvidenceContext.Hit> {
    seq(|hits|, i requires 0 <= i < |hits| => hits[i].content)
  }

  /** The evidence text of a budget step. */
  function Rendered(hits: seq<Hit>, maximum: nat): string { EvidenceContext.Evidence(Contents(hits), maximum) }

  /** What the budget leaves to be cited. */
  function Cited(hits: seq<Hit>, maximum: nat): seq<EvidenceContext.Hit> { EvidenceContext.Cited(Contents(hits), maximum) }

  function LabelsOf(hits: seq<Hit>): seq<Security.Labels> {
    seq(|hits|, i requires 0 <= i < |hits| => hits[i].chunk.security)
  }

  /** Every hit passes the boundary check that follows a search. */
  predicate AllVisible(q: Security.Request, hits: seq<Hit>) {
    forall h | h in hits :: Security.MemoryFilter(q, h.chunk) == Ok(true)
  }

  predicate HasId(hits: seq<Hit>, id: string) { exists i :: 0 <= i < |hits| && hits[i].content.chunkId == id }

  /** Writing to a dictionary by chunk identifier: a hit takes the place of one with its identifier. */
  function Put(hits: seq<Hit>, h: Hit): seq<Hit> {
    if HasId(hits, h.content.chunkId) then
      seq(|hits|, i requires 0 <= i < |hits| => if hits[i].content.chunkId == h.content.chunkId then h else hits[i])
    else hits + [h]
  }

  /** The dictionary of some hits. */
  function Keyed(hits: seq<Hit>): seq<Hit> {
    if hits == [] then [] else Put(Keyed(hits[..|hits| - 1]), hits[|hits| - 1])
  }

  /** The dictionary of the seeds, with the hits of other identifiers behind. */
  function Merge(seeds: seq<Hit>, expanded: seq<Hit>): seq<Hit> {
    if expanded == [] then Keyed(seeds)
    else
      var before, last := Merge(seeds, expanded[..|expanded| - 1]), expanded[|expanded| - 1];
      if HasId(before, last.content.chunkId) then before else before + [last]
  }

  function SourceText(source: PromptSource, shown: Shown): string {
    match source
    case TheQuery => shown.query
    case TheEvidence => shown.evidence
    case ContextChunkIds => EvidenceContext.Lines(EvidenceContext.Ids(Cited(shown.rendered, shown.maximum)))
    case CitationsText => EvidenceContext.CitationsText(EvidenceContext.Citations(Cited(shown.rendered, shown.maximum)))
    case TraceSummary => EvidenceContext.TraceSummary(Contents(shown.hits))
    case TheHistory => shown.history
  }

  function Prompt(parts: seq<PromptPart>, shown: Shown, w: World): string {
    if parts == [] then ""
    else Filled(w, parts[0].template, SourceText(parts[0].source, shown)) + Prompt(parts[1..], shown, w)
  }

  // --------------------------------------------------------------------------- the actions

  predicate KeepsPolicy(s: State, t: State) {
    t.trace == s.trace && t.decision == s.decision && t.model == s.model && t.checkedHits == s.checkedHits && t.calls == s.calls
  }

  predicate KeepsHits(s: State, t: State) { t.seedHits == s.seedHits && t.hits == s.hits }

  predicate KeepsEvidence(s: State, t: State) {
    t.rendered == s.rendered && t.maximum == s.maximum && t.original == s.original && t.texts.evidence == s.texts.evidence
  }

  /** Nothing that concerns documents or their transmission changes, and no loop is counted. */
  predicate Quiet(s: State, t: State) {
    KeepsPolicy(s, t) && KeepsHits(s, t) && KeepsEvidence(s, t) && t.counters == s.counters
  }

  /** The action chose a declared route, or raised its own error. */
  predicate Chooses(step: Step, o: Result<Option<string>, EngineError>) {
    if o.Ok? then o.value.Some? && o.value.value in step.routes else o.error == ActionFailed(step.id)
  }

  /** The action returned, or raised its own error. */
  predicate Returns(step: Step, o: Result<Option<string>, EngineError>) {
    if o.Ok? then o.value.None? else o.error == ActionFailed(step.id)
  }

  function Done(s: State): Acted { Acted(s, Ok(None)) }

  function Raised(step: Step, s: State): Acted { Acted(s, Err(ActionFailed(step.id))) }

  function Routed(s: State, route: string): Acted { Acted(s.(lastRoute := route), Ok(Some(route))) }

  function ActLoopGuard(step: Step, s: State): (r: Acted)
    requires ConfigAccepted(LoopGuard, step)
    ensures KeepsPolicy(s, r.state) && KeepsHits(s, r.state) && KeepsEvidence(s, r.state)
    ensures Chooses(step, r.outcome) && r.outcome.Ok?
    ensures r.state.counters.Keys == s.counters.Keys + {step.id}
    ensures step.id !in s.counters ==> r.outcome.value == Some(step.config.onAllow)
  {
    var current := (if step.id in s.counters then s.counters[step.id] else 0) + 1;
    Routed(s.(counters := s.counters[step.id := current]),
           if current <= step.config.maxLoops then step.config.onAllow else step.config.onDeny)
  }

  /** The route, the prefix it is named after (none for the other route) and the rest of the text. */
  function PrefixChoice(config: Config, text: string, w: World): (string, string, string)
    requires config.PrefixConfig?
  {
    var found := FirstPrefix(config.prefixes, text);
    if found.Some? then (found.value.0, found.value.0, Strip(w, text[|found.value.1|..])) else (config.onOther, "", text)
  }

  function ActPrefixRouter(step: Step, s: State, w: World): (r: Acted)
    requires ConfigAccepted(PrefixRouter, step)
    ensures Quiet(s, r.state) && Chooses(step, r.outcome)
  {
    var (route, prefix, response) := PrefixChoice(step.config, Strip(w, TextOf(s.texts, step.config.source)), w);
    Routed(s.(lastPrefix := prefix, texts := s.texts.(lastModelResponse := response)), route)
  }

  /** The route, if the payload or the configuration has one, and the last response, rewritten when
      the payload is an object. */
  function JsonChoice(config: Config, payload: Json, response: string): (Option<string>, string)
    requires config.JsonConfig?
  {
    (if payload.Object? && payload.decision in config.decisions then Some(payload.decision) else config.otherDecision,
     if payload.Object? then payload.cleaned else response)
  }

  function ActJsonRouter(step: Step, s: State, w: World): (r: Acted)
    requires ConfigAccepted(JsonRouter, step)
    ensures Quiet(s, r.state) && Chooses(step, r.outcome)
  {
    var payload := Decode(w, Strip(w, TextOf(s.texts, step.config.source)));
    var (route, response) := JsonChoice(step.config, payload, s.texts.lastModelResponse);
    var read := s.(texts := s.texts.(lastModelResponse := response));
    if route.None? then Raised(step, read) else Routed(read, route.value)
  }

  /** The query to look up, unless the text is not an object with a textual query. */
  function GuardQuery(config: Config, raw: string, w: World): Option<string>
    requires config.RepeatConfig?
  {
    if !config.parseJson then Some(raw)
    else if Decode(w, raw).Object? then Decode(w, raw).query
    else None
  }

  /** Whether a query is to be asked, and the queries remembered afterwards. */
  function Remembered(asked: set<string>, query: string): (bool, set<string>) {
    if query == "" || query in asked then (false, asked) else (true, asked + {query})
  }

  function ActRepeatGuard(step: Step, s: State, w: World): (r: Acted)
    requires ConfigAccepted(RepeatGuard, step)
    ensures Quiet(s, r.state) && Chooses(step, r.outcome)
  {
    var query := GuardQuery(step.config, TextOf(s.texts, step.config.source), w);
    if query.None? then Raised(step, s)
    else
      var (isNew, asked) := Remembered(s.asked, Normalize(w, query.value));
      Routed(s.(asked := asked), if isNew then step.config.onOk else step.config.onRepeat)
  }

  /** The context with a decision: the model changes only if a server receives. */
  function Recorded(s: State, t: Security.Transmission): State {
    s.(decision := Some(t), checkedHits := s.hits, model := if t.receiver.Some? then t.receiver.value else s.model)
  }

  /** The decision is recorded before it is enforced. */
  function ActEnforce(step: Step, s: State, w: World): (r: Acted)
    requires ConfigAccepted(EnforceTransmission, step)
    ensures r.state.trace == s.trace && r.state.calls == s.calls && r.state.counters == s.counters
    ensures KeepsHits(s, r.state) && KeepsEvidence(s, r.state)
    ensures Returns(step, r.outcome) || (r.outcome.Err? && r.outcome.error.PolicyDenied? && r.outcome.error.step == step.id)
  {
    var t := Security.TransmissionDecision(
      w.request.model, w.servers, step.config.selected, LabelsOf(s.hits), step.config.externalAllowed, w.subjectMayUseExternal);
    if t.Err? then Raised(step, s)
    else
      Acted(Recorded(s, t.value), if t.value.allowed then Ok(None) else Err(PolicyDenied(step.id, t.value.reason)))
  }

  /** The policy has been enforced and allowed the transmission. */
  predicate Permitted(s: State) { s.decision.Some? && s.decision.value.allowed }

  /** What is sent: the prompt, with what it is made of. */
  function SentCall(step: Step, s: State, w: World): Call
    requires ConfigAccepted(CallModel, step)
  {
    var shown := Shown(s.texts.normalizedQuery, s.texts.evidence, s.rendered, s.maximum, s.hits, s.history);
    Call(|s.trace|, s.model, Prompt(step.config.parts, shown, w), step.config.parts, shown, s.original, s.checkedHits)
  }

  /** A model that raises has received the prompt. */
  function ActCall(step: Step, s: State, w: World): (r: Acted)
    requires ConfigAccepted(CallModel, step)
    ensures r.state.trace == s.trace && r.state.decision == s.decision && r.state.model == s.model
    ensures r.state.checkedHits == s.checkedHits
    ensures KeepsHits(s, r.state) && KeepsEvidence(s, r.state) && r.state.counters == s.counters
    ensures || Returns(step, r.outcome)
            || (!Permitted(s) && r.outcome.Err? && (r.outcome.error.PolicyNotEnforced? || r.outcome.error.PolicyBlocked?))
    ensures r.state.calls == s.calls || (Permitted(s) && r.state.calls == s.calls + [SentCall(step, s, w)])
    ensures r.outcome.Ok? ==> r.state.calls == s.calls + [SentCall(step, s, w)]
  {
    var reply := ReplyTo(w, |s.trace|);
    if s.decision.None? then Acted(s, Err(PolicyNotEnforced))
    else if !s.decision.value.allowed then Acted(s, Err(PolicyBlocked))
    else if reply.fails then Raised(step, s)
    else
      var sent := s.(calls := s.calls + [SentCall(step, s, w)]);
      if reply.lost then Raised(step, sent)
      else Done(sent.(texts := s.texts.(answer := reply.text, lastModelResponse := reply.text)))
  }

  /** Hits that fail the boundary check stay in the context as seeds; the query counts as asked. */
  function ActRetrieve(step: Step, s: State, w: World): (r: Acted)
    requires ConfigAccepted(Retrieve, step)
    ensures KeepsPolicy(s, r.state) && KeepsEvidence(s, r.state) && r.state.counters == s.counters && Returns(step, r.outcome)
  {
    var reply := ReplyTo(w, |s.trace|);
    if reply.fails then Raised(step, s)
    else
      var query := if step.config.fromCommand then w.query else s.texts.normalizedQuery;
      var searched := s.(seedHits := reply.hits, asked := s.asked + {Normalize(w, query)});
      if AllVisible(w.request, reply.hits) then Done(searched.(hits := reply.hits)) else Raised(step, searched)
  }

  function ActExpand(step: Step, s: State, w: World): (r: Acted)
    requires ConfigAccepted(ExpandGraph, step)
    ensures KeepsPolicy(s, r.state) && KeepsEvidence(s, r.state) && r.state.counters == s.counters && Returns(step, r.outcome)
    ensures r.state.seedHits == s.seedHits
  {
    var reply := ReplyTo(w, |s.trace|);
    if !step.config.enabled || s.hits == [] then Done(s)
    else if reply.fails || !AllVisible(w.request, reply.hits) then Raised(step, s)
    else Done(s.(hits := Merge(s.seedHits, reply.hits)))
  }

  function ActBudget(step: Step, s: State): (r: Acted)
    requires ConfigAccepted(ManageContextBudget, step)
    ensures KeepsPolicy(s, r.state) && KeepsHits(s, r.state) && r.state.counters == s.counters && Returns(step, r.outcome)
  {
    var maximum := step.config.maximum;
    Done(s.(texts := s.texts.(evidence := Rendered(s.hits, maximum)), rendered := s.hits, maximum := maximum, original := true))
  }

  function Overwritten(texts: Texts, targets: set<TextSource>, written: Texts): Texts {
    Texts(if Answer in targets then written.answer else texts.answer,
          if LastModelResponse in targets then written.lastModelResponse else texts.lastModelResponse,
          if NormalizedQuery in targets then written.normalizedQuery else texts.normalizedQuery,
          if Evidence in targets then written.evidence else texts.evidence)
  }

  /** The rules write their targets one after the other; where one raises, the answered texts are
      those that the context has then. */
  function ActSetVariables(step: Step, s: State, w: World): (r: Acted)
    requires ConfigAccepted(SetVariables, step)
    ensures KeepsPolicy(s, r.state) && KeepsHits(s, r.state) && r.state.counters == s.counters && Returns(step, r.outcome)
    ensures r.state.rendered == s.rendered && r.state.maximum == s.maximum
    ensures Evidence !in step.config.targets ==> KeepsEvidence(s, r.state)
  {
    var reply := ReplyTo(w, |s.trace|);
    var written := s.(texts := Overwritten(s.texts, step.config.targets, reply.texts),
                      original := s.original && Evidence !in step.config.targets);
    if reply.fails then Raised(step, written) else Done(written)
  }

  /** What separates an answer from the disclaimer of its domain. */
  const DISCLAIMER_RULE := "\n\n---\n\n"

  function ActFinalize(s: State, w: World): (r: Acted)
    ensures Quiet(s, r.state) && r.outcome == Ok(None)
  {
    Done(if w.disclaimer == "" then s
         else s.(texts := s.texts.(answer := Strip(w, s.texts.answer + DISCLAIMER_RULE + w.disclaimer))))
  }

  /** The actions on the conversation and its turn. */
  function ActConversation(kind: Kind, step: Step, s: State, w: World): (r: Acted)
    ensures Quiet(s, r.state) && Returns(step, r.outcome)
  {
    var reply := ReplyTo(w, |s.trace|);
    match kind
    case ResolveConversation => if reply.fails then Raised(step, s) else Done(s.(resolved := true))
    case StartTurn => if !s.resolved || reply.fails then Raised(step, s) else Done(s.(started := true))
    case LoadHistory => if !s.resolved || reply.fails then Raised(step, s) else Done(s.(history := reply.text))
    case FinalizeTurn =>
      if !s.resolved || !s.started || s.texts.answer == "" || reply.fails then Raised(step, s)
      else Done(s.(finalized := true))
    case _ => if !s.resolved || !s.started || reply.fails then Raised(step, s) else Done(s.(finalized := true))
  }

  /** One action. */
  function Act(kind: Kind, step: Step, s: State, w: World): Acted
    requires ConfigAccepted(kind, step)
  {
    match kind
    case LoopGuard => ActLoopGuard(step, s)
    case PrefixRouter => ActPrefixRouter(step, s, w)
    case JsonRouter => ActJsonRouter(step, s, w)
    case RepeatGuard => ActRepeatGuard(step, s, w)
    case EnforceTransmission => ActEnforce(step, s, w)
    case CallModel => ActCall(step, s, w)
    case Retrieve => ActRetrieve(step, s, w)
    case ExpandGraph => ActExpand(step, s, w)
    case NormalizeQuery => Done(s.(texts := s.texts.(normalizedQuery := w.collapse(w.query))))
    case ManageContextBudget => ActBudget(step, s)
    case RequireEvidence => if s.texts.evidence == "" || s.rendered == [] then Raised(step, s) else Done(s)
    case SetVariables => ActSetVariables(step, s, w)
    case Finalize => ActFinalize(s, w)
    case _ => ActConversation(kind, step, s, w)
  }

  /** `_next_step`. */
  function NextStep(step: Step, route: Option<string>): Result<Option<string>, EngineError> {
    if step.terminal then
      if route.Some? then Err(TerminalRoute(step.id)) else Ok(None)
    else if route.Some? then
      if route.value in step.routes then Ok(Some(step.routes[route.value])) else Err(UnknownRoute(step.id, route.value))
    else if step.next.None? then Err(RouteRequired(step.id))
    else Ok(step.next)
  }

  /** A run from a step on; `s.trace` holds the steps done so far. */
  function Run(c: Checked, w: World, s: State, current: string, rows: seq<Audit>): Finished
    decreases c.maxSteps - |s.trace|
  {
    if |s.trace| + 1 > c.maxSteps then Finished(s, rows, Some(StepLimit))
    else if current !in c.steps then Finished(s, rows, Some(UnknownStep(current)))
    else
      var step := c.steps[current];
      if step.action !in c.reg then Finished(s, rows, Some(UnknownAction(current)))
      else if !ConfigAccepted(c.reg[step.action].kind, step) then Finished(s, rows, Some(ConfigRejected(current)))
      else
        var acted := Act(c.reg[step.action].kind, step, s, w);
        if acted.outcome.Err? then Finished(acted.state, rows, Some(acted.outcome.error))
        else
          var done := acted.state.(trace := s.trace + [current]);
          var next := NextStep(step, acted.outcome.value);
          if next.Err? then Finished(done, rows, Some(next.error))
          else if RecordFails(w, |s.trace|) then Finished(done, rows, Some(AuditFailed))
          else
            var written := rows + [Audit(|s.trace| + 1, current, step.action, step.version, next.value)];
            if next.value.None? then Finished(done, written, None)
            else Run(c, w, done, next.value.value, written)
  }

  function Initial(server: Security.Server): State {
    State([], map[], {}, Texts("", "", "", ""), "", "", "", [], [], [], 0, false, server, None, [], false, false, false, [])
  }

  /** The whole run of a checked pipeline. */
  function Whole(c: Checked, w: World, server: Security.Server): Finished { Run(c, w, Initial(server), c.entry, []) }

  datatype QueryResult = QueryResult(answer: string, citations: seq<EvidenceContext.Citation>, trace: seq<string>)

  /** The result that a context holds. */
  function ResultOf(s: State): QueryResult {
    QueryResult(s.texts.answer, EvidenceContext.Citations(Cited(s.rendered, s.maximum)), s.trace)
  }

  /** What the caller gets, and how the run is marked in the audit. */
  datatype Ended = Ended(
    state: State, outcome: Result<QueryResult, EngineError>, succeeded: bool, failure: Option<EngineError>)

  function Failed(w: World, s: State, error: EngineError): Ended {
    if w.failFails then Ended(s, Err(AuditFailed), false, None) else Ended(s, Err(error), false, Some(error))
  }

  /** Success is marked, or else the turn that is open is closed and the failure is marked; an error
      of the conversation history takes the place of the error that led to it. */
  function Conclude(w: World, f: Finished): Ended {
    if f.error.None? && !w.succeedFails then Ended(f.state, Ok(ResultOf(f.state)), true, None)
    else
      var error := if f.error.Some? then f.error.value else AuditFailed;
      if !f.state.started || f.state.finalized then Failed(w, f.state, error)
      else if !f.state.resolved || w.closingFails then Failed(w, f.state, HistoryFailed)
      else Failed(w, f.state.(finalized := true), error)
  }

  // ------------------------------------------------------------------- one action, in parts

  lemma ActKeepsTrace(kind: Kind, step: Step, s: State, w: World)
    requires ConfigAccepted(kind, step)
    ensures Act(kind, step, s, w).state.trace == s.trace
  {
    hide ActLoopGuard;
    hide ActPrefixRouter;
    hide ActJsonRouter;
    hide ActRepeatGuard;
    hide ActEnforce;
    hide ActCall;
    hide ActRetrieve;
    hide ActExpand;
    hide ActBudget;
    hide ActSetVariables;
    hide ActFinalize;
    hide ActConversation;
  }

  lemma ActRoutes(kind: Kind, step: Step, s: State, w: World)
    requires ConfigAccepted(kind, step)
    ensures var r := Act(kind, step, s, w).outcome;
            && (r.Ok? ==> (r.value.Some? <==> Routes(kind)) && (r.value.Some? ==> r.value.value in step.routes))
            && (r.Err? ==> || (r.error.ActionFailed? && r.error.step == step.id)
                           || (kind.EnforceTransmission? && r.error.PolicyDenied? && r.error.step == step.id)
                           || (kind.CallModel? && !Permitted(s) && (r.error.PolicyNotEnforced? || r.error.PolicyBlocked?)))
  {
    hide ActLoopGuard;
    hide ActPrefixRouter;
    hide ActJsonRouter;
    hide ActRepeatGuard;
    hide ActEnforce;
    hide ActCall;
    hide ActRetrieve;
    hide ActExpand;
    hide ActBudget;
    hide ActSetVariables;
    hide ActFinalize;
    hide ActConversation;
  }

  lemma ActCounts(kind: Kind, step: Step, s: State, w: World)
    requires ConfigAccepted(kind, step)
    ensures var r := Act(kind, step, s, w);
            r.outcome.Ok? ==>
              if kind.LoopGuard? then
                && r.state.counters.Keys == s.counters.Keys + {step.id}
                && (step.id !in s.counters ==> r.outcome.value == Some(step.config.onAllow))
              else r.state.counters == s.counters
  {
    hide ActLoopGuard;
    hide ActPrefixRouter;
    hide ActJsonRouter;
    hide ActRepeatGuard;
    hide ActEnforce;
    hide ActCall;
    hide ActRetrieve;
    hide ActExpand;
    hide ActBudget;
    hide ActSetVariables;
    hide ActFinalize;
    hide ActConversation;
  }

  /** The server may receive these documents; an external one only if the step's setting allows. */
  ghost predicate Cleared(w: World, server: Security.Server, hits: seq<Hit>, externalAllowed: bool) {
    Security.MayReceive(w.request.model, server, LabelsOf(hits), externalAllowed, w.subjectMayUseExternal)
  }

  ghost predicate Enforced(w: World, s: State, externalAllowed: bool) {
    Permitted(s) && Cleared(w, s.model, s.checkedHits, externalAllowed)
  }

  lemma AllowedReceiver(w: World, config: Config, hits: seq<Hit>)
    requires config.TransmissionConfig?
    ensures var t := Security.TransmissionDecision(
              w.request.model, w.servers, config.selected, LabelsOf(hits), config.externalAllowed, w.subjectMayUseExternal);
            t.Ok? && t.value.allowed ==>
              t.value.receiver.Some? && Cleared(w, t.value.receiver.value, hits, config.externalAllowed)
  {
    hide Security.TransmissionDecision;
    hide Security.MayReceive;
    hide LabelsOf;
    Security.TransmissionIsRouted(w.request.model, w.servers, config.selected, LabelsOf(hits), config.externalAllowed,
                                  w.subjectMayUseExternal);
  }

  lemma PolicyIsEnforced(step: Step, s: State, w: World)
    requires ConfigAccepted(EnforceTransmission, step)
    ensures var r := ActEnforce(step, s, w);
            r.outcome.Ok? ==> Enforced(w, r.state, step.config.externalAllowed) && r.state.checkedHits == s.hits
  {
    hide Security.TransmissionDecision;
    hide Cleared;
    hide LabelsOf;
    AllowedReceiver(w, step.config, s.hits);
  }

  /** The policy step leaves an enforced policy for the present hits; no other step touches it. */
  lemma ActKeepsPolicy(kind: Kind, step: Step, s: State, w: World)
    requires ConfigAccepted(kind, step)
    ensures var r := Act(kind, step, s, w);
            if kind.EnforceTransmission? then
              r.outcome.Ok? ==> Enforced(w, r.state, step.config.externalAllowed) && r.state.checkedHits == s.hits
            else r.state.decision == s.decision && r.state.model == s.model && r.state.checkedHits == s.checkedHits
  {
    hide ActLoopGuard;
    hide ActPrefixRouter;
    hide ActJsonRouter;
    hide ActRepeatGuard;
    hide ActEnforce;
    hide ActCall;
    hide ActRetrieve;
    hide ActExpand;
    hide ActBudget;
    hide ActSetVariables;
    hide ActFinalize;
    hide ActConversation;
    hide Enforced;
    if kind.EnforceTransmission? { PolicyIsEnforced(step, s, w); }
  }

  /** Only a model step transmits, one prompt at a time, and only what a permitted state holds. */
  lemma ActSends(kind: Kind, step: Step, s: State, w: World)
    requires ConfigAccepted(kind, step)
    ensures var r := Act(kind, step, s, w);
            || r.state.calls == s.calls
            || (&& kind.CallModel? && Permitted(s) && r.state.calls == s.calls + [SentCall(step, s, w)])
    ensures var r := Act(kind, step, s, w);
            kind.CallModel? && r.outcome.Ok? ==> r.state.calls == s.calls + [SentCall(step, s, w)]
  {
    hide ActLoopGuard;
    hide ActPrefixRouter;
    hide ActJsonRouter;
    hide ActRepeatGuard;
    hide ActEnforce;
    hide ActCall;
    hide ActRetrieve;
    hide ActExpand;
    hide ActBudget;
    hide ActSetVariables;
    hide ActFinalize;
    hide ActConversation;
    hide SentCall;
  }

  // ------------------------------------------------------------------------ the invariant

  function StepAt(path: seq<string>, i: nat): Option<string> { if i < |path| then Some(path[i]) else None }

  /** Audit rows are numbered from 1 and each names the step after it. */
  ghost predicate Linked(c: Checked, rows: seq<Audit>, path: seq<string>) {
    && |rows| <= |path|
    && forall i :: 0 <= i < |rows| ==>
         && rows[i].sequence == i + 1 && rows[i].step == path[i] && path[i] in c.steps
         && rows[i].action == c.steps[path[i]].action && rows[i].version == c.steps[path[i]].version
         && rows[i].next == StepAt(path, i + 1)
  }

  /** Every loop guard on the path was left by its allowing route. */
  ghost predicate LoopsAllowed(c: Checked, path: seq<string>) {
    forall i :: 0 <= i < |path| - 1 && KindOf(c, path[i]) == Some(LoopGuard) ==>
      && c.steps[path[i]].config.LoopGuardConfig?
      && c.steps[path[i]].config.onAllow in c.steps[path[i]].routes
      && path[i + 1] == c.steps[path[i]].routes[c.steps[path[i]].config.onAllow]
  }

  predicate IsCheck(c: Checked, id: string) {
    KindOf(c, id) == Some(EnforceTransmission) && c.steps[id].config.TransmissionConfig?
  }

  /** The setting of the last policy step on the path. */
  ghost function Setting(c: Checked, path: seq<string>): bool {
    path != []
    && if IsCheck(c, Last(path)) then c.steps[Last(path)].config.externalAllowed else Setting(c, Init(path))
  }

  /** Every transmission was made by the model step that `at` names, to a server cleared for the
      hits checked last, under the setting they were checked with. */
  ghost predicate CallsCleared(c: Checked, w: World, path: seq<string>, calls: seq<Call>) {
    forall call | call in calls ::
      && call.at < |path| && KindOf(c, path[call.at]) == Some(CallModel)
      && Cleared(w, call.server, call.checkedHits, Setting(c, path[..call.at]))
  }

  ghost predicate PolicyHolds(c: Checked, w: World, s: State) {
    "model_transmission_policy" in Available(c, s.trace) ==> Enforced(w, s, Setting(c, s.trace))
  }

  ghost predicate Invariant(c: Checked, w: World, s: State, current: string, rows: seq<Audit>) {
    && EntryPath(c, s.trace + [current])
    && |rows| == |s.trace| && Linked(c, rows, s.trace + [current])
    && LoopsAllowed(c, s.trace + [current])
    && (forall id | id in s.counters :: id in s.trace)
    && (forall id | id in s.trace :: !NeedsRoute(c, id))
    && PolicyHolds(c, w, s)
    && CallsCleared(c, w, s.trace, s.calls)
  }

  /** What every finished run of an accepted pipeline satisfies. The trace holds the steps whose
      action returned; after a failing action the step that failed comes next on the path. */
  ghost predicate SafeFinish(c: Checked, w: World, f: Finished) {
    var trace, rows := f.state.trace, f.rows;
    && ((f.error.Some? && f.error.value.RouteRequired?) <==> exists id :: id in trace && NeedsRoute(c, id))
    && match f.error
       case None =>
         && SafePath(c, w, f, trace) && |rows| == |trace|
         && Terminal(c, Last(trace)) && "result" in Available(c, trace)
       case Some(RouteRequired(id)) =>
         && SafePath(c, w, f, trace) && |rows| == |trace| - 1
         && Last(trace) == id && NeedsRoute(c, id)
       case Some(AuditFailed) => SafePath(c, w, f, trace) && |rows| == |trace| - 1 && RecordFails(w, |rows|)
       case Some(ActionFailed(id)) => SafePath(c, w, f, trace + [id]) && |rows| == |trace|
       case Some(PolicyDenied(id, _)) =>
         SafePath(c, w, f, trace + [id]) && |rows| == |trace| && KindOf(c, id) == Some(EnforceTransmission)
       case _ => false
  }

  ghost predicate SafePath(c: Checked, w: World, f: Finished, path: seq<string>) {
    && EntryPath(c, path) && NoRepeat(path) && |path| <= c.maxSteps
    && Linked(c, f.rows, path) && LoopsAllowed(c, path) && CallsCleared(c, w, path, f.state.calls)
  }

  /** A step that ends a run with an error although the pipeline was accepted: it declares routes
      only, and its action never chooses one. */
  predicate NeedsRoute(c: Checked, id: string) {
    && id in c.steps && !c.steps[id].terminal && c.steps[id].next.None?
    && KindOf(c, id).Some? && !Routes(KindOf(c, id).value)
  }

  // ------------------------------------------------------------------------- the induction

  /** The parts of the invariant that speak of the path, over one completed step. */
  lemma PathAdvances(c: Checked, trace: seq<string>, current: string, next: string, rows: seq<Audit>)
    requires EntryPath(c, trace + [current]) && next in After(c, current)
    requires |rows| == |trace| && Linked(c, rows, trace + [current]) && current in c.steps
    requires LoopsAllowed(c, trace + [current])
    requires KindOf(c, current) == Some(LoopGuard) ==>
               && c.steps[current].config.LoopGuardConfig?
               && c.steps[current].config.onAllow in c.steps[current].routes
               && next == c.steps[current].routes[c.steps[current].config.onAllow]
    ensures var done := trace + [current];
            var row := Audit(|trace| + 1, current, c.steps[current].action, c.steps[current].version, Some(next));
            && EntryPath(c, done + [next])
            && Linked(c, rows + [row], done + [next])
            && LoopsAllowed(c, done + [next])
  {
    var done := trace + [current];
    assert Last(done) == current;
    PathGrows(c, done, next);
    forall i | 0 <= i < |done| ensures (done + [next])[i] == done[i] {}
  }

  lemma PathEnds(c: Checked, trace: seq<string>, current: string, rows: seq<Audit>)
    requires |rows| == |trace| && Linked(c, rows, trace + [current]) && current in c.steps
    ensures var row := Audit(|trace| + 1, current, c.steps[current].action, c.steps[current].version, None);
            Linked(c, rows + [row], trace + [current])
  {
  }

  /** A model call is supplied with an enforced policy, so its guards hold. */
  lemma CallIsEnforced(c: Checked, w: World, s: State, current: string)
    requires PolicyIsGuarded(c.reg) && KindOf(c, current) == Some(CallModel)
    requires Needs(c, current) <= Available(c, s.trace) && PolicyHolds(c, w, s)
    ensures Enforced(w, s, Setting(c, s.trace))
  {
    hide Enforced;
    hide Available;
    hide Setting;
  }

  /** What an action sends goes to a cleared server, whether or not it returns. */
  lemma CallsStayCleared(c: Checked, w: World, s: State, current: string)
    requires PolicyIsGuarded(c.reg) && current in c.steps && c.steps[current].action in c.reg
    requires ConfigAccepted(c.reg[c.steps[current].action].kind, c.steps[current])
    requires Needs(c, current) <= Available(c, s.trace)
    requires PolicyHolds(c, w, s) && CallsCleared(c, w, s.trace, s.calls)
    ensures CallsCleared(c, w, s.trace + [current], Act(c.reg[c.steps[current].action].kind, c.steps[current], s, w).state.calls)
  {
    hide Act;
    hide Cleared;
    hide Setting;
    hide ConfigAccepted;
    hide PolicyIsGuarded;
    hide PolicyHolds;
    hide Available;
    hide Needs;
    hide Prompt;
    var kind := c.reg[c.steps[current].action].kind;
    ActSends(kind, c.steps[current], s, w);
    var path := s.trace + [current];
    forall call | call in Act(kind, c.steps[current], s, w).state.calls
      ensures call.at < |path| && KindOf(c, path[call.at]) == Some(CallModel)
      ensures Cleared(w, call.server, call.checkedHits, Setting(c, path[..call.at]))
    {
      if call in s.calls {
        assert path[call.at] == s.trace[call.at] && path[..call.at] == s.trace[..call.at];
      } else {
        assert path[..call.at] == s.trace;
        CallIsEnforced(c, w, s, current);
      }
    }
  }

  /** A step keeps what the policy promises: only the policy step provides what a call needs. */
  lemma PolicyAdvances(c: Checked, w: World, s: State, current: string)
    requires PolicyIsGuarded(c.reg) && current in c.steps && c.steps[current].action in c.reg
    requires ConfigAccepted(c.reg[c.steps[current].action].kind, c.steps[current])
    requires Act(c.reg[c.steps[current].action].kind, c.steps[current], s, w).outcome.Ok?
    requires PolicyHolds(c, w, s)
    ensures var acted := Act(c.reg[c.steps[current].action].kind, c.steps[current], s, w).state;
            PolicyHolds(c, w, acted.(trace := s.trace + [current]))
  {
    hide Act;
    hide Cleared;
    var kind := c.reg[c.steps[current].action].kind;
    assert kind.EnforceTransmission? ==> c.steps[current].config.TransmissionConfig?;
    hide ConfigAccepted;
    ActKeepsPolicy(c.reg[c.steps[current].action].kind, c.steps[current], s, w);
    assert Init(s.trace + [current]) == s.trace && Last(s.trace + [current]) == current;
  }

  /** A step that the action and its route lead to is a declared target. */
  lemma NextIsTarget(c: Checked, id: string, route: Option<string>)
    requires id in c.steps
    ensures var n := NextStep(c.steps[id], route);
            n.Ok? && n.value.Some? ==> n.value.value in After(c, id) && !c.steps[id].terminal
  {
  }

  /** The step a good path ends at can be run. */
  lemma LastIsRunnable(c: Checked, path: seq<string>)
    requires Sound(c) && AllPathsGood(c) && EntryPath(c, path) && path != []
    ensures var id := Last(path);
            && id in c.steps && c.steps[id].id == id && c.steps[id].action in c.reg && WellFormedStep(c.steps[id])
            && ConfigAccepted(c.reg[c.steps[id].action].kind, c.steps[id])
            && KindOf(c, id) == Some(c.reg[c.steps[id].action].kind)
    ensures NoRepeat(path) && |path| <= c.maxSteps && Needs(c, Last(path)) <= Available(c, Init(path))
  {
    hide EntryPath;
    hide ConfigAccepted;
    hide NoRepeat;
    hide Available;
    hide Targets;
    PathInSteps(c, path);
    assert Last(path) in path;
    assert StepAccepted(c.reg, c.steps, c.steps[Last(path)]);
    assert GoodPath(c, path);
  }

  lemma RouterIsNotTerminal(kind: Kind, step: Step)
    requires ConfigAccepted(kind, step) && WellFormedStep(step) && Routes(kind)
    ensures !step.terminal
  {
  }

  lemma NotVisitedTwice(trace: seq<string>, current: string)
    requires NoRepeat(trace + [current])
    ensures current !in trace
  {
    var path := trace + [current];
    forall i | 0 <= i < |trace| ensures trace[i] != current { assert path[i] != path[|trace|]; }
  }

  /** A run may end after a completed step: at its end, without a route, or without a record. */
  lemma EndsSafely(c: Checked, w: World, f: Finished, before: seq<string>, current: string)
    requires f.state.trace == before + [current] && SafePath(c, w, f, f.state.trace)
    requires forall id | id in before :: !NeedsRoute(c, id)
    requires f.error.None? ==>
               && |f.rows| == |f.state.trace| && Terminal(c, current) && "result" in Available(c, f.state.trace)
               && !NeedsRoute(c, current)
    requires f.error.Some? ==>
               && |f.rows| == |before|
               && if NeedsRoute(c, current) then f.error == Some(RouteRequired(current))
                  else f.error == Some(AuditFailed) && RecordFails(w, |f.rows|)
    ensures SafeFinish(c, w, f)
  {
    hide SafePath;
    hide NeedsRoute;
    hide Available;
    hide Terminal;
    assert Last(f.state.trace) == current && current in f.state.trace;
  }

  /** A run may end at a step whose action raises its own error or the denial of the policy. */
  lemma FailsSafely(c: Checked, w: World, f: Finished, current: string)
    requires SafePath(c, w, f, f.state.trace + [current]) && |f.rows| == |f.state.trace|
    requires forall id | id in f.state.trace :: !NeedsRoute(c, id)
    requires f.error.Some?
    requires || f.error.value == ActionFailed(current)
             || (f.error.value.PolicyDenied? && f.error.value.step == current && KindOf(c, current) == Some(EnforceTransmission))
    ensures SafeFinish(c, w, f)
  {
    hide SafePath;
    hide NeedsRoute;
    hide Available;
    hide Terminal;
  }

  /** One completed step keeps the invariant, or ends the run safely. */
  lemma StepKeepsInvariant(c: Checked, w: World, s: State, current: string, rows: seq<Audit>, done: State,
        next: Result<Option<string>, EngineError>)
    requires Sound(c) && AllPathsGood(c) && AllEndsProduceResult(c) && PolicyIsGuarded(c.reg)
    requires Invariant(c, w, s, current, rows)
    requires current in c.steps && c.steps[current].action in c.reg
    requires ConfigAccepted(c.reg[c.steps[current].action].kind, c.steps[current])
    requires var acted := Act(c.reg[c.steps[current].action].kind, c.steps[current], s, w);
             && acted.outcome.Ok? && done == acted.state.(trace := s.trace + [current])
             && next == NextStep(c.steps[current], acted.outcome.value)
    ensures next.Err? ==> SafeFinish(c, w, Finished(done, rows, Some(next.error)))
    ensures next.Ok? && RecordFails(w, |s.trace|) ==> SafeFinish(c, w, Finished(done, rows, Some(AuditFailed)))
    ensures next.Ok? ==>
              var written := rows + [Audit(|s.trace| + 1, current, c.steps[current].action, c.steps[current].version, next.value)];
              if next.value.Some? then Invariant(c, w, done, next.value.value, written)
              else SafeFinish(c, w, Finished(done, written, None))
  {
    hide Act;
    hide SafeFinish;
    hide Setting;
    hide Cleared;
    hide EntryPath;
    hide NoRepeat;
    hide Linked;
    hide LoopsAllowed;
    hide CallsCleared;
    hide PolicyHolds;
    hide PolicyIsGuarded;
    hide ConfigAccepted;
    hide Available;
    hide Sound;
    hide After;
    hide AllPathsGood;
    hide Needs;
    hide Routes;
    hide Prompt;
    hide NeedsRoute;
    hide NextStep;
    var path := s.trace + [current];
    assert Init(path) == s.trace && Last(path) == current;
    LastIsRunnable(c, path);
    NotVisitedTwice(s.trace, current);
    var step := c.steps[current];
    var kind := c.reg[step.action].kind;
    var acted := Act(kind, step, s, w);
    ActRoutes(kind, step, s, w);
    ActKeepsTrace(kind, step, s, w);
    ActCounts(kind, step, s, w);
    PolicyAdvances(c, w, s, current);
    CallsStayCleared(c, w, s, current);
    if Routes(kind) { RouterIsNotTerminal(kind, step); }
    NextIsTarget(c, current, acted.outcome.value);
    RouteIsMissing(c, current, acted.outcome.value);
    if next.Err? {
      EndsSafely(c, w, Finished(done, rows, Some(next.error)), s.trace, current);
    } else {
      if RecordFails(w, |s.trace|) { EndsSafely(c, w, Finished(done, rows, Some(AuditFailed)), s.trace, current); }
      if next.value.Some? {
        LoopConfig(kind, step);
        PathAdvances(c, s.trace, current, next.value.value, rows);
      } else {
        PathEnds(c, s.trace, current, rows);
        var written := rows + [Audit(|s.trace| + 1, current, step.action, step.version, next.value)];
        EndsSafely(c, w, Finished(done, written, None), s.trace, current);
      }
    }
  }

  lemma {:induction false} RunIsSafe(c: Checked, w: World, s: State, current: string, rows: seq<Audit>)
    requires Sound(c) && AllPathsGood(c) && AllEndsProduceResult(c) && PolicyIsGuarded(c.reg)
    requires Invariant(c, w, s, current, rows)
    ensures SafeFinish(c, w, Run(c, w, s, current, rows))
    decreases c.maxSteps - |s.trace|
  {
    hide Act;
    hide SafeFinish;
    hide Setting;
    hide Cleared;
    hide EntryPath;
    hide NoRepeat;
    hide Linked;
    hide LoopsAllowed;
    hide CallsCleared;
    hide PolicyHolds;
    hide PolicyIsGuarded;
    hide ConfigAccepted;
    hide Available;
    hide Sound;
    hide After;
    hide AllPathsGood;
    hide Needs;
    hide Routes;
    hide Prompt;
    hide NeedsRoute;
    hide NextStep;
    var path := s.trace + [current];
    assert Init(path) == s.trace && Last(path) == current;
    LastIsRunnable(c, path);
    var step := c.steps[current];
    var kind := c.reg[step.action].kind;
    var acted := Act(kind, step, s, w);
    ActRoutes(kind, step, s, w);
    CallsStayCleared(c, w, s, current);
    ActKeepsTrace(kind, step, s, w);
    if acted.outcome.Err? {
      if kind.CallModel? { CallIsEnforced(c, w, s, current); }
      FailsSafely(c, w, Finished(acted.state, rows, Some(acted.outcome.error)), current);
    } else {
      var done := acted.state.(trace := path);
      var next := NextStep(step, acted.outcome.value);
      StepKeepsInvariant(c, w, s, current, rows, done, next);
      if next.Ok? && !RecordFails(w, |s.trace|) && next.value.Some? {
        RunIsSafe(c, w, done, next.value.value,
                  rows + [Audit(|s.trace| + 1, current, step.action, step.version, next.value)]);
      }
    }
  }

  /** Steps that declare routes only but never choose one are exactly where the route is missed. */
  lemma RouteIsMissing(c: Checked, id: string, route: Option<string>)
    requires id in c.steps && KindOf(c, id).Some?
    requires route.Some? <==> Routes(KindOf(c, id).value)
    requires route.Some? ==> route.value in c.steps[id].routes
    requires Routes(KindOf(c, id).value) ==> !c.steps[id].terminal
    ensures var n := NextStep(c.steps[id], route);
            && (n.Err? <==> NeedsRoute(c, id))
            && (n.Err? ==> n.error == RouteRequired(c.steps[id].id))
            && (n == Ok(None) <==> c.steps[id].terminal)
            && (route.Some? ==> n == Ok(Some(c.steps[id].routes[route.value])))
  {
  }

  lemma LoopConfig(kind: Kind, step: Step)
    requires ConfigAccepted(kind, step)
    ensures kind.LoopGuard? ==> step.config.LoopGuardConfig? && step.config.onAllow in step.routes
  {
  }

  /** Every run of an accepted pipeline, whatever the outside world answers. */
  lemma AcceptedRunsAreSafe(reg: Registry, p: Pipeline, w: World, server: Security.Server)
    requires WellFormed(p) && StepsAccepted(reg, p) && Acceptable(Check(reg, p)) && PolicyIsGuarded(reg)
    ensures SafeFinish(Check(reg, p), w, Whole(Check(reg, p), w, server))
  {
    hide Run;
    hide Sound;
    hide StepsAccepted;
    hide PolicyIsGuarded;
    hide AllPathsGood;
    hide AllEndsProduceResult;
    hide SafeFinish;
    var c := Check(reg, p);
    CheckIsSound(reg, p);
    assert [] + [p.entry] == [p.entry];
    assert "model_transmission_policy" !in INITIAL;
    RunIsSafe(c, w, Initial(server), p.entry, []);
  }

  /** Which pipelines can miss a route: no run ends in that error unless some step declares only
      routes and never chooses one, and it does as soon as a run passes such a step. */
  lemma MissingRouteExactly(reg: Registry, p: Pipeline)
    requires WellFormed(p) && StepsAccepted(reg, p) && Acceptable(Check(reg, p)) && PolicyIsGuarded(reg)
    ensures var c := Check(reg, p);
            && ((forall id | id in c.steps :: !NeedsRoute(c, id)) ==> forall w, server :: !MissesRoute(c, w, server))
            && (forall w, server :: MissesRoute(c, w, server) <==>
                  exists id :: id in Whole(c, w, server).state.trace && NeedsRoute(c, id))
  {
    hide Run;
    hide SafePath;
    hide Acceptable;
    hide StepsAccepted;
    hide PolicyIsGuarded;
    forall w, server
      ensures MissesRoute(Check(reg, p), w, server) <==>
                exists id :: id in Whole(Check(reg, p), w, server).state.trace && NeedsRoute(Check(reg, p), id)
    {
      AcceptedRunsAreSafe(reg, p, w, server);
    }
  }

  ghost predicate MissesRoute(c: Checked, w: World, server: Security.Server) {
    var error := Whole(c, w, server).error;
    error.Some? && error.value.RouteRequired?
  }
}
