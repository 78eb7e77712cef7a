/** Worlds that differ in who may see which document and in nothing that is ever rendered: the
    same searches find the same texts under other security labels, for another subject and other
    server profiles. Routes, evidence and prompts cannot tell such worlds apart.
 */
module PipelineRelabelling {
  import opened Outcomes
  import opened Pipelines
  import opened PipelineChecks
  import opened PipelineDocuments
  import opened PipelineRuns
  import Security

  /** A chunk with its metadata as found; what a label is given to. */
  datatype Document = Document(id: string, chunk: Security.Chunk)

  datatype Relabelling = Relabelling(
    labels: Document -> Security.Labels, model: Security.SecurityModel, subject: Security.Labels,
    profiles: string -> Security.ServerProfile)

  function DocumentOf(h: Hit): Document { Document(h.content.chunkId, h.chunk) }

  function Relabel(r: Relabelling, h: Hit): Hit { h.(chunk := h.chunk.(security := r.labels(DocumentOf(h)))) }

  function RelabelAll(r: Relabelling, hits: seq<Hit>): (x: seq<Hit>)
    ensures |x| == |hits| && forall i :: 0 <= i < |hits| ==> x[i] == Relabel(r, hits[i])
  {
    seq(|hits|, i requires 0 <= i < |hits| => Relabel(r, hits[i]))
  }

  function Relabelled(w: World, r: Relabelling): World {
    w.(request := w.request.(model := r.model, subject := r.subject),
       replies := (n: nat) => ReplyTo(w, n).(hits := RelabelAll(r, ReplyTo(w, n).hits)),
       servers := map id | id in w.servers :: w.servers[id].(profile := r.profiles(id)))
  }

  // ---------------------------------------------------------------- what relabelling keeps

  lemma SameContents(r: Relabelling, hits: seq<Hit>)
    ensures Contents(RelabelAll(r, hits)) == Contents(hits)
  {
  }

  lemma RelabelAppend(r: Relabelling, hits: seq<Hit>, h: Hit)
    ensures RelabelAll(r, hits + [h]) == RelabelAll(r, hits) + [Relabel(r, h)]
  {
  }

  lemma SameIds(r: Relabelling, hits: seq<Hit>, id: string)
    ensures HasId(RelabelAll(r, hits), id) <==> HasId(hits, id)
  {
    if HasId(hits, id) {
      var i :| 0 <= i < |hits| && hits[i].content.chunkId == id;
      assert RelabelAll(r, hits)[i].content.chunkId == id;
    }
  }

  lemma RelabelPut(r: Relabelling, hits: seq<Hit>, h: Hit)
    ensures Put(RelabelAll(r, hits), Relabel(r, h)) == RelabelAll(r, Put(hits, h))
  {
    SameIds(r, hits, h.content.chunkId);
    RelabelAppend(r, hits, h);
  }

  lemma {:induction false} RelabelKeyed(r: Relabelling, hits: seq<Hit>)
    ensures Keyed(RelabelAll(r, hits)) == RelabelAll(r, Keyed(hits))
  {
    hide Put;
    if hits != [] {
      var before, last := hits[..|hits| - 1], hits[|hits| - 1];
      RelabelKeyed(r, before);
      RelabelPut(r, Keyed(before), last);
      assert RelabelAll(r, hits)[..|hits| - 1] == RelabelAll(r, before);
    }
  }

  lemma {:induction false} RelabelMerge(r: Relabelling, seeds: seq<Hit>, expanded: seq<Hit>)
    ensures Merge(RelabelAll(r, seeds), RelabelAll(r, expanded)) == RelabelAll(r, Merge(seeds, expanded))
  {
    if expanded == [] {
      RelabelKeyed(r, seeds);
    } else {
      var before, last := expanded[..|expanded| - 1], expanded[|expanded| - 1];
      RelabelMerge(r, seeds, before);
      SameIds(r, Merge(seeds, before), last.content.chunkId);
      RelabelAppend(r, Merge(seeds, before), last);
      assert RelabelAll(r, expanded)[..|expanded| - 1] == RelabelAll(r, before);
    }
  }

  lemma SameReplies(w: World, r: Relabelling, n: nat)
    ensures ReplyTo(Relabelled(w, r), n) == ReplyTo(w, n).(hits := RelabelAll(r, ReplyTo(w, n).hits))
  {
  }

  /** On the same path the relabelled world has the same hits, relabelled. */
  lemma {:induction false} RelabelledHits(c: Checked, w: World, r: Relabelling, path: seq<string>)
    ensures HitsBy(c, Relabelled(w, r), path) == RelabelAll(r, HitsBy(c, w, path))
    ensures SeedsBy(c, Relabelled(w, r), path) == RelabelAll(r, SeedsBy(c, w, path))
  {
    hide Relabelled;
    hide Merge;
    if path != [] {
      RelabelledHits(c, w, r, Init(path));
      SameReplies(w, r, |path| - 1);
      RelabelMerge(r, SeedsBy(c, w, Init(path)), ReplyTo(w, |path| - 1).hits);
    }
  }

  // ------------------------------------------------------------------ the two runs together

  /** The contexts differ in labels, decisions and servers only. */
  ghost predicate Alike(r: Relabelling, s: State, t: State) {
    && s.trace == t.trace && s.counters == t.counters && s.asked == t.asked && s.texts == t.texts
    && s.history == t.history && s.lastRoute == t.lastRoute && s.lastPrefix == t.lastPrefix
    && s.resolved == t.resolved && s.started == t.started && s.finalized == t.finalized
    && t.hits == RelabelAll(r, s.hits) && t.seedHits == RelabelAll(r, s.seedHits) && t.rendered == RelabelAll(r, s.rendered)
    && s.maximum == t.maximum && (Permitted(s) ==> Permitted(t))
  }

  /** The action returned with the same route. */
  ghost predicate SameStep(r: Relabelling, a: Acted, b: Acted) {
    b.outcome == a.outcome && Alike(r, a.state, b.state)
  }

  lemma SameReaders(w: World, r: Relabelling, config: Config, text: string)
    ensures var m := Relabelled(w, r);
            && Strip(m, text) == Strip(w, text) && Decode(m, text) == Decode(w, text) && Normalize(m, text) == Normalize(w, text)
            && (config.PrefixConfig? ==> PrefixChoice(config, text, m) == PrefixChoice(config, text, w))
            && (config.RepeatConfig? ==> GuardQuery(config, text, m) == GuardQuery(config, text, w))
  {
    hide FirstPrefix;
    hide RelabelAll;
    var m := Relabelled(w, r);
    assert forall other :: Strip(m, other) == Strip(w, other);
  }

  lemma LoopGuardsAlike(r: Relabelling, step: Step, s: State, t: State)
    requires ConfigAccepted(LoopGuard, step) && Alike(r, s, t)
    ensures SameStep(r, ActLoopGuard(step, s), ActLoopGuard(step, t))
  {
    hide RelabelAll;
  }

  lemma PrefixRoutersAlike(w: World, r: Relabelling, step: Step, s: State, t: State)
    requires ConfigAccepted(PrefixRouter, step) && Alike(r, s, t)
    ensures SameStep(r, ActPrefixRouter(step, s, w), ActPrefixRouter(step, t, Relabelled(w, r)))
  {
    assert step.config.PrefixConfig?;
    hide ConfigAccepted;
    hide PrefixChoice;
    hide Relabelled;
    hide RelabelAll;
    hide Strip;
    hide Decode;
    hide Normalize;
    hide TextOf;
    hide Quiet;
    hide Chooses;
    var text := TextOf(s.texts, step.config.source);
    SameReaders(w, r, step.config, text);
    SameReaders(w, r, step.config, Strip(w, text));
  }

  lemma JsonRoutersAlike(w: World, r: Relabelling, step: Step, s: State, t: State)
    requires ConfigAccepted(JsonRouter, step) && Alike(r, s, t)
    ensures SameStep(r, ActJsonRouter(step, s, w), ActJsonRouter(step, t, Relabelled(w, r)))
  {
    assert step.config.JsonConfig?;
    hide ConfigAccepted;
    hide JsonChoice;
    hide Relabelled;
    hide RelabelAll;
    hide Strip;
    hide Decode;
    hide Normalize;
    hide TextOf;
    hide Quiet;
    hide Chooses;
    var text := TextOf(s.texts, step.config.source);
    SameReaders(w, r, step.config, text);
    SameReaders(w, r, step.config, Strip(w, text));
  }

  lemma RepeatGuardsAlike(w: World, r: Relabelling, step: Step, s: State, t: State)
    requires ConfigAccepted(RepeatGuard, step) && Alike(r, s, t)
    ensures SameStep(r, ActRepeatGuard(step, s, w), ActRepeatGuard(step, t, Relabelled(w, r)))
  {
    assert step.config.RepeatConfig?;
    hide ConfigAccepted;
    hide GuardQuery;
    hide Remembered;
    hide Relabelled;
    hide RelabelAll;
    hide Strip;
    hide Decode;
    hide Normalize;
    hide TextOf;
    hide Quiet;
    hide Chooses;
    var raw := TextOf(s.texts, step.config.source);
    SameReaders(w, r, step.config, raw);
    var query := GuardQuery(step.config, raw, w);
    if query.Some? { SameReaders(w, r, step.config, query.value); }
  }

  /** The relabelled subject sees what passed the boundary check. */
  ghost predicate SubjectSees(w: World, r: Relabelling, n: nat) {
    AllVisible(w.request, ReplyTo(w, n).hits) ==>
      AllVisible(Relabelled(w, r).request, ReplyTo(Relabelled(w, r), n).hits)
  }

  lemma RetrievesAlike(w: World, r: Relabelling, step: Step, s: State, t: State)
    requires ConfigAccepted(Retrieve, step) && Alike(r, s, t) && ActRetrieve(step, s, w).outcome.Ok?
    requires SubjectSees(w, r, |s.trace|)
    ensures SameStep(r, ActRetrieve(step, s, w), ActRetrieve(step, t, Relabelled(w, r)))
  {
    hide AllVisible;
    SameReplies(w, r, |s.trace|);
    SameRest(w, r);
    hide Relabelled;
    hide RelabelAll;
    SameReaders(w, r, step.config, if step.config.fromCommand then w.query else s.texts.normalizedQuery);
  }

  /** What relabelling leaves alone. */
  lemma SameRest(w: World, r: Relabelling)
    ensures var m := Relabelled(w, r);
            && m.query == w.query && m.disclaimer == w.disclaimer && m.subjectMayUseExternal == w.subjectMayUseExternal
            && m.servers.Keys == w.servers.Keys
            && m.request == w.request.(model := r.model, subject := r.subject)
    ensures forall id | id in w.servers :: Relabelled(w, r).servers[id] == w.servers[id].(profile := r.profiles(id))
    ensures forall n :: RecordFails(Relabelled(w, r), n) == RecordFails(w, n)
    ensures forall text: string :: Relabelled(w, r).collapse(text) == w.collapse(text)
    ensures forall template: string, value: string :: Filled(Relabelled(w, r), template, value) == Filled(w, template, value)
    ensures forall text: string :: Strip(Relabelled(w, r), text) == Strip(w, text)
  {
    hide RelabelAll;
  }

  lemma ExpandsAlike(w: World, r: Relabelling, step: Step, s: State, t: State)
    requires ConfigAccepted(ExpandGraph, step) && Alike(r, s, t) && ActExpand(step, s, w).outcome.Ok?
    requires SubjectSees(w, r, |s.trace|)
    ensures SameStep(r, ActExpand(step, s, w), ActExpand(step, t, Relabelled(w, r)))
  {
    hide AllVisible;
    hide Merge;
    SameReplies(w, r, |s.trace|);
    SameRest(w, r);
    hide Relabelled;
    RelabelMerge(r, s.seedHits, ReplyTo(w, |s.trace|).hits);
    hide RelabelAll;
  }

  lemma BudgetsAlike(r: Relabelling, step: Step, s: State, t: State)
    requires ConfigAccepted(ManageContextBudget, step) && Alike(r, s, t)
    ensures SameStep(r, ActBudget(step, s), ActBudget(step, t))
  {
    hide RelabelAll;
    SameContents(r, s.hits);
  }

  lemma VariablesAlike(w: World, r: Relabelling, step: Step, s: State, t: State)
    requires ConfigAccepted(SetVariables, step) && Alike(r, s, t) && ActSetVariables(step, s, w).outcome.Ok?
    ensures SameStep(r, ActSetVariables(step, s, w), ActSetVariables(step, t, Relabelled(w, r)))
  {
    hide Overwritten;
    SameReplies(w, r, |s.trace|);
    hide Relabelled;
    hide RelabelAll;
  }

  lemma FinalizesAlike(w: World, r: Relabelling, s: State, t: State)
    requires Alike(r, s, t)
    ensures SameStep(r, ActFinalize(s, w), ActFinalize(t, Relabelled(w, r)))
  {
    SameRest(w, r);
    hide Relabelled;
    hide RelabelAll;
    hide Strip;
  }

  lemma ConversationsAlike(w: World, r: Relabelling, kind: Kind, step: Step, s: State, t: State)
    requires Alike(r, s, t) && ActConversation(kind, step, s, w).outcome.Ok?
    ensures SameStep(r, ActConversation(kind, step, s, w), ActConversation(kind, step, t, Relabelled(w, r)))
  {
    hide Quiet;
    hide Returns;
    SameReplies(w, r, |s.trace|);
    hide Relabelled;
    hide RelabelAll;
  }

  /** The check of the relabelled world allows as well. */
  lemma ChecksAlike(w: World, r: Relabelling, step: Step, s: State, t: State)
    requires ConfigAccepted(EnforceTransmission, step) && Alike(r, s, t) && ActEnforce(step, s, w).outcome.Ok?
    requires Allows(Decide(Relabelled(w, r), step.config, RelabelAll(r, s.hits)))
    ensures SameStep(r, ActEnforce(step, s, w), ActEnforce(step, t, Relabelled(w, r)))
  {
    hide Decide;
    hide RelabelAll;
    hide Relabelled;
    EnforceDecides(step, s, w);
    EnforceDecides(step, t, Relabelled(w, r));
    EnforceKeepsCourse(step, s, w);
    EnforceKeepsCourse(step, t, Relabelled(w, r));
    EnforcePermits(step, t, Relabelled(w, r));
  }

  lemma EnforceKeepsCourse(step: Step, s: State, w: World)
    requires ConfigAccepted(EnforceTransmission, step)
    ensures var t := ActEnforce(step, s, w).state;
            && t.trace == s.trace && t.counters == s.counters && t.asked == s.asked && t.texts == s.texts && t.history == s.history
            && t.lastRoute == s.lastRoute && t.lastPrefix == s.lastPrefix && t.resolved == s.resolved
            && t.started == s.started && t.finalized == s.finalized && KeepsHits(s, t) && KeepsEvidence(s, t)
  {
    hide Security.TransmissionDecision;
  }

  lemma EnforcePermits(step: Step, s: State, w: World)
    requires ConfigAccepted(EnforceTransmission, step)
    ensures var a := ActEnforce(step, s, w); a.outcome.Ok? ==> a.outcome == Ok(None) && Permitted(a.state)
  {
    hide Security.TransmissionDecision;
  }

  lemma CallsAlike(w: World, r: Relabelling, step: Step, s: State, t: State)
    requires ConfigAccepted(CallModel, step) && Alike(r, s, t)
    ensures var a, b := ActCall(step, s, w), ActCall(step, t, Relabelled(w, r));
            && (a.outcome.Ok? ==> SameStep(r, a, b))
            && (a.state.calls != s.calls ==> b.state.calls == t.calls + [SentCall(step, t, Relabelled(w, r))])
  {
    hide Quiet;
    hide Returns;
    SameReplies(w, r, |s.trace|);
    hide Relabelled;
    hide RelabelAll;
    hide SentCall;
  }

  lemma StepsAlike(w: World, r: Relabelling, kind: Kind, step: Step, s: State, t: State)
    requires ConfigAccepted(kind, step) && Alike(r, s, t) && SubjectSees(w, r, |s.trace|)
    requires Act(kind, step, s, w).outcome.Ok?
    requires kind.EnforceTransmission? ==> Allows(Decide(Relabelled(w, r), step.config, RelabelAll(r, s.hits)))
    ensures SameStep(r, Act(kind, step, s, w), Act(kind, step, t, Relabelled(w, r)))
  {
    hide ActLoopGuard;
    hide ActPrefixRouter;
    hide ActJsonRouter;
    hide ActRepeatGuard;
    hide ActEnforce;
    hide ActCall;
    hide ActRetrieve;
    hide ActExpand;
    hide ActBudget;
    hide ActSetVariables;
    hide ActFinalize;
    hide ActConversation;
    hide SubjectSees;
    hide Decide;
    match kind {
      case LoopGuard => hide SameStep; LoopGuardsAlike(r, step, s, t);
      case PrefixRouter => hide SameStep; PrefixRoutersAlike(w, r, step, s, t);
      case JsonRouter => hide SameStep; JsonRoutersAlike(w, r, step, s, t);
      case RepeatGuard => hide SameStep; RepeatGuardsAlike(w, r, step, s, t);
      case EnforceTransmission => hide SameStep; ChecksAlike(w, r, step, s, t);
      case CallModel => hide SameStep; CallsAlike(w, r, step, s, t);
      case Retrieve => hide SameStep; RetrievesAlike(w, r, step, s, t);
      case ExpandGraph => hide SameStep; ExpandsAlike(w, r, step, s, t);
      case ManageContextBudget => hide SameStep; BudgetsAlike(r, step, s, t);
      case SetVariables => hide SameStep; VariablesAlike(w, r, step, s, t);
      case Finalize => hide SameStep; FinalizesAlike(w, r, s, t);
      case NormalizeQuery => SameRest(w, r); hide Relabelled; hide RelabelAll;
      case RequireEvidence => hide Relabelled;
      case _ => hide SameStep; ConversationsAlike(w, r, kind, step, s, t);
    }
  }

  // ---------------------------------------------------------------------------- whole runs

  /** A run only adds to its trace and transmissions, and what it adds is later. */
  lemma {:induction false} RunGrows(c: Checked, w: World, s: State, current: string, rows: seq<Audit>)
    ensures var f := Run(c, w, s, current, rows).state;
            && s.trace <= f.trace
            && (forall call | call in s.calls :: call in f.calls)
            && (forall call | call in f.calls :: call in s.calls || call.at >= |s.trace|)
    decreases c.maxSteps - |s.trace|
  {
    hide Act;
    hide ConfigAccepted;
    hide NextStep;
    if |s.trace| < c.maxSteps && Runs(c, current) {
      var step := c.steps[current];
      var kind := c.reg[step.action].kind;
      var acted := Act(kind, step, s, w);
      ActKeepsTrace(kind, step, s, w);
      CallsGrow(kind, step, s, w);
      if acted.outcome.Ok? {
        var done := acted.state.(trace := s.trace + [current]);
        var next := NextStep(step, acted.outcome.value);
        if next.Ok? && !RecordFails(w, |s.trace|) && next.value.Some? {
          RunGrows(c, w, done, next.value.value, rows + [Audit(|s.trace| + 1, current, step.action, step.version, next.value)]);
        }
      }
    }
  }

  lemma CallsGrow(kind: Kind, step: Step, s: State, w: World)
    requires ConfigAccepted(kind, step)
    ensures var calls := Act(kind, step, s, w).state.calls;
            && (forall call | call in s.calls :: call in calls)
            && (forall call | call in calls :: call in s.calls || call.at == |s.trace|)
  {
    hide Act;
    hide Prompt;
    ActSends(kind, step, s, w);
  }

  /** A call at the position where a run stands is what its next step sends. */
  lemma NextStepSends(c: Checked, w: World, s: State, current: string, rows: seq<Audit>, call: Call)
    requires call in Run(c, w, s, current, rows).state.calls && call.at == |s.trace| && call !in s.calls
    ensures |s.trace| < c.maxSteps && Runs(c, current) && c.reg[c.steps[current].action].kind == CallModel
    ensures call == SentCall(c.steps[current], s, w) && ActCall(c.steps[current], s, w).state.calls != s.calls
  {
    hide Act;
    hide ConfigAccepted;
    hide NextStep;
    hide SentCall;
    if |s.trace| < c.maxSteps && Runs(c, current) {
      var step := c.steps[current];
      var kind := c.reg[step.action].kind;
      var acted := Act(kind, step, s, w);
      ActKeepsTrace(kind, step, s, w);
      ActSends(kind, step, s, w);
      if acted.outcome.Ok? {
        var done := acted.state.(trace := s.trace + [current]);
        var next := NextStep(step, acted.outcome.value);
        if next.Ok? && !RecordFails(w, |s.trace|) && next.value.Some? {
          RunGrows(c, w, done, next.value.value, rows + [Audit(|s.trace| + 1, current, step.action, step.version, next.value)]);
        }
      }
      assert call in acted.state.calls;
      if kind.CallModel? { CallIsAct(step, s, w); }
    }
  }

  lemma CallIsAct(step: Step, s: State, w: World)
    requires ConfigAccepted(CallModel, step)
    ensures Act(CallModel, step, s, w) == ActCall(step, s, w)
  {
    hide ActCall;
  }

  /** What the next step sends is sent by the run. */
  lemma SentIsInRun(c: Checked, w: World, s: State, current: string, rows: seq<Audit>, call: Call)
    requires |s.trace| < c.maxSteps && Runs(c, current) && c.reg[c.steps[current].action].kind == CallModel
    requires call in ActCall(c.steps[current], s, w).state.calls
    ensures call in Run(c, w, s, current, rows).state.calls
  {
    hide ActCall;
    hide ConfigAccepted;
    hide NextStep;
    var step := c.steps[current];
    CallIsAct(step, s, w);
    hide Act;
    var acted := ActCall(step, s, w);
    ActKeepsTrace(CallModel, step, s, w);
    if acted.outcome.Ok? {
      var done := acted.state.(trace := s.trace + [current]);
      var next := NextStep(step, acted.outcome.value);
      if next.Ok? && !RecordFails(w, |s.trace|) && next.value.Some? {
        RunGrows(c, w, done, next.value.value, rows + [Audit(|s.trace| + 1, current, step.action, step.version, next.value)]);
      }
    }
  }

  /** The relabelled world can follow the path: its subject sees what was found, its checks allow. */
  ghost predicate CanFollow(c: Checked, w: World, r: Relabelling, path: seq<string>) {
    Passed(c, Relabelled(w, r), path) && forall n: nat :: SubjectSees(w, r, n)
  }

  /** One step on the path, in both worlds. */
  lemma StepInBoth(c: Checked, w: World, r: Relabelling, path: seq<string>, s: State, t: State, current: string)
    requires Runs(c, current) && CanFollow(c, w, r, path) && s.trace + [current] <= path
    requires Alike(r, s, t) && Tracked(c, w, s)
    requires Act(c.reg[c.steps[current].action].kind, c.steps[current], s, w).outcome.Ok?
    ensures SameStep(r, Act(c.reg[c.steps[current].action].kind, c.steps[current], s, w),
                     Act(c.reg[c.steps[current].action].kind, c.steps[current], t, Relabelled(w, r)))
  {
    hide Act;
    hide Tracked;
    hide HitsBy;
    hide Decide;
    hide Relabelled;
    hide RelabelAll;
    hide Alike;
    hide SubjectSees;
    hide SameStep;
    hide ConfigAccepted;
    var kind, step := c.reg[c.steps[current].action].kind, c.steps[current];
    var n := |s.trace|;
    assert path[n] == current && path[..n] == s.trace by { assert (s.trace + [current])[n] == current; }
    TrackedHits(c, w, s);
    RelabelledHits(c, w, r, s.trace);
    ChecksAreConfigured(c, current);
    if kind.EnforceTransmission? {
      assert Allows(DecisionAt(c, Relabelled(w, r), path, n));
    }
    assert SubjectSees(w, r, n);
    StepsAlike(w, r, kind, step, s, t);
  }

  /** Both worlds take the path up to the step that makes the call, with alike contexts. */
  lemma {:induction false} FollowsToCall(c: Checked, w: World, r: Relabelling, path: seq<string>, s: State, t: State,
                                         current: string, rows: seq<Audit>, others: seq<Audit>, call: Call)
    returns (x: State, y: State, next: string, rows': seq<Audit>, others': seq<Audit>)
    requires CanFollow(c, w, r, path) && Alike(r, s, t) && Tracked(c, w, s)
    requires s.trace <= path <= Run(c, w, s, current, rows).state.trace
    requires call in Run(c, w, s, current, rows).state.calls && call.at == |path|
    requires forall a | a in s.calls :: a.at < |s.trace|
    ensures x.trace == path && Alike(r, x, y) && call !in x.calls
    ensures Run(c, w, x, next, rows') == Run(c, w, s, current, rows)
    ensures Run(c, Relabelled(w, r), y, next, others') == Run(c, Relabelled(w, r), t, current, others)
    decreases |path| - |s.trace|
  {
    hide Act;
    hide Tracked;
    hide ConfigAccepted;
    hide NextStep;
    hide Relabelled;
    hide RelabelAll;
    hide CanFollow;
    hide SentCall;
    if |s.trace| == |path| { return s, t, current, rows, others; }
    var m := Relabelled(w, r);
    assert |s.trace| < c.maxSteps && Runs(c, current);
    var step := c.steps[current];
    var kind := c.reg[step.action].kind;
    var a, b := Act(kind, step, s, w), Act(kind, step, t, m);
    ActKeepsTrace(kind, step, s, w);
    ActKeepsTrace(kind, step, t, m);
    CallsGrow(kind, step, s, w);
    assert a.outcome.Ok?;
    var done, copy := a.state.(trace := s.trace + [current]), b.state.(trace := s.trace + [current]);
    var following := NextStep(step, a.outcome.value);
    assert following.Ok? && !RecordFails(w, |s.trace|) && following.value.Some?;
    var row := Audit(|s.trace| + 1, current, step.action, step.version, following.value);
    RunGrows(c, w, done, following.value.value, rows + [row]);
    assert done.trace <= path;
    StepInBoth(c, w, r, path, s, t, current);
    StepTracks(c, w, s, current);
    SameRest(w, r);
    x, y, next, rows', others' :=
      FollowsToCall(c, w, r, path, done, copy, following.value.value, rows + [row], others + [row], call);
  }
}
