/** How a run is steered: which route each routing action takes, and when the actions that guard a
    conversation or the evidence refuse.
 */
module PipelineRoutes {
  import opened Outcomes
  import opened Pipelines
  import opened PipelineDocuments
  import opened PipelineRuns
  import EvidenceContext
  import Security

  /** The text that a source names. */
  predicate IsSource(s: State, source: TextSource, text: string) {
    match source
    case Answer => text == s.texts.answer
    case LastModelResponse => text == s.texts.lastModelResponse
    case NormalizedQuery => text == s.texts.normalizedQuery
    case Evidence => text == s.texts.evidence
  }

  // ------------------------------------------------------------------------------ loop guards

  /** The context after so many visits to a loop guard. */
  function Visits(step: Step, s: State, n: nat): State
    requires ConfigAccepted(LoopGuard, step)
  {
    if n == 0 then s else ActLoopGuard(step, Visits(step, s, n - 1)).state
  }

  /** The first `maxLoops` visits are allowed, every later one is denied, and other guards keep their
      counts. */
  lemma {:induction false} GuardAllowsFirstVisits(step: Step, s: State, n: nat)
    requires ConfigAccepted(LoopGuard, step) && step.id !in s.counters
    ensures ActLoopGuard(step, Visits(step, s, n)).outcome ==
            Ok(Some(if n < step.config.maxLoops then step.config.onAllow else step.config.onDeny))
    ensures forall id | id in s.counters :: id in Visits(step, s, n).counters && Visits(step, s, n).counters[id] == s.counters[id]
    ensures n > 0 ==> step.id in Visits(step, s, n).counters && Visits(step, s, n).counters[step.id] == n
    ensures n == 0 ==> step.id !in Visits(step, s, n).counters
  {
    if n > 0 { GuardAllowsFirstVisits(step, s, n - 1); }
  }

  // ---------------------------------------------------------------------------- text routers

  /** The first prefix in the configured order that the text starts with decides, and is stripped;
      without one the whole text goes the other way. */
  ghost predicate RoutedByPrefix(step: Step, w: World, text: string, t: State, route: string)
    requires step.config.PrefixConfig?
  {
    var prefixes := step.config.prefixes;
    || (&& (forall i | 0 <= i < |prefixes| :: !(prefixes[i].1 <= text))
        && route == step.config.onOther && t.lastPrefix == "" && t.texts.lastModelResponse == text)
    || exists i :: && 0 <= i < |prefixes| && prefixes[i].1 <= text
                   && (forall j | 0 <= j < i :: !(prefixes[j].1 <= text))
                   && route == prefixes[i].0 && t.lastPrefix == route
                   && t.texts.lastModelResponse == Strip(w, text[|prefixes[i].1|..])
  }

  lemma {:induction false} FirstPrefixWins(prefixes: seq<(string, string)>, text: string) returns (i: nat)
    requires FirstPrefix(prefixes, text).Some?
    ensures i < |prefixes| && FirstPrefix(prefixes, text).value == prefixes[i] && prefixes[i].1 <= text
    ensures forall j | 0 <= j < i :: !(prefixes[j].1 <= text)
  {
    if prefixes[0].1 <= text {
      i := 0;
    } else {
      i := FirstPrefixWins(prefixes[1..], text);
      i := i + 1;
    }
  }

  lemma PrefixRouterRoutes(step: Step, s: State, w: World, raw: string)
    requires ConfigAccepted(PrefixRouter, step) && IsSource(s, step.config.source, raw)
    ensures var r := ActPrefixRouter(step, s, w);
            r.outcome.Ok? && r.outcome.value.Some?
            && r.state.lastRoute == r.outcome.value.value
            && RoutedByPrefix(step, w, Strip(w, raw), r.state, r.outcome.value.value)
  {
    var text := Strip(w, raw);
    if FirstPrefix(step.config.prefixes, text).Some? { var i := FirstPrefixWins(step.config.prefixes, text); }
  }

  /** A payload that decides takes its route; any other text the configured one, or none: then the
      action raises. The response is rewritten exactly if the payload is an object. */
  lemma DecisionRoutes(step: Step, s: State, w: World, raw: string)
    requires ConfigAccepted(JsonRouter, step) && IsSource(s, step.config.source, raw)
    ensures var payload, r := Decode(w, Strip(w, raw)), ActJsonRouter(step, s, w);
            && (r.outcome.Ok? <==>
                  (payload.Object? && payload.decision in step.config.decisions) || step.config.otherDecision.Some?)
            && (r.outcome.Ok? ==>
                  && r.outcome.value.Some? && r.state.lastRoute == r.outcome.value.value
                  && if payload.Object? && payload.decision in step.config.decisions then r.outcome.value.value == payload.decision
                     else r.outcome.value == step.config.otherDecision)
            && r.state.texts.lastModelResponse == (if payload.Object? then payload.cleaned else s.texts.lastModelResponse)
            && r.state.texts.answer == s.texts.answer
  {
    hide Quiet;
    hide Chooses;
  }

  // ------------------------------------------------------------------------- repeated queries

  /** The query that a guard reads from a text: the text itself, or what its payload asks. */
  predicate IsQuery(config: Config, w: World, raw: string, query: string)
    requires config.RepeatConfig?
  {
    if config.parseJson then Decode(w, raw).Object? && Decode(w, raw).query == Some(query) else query == raw
  }

  /** A query passes a guard exactly if it is not empty and was not asked before; then it counts as
      asked, so it passes no guard again. */
  lemma AskedOnce(step: Step, s: State, w: World, raw: string, query: string)
    requires ConfigAccepted(RepeatGuard, step) && IsSource(s, step.config.source, raw) && IsQuery(step.config, w, raw, query)
    ensures var r, key := ActRepeatGuard(step, s, w), Normalize(w, query);
            && r.outcome == Ok(Some(if key != "" && key !in s.asked then step.config.onOk else step.config.onRepeat))
            && r.state.asked == (if key == "" then s.asked else s.asked + {key})
  {
  }

  lemma SearchAsks(step: Step, s: State, w: World)
    requires ConfigAccepted(Retrieve, step)
    ensures s.asked <= ActRetrieve(step, s, w).state.asked
    ensures !ReplyTo(w, |s.trace|).fails ==>
              Normalize(w, if step.config.fromCommand then w.query else s.texts.normalizedQuery)
              in ActRetrieve(step, s, w).state.asked
  {
    hide AllVisible;
  }

  lemma RoutersRemember(kind: Kind, step: Step, s: State, w: World)
    requires ConfigAccepted(kind, step) && Routes(kind)
    ensures s.asked <= Act(kind, step, s, w).state.asked
  {
    hide PrefixChoice;
    hide JsonChoice;
    hide GuardQuery;
    hide Quiet;
    hide Chooses;
    hide KeepsPolicy;
    hide KeepsHits;
    hide KeepsEvidence;
    hide TextOf;
  }

  lemma EnforceRemembers(step: Step, s: State, w: World)
    requires ConfigAccepted(EnforceTransmission, step)
    ensures ActEnforce(step, s, w).state.asked == s.asked
  {
    hide Security.TransmissionDecision;
  }

  /** Nothing that was asked is forgotten, and a search counts as asking, also if its hits are refused. */
  lemma AskedGrows(kind: Kind, step: Step, s: State, w: World)
    requires ConfigAccepted(kind, step)
    ensures s.asked <= Act(kind, step, s, w).state.asked
    ensures kind.Retrieve? && !ReplyTo(w, |s.trace|).fails ==>
              Normalize(w, if step.config.fromCommand then w.query else s.texts.normalizedQuery)
              in Act(kind, step, s, w).state.asked
  {
    hide Merge;
    hide Prompt;
    hide Rendered;
    hide AllVisible;
    hide ActLoopGuard;
    hide ActPrefixRouter;
    hide ActJsonRouter;
    hide ActRepeatGuard;
    hide ActEnforce;
    hide ActRetrieve;
    if kind.Retrieve? {
      SearchAsks(step, s, w);
    } else if Routes(kind) {
      RoutersRemember(kind, step, s, w);
    } else if kind.EnforceTransmission? {
      EnforceRemembers(step, s, w);
    }
  }

  // ---------------------------------------------------------------------- turns and evidence

  /** When the actions on a conversation raise: it is not resolved, no turn was started, there is no
      answer to close it with, or the history service fails. */
  lemma TurnsExactly(kind: Kind, step: Step, s: State, w: World)
    requires ConfigAccepted(kind, step)
    requires kind in {ResolveConversation, StartTurn, LoadHistory, FinalizeTurn, FailTurn}
    ensures Act(kind, step, s, w).outcome.Err? <==>
              || ReplyTo(w, |s.trace|).fails
              || (kind != ResolveConversation && !s.resolved)
              || (kind in {FinalizeTurn, FailTurn} && !s.started)
              || (kind == FinalizeTurn && s.texts.answer == "")
  {
  }

  /** Evidence as it was rendered is never empty; so the action that requires it refuses exactly
      where no hits were rendered. */
  lemma EvidenceIsRequired(c: Checked, step: Step, s: State, w: World)
    requires Tracked(c, w, s) && Original(c, s.trace) && ConfigAccepted(RequireEvidence, step)
    ensures Act(RequireEvidence, step, s, w).outcome.Ok? <==>
            HitsBy(c, w, s.trace[..EvidenceStamp(c, s.trace)]) != []
  {
    hide CallsBacked;
    hide HitsBy;
    hide SeedsBy;
    hide CheckStamp;
    hide Visible;
    EvidenceIsSomething(Contents(s.rendered), s.maximum);
  }

  lemma EvidenceIsSomething(hits: seq<EvidenceContext.Hit>, maximum: nat)
    ensures EvidenceContext.Evidence(hits, maximum) != ""
  {
  }
}
