/** What the policy decided along a path: which server each check chose, for which hits. */
module PipelineChecks {
  import opened Outcomes
  import opened Pipelines
  import opened PipelineDocuments
  import opened PipelineRuns
  import Security

  /** Length of the path up to its last check; 0 before the first. */
  ghost function LastCheck(c: Checked, path: seq<string>): (r: nat)
    ensures r <= |path| && (r != 0 ==> IsCheck(c, path[r - 1]))
  {
    if path == [] then 0 else if IsCheck(c, Last(path)) then |path| else LastCheck(c, Init(path))
  }

  function Decide(w: World, config: Config, hits: seq<Hit>): Result<Security.Transmission, Security.TransmissionError>
    requires config.TransmissionConfig?
  {
    Security.TransmissionDecision(
      w.request.model, w.servers, config.selected, LabelsOf(hits), config.externalAllowed, w.subjectMayUseExternal)
  }

  predicate Allows(r: Result<Security.Transmission, Security.TransmissionError>) { r.Ok? && r.value.allowed }

  /** The decision of the check at position `j`, about the hits that the steps before it left. */
  ghost function DecisionAt(c: Checked, w: World, path: seq<string>, j: nat)
    : Result<Security.Transmission, Security.TransmissionError>
    requires j < |path| && IsCheck(c, path[j])
  {
    Decide(w, c.steps[path[j]].config, HitsBy(c, w, path[..j]))
  }

  /** Every check on the path allowed the transmission. */
  ghost predicate Passed(c: Checked, w: World, path: seq<string>) {
    forall j | 0 <= j < |path| && IsCheck(c, path[j]) :: Allows(DecisionAt(c, w, path, j))
  }

  /** The configured name of the server that a check chose. */
  function Chosen(w: World, config: Config, t: Security.Transmission): string
    requires config.TransmissionConfig?
  {
    if t.rerouted && config.selected in w.servers && w.servers[config.selected].reroute.Some? then
      w.servers[config.selected].reroute.value
    else config.selected
  }

  ghost function ChosenAt(c: Checked, w: World, path: seq<string>, j: nat): string
    requires j < |path| && IsCheck(c, path[j]) && Passed(c, w, path)
  {
    Chosen(w, c.steps[path[j]].config, DecisionAt(c, w, path, j).value)
  }

  /** A check that allows chose a known server that is cleared for the hits: the selected one, or
      its reroute target if the selected one is not. */
  lemma ChosenIsCleared(w: World, config: Config, hits: seq<Hit>)
    requires config.TransmissionConfig? && Allows(Decide(w, config, hits))
    ensures var t := Decide(w, config, hits).value;
            && Chosen(w, config, t) in w.servers && t.receiver == Some(w.servers[Chosen(w, config, t)])
            && Cleared(w, w.servers[Chosen(w, config, t)], hits, config.externalAllowed)
            && config.selected in w.servers
            && (t.rerouted <==> !Cleared(w, w.servers[config.selected], hits, config.externalAllowed))
            && (t.rerouted ==> w.servers[config.selected].reroute == Some(Chosen(w, config, t)))
  {
    hide Security.TransmissionDecision;
    hide Security.MayReceive;
    hide LabelsOf;
    Security.TransmissionIsRouted(w.request.model, w.servers, config.selected, LabelsOf(hits), config.externalAllowed,
                                  w.subjectMayUseExternal);
  }

  // ------------------------------------------------------------------------ the context follows

  /** The context holds the last decision, and all decisions so far allowed. */
  ghost predicate Decided(c: Checked, w: World, s: State) {
    && Passed(c, w, s.trace)
    && var k := LastCheck(c, s.trace);
    if k == 0 then s.decision.None?
    else
      && s.decision == Some(DecisionAt(c, w, s.trace, k - 1).value)
      && s.decision.value.receiver == Some(s.model)
  }

  /** The transmission went to the server that the last check on the path before it chose. */
  ghost predicate SentAsDecided(c: Checked, w: World, before: seq<string>, call: Call) {
    && Passed(c, w, before)
    && LastCheck(c, before) != 0
    && DecisionAt(c, w, before, LastCheck(c, before) - 1).value.receiver == Some(call.server)
  }

  ghost predicate CallsDecided(c: Checked, w: World, trace: seq<string>, calls: seq<Call>) {
    forall call | call in calls :: call.at <= |trace| && SentAsDecided(c, w, trace[..call.at], call)
  }

  /** Decisions on the path do not depend on what comes after. */
  lemma DecisionStays(c: Checked, w: World, path: seq<string>, current: string, j: nat)
    requires j < |path| && IsCheck(c, path[j])
    ensures (path + [current])[j] == path[j] && DecisionAt(c, w, path + [current], j) == DecisionAt(c, w, path, j)
  {
    assert (path + [current])[..j] == path[..j];
  }

  lemma PassedAdvances(c: Checked, w: World, path: seq<string>, current: string)
    requires Passed(c, w, path)
    requires IsCheck(c, current) ==> Allows(Decide(w, c.steps[current].config, HitsBy(c, w, path)))
    ensures Passed(c, w, path + [current])
    ensures LastCheck(c, path + [current]) == if IsCheck(c, current) then |path| + 1 else LastCheck(c, path)
  {
    hide Decide;
    hide HitsBy;
    hide IsCheck;
    var done := path + [current];
    assert Init(done) == path && Last(done) == current && done[..|path|] == path;
    forall j | 0 <= j < |done| && IsCheck(c, done[j]) ensures Allows(DecisionAt(c, w, done, j)) {
      if j < |path| { DecisionStays(c, w, path, current, j); }
    }
  }

  lemma DecisionAdvances(c: Checked, w: World, s: State, current: string)
    requires Runs(c, current) && Tracked(c, w, s) && Decided(c, w, s)
    ensures var r := Act(c.reg[c.steps[current].action].kind, c.steps[current], s, w);
            r.outcome.Ok? ==> Decided(c, w, r.state.(trace := s.trace + [current]))
  {
    hide Act;
    hide Tracked;
    hide HitsBy;
    hide Passed;
    hide Decide;
    hide ConfigAccepted;
    var kind, step := c.reg[c.steps[current].action].kind, c.steps[current];
    var r := Act(kind, step, s, w);
    TrackedHits(c, w, s);
    ActDecides(kind, step, s, w);
    if r.outcome.Ok? {
      assert IsCheck(c, current) <==> kind.EnforceTransmission? by { ChecksAreConfigured(c, current); }
      PassedAdvances(c, w, s.trace, current);
      var k := LastCheck(c, s.trace);
      if IsCheck(c, current) {
        assert (s.trace + [current])[..|s.trace|] == s.trace;
      } else if k != 0 {
        DecisionStays(c, w, s.trace, current, k - 1);
      }
    }
  }

  lemma ChecksAreConfigured(c: Checked, id: string)
    requires Runs(c, id)
    ensures IsCheck(c, id) <==> c.reg[c.steps[id].action].kind.EnforceTransmission?
  {
  }

  lemma TrackedHits(c: Checked, w: World, s: State)
    requires Tracked(c, w, s)
    ensures s.hits == HitsBy(c, w, s.trace)
  {
  }

  lemma EnforceDecides(step: Step, s: State, w: World)
    requires ConfigAccepted(EnforceTransmission, step)
    ensures var r := ActEnforce(step, s, w);
            && (r.outcome.Ok? <==> Allows(Decide(w, step.config, s.hits)))
            && (r.outcome.Ok? ==> r.state.decision == Some(Decide(w, step.config, s.hits).value)
                                  && r.state.decision.value.receiver == Some(r.state.model))
  {
    hide Security.TransmissionDecision;
    hide LabelsOf;
    if Allows(Decide(w, step.config, s.hits)) { ChosenIsCleared(w, step.config, s.hits); }
  }

  lemma ActDecides(kind: Kind, step: Step, s: State, w: World)
    requires ConfigAccepted(kind, step)
    ensures var r := Act(kind, step, s, w);
            if kind.EnforceTransmission? then
              && (r.outcome.Ok? <==> Allows(Decide(w, step.config, s.hits)))
              && (r.outcome.Ok? ==> r.state.decision == Some(Decide(w, step.config, s.hits).value)
                                    && r.state.decision.value.receiver == Some(r.state.model))
            else r.state.decision == s.decision && r.state.model == s.model
  {
    hide Decide;
    hide ActEnforce;
    if kind.EnforceTransmission? {
      EnforceDecides(step, s, w);
      EnforceIsAct(step, s, w);
    } else {
      hide Act;
      ActKeepsPolicy(kind, step, s, w);
    }
  }

  lemma EnforceIsAct(step: Step, s: State, w: World)
    requires ConfigAccepted(EnforceTransmission, step)
    ensures Act(EnforceTransmission, step, s, w) == ActEnforce(step, s, w)
  {
    hide ActEnforce;
  }

  lemma CallsAdvanceDecided(c: Checked, w: World, s: State, current: string)
    requires Runs(c, current) && Decided(c, w, s) && CallsDecided(c, w, s.trace, s.calls)
    ensures var calls := Act(c.reg[c.steps[current].action].kind, c.steps[current], s, w).state.calls;
            CallsDecided(c, w, s.trace, calls) && CallsDecided(c, w, s.trace + [current], calls)
  {
    hide Act;
    hide ConfigAccepted;
    hide Passed;
    hide HitsBy;
    hide Decide;
    hide LastCheck;
    hide Prompt;
    var kind := c.reg[c.steps[current].action].kind;
    ActSends(kind, c.steps[current], s, w);
    forall call | call in Act(kind, c.steps[current], s, w).state.calls
      ensures call.at <= |s.trace| && SentAsDecided(c, w, s.trace[..call.at], call)
      ensures (s.trace + [current])[..call.at] == s.trace[..call.at]
    {
      if call !in s.calls { assert s.trace[..|s.trace|] == s.trace; }
    }
  }

  /** Every transmission of a run went as the last check before it decided. */
  lemma {:induction false} RunDecides(c: Checked, w: World, s: State, current: string, rows: seq<Audit>)
    requires Tracked(c, w, s) && Decided(c, w, s) && CallsDecided(c, w, s.trace, s.calls)
    ensures var f := Run(c, w, s, current, rows).state; CallsDecided(c, w, f.trace, f.calls)
    decreases c.maxSteps - |s.trace|
  {
    hide Act;
    hide Tracked;
    hide Decided;
    hide CallsDecided;
    hide ConfigAccepted;
    hide NextStep;
    if |s.trace| < c.maxSteps && Runs(c, current) {
      var step := c.steps[current];
      var kind := c.reg[step.action].kind;
      var acted := Act(kind, step, s, w);
      StepTracks(c, w, s, current);
      DecisionAdvances(c, w, s, current);
      CallsAdvanceDecided(c, w, s, current);
      ActKeepsTrace(kind, step, s, w);
      if acted.outcome.Ok? {
        var done := acted.state.(trace := s.trace + [current]);
        var next := NextStep(step, acted.outcome.value);
        if next.Ok? && !RecordFails(w, |s.trace|) && next.value.Some? {
          RunDecides(c, w, done, next.value.value, rows + [Audit(|s.trace| + 1, current, step.action, step.version, next.value)]);
        }
      }
    }
  }

  lemma CallIsDecided(c: Checked, w: World, server: Security.Server, call: Call)
    requires call in Whole(c, w, server).state.calls
    ensures var trace := Whole(c, w, server).state.trace;
            call.at <= |trace| && Backed(c, w, trace[..call.at], call) && SentAsDecided(c, w, trace[..call.at], call)
  {
    hide Run;
    hide Tracked;
    hide Backed;
    hide SentAsDecided;
    InitialIsTracked(c, w, server);
    InitialIsDecided(c, w, server);
    RunTracks(c, w, Initial(server), c.entry, []);
    RunDecides(c, w, Initial(server), c.entry, []);
  }

  lemma InitialIsDecided(c: Checked, w: World, server: Security.Server)
    ensures Decided(c, w, Initial(server)) && CallsDecided(c, w, [], [])
  {
  }

  // ------------------------------------------------------------------ what a check has not seen

  lemma {:induction false} MergeKeepsSeeds(seeds: seq<Hit>, expanded: seq<Hit>)
    ensures forall h | h in Keyed(seeds) :: h in Merge(seeds, expanded)
    ensures forall h | h in Merge(seeds, expanded) :: h in Keyed(seeds) || h in expanded
  {
    hide Keyed;
    if expanded != [] { MergeKeepsSeeds(seeds, expanded[..|expanded| - 1]); }
  }

  /** The searched hits are among the hits, one for each identifier. */
  lemma {:induction false} SeedsAreHits(c: Checked, w: World, path: seq<string>)
    ensures forall h | h in Keyed(SeedsBy(c, w, path)) :: h in HitsBy(c, w, path)
  {
    hide Keyed;
    hide Merge;
    if path == [] {
      KeyedTakes([]);
    } else {
      SeedsAreHits(c, w, Init(path));
      KeyedTakes(SeedsBy(c, w, path));
      MergeKeepsSeeds(SeedsBy(c, w, Init(path)), ReplyTo(w, |path| - 1).hits);
    }
  }

  /** The hit was found by a step behind the last check. */
  ghost predicate FoundLater(c: Checked, w: World, path: seq<string>, h: Hit) {
    exists n | LastCheck(c, path) <= n < |path| :: h in ReplyTo(w, n).hits
  }

  /** The last check saw the hit. */
  ghost predicate SeenByCheck(c: Checked, w: World, path: seq<string>, h: Hit) {
    h in HitsBy(c, w, path[..CheckStamp(c, path)])
  }

  /** A step that is no check leaves what was seen and adds what it found. */
  lemma KnownAdvances(c: Checked, w: World, path: seq<string>, h: Hit)
    requires path != [] && !IsCheck(c, Last(path))
    ensures SeenByCheck(c, w, path, h) == SeenByCheck(c, w, Init(path), h)
    ensures FoundLater(c, w, Init(path), h) || h in ReplyTo(w, |path| - 1).hits ==> FoundLater(c, w, path, h)
  {
    hide HitsBy;
    hide IsCheck;
    assert path[..CheckStamp(c, path)] == Init(path)[..CheckStamp(c, path)];
    if h in ReplyTo(w, |path| - 1).hits { assert LastCheck(c, path) <= |path| - 1; }
  }

  lemma CheckSees(c: Checked, w: World, path: seq<string>)
    requires path != [] && IsCheck(c, Last(path))
    ensures HitsBy(c, w, path) == HitsBy(c, w, Init(path)) && SeedsBy(c, w, path) == SeedsBy(c, w, Init(path))
    ensures HitsBy(c, w, path[..CheckStamp(c, path)]) == HitsBy(c, w, path)
  {
    var before := Init(path);
    HitsSinceStamp(c, w, before);
    assert path[..Stamp(c, before)] == before[..Stamp(c, before)];
  }

  /** Every hit of the moment was seen by the last check or found behind it. */
  lemma {:induction false} SeenOrFoundLater(c: Checked, w: World, path: seq<string>)
    ensures forall h | h in HitsBy(c, w, path) :: SeenByCheck(c, w, path, h) || FoundLater(c, w, path, h)
    ensures forall h | h in Keyed(SeedsBy(c, w, path)) :: SeenByCheck(c, w, path, h) || FoundLater(c, w, path, h)
  {
    hide Keyed;
    hide Merge;
    hide SeenByCheck;
    hide FoundLater;
    hide IsCheck;
    if path == [] {
      KeyedTakes([]);
    } else if IsCheck(c, Last(path)) {
      CheckSees(c, w, path);
      SeedsAreHits(c, w, path);
      forall h | h in HitsBy(c, w, path) ensures SeenByCheck(c, w, path, h) { AllAreSeen(c, w, path, h); }
    } else {
      SeenOrFoundLater(c, w, Init(path));
      KeyedTakes(SeedsBy(c, w, path));
      MergeKeepsSeeds(SeedsBy(c, w, Init(path)), ReplyTo(w, |path| - 1).hits);
      forall h ensures SeenByCheck(c, w, path, h) == SeenByCheck(c, w, Init(path), h)
               ensures FoundLater(c, w, Init(path), h) || h in ReplyTo(w, |path| - 1).hits ==> FoundLater(c, w, path, h)
      {
        KnownAdvances(c, w, path, h);
      }
    }
  }

  lemma AllAreSeen(c: Checked, w: World, path: seq<string>, h: Hit)
    requires HitsBy(c, w, path[..CheckStamp(c, path)]) == HitsBy(c, w, path) && h in HitsBy(c, w, path)
    ensures SeenByCheck(c, w, path, h)
  {
    hide HitsBy;
  }
}
