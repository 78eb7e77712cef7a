/** Which documents are behind what a model receives: where on a path the hits were last changed,
    checked and rendered, and exactly when the hits that were checked are the ones transmitted.
 */
module PipelineDocuments {
  import opened Outcomes
  import opened Pipelines
  import opened PipelineRuns
  import Security

  // ------------------------------------------------------------------ read off the path alone

  predicate Expands(c: Checked, id: string) {
    id in c.steps && c.steps[id].config.ExpandConfig? && c.steps[id].config.enabled
  }

  predicate WritesEvidence(c: Checked, id: string) {
    id in c.steps && c.steps[id].config.VariablesConfig? && Evidence in c.steps[id].config.targets
  }

  /** Length of the path up to the last step that may have changed the hits; 0 before the first. An
      expansion that is switched off, or that nothing was retrieved for, changes nothing. */
  ghost function Stamp(c: Checked, path: seq<string>): (r: nat)
    ensures r <= |path|
  {
    if path == [] then 0
    else match KindOf(c, Last(path))
      case Some(Retrieve) => |path|
      case Some(ExpandGraph) => if Expands(c, Last(path)) && Stamp(c, Init(path)) != 0 then |path| else Stamp(c, Init(path))
      case _ => Stamp(c, Init(path))
  }

  /** The stamp of the hits that the policy checked last. */
  ghost function CheckStamp(c: Checked, path: seq<string>): (r: nat)
    ensures r <= |path|
  {
    if path == [] then 0
    else if IsCheck(c, Last(path)) then Stamp(c, Init(path))
    else CheckStamp(c, Init(path))
  }

  /** The stamp of the hits that evidence and citations were last made of. */
  ghost function EvidenceStamp(c: Checked, path: seq<string>): (r: nat)
    ensures r <= |path|
  {
    if path == [] then 0
    else if KindOf(c, Last(path)) == Some(ManageContextBudget) then Stamp(c, Init(path))
    else EvidenceStamp(c, Init(path))
  }

  /** No variables step has written the evidence since it was rendered. */
  ghost predicate Original(c: Checked, path: seq<string>) {
    && path != []
    && match KindOf(c, Last(path))
       case Some(ManageContextBudget) => true
       case Some(SetVariables) => !WritesEvidence(c, Last(path)) && Original(c, Init(path))
       case _ => Original(c, Init(path))
  }

  // ------------------------------------------------------------- the documents along a path

  /** The last search result on the path. */
  ghost function SeedsBy(c: Checked, w: World, path: seq<string>): seq<Hit> {
    if path == [] then []
    else if KindOf(c, Last(path)) == Some(Retrieve) then ReplyTo(w, |path| - 1).hits
    else SeedsBy(c, w, Init(path))
  }

  /** The hits after the path. */
  ghost function HitsBy(c: Checked, w: World, path: seq<string>): seq<Hit> {
    if path == [] then []
    else
      var before := HitsBy(c, w, Init(path));
      match KindOf(c, Last(path))
      case Some(Retrieve) => ReplyTo(w, |path| - 1).hits
      case Some(ExpandGraph) =>
        if Expands(c, Last(path)) && before != [] then Merge(SeedsBy(c, w, Init(path)), ReplyTo(w, |path| - 1).hits) else before
      case _ => before
  }

  lemma {:induction false} StampIsFixed(c: Checked, path: seq<string>)
    ensures Stamp(c, path[..Stamp(c, path)]) == Stamp(c, path)
  {
    if path != [] {
      StampIsFixed(c, Init(path));
      assert path[..|path|] == path;
      assert path[..Stamp(c, Init(path))] == Init(path)[..Stamp(c, Init(path))];
    }
  }

  lemma {:induction false} CheckStampIsFixed(c: Checked, path: seq<string>)
    ensures Stamp(c, path[..CheckStamp(c, path)]) == CheckStamp(c, path)
  {
    if path != [] {
      CheckStampIsFixed(c, Init(path));
      StampIsFixed(c, Init(path));
      assert path[..CheckStamp(c, path)] == Init(path)[..CheckStamp(c, path)];
    }
  }

  lemma {:induction false} EvidenceStampIsFixed(c: Checked, path: seq<string>)
    ensures Stamp(c, path[..EvidenceStamp(c, path)]) == EvidenceStamp(c, path)
  {
    if path != [] {
      EvidenceStampIsFixed(c, Init(path));
      StampIsFixed(c, Init(path));
      assert path[..EvidenceStamp(c, path)] == Init(path)[..EvidenceStamp(c, path)];
    }
  }

  /** Since the stamp the hits have stayed the same. */
  lemma {:induction false} HitsSinceStamp(c: Checked, w: World, path: seq<string>)
    ensures HitsBy(c, w, path) == HitsBy(c, w, path[..Stamp(c, path)])
  {
    if path != [] {
      HitsSinceStamp(c, w, Init(path));
      assert path[..|path|] == path;
      assert path[..Stamp(c, Init(path))] == Init(path)[..Stamp(c, Init(path))];
    }
  }

  // ------------------------------------------------------------------ the context follows them

  ghost predicate Visible(w: World, hits: seq<Hit>) { AllVisible(w.request, hits) }

  /** What a transmission was made of, in terms of the path before it. */
  ghost predicate Backed(c: Checked, w: World, before: seq<string>, call: Call) {
    && call.prompt == Prompt(call.parts, call.shown, w)
    && call.shown.hits == HitsBy(c, w, before) && Visible(w, call.shown.hits)
    && call.shown.rendered == HitsBy(c, w, before[..EvidenceStamp(c, before)]) && Visible(w, call.shown.rendered)
    && call.checkedHits == HitsBy(c, w, before[..CheckStamp(c, before)])
    && (call.original <==> Original(c, before))
    && (call.original ==> call.shown.evidence == Rendered(call.shown.rendered, call.shown.maximum))
  }

  ghost predicate CallsBacked(c: Checked, w: World, trace: seq<string>, calls: seq<Call>) {
    forall call | call in calls :: call.at <= |trace| && Backed(c, w, trace[..call.at], call)
  }

  ghost predicate Tracked(c: Checked, w: World, s: State) {
    && s.seedHits == SeedsBy(c, w, s.trace) && Visible(w, s.seedHits)
    && s.hits == HitsBy(c, w, s.trace) && Visible(w, s.hits)
    && s.rendered == HitsBy(c, w, s.trace[..EvidenceStamp(c, s.trace)]) && Visible(w, s.rendered)
    && s.checkedHits == HitsBy(c, w, s.trace[..CheckStamp(c, s.trace)])
    && (s.original <==> Original(c, s.trace))
    && (s.original ==> s.texts.evidence == Rendered(s.rendered, s.maximum))
    && CallsBacked(c, w, s.trace, s.calls)
  }

  lemma {:induction false} KeyedTakes(seeds: seq<Hit>)
    ensures forall h | h in Keyed(seeds) :: h in seeds
  {
    if seeds != [] { KeyedTakes(seeds[..|seeds| - 1]); }
  }

  /** Merging invents no hit. */
  lemma {:induction false} MergeTakes(seeds: seq<Hit>, expanded: seq<Hit>)
    ensures forall h | h in Merge(seeds, expanded) :: h in seeds || h in expanded
  {
    if expanded == [] { KeyedTakes(seeds); } else { MergeTakes(seeds, expanded[..|expanded| - 1]); }
  }

  lemma PutExactly(hits: seq<Hit>, h: Hit)
    requires IdsDiffer(hits)
    ensures IdsDiffer(Put(hits, h)) && h in Put(hits, h)
    ensures forall id :: HasId(Put(hits, h), id) <==> HasId(hits, id) || id == h.content.chunkId
  {
    var put := Put(hits, h);
    if HasId(hits, h.content.chunkId) {
      var k :| 0 <= k < |hits| && hits[k].content.chunkId == h.content.chunkId;
      assert put[k] == h;
      assert forall i :: 0 <= i < |hits| ==> put[i].content.chunkId == hits[i].content.chunkId;
      forall id ensures HasId(put, id) <==> HasId(hits, id) {
        if HasId(hits, id) { var i :| 0 <= i < |hits| && hits[i].content.chunkId == id; assert put[i].content.chunkId == id; }
      }
    } else {
      Appended(hits, h);
    }
  }

  lemma Appended(hits: seq<Hit>, h: Hit)
    ensures forall id :: HasId(hits + [h], id) <==> HasId(hits, id) || id == h.content.chunkId
    ensures h in hits + [h]
  {
    var all := hits + [h];
    assert all[|hits|] == h;
    forall id ensures HasId(all, id) <==> HasId(hits, id) || id == h.content.chunkId {
      if HasId(hits, id) { var i :| 0 <= i < |hits| && hits[i].content.chunkId == id; assert all[i].content.chunkId == id; }
    }
  }

  ghost predicate IdsDiffer(hits: seq<Hit>) {
    forall i, j :: 0 <= i < j < |hits| ==> hits[i].content.chunkId != hits[j].content.chunkId
  }

  lemma {:induction false} KeyedExactly(seeds: seq<Hit>)
    ensures IdsDiffer(Keyed(seeds)) && forall id :: HasId(Keyed(seeds), id) <==> HasId(seeds, id)
  {
    if seeds != [] {
      var before, last := seeds[..|seeds| - 1], seeds[|seeds| - 1];
      KeyedExactly(before);
      PutExactly(Keyed(before), last);
      Appended(before, last);
      assert seeds == before + [last];
    }
  }

  /** What a graph expansion leaves: one hit for each identifier found by the search or by the
      expansion, and never an expanded hit in place of a searched one. */
  lemma {:induction false} MergeExactly(seeds: seq<Hit>, expanded: seq<Hit>)
    ensures IdsDiffer(Merge(seeds, expanded))
    ensures forall id :: HasId(Merge(seeds, expanded), id) <==> HasId(seeds, id) || HasId(expanded, id)
    ensures forall h | h in Merge(seeds, expanded) :: if HasId(seeds, h.content.chunkId) then h in seeds else h in expanded
  {
    KeyedExactly(seeds);
    KeyedTakes(seeds);
    if expanded == [] {
      forall h | h in seeds ensures HasId(seeds, h.content.chunkId) { var i :| 0 <= i < |seeds| && seeds[i] == h; }
    } else {
      var before, last := expanded[..|expanded| - 1], expanded[|expanded| - 1];
      MergeExactly(seeds, before);
      Appended(Merge(seeds, before), last);
      Appended(before, last);
      assert expanded == before + [last];
    }
  }

  // -------------------------------------------------------------------------- one action

  /** How the documents change over one action that returns. */
  ghost predicate Moved(kind: Kind, step: Step, s: State, w: World, t: State)
    requires ConfigAccepted(kind, step)
  {
    var found := ReplyTo(w, |s.trace|).hits;
    && (match kind
        case Retrieve => t.seedHits == found && t.hits == found && Visible(w, found)
        case ExpandGraph =>
          && t.seedHits == s.seedHits
          && if step.config.enabled && s.hits != [] then t.hits == Merge(s.seedHits, found) && Visible(w, found)
             else t.hits == s.hits
        case _ => KeepsHits(s, t))
    && (match kind
        case ManageContextBudget =>
          t.rendered == s.hits && t.original && t.texts.evidence == Rendered(t.rendered, t.maximum)
        case SetVariables =>
          && t.rendered == s.rendered && t.maximum == s.maximum
          && (t.original <==> s.original && Evidence !in step.config.targets)
          && (t.original ==> t.texts.evidence == s.texts.evidence)
        case _ => KeepsEvidence(s, t))
    && t.checkedHits == (if kind.EnforceTransmission? then s.hits else s.checkedHits)
  }

  lemma RetrieveMoves(step: Step, s: State, w: World)
    requires ConfigAccepted(Retrieve, step)
    ensures ActRetrieve(step, s, w).outcome.Ok? ==> Moved(Retrieve, step, s, w, ActRetrieve(step, s, w).state)
  {
    hide AllVisible;
  }

  lemma ExpandMoves(step: Step, s: State, w: World)
    requires ConfigAccepted(ExpandGraph, step)
    ensures ActExpand(step, s, w).outcome.Ok? ==> Moved(ExpandGraph, step, s, w, ActExpand(step, s, w).state)
  {
    hide AllVisible;
    hide Merge;
  }

  lemma BudgetMoves(step: Step, s: State, w: World)
    requires ConfigAccepted(ManageContextBudget, step)
    ensures Moved(ManageContextBudget, step, s, w, ActBudget(step, s).state)
  {
  }

  lemma VariablesMove(step: Step, s: State, w: World)
    requires ConfigAccepted(SetVariables, step)
    ensures Moved(SetVariables, step, s, w, ActSetVariables(step, s, w).state)
  {
  }

  lemma EnforceMoves(step: Step, s: State, w: World)
    requires ConfigAccepted(EnforceTransmission, step)
    ensures ActEnforce(step, s, w).outcome.Ok? ==> Moved(EnforceTransmission, step, s, w, ActEnforce(step, s, w).state)
  {
    hide Security.TransmissionDecision;
  }

  lemma ActMoves(kind: Kind, step: Step, s: State, w: World)
    requires ConfigAccepted(kind, step)
    ensures var r := Act(kind, step, s, w); r.outcome.Ok? ==> Moved(kind, step, s, w, r.state)
  {
    hide ActLoopGuard;
    hide ActPrefixRouter;
    hide ActJsonRouter;
    hide ActRepeatGuard;
    hide ActEnforce;
    hide ActCall;
    hide ActRetrieve;
    hide ActExpand;
    hide ActBudget;
    hide ActSetVariables;
    hide ActFinalize;
    hide ActConversation;
    match kind {
      case Retrieve => hide Moved; RetrieveMoves(step, s, w);
      case ExpandGraph => hide Moved; ExpandMoves(step, s, w);
      case ManageContextBudget => hide Moved; BudgetMoves(step, s, w);
      case SetVariables => hide Moved; VariablesMove(step, s, w);
      case EnforceTransmission => hide Moved; EnforceMoves(step, s, w);
      case _ =>
    }
  }

  /** The step that runs, as the functions of the path see it. */
  ghost predicate Runs(c: Checked, current: string) {
    && current in c.steps && c.steps[current].action in c.reg
    && ConfigAccepted(c.reg[c.steps[current].action].kind, c.steps[current])
  }

  lemma HitsAdvance(c: Checked, w: World, s: State, current: string, t: State)
    requires Runs(c, current) && Moved(c.reg[c.steps[current].action].kind, c.steps[current], s, w, t)
    requires Tracked(c, w, s)
    ensures t.seedHits == SeedsBy(c, w, s.trace + [current]) && t.hits == HitsBy(c, w, s.trace + [current])
    ensures Visible(w, t.seedHits) && Visible(w, t.hits)
  {
    hide CallsBacked;
    hide Merge;
    hide Security.MemoryFilter;
    var done := s.trace + [current];
    assert Init(done) == s.trace && Last(done) == current;
    MergeTakes(s.seedHits, ReplyTo(w, |s.trace|).hits);
  }

  lemma EvidenceAdvances(c: Checked, w: World, s: State, current: string, t: State)
    requires Runs(c, current) && Moved(c.reg[c.steps[current].action].kind, c.steps[current], s, w, t)
    requires Tracked(c, w, s)
    ensures var done := s.trace + [current];
            && t.rendered == HitsBy(c, w, done[..EvidenceStamp(c, done)]) && Visible(w, t.rendered)
            && (t.original <==> Original(c, done))
            && (t.original ==> t.texts.evidence == Rendered(t.rendered, t.maximum))
  {
    hide CallsBacked;
    hide HitsBy;
    hide Stamp;
    hide Merge;
    hide Visible;
    var done := s.trace + [current];
    assert Init(done) == s.trace && Last(done) == current;
    HitsSinceStamp(c, w, s.trace);
    assert done[..Stamp(c, s.trace)] == s.trace[..Stamp(c, s.trace)];
    assert done[..EvidenceStamp(c, s.trace)] == s.trace[..EvidenceStamp(c, s.trace)];
  }

  lemma CheckAdvances(c: Checked, w: World, s: State, current: string, t: State)
    requires Runs(c, current) && Moved(c.reg[c.steps[current].action].kind, c.steps[current], s, w, t)
    requires Tracked(c, w, s)
    ensures var done := s.trace + [current]; t.checkedHits == HitsBy(c, w, done[..CheckStamp(c, done)])
  {
    hide CallsBacked;
    hide HitsBy;
    hide Stamp;
    hide Merge;
    hide Visible;
    var done := s.trace + [current];
    assert Init(done) == s.trace && Last(done) == current;
    HitsSinceStamp(c, w, s.trace);
    assert done[..Stamp(c, s.trace)] == s.trace[..Stamp(c, s.trace)];
    assert done[..CheckStamp(c, s.trace)] == s.trace[..CheckStamp(c, s.trace)];
  }

  /** A transmission, made or lost, is backed by the path before it. */
  lemma CallsAdvance(c: Checked, w: World, s: State, current: string)
    requires Runs(c, current) && Tracked(c, w, s)
    ensures var calls := Act(c.reg[c.steps[current].action].kind, c.steps[current], s, w).state.calls;
            CallsBacked(c, w, s.trace, calls) && CallsBacked(c, w, s.trace + [current], calls)
  {
    hide Act;
    hide HitsBy;
    hide CheckStamp;
    hide EvidenceStamp;
    hide Original;
    hide Visible;
    hide Prompt;
    hide ConfigAccepted;
    var kind := c.reg[c.steps[current].action].kind;
    ActSends(kind, c.steps[current], s, w);
    forall call | call in Act(kind, c.steps[current], s, w).state.calls
      ensures call.at <= |s.trace| && Backed(c, w, s.trace[..call.at], call)
      ensures (s.trace + [current])[..call.at] == s.trace[..call.at]
    {
      if call !in s.calls { assert s.trace[..|s.trace|] == s.trace; }
    }
  }

  lemma StepTracks(c: Checked, w: World, s: State, current: string)
    requires Runs(c, current) && Tracked(c, w, s)
    ensures var r := Act(c.reg[c.steps[current].action].kind, c.steps[current], s, w);
            r.outcome.Ok? ==> Tracked(c, w, r.state.(trace := s.trace + [current]))
  {
    hide Act;
    hide HitsBy;
    hide SeedsBy;
    hide CheckStamp;
    hide EvidenceStamp;
    hide Original;
    hide Visible;
    hide CallsBacked;
    hide Moved;
    hide ConfigAccepted;
    var kind := c.reg[c.steps[current].action].kind;
    var r := Act(kind, c.steps[current], s, w);
    ActMoves(kind, c.steps[current], s, w);
    CallsAdvance(c, w, s, current);
    if r.outcome.Ok? {
      HitsAdvance(c, w, s, current, r.state);
      EvidenceAdvances(c, w, s, current, r.state);
      CheckAdvances(c, w, s, current, r.state);
    }
  }

  /** Every transmission of a run is backed by the path before it, and so is the context it ends in. */
  lemma {:induction false} RunTracks(c: Checked, w: World, s: State, current: string, rows: seq<Audit>)
    requires Tracked(c, w, s)
    ensures var f := Run(c, w, s, current, rows);
            CallsBacked(c, w, f.state.trace, f.state.calls) && (f.error.None? ==> Tracked(c, w, f.state))
    decreases c.maxSteps - |s.trace|
  {
    hide Act;
    hide Tracked;
    hide CallsBacked;
    hide ConfigAccepted;
    hide NextStep;
    assert CallsBacked(c, w, s.trace, s.calls) by { TrackedCalls(c, w, s); }
    if |s.trace| < c.maxSteps && Runs(c, current) {
      var step := c.steps[current];
      var kind := c.reg[step.action].kind;
      var acted := Act(kind, step, s, w);
      StepTracks(c, w, s, current);
      CallsAdvance(c, w, s, current);
      ActKeepsTrace(kind, step, s, w);
      if acted.outcome.Ok? {
        var done := acted.state.(trace := s.trace + [current]);
        var next := NextStep(step, acted.outcome.value);
        if next.Ok? && !RecordFails(w, |s.trace|) && next.value.Some? {
          RunTracks(c, w, done, next.value.value, rows + [Audit(|s.trace| + 1, current, step.action, step.version, next.value)]);
        }
      }
    }
  }

  lemma TrackedCalls(c: Checked, w: World, s: State)
    requires Tracked(c, w, s)
    ensures CallsBacked(c, w, s.trace, s.calls)
  {
  }

  lemma InitialIsTracked(c: Checked, w: World, server: Security.Server)
    ensures Tracked(c, w, Initial(server))
  {
  }

  lemma SafeCallsAreCleared(c: Checked, w: World, f: Finished, call: Call)
    requires SafeFinish(c, w, f) && call in f.state.calls && call.at <= |f.state.trace|
    ensures Cleared(w, call.server, call.checkedHits, Setting(c, f.state.trace[..call.at]))
  {
    hide Cleared;
    hide EntryPath;
    hide Linked;
    hide LoopsAllowed;
    hide Available;
    hide Terminal;
    hide Setting;
    var trace := f.state.trace;
    assert forall id :: (trace + [id])[..call.at] == trace[..call.at];
  }

  /** Every transmission of every run of an accepted pipeline: all documents behind it are the
      subject's to see, and the server is cleared for the hits of the moment if they were not
      changed since the check, and for the evidence, ids and citations if these were made of the
      hits that were checked. */
  lemma TransmittedDocumentsAreCleared(reg: Registry, p: Pipeline, w: World, server: Security.Server, call: Call)
    requires WellFormed(p) && StepsAccepted(reg, p) && Acceptable(Check(reg, p)) && PolicyIsGuarded(reg)
    requires call in Whole(Check(reg, p), w, server).state.calls
    ensures var c := Check(reg, p);
            var trace := Whole(c, w, server).state.trace;
            && call.at <= |trace|
            && var before := trace[..call.at];
            && call.prompt == Prompt(call.parts, call.shown, w)
            && Visible(w, call.shown.hits) && Visible(w, call.shown.rendered)
            && Cleared(w, call.server, call.checkedHits, Setting(c, before))
            && (Stamp(c, before) == CheckStamp(c, before) ==>
                  call.shown.hits == call.checkedHits && Cleared(w, call.server, call.shown.hits, Setting(c, before)))
            && (EvidenceStamp(c, before) == CheckStamp(c, before) ==>
                  call.shown.rendered == call.checkedHits && Cleared(w, call.server, call.shown.rendered, Setting(c, before)))
            && (Original(c, before) ==> call.shown.evidence == Rendered(call.shown.rendered, call.shown.maximum))
  {
    hide Run;
    hide Cleared;
    hide Acceptable;
    hide StepsAccepted;
    hide SafeFinish;
    hide Tracked;
    hide PolicyIsGuarded;
    hide HitsBy;
    hide EvidenceStamp;
    hide CheckStamp;
    hide Visible;
    hide Prompt;
    hide Original;
    hide Setting;
    var c := Check(reg, p);
    AcceptedRunsAreSafe(reg, p, w, server);
    InitialIsTracked(c, w, server);
    RunTracks(c, w, Initial(server), c.entry, []);
    SafeCallsAreCleared(c, w, Whole(c, w, server), call);
    var trace := Whole(c, w, server).state.trace;
    HitsSinceStamp(c, w, trace[..call.at]);
  }
}
