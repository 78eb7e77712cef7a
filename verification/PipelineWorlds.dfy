/** Exactly which transmissions are safe whatever the documents are classified as: those of documents
    that a check for the same server has seen. For any other, the same path, with the same texts and
    the same servers chosen, is taken in a world where the server may not have the document.
 */
module PipelineWorlds {
  import opened Outcomes
  import opened Pipelines
  import opened PipelineChecks
  import opened PipelineDocuments
  import opened PipelineRelabelling
  import opened PipelineRuns
  import Security

  // ------------------------------------------------------------ documents a check has seen

  ghost predicate HasDocument(hits: seq<Hit>, d: Document) { exists h :: h in hits && DocumentOf(h) == d }

  /** Some check on the path chose the server while the document was among the hits. */
  ghost predicate CheckedFor(c: Checked, w: World, path: seq<string>, server: string, d: Document)
    requires Passed(c, w, path)
  {
    exists j | 0 <= j < |path| && IsCheck(c, path[j]) ::
      ChosenAt(c, w, path, j) == server && HasDocument(HitsBy(c, w, path[..j]), d)
  }

  /** Some check on the path chose the server. */
  ghost predicate Receives(c: Checked, w: World, path: seq<string>, server: string)
    requires Passed(c, w, path)
  {
    exists j | 0 <= j < |path| && IsCheck(c, path[j]) :: ChosenAt(c, w, path, j) == server
  }

  /** Every document was among the hits of a check that chose the server that the last check chose. */
  ghost predicate Covered(c: Checked, w: World, path: seq<string>, hits: seq<Hit>)
    requires Passed(c, w, path) && LastCheck(c, path) != 0
  {
    forall h | h in hits :: CheckedFor(c, w, path, ChosenAt(c, w, path, LastCheck(c, path) - 1), DocumentOf(h))
  }

  /** The other world passes the same checks and chooses the same servers. */
  ghost predicate SameChoices(c: Checked, w: World, other: World, path: seq<string>) {
    && Passed(c, w, path) && Passed(c, other, path)
    && forall j | 0 <= j < |path| && IsCheck(c, path[j]) :: ChosenAt(c, other, path, j) == ChosenAt(c, w, path, j)
  }

  // ------------------------------------------------------------------------ covered is cleared

  lemma SettingIsLast(c: Checked, path: seq<string>)
    ensures LastCheck(c, path) != 0 ==> Setting(c, path) == c.steps[path[LastCheck(c, path) - 1]].config.externalAllowed
  {
    if path != [] && !IsCheck(c, Last(path)) { SettingIsLast(c, Init(path)); }
  }

  /** What a check chose is cleared, also for the relabelled hits. */
  lemma ChosenSees(c: Checked, w: World, r: Relabelling, path: seq<string>, j: nat)
    requires SameChoices(c, w, Relabelled(w, r), path) && j < |path| && IsCheck(c, path[j])
    ensures path[j] in c.steps && c.steps[path[j]].config.TransmissionConfig?
    ensures var m := Relabelled(w, r);
            && ChosenAt(c, w, path, j) in m.servers
            && DecisionAt(c, m, path, j).value.receiver == Some(m.servers[ChosenAt(c, w, path, j)])
            && Cleared(m, m.servers[ChosenAt(c, w, path, j)], RelabelAll(r, HitsBy(c, w, path[..j])),
                       c.steps[path[j]].config.externalAllowed)
  {
    hide Decide;
    hide Relabelled;
    hide RelabelAll;
    hide HitsBy;
    hide Cleared;
    var m := Relabelled(w, r);
    RelabelledHits(c, w, r, path[..j]);
    ChosenIsCleared(m, c.steps[path[j]].config, HitsBy(c, m, path[..j]));
  }

  lemma ClearedSees(w: World, server: Security.Server, hits: seq<Hit>, externalAllowed: bool, h: Hit)
    requires Cleared(w, server, hits, externalAllowed) && h in hits
    ensures Security.Sees(w.request.model, h.chunk.security, Security.AsSubject(server.profile))
  {
    hide Security.Sees;
    var i :| 0 <= i < |hits| && hits[i] == h;
    assert LabelsOf(hits)[i] == h.chunk.security;
  }

  /** Clearance carries over to other hits of which each is seen. */
  lemma ClearedForMore(w: World, server: Security.Server, hits: seq<Hit>, more: seq<Hit>, externalAllowed: bool)
    requires Cleared(w, server, hits, externalAllowed)
    requires forall h | h in more :: Security.Sees(w.request.model, h.chunk.security, Security.AsSubject(server.profile))
    ensures Cleared(w, server, more, externalAllowed)
  {
    hide Security.Sees;
    forall d | d in LabelsOf(more) ensures Security.Sees(w.request.model, d, Security.AsSubject(server.profile)) {
      var i :| 0 <= i < |more| && LabelsOf(more)[i] == d;
      assert more[i] in more;
    }
  }

  lemma RelabelledIn(r: Relabelling, hits: seq<Hit>, h: Hit)
    requires h in hits
    ensures Relabel(r, h) in RelabelAll(r, hits)
  {
    var i :| 0 <= i < |hits| && hits[i] == h;
    assert RelabelAll(r, hits)[i] == Relabel(r, h);
  }

  lemma RelabelledFrom(r: Relabelling, hits: seq<Hit>, x: Hit) returns (h: Hit)
    requires x in RelabelAll(r, hits)
    ensures h in hits && x == Relabel(r, h)
  {
    var i :| 0 <= i < |hits| && RelabelAll(r, hits)[i] == x;
    h := hits[i];
  }

  lemma CoveredIsCleared(c: Checked, w: World, r: Relabelling, path: seq<string>, copy: Call, hits: seq<Hit>)
    requires SameChoices(c, w, Relabelled(w, r), path) && SentAsDecided(c, Relabelled(w, r), path, copy)
    requires LastCheck(c, path) != 0 && Covered(c, w, path, hits)
    ensures Cleared(Relabelled(w, r), copy.server, RelabelAll(r, hits), Setting(c, path))
  {
    hide Relabelled;
    hide RelabelAll;
    hide HitsBy;
    hide Cleared;
    hide Passed;
    hide LastCheck;
    hide IsCheck;
    hide DecisionAt;
    hide ChosenAt;
    hide SameChoices;
    hide Setting;
    hide Security.Sees;
    var m := Relabelled(w, r);
    PassedBoth(c, w, m, path);
    var k := LastCheck(c, path) - 1;
    var server := ChosenAt(c, w, path, k);
    SettingIsLast(c, path);
    ChosenSees(c, w, r, path, k);
    forall x | x in RelabelAll(r, hits)
      ensures Security.Sees(m.request.model, x.chunk.security, Security.AsSubject(copy.server.profile))
    {
      var h := RelabelledFrom(r, hits, x);
      assert CheckedFor(c, w, path, server, DocumentOf(h));
      var j :| 0 <= j < |path| && IsCheck(c, path[j]) && ChosenAt(c, w, path, j) == server
               && HasDocument(HitsBy(c, w, path[..j]), DocumentOf(h));
      var g :| g in HitsBy(c, w, path[..j]) && DocumentOf(g) == DocumentOf(h);
      ChosenSees(c, w, r, path, j);
      RelabelledIn(r, HitsBy(c, w, path[..j]), g);
      ClearedSees(m, copy.server, RelabelAll(r, HitsBy(c, w, path[..j])), c.steps[path[j]].config.externalAllowed, Relabel(r, g));
    }
    ClearedForMore(m, copy.server, RelabelAll(r, HitsBy(c, w, path[..k])), RelabelAll(r, hits), Setting(c, path));
  }

  lemma PassedBoth(c: Checked, w: World, other: World, path: seq<string>)
    requires SameChoices(c, w, other, path)
    ensures Passed(c, w, path) && Passed(c, other, path)
  {
  }

  // ------------------------------------------------------------------------ the telling world

  /** Documents are marked with the servers that they were never checked for, and a server may have
      everything but what is marked with it. The subject sees all. */
  ghost function Telling(c: Checked, w: World, path: seq<string>): Relabelling
    requires Passed(c, w, path)
  {
    Relabelling(
      (d: Document) => Security.Labels(None, set v | v in w.servers && !CheckedFor(c, w, path, v, d)),
      Security.LabelsModel(w.servers.Keys), Security.Labels(None, w.servers.Keys),
      (v: string) => if Receives(c, w, path, v) then Security.ProfileLabels(w.servers.Keys - {v}) else Security.ProfileNone)
  }

  predicate BoundaryAllows(w: World, server: Security.Server, externalAllowed: bool) {
    server.boundary.External? ==> externalAllowed && w.subjectMayUseExternal
  }

  lemma TellingLabels(c: Checked, w: World, path: seq<string>, d: Document, v: string)
    requires Passed(c, w, path)
    ensures var r := Telling(c, w, path);
            && r.labels(d).clearance.None? && r.labels(d).classification <= w.servers.Keys
            && (v in r.labels(d).classification <==> v in w.servers && !CheckedFor(c, w, path, v, d))
  {
    hide Passed;
    hide CheckedFor;
  }

  lemma TellingRest(c: Checked, w: World, path: seq<string>, v: string)
    requires Passed(c, w, path)
    ensures var m := Relabelled(w, Telling(c, w, path));
            && m.request.model == Security.LabelsModel(w.servers.Keys)
            && m.request.subject == Security.Labels(None, w.servers.Keys)
            && m.subjectMayUseExternal == w.subjectMayUseExternal && m.servers.Keys == w.servers.Keys
            && (v in w.servers ==>
                  && m.servers[v].boundary == w.servers[v].boundary && m.servers[v].reroute == w.servers[v].reroute
                  && m.servers[v].profile == if Receives(c, w, path, v) then Security.ProfileLabels(w.servers.Keys - {v})
                                             else Security.ProfileNone)
  {
    hide Passed;
    hide CheckedFor;
    hide Receives;
    hide RelabelAll;
  }

  /** A server sees exactly the documents it was checked for, if any check chose it. */
  lemma TellingSees(c: Checked, w: World, path: seq<string>, h: Hit, v: string)
    requires Passed(c, w, path) && v in w.servers && Receives(c, w, path, v)
    ensures var r := Telling(c, w, path);
            var m := Relabelled(w, r);
            Security.Sees(m.request.model, Relabel(r, h).chunk.security, Security.AsSubject(m.servers[v].profile)) <==>
            CheckedFor(c, w, path, v, DocumentOf(h))
  {
    hide Passed;
    hide CheckedFor;
    hide Receives;
    hide Telling;
    hide Relabelled;
    TellingLabels(c, w, path, DocumentOf(h), v);
    TellingRest(c, w, path, v);
    var labels := Telling(c, w, path).labels(DocumentOf(h)).classification;
    if CheckedFor(c, w, path, v, DocumentOf(h)) {
      assert labels <= w.servers.Keys - {v};
    } else {
      assert v in labels && v !in w.servers.Keys - {v};
    }
  }

  lemma TellingClears(c: Checked, w: World, path: seq<string>, hits: seq<Hit>, v: string, externalAllowed: bool)
    requires Passed(c, w, path) && v in w.servers
    ensures var r := Telling(c, w, path);
            var m := Relabelled(w, r);
            Cleared(m, m.servers[v], RelabelAll(r, hits), externalAllowed) <==>
              && Receives(c, w, path, v) && BoundaryAllows(w, w.servers[v], externalAllowed)
              && forall h | h in hits :: CheckedFor(c, w, path, v, DocumentOf(h))
  {
    hide Passed;
    hide CheckedFor;
    hide Receives;
    hide Telling;
    hide Relabelled;
    hide RelabelAll;
    hide Security.Sees;
    var r := Telling(c, w, path);
    var m := Relabelled(w, r);
    TellingRest(c, w, path, v);
    if Receives(c, w, path, v) {
      assert Security.KnownToModel(m.request.model, m.servers[v].profile) by {
        assert w.servers.Keys - {v} <= w.servers.Keys;
      }
      if Cleared(m, m.servers[v], RelabelAll(r, hits), externalAllowed) {
        forall h | h in hits ensures CheckedFor(c, w, path, v, DocumentOf(h)) {
          RelabelledIn(r, hits, h);
          ClearedSees(m, m.servers[v], RelabelAll(r, hits), externalAllowed, Relabel(r, h));
          TellingSees(c, w, path, h, v);
        }
      }
      if BoundaryAllows(w, w.servers[v], externalAllowed) && forall h | h in hits :: CheckedFor(c, w, path, v, DocumentOf(h)) {
        assert Cleared(m, m.servers[v], [], externalAllowed) by { assert LabelsOf([]) == []; }
        forall x | x in RelabelAll(r, hits)
          ensures Security.Sees(m.request.model, x.chunk.security, Security.AsSubject(m.servers[v].profile))
        {
          var h := RelabelledFrom(r, hits, x);
          TellingSees(c, w, path, h, v);
        }
        ClearedForMore(m, m.servers[v], [], RelabelAll(r, hits), externalAllowed);
      }
    }
  }

  /** A server that some check chose is cleared for all documents that such checks have seen. */
  lemma ChecksAddUp(c: Checked, w: World, path: seq<string>, hits: seq<Hit>, v: string, externalAllowed: bool)
    requires Passed(c, w, path) && Receives(c, w, path, v) && v in w.servers
    requires BoundaryAllows(w, w.servers[v], externalAllowed)
    requires forall h | h in hits :: CheckedFor(c, w, path, v, DocumentOf(h))
    ensures Cleared(w, w.servers[v], hits, externalAllowed)
  {
    hide HitsBy;
    hide Decide;
    hide IsCheck;
    hide Security.Sees;
    var i :| 0 <= i < |path| && IsCheck(c, path[i]) && ChosenAt(c, w, path, i) == v;
    CheckClears(c, w, path, i);
    assert Cleared(w, w.servers[v], [], externalAllowed) by { assert LabelsOf([]) == []; }
    forall h | h in hits
      ensures Security.Sees(w.request.model, h.chunk.security, Security.AsSubject(w.servers[v].profile))
    {
      assert CheckedFor(c, w, path, v, DocumentOf(h));
      var j :| 0 <= j < |path| && IsCheck(c, path[j]) && ChosenAt(c, w, path, j) == v
               && HasDocument(HitsBy(c, w, path[..j]), DocumentOf(h));
      var g :| g in HitsBy(c, w, path[..j]) && DocumentOf(g) == DocumentOf(h);
      CheckClears(c, w, path, j);
      ClearedSees(w, w.servers[v], HitsBy(c, w, path[..j]), c.steps[path[j]].config.externalAllowed, g);
    }
    ClearedForMore(w, w.servers[v], [], hits, externalAllowed);
  }

  /** What a check chose, in the original world. */
  lemma CheckClears(c: Checked, w: World, path: seq<string>, j: nat)
    requires Passed(c, w, path) && j < |path| && IsCheck(c, path[j])
    ensures path[j] in c.steps && c.steps[path[j]].config.TransmissionConfig? && Allows(DecisionAt(c, w, path, j))
    ensures var config, v, hits := c.steps[path[j]].config, ChosenAt(c, w, path, j), HitsBy(c, w, path[..j]);
            && v in w.servers && Cleared(w, w.servers[v], hits, config.externalAllowed) && config.selected in w.servers
            && (DecisionAt(c, w, path, j).value.rerouted <==>
                !Cleared(w, w.servers[config.selected], hits, config.externalAllowed))
            && (if DecisionAt(c, w, path, j).value.rerouted then w.servers[config.selected].reroute == Some(v)
                else v == config.selected)
  {
    hide HitsBy;
    hide Decide;
    hide Cleared;
    ChosenIsCleared(w, c.steps[path[j]].config, HitsBy(c, w, path[..j]));
  }

  /** Under labels that all servers know, the policy decides by clearance alone. */
  lemma DecidesByClearance(m: World, config: Config, hits: seq<Hit>, universe: set<string>)
    requires config.TransmissionConfig? && m.request.model == Security.LabelsModel(universe) && config.selected in m.servers
    requires forall h | h in hits :: h.chunk.security.classification <= universe
    requires forall v | v in m.servers ::
               m.servers[v].profile.ProfileNone? || (m.servers[v].profile.ProfileLabels? && m.servers[v].profile.labels <= universe)
    requires Cleared(m, m.servers[config.selected], hits, config.externalAllowed)
             || (&& m.servers[config.selected].reroute.Some? && m.servers[config.selected].reroute.value in m.servers
                 && Cleared(m, m.servers[m.servers[config.selected].reroute.value], hits, config.externalAllowed))
    ensures Allows(Decide(m, config, hits))
    ensures Decide(m, config, hits).value.rerouted <==> !Cleared(m, m.servers[config.selected], hits, config.externalAllowed)
  {
    hide Security.TransmissionDecision;
    hide Security.MayReceive;
    hide LabelsOf;
    var labels := LabelsOf(hits);
    AllReadable(m, hits, universe);
    Security.TransmissionRaises(m.request.model, m.servers, config.selected, labels, config.externalAllowed,
                                m.subjectMayUseExternal);
    Security.TransmissionIsRouted(m.request.model, m.servers, config.selected, labels, config.externalAllowed,
                                  m.subjectMayUseExternal);
  }

  lemma AllReadable(m: World, hits: seq<Hit>, universe: set<string>)
    requires m.request.model == Security.LabelsModel(universe)
    requires forall h | h in hits :: h.chunk.security.classification <= universe
    ensures forall d | d in LabelsOf(hits) :: Security.Readable(m.request.model, d)
  {
    forall d | d in LabelsOf(hits) ensures Security.Readable(m.request.model, d) {
      var i :| 0 <= i < |hits| && LabelsOf(hits)[i] == d;
      assert hits[i] in hits;
    }
  }

  /** Every check on the path chooses the same server in the telling world. */
  lemma TellingDecides(c: Checked, w: World, path: seq<string>, j: nat)
    requires Passed(c, w, path) && j < |path| && IsCheck(c, path[j])
    ensures var m := Relabelled(w, Telling(c, w, path));
            && Allows(DecisionAt(c, m, path, j))
            && DecisionAt(c, m, path, j).value.rerouted == DecisionAt(c, w, path, j).value.rerouted
  {
    hide Passed;
    hide Telling;
    hide Relabelled;
    hide RelabelAll;
    hide HitsBy;
    hide Decide;
    hide Cleared;
    hide CheckedFor;
    hide Receives;
    hide IsCheck;
    hide ChosenAt;
    var r := Telling(c, w, path);
    var m := Relabelled(w, r);
    CheckClears(c, w, path, j);
    var hits, config, v := HitsBy(c, w, path[..j]), c.steps[path[j]].config, ChosenAt(c, w, path, j);
    RelabelledHits(c, w, r, path[..j]);
    ChosenReceives(c, w, path, j);
    TellingRest(c, w, path, v);
    TellingRest(c, w, path, config.selected);
    TellingClears(c, w, path, hits, v, config.externalAllowed);
    TellingClears(c, w, path, hits, config.selected, config.externalAllowed);
    if DecisionAt(c, w, path, j).value.rerouted && Cleared(m, m.servers[config.selected], RelabelAll(r, hits), config.externalAllowed) {
      ChecksAddUp(c, w, path, hits, config.selected, config.externalAllowed);
      assert false;
    }
    TellingIsKnown(c, w, path, hits);
    DecidesByClearance(m, config, RelabelAll(r, hits), w.servers.Keys);
  }

  lemma ChosenReceives(c: Checked, w: World, path: seq<string>, j: nat)
    requires Passed(c, w, path) && j < |path| && IsCheck(c, path[j])
    ensures var v, hits := ChosenAt(c, w, path, j), HitsBy(c, w, path[..j]);
            && Receives(c, w, path, v) && (forall h | h in hits :: CheckedFor(c, w, path, v, DocumentOf(h)))
            && (v in w.servers ==> BoundaryAllows(w, w.servers[v], c.steps[path[j]].config.externalAllowed))
  {
    hide HitsBy;
    hide Decide;
    CheckClears(c, w, path, j);
    forall h | h in HitsBy(c, w, path[..j]) ensures CheckedFor(c, w, path, ChosenAt(c, w, path, j), DocumentOf(h)) {
      assert HasDocument(HitsBy(c, w, path[..j]), DocumentOf(h));
    }
  }

  lemma TellingIsKnown(c: Checked, w: World, path: seq<string>, hits: seq<Hit>)
    requires Passed(c, w, path)
    ensures var r := Telling(c, w, path);
            var m := Relabelled(w, r);
            && (forall x | x in RelabelAll(r, hits) :: x.chunk.security.classification <= w.servers.Keys)
            && (forall v | v in m.servers ::
                  || m.servers[v].profile.ProfileNone?
                  || (m.servers[v].profile.ProfileLabels? && m.servers[v].profile.labels <= w.servers.Keys))
  {
    hide Passed;
    hide Telling;
    hide Relabelled;
    hide RelabelAll;
    hide CheckedFor;
    hide Receives;
    var r := Telling(c, w, path);
    TellingRest(c, w, path, "");
    forall x | x in RelabelAll(r, hits) ensures x.chunk.security.classification <= w.servers.Keys {
      var h := RelabelledFrom(r, hits, x);
      TellingLabels(c, w, path, DocumentOf(h), "");
    }
    forall v | v in w.servers
      ensures var p := Relabelled(w, r).servers[v].profile; p.ProfileNone? || (p.ProfileLabels? && p.labels <= w.servers.Keys)
    {
      TellingRest(c, w, path, v);
    }
  }

  lemma TellingChoosesTheSame(c: Checked, w: World, path: seq<string>)
    requires Passed(c, w, path)
    ensures SameChoices(c, w, Relabelled(w, Telling(c, w, path)), path)
  {
    hide Telling;
    hide Relabelled;
    hide HitsBy;
    hide Decide;
    hide DecisionAt;
    hide IsCheck;
    var m := Relabelled(w, Telling(c, w, path));
    forall j | 0 <= j < |path| && IsCheck(c, path[j]) ensures Allows(DecisionAt(c, m, path, j)) { TellingDecides(c, w, path, j); }
    forall j | 0 <= j < |path| && IsCheck(c, path[j]) ensures ChosenAt(c, m, path, j) == ChosenAt(c, w, path, j) {
      TellingDecides(c, w, path, j);
      CheckClears(c, w, path, j);
      TellingRest(c, w, path, c.steps[path[j]].config.selected);
    }
  }

  lemma TellingSubjectSees(c: Checked, w: World, path: seq<string>, n: nat)
    requires Passed(c, w, path)
    ensures SubjectSees(w, Telling(c, w, path), n)
  {
    hide Passed;
    hide Telling;
    hide Relabelled;
    hide RelabelAll;
    hide CheckedFor;
    var r := Telling(c, w, path);
    var m := Relabelled(w, r);
    SameReplies(w, r, n);
    SameRest(w, r);
    TellingRest(c, w, path, "");
    if AllVisible(w.request, ReplyTo(w, n).hits) {
      forall x | x in ReplyTo(m, n).hits ensures Security.MemoryFilter(m.request, x.chunk) == Ok(true) {
        var h := RelabelledFrom(r, ReplyTo(w, n).hits, x);
        TellingLabels(c, w, path, DocumentOf(h), "");
        assert Security.MemoryFilter(w.request, h.chunk) == Ok(true);
      }
    }
  }

  // ----------------------------------------------------------------------------- the results

  /** The relabelled world takes the same path to the call, chooses the same servers on it, and
      makes the call `copy` there. */
  ghost predicate TakesPath(c: Checked, w: World, r: Relabelling, server: Security.Server, call: Call, copy: Call) {
    var path, again := Whole(c, w, server).state.trace, Whole(c, Relabelled(w, r), server).state.trace;
    && call.at <= |path| && call.at <= |again| && again[..call.at] == path[..call.at]
    && copy in Whole(c, Relabelled(w, r), server).state.calls && copy.at == call.at
    && SameChoices(c, w, Relabelled(w, r), path[..call.at])
  }

  function RelabelShown(r: Relabelling, shown: Shown): Shown {
    shown.(rendered := RelabelAll(r, shown.rendered), hits := RelabelAll(r, shown.hits))
  }

  /** No prompt tells a relabelled world from the original. */
  lemma {:induction false} SamePrompt(w: World, r: Relabelling, parts: seq<PromptPart>, shown: Shown)
    ensures Prompt(parts, RelabelShown(r, shown), Relabelled(w, r)) == Prompt(parts, shown, w)
  {
    hide RelabelAll;
    if parts != [] {
      SamePrompt(w, r, parts[1..], shown);
      SameContents(r, shown.rendered);
      SameContents(r, shown.hits);
      SameRest(w, r);
    }
  }

  lemma CallsSendTheSame(c: Checked, w: World, r: Relabelling, step: Step, s: State, t: State)
    requires ConfigAccepted(CallModel, step) && Alike(r, s, t)
    ensures SentCall(step, t, Relabelled(w, r)).prompt == SentCall(step, s, w).prompt
    ensures SentCall(step, t, Relabelled(w, r)).at == SentCall(step, s, w).at
  {
    hide Prompt;
    hide RelabelAll;
    hide Relabelled;
    var shown := Shown(s.texts.normalizedQuery, s.texts.evidence, s.rendered, s.maximum, s.hits, s.history);
    SamePrompt(w, r, step.config.parts, shown);
  }

  lemma InitialIsAlike(r: Relabelling, server: Security.Server)
    ensures Alike(r, Initial(server), Initial(server))
  {
  }

  /** The telling world takes the path and sends the same prompt. */
  lemma TellingTakesPath(c: Checked, w: World, server: Security.Server, call: Call) returns (copy: Call)
    requires call in Whole(c, w, server).state.calls
    ensures call.at <= |Whole(c, w, server).state.trace| && Passed(c, w, Whole(c, w, server).state.trace[..call.at])
    ensures TakesPath(c, w, Telling(c, w, Whole(c, w, server).state.trace[..call.at]), server, call, copy)
    ensures copy.prompt == call.prompt
  {
    hide Run;
    hide Telling;
    hide Relabelled;
    hide Alike;
    hide Tracked;
    hide Passed;
    hide SentCall;
    hide SubjectSees;
    hide SameChoices;
    hide ActCall;
    hide ConfigAccepted;
    CallIsDecided(c, w, server, call);
    var path := Whole(c, w, server).state.trace[..call.at];
    assert Passed(c, w, path);
    var r := Telling(c, w, path);
    var m := Relabelled(w, r);
    TellingChoosesTheSame(c, w, path);
    PassedBoth(c, w, m, path);
    forall n: nat ensures SubjectSees(w, r, n) { TellingSubjectSees(c, w, path, n); }
    InitialIsAlike(r, server);
    InitialIsTracked(c, w, server);
    var s := Initial(server);
    var x, y, next, rows, others := FollowsToCall(c, w, r, path, s, s, c.entry, [], [], call);
    NextStepSends(c, w, x, next, rows, call);
    var step := c.steps[next];
    CallsAlike(w, r, step, x, y);
    copy := SentCall(step, y, m);
    AlikeTraces(r, x, y);
    SentIsInRun(c, m, y, next, others, copy);
    CallsSendTheSame(c, w, r, step, x, y);
    RunGrows(c, m, y, next, others);
  }

  lemma AlikeTraces(r: Relabelling, s: State, t: State)
    requires Alike(r, s, t)
    ensures s.trace == t.trace
  {
  }

  /** For hits that both worlds have on the path: cleared in every relabelling if and only if covered. */
  lemma ClearedExactly(c: Checked, w: World, server: Security.Server, path: seq<string>, call: Call, copy: Call, hits: seq<Hit>)
    requires call in Whole(c, w, server).state.calls && call.at <= |Whole(c, w, server).state.trace|
    requires path == Whole(c, w, server).state.trace[..call.at] && SentAsDecided(c, w, path, call)
    requires TakesPath(c, w, Telling(c, w, path), server, call, copy)
    ensures Covered(c, w, path, hits) ==>
              forall r, other | TakesPath(c, w, r, server, call, other) ::
                Cleared(Relabelled(w, r), other.server, RelabelAll(r, hits), Setting(c, path))
    ensures !Covered(c, w, path, hits) ==>
              !Cleared(Relabelled(w, Telling(c, w, path)), copy.server, RelabelAll(Telling(c, w, path), hits), Setting(c, path))
  {
    hide Run;
    hide Telling;
    hide Relabelled;
    hide RelabelAll;
    hide Passed;
    hide Cleared;
    hide Covered;
    hide SentAsDecided;
    hide SameChoices;
    hide Setting;
    SentPassed(c, w, path, call);
    if Covered(c, w, path, hits) {
      forall r, other | TakesPath(c, w, r, server, call, other)
        ensures Cleared(Relabelled(w, r), other.server, RelabelAll(r, hits), Setting(c, path))
      {
        CallIsDecided(c, Relabelled(w, r), server, other);
        CoveredIsCleared(c, w, r, path, other, hits);
      }
    } else {
      var r := Telling(c, w, path);
      CallIsDecided(c, Relabelled(w, r), server, copy);
      UncoveredIsTold(c, w, path, copy, hits);
    }
  }

  lemma SentPassed(c: Checked, w: World, path: seq<string>, call: Call)
    requires SentAsDecided(c, w, path, call)
    ensures Passed(c, w, path) && LastCheck(c, path) != 0
  {
  }

  lemma UncoveredIsTold(c: Checked, w: World, path: seq<string>, copy: Call, hits: seq<Hit>)
    requires Passed(c, w, path) && LastCheck(c, path) != 0 && !Covered(c, w, path, hits)
    requires SameChoices(c, w, Relabelled(w, Telling(c, w, path)), path)
    requires SentAsDecided(c, Relabelled(w, Telling(c, w, path)), path, copy)
    ensures !Cleared(Relabelled(w, Telling(c, w, path)), copy.server, RelabelAll(Telling(c, w, path), hits), Setting(c, path))
  {
    hide Telling;
    hide Relabelled;
    hide RelabelAll;
    hide Passed;
    hide Cleared;
    hide SameChoices;
    hide Setting;
    hide HitsBy;
    hide DecisionAt;
    hide ChosenAt;
    hide IsCheck;
    hide CheckedFor;
    hide Receives;
    var k := LastCheck(c, path) - 1;
    var v := ChosenAt(c, w, path, k);
    ChosenSees(c, w, Telling(c, w, path), path, k);
    CheckClears(c, w, path, k);
    TellingClears(c, w, path, hits, v, Setting(c, path));
  }

  /** What a call of a relabelled world shows is what the call shows, relabelled. */
  lemma ShownIsRelabelled(c: Checked, w: World, r: Relabelling, server: Security.Server, call: Call, copy: Call)
    requires call in Whole(c, w, server).state.calls && TakesPath(c, w, r, server, call, copy)
    ensures copy.shown.hits == RelabelAll(r, call.shown.hits) && copy.shown.rendered == RelabelAll(r, call.shown.rendered)
  {
    hide Run;
    hide Relabelled;
    hide RelabelAll;
    hide HitsBy;
    hide SameChoices;
    hide EvidenceStamp;
    hide CheckStamp;
    hide Prompt;
    CallIsDecided(c, w, server, call);
    CallIsDecided(c, Relabelled(w, r), server, copy);
    var path := Whole(c, w, server).state.trace[..call.at];
    RelabelledHits(c, w, r, path);
    RelabelledHits(c, w, r, path[..EvidenceStamp(c, path)]);
  }

  /** The hits of the moment: whatever their classification, for whatever subject and servers, the
      server that is called may have them, if and only if each is a document that a check for the
      same server has seen on the path. Otherwise a relabelled world sends it the same prompt although
      it may not have them. */
  lemma CheckCoversHitsExactly(c: Checked, w: World, server: Security.Server, call: Call)
    requires call in Whole(c, w, server).state.calls
    ensures call.at <= |Whole(c, w, server).state.trace|
    ensures SentAsDecided(c, w, Whole(c, w, server).state.trace[..call.at], call)
    ensures var path := Whole(c, w, server).state.trace[..call.at];
            && (Covered(c, w, path, call.shown.hits) <==>
                forall r, copy | TakesPath(c, w, r, server, call, copy) ::
                  Cleared(Relabelled(w, r), copy.server, copy.shown.hits, Setting(c, path)))
            && (!Covered(c, w, path, call.shown.hits) ==>
                exists r, copy | TakesPath(c, w, r, server, call, copy) ::
                  copy.prompt == call.prompt && !Cleared(Relabelled(w, r), copy.server, copy.shown.hits, Setting(c, path)))
  {
    hide Run;
    hide Relabelled;
    hide RelabelAll;
    hide Telling;
    hide Passed;
    hide Cleared;
    hide Covered;
    hide SentAsDecided;
    hide TakesPath;
    hide Setting;
    CallIsDecided(c, w, server, call);
    var path := Whole(c, w, server).state.trace[..call.at];
    var copy := TellingTakesPath(c, w, server, call);
    ClearedExactly(c, w, server, path, call, copy, call.shown.hits);
    forall r, other | TakesPath(c, w, r, server, call, other)
      ensures other.shown.hits == RelabelAll(r, call.shown.hits)
    {
      ShownIsRelabelled(c, w, r, server, call, other);
    }
  }

  /** The same for the documents behind evidence, identifiers and citations. */
  lemma CheckCoversEvidenceExactly(c: Checked, w: World, server: Security.Server, call: Call)
    requires call in Whole(c, w, server).state.calls
    ensures call.at <= |Whole(c, w, server).state.trace|
    ensures SentAsDecided(c, w, Whole(c, w, server).state.trace[..call.at], call)
    ensures var path := Whole(c, w, server).state.trace[..call.at];
            && (Covered(c, w, path, call.shown.rendered) <==>
                forall r, copy | TakesPath(c, w, r, server, call, copy) ::
                  Cleared(Relabelled(w, r), copy.server, copy.shown.rendered, Setting(c, path)))
            && (!Covered(c, w, path, call.shown.rendered) ==>
                exists r, copy | TakesPath(c, w, r, server, call, copy) ::
                  copy.prompt == call.prompt && !Cleared(Relabelled(w, r), copy.server, copy.shown.rendered, Setting(c, path)))
  {
    hide Run;
    hide Relabelled;
    hide RelabelAll;
    hide Telling;
    hide Passed;
    hide Cleared;
    hide Covered;
    hide SentAsDecided;
    hide TakesPath;
    hide Setting;
    CallIsDecided(c, w, server, call);
    var path := Whole(c, w, server).state.trace[..call.at];
    var copy := TellingTakesPath(c, w, server, call);
    ClearedExactly(c, w, server, path, call, copy, call.shown.rendered);
    forall r, other | TakesPath(c, w, r, server, call, other)
      ensures other.shown.rendered == RelabelAll(r, call.shown.rendered)
    {
      ShownIsRelabelled(c, w, r, server, call, other);
    }
  }

  // ------------------------------------------------------------------- read off the path

  /** The stamp of the check is that of the hits it saw. */
  lemma {:induction false} CheckStampIsSeen(c: Checked, path: seq<string>)
    ensures LastCheck(c, path) != 0 ==> CheckStamp(c, path) == Stamp(c, path[..LastCheck(c, path) - 1])
  {
    hide Stamp;
    if path != [] {
      CheckStampIsSeen(c, Init(path));
      if !IsCheck(c, Last(path)) && LastCheck(c, Init(path)) != 0 {
        assert path[..LastCheck(c, path) - 1] == Init(path)[..LastCheck(c, path) - 1];
      }
    }
  }

  lemma CheckSawStamped(c: Checked, w: World, path: seq<string>)
    requires LastCheck(c, path) != 0
    ensures HitsBy(c, w, path[..CheckStamp(c, path)]) == HitsBy(c, w, path[..LastCheck(c, path) - 1])
  {
    hide HitsBy;
    hide IsCheck;
    CheckStampIsSeen(c, path);
    var seen := path[..LastCheck(c, path) - 1];
    HitsSinceStamp(c, w, seen);
    assert seen[..Stamp(c, seen)] == path[..Stamp(c, seen)];
  }

  /** Agreement of stamps, which the path alone decides, is enough for any hits found by then. */
  lemma StampsCover(c: Checked, w: World, path: seq<string>, n: nat)
    requires Passed(c, w, path) && LastCheck(c, path) != 0 && n == CheckStamp(c, path)
    ensures Covered(c, w, path, HitsBy(c, w, path[..n]))
  {
    hide HitsBy;
    hide Passed;
    hide ChosenAt;
    hide IsCheck;
    CheckSawStamped(c, w, path);
    var k := LastCheck(c, path) - 1;
    var hits := HitsBy(c, w, path[..n]);
    forall h | h in hits ensures CheckedFor(c, w, path, ChosenAt(c, w, path, k), DocumentOf(h)) {
      assert HasDocument(HitsBy(c, w, path[..k]), DocumentOf(h));
    }
  }

  /** A hit of the moment that is not covered was found behind the last check. */
  lemma UncoveredIsFoundLater(c: Checked, w: World, path: seq<string>, h: Hit)
    requires Passed(c, w, path) && LastCheck(c, path) != 0 && h in HitsBy(c, w, path)
    requires !Covered(c, w, path, [h])
    ensures FoundLater(c, w, path, h)
  {
    hide HitsBy;
    hide Passed;
    hide CheckedFor;
    hide FoundLater;
    SeenOrFoundLater(c, w, path);
    if SeenByCheck(c, w, path, h) { StampsCover(c, w, path, CheckStamp(c, path)); }
  }
}
