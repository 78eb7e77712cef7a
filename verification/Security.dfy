/** Security models, the requirement a retrieved context puts on a model server, and the
    three forms in which document visibility is decided: in memory, as a PostgreSQL clause
    and as a Weaviate filter.
 */
module Security {
  import opened Outcomes

  datatype SecurityModel =
    | NoModel
    | ClearanceModel(levels: map<string, nat>)
    | LabelsModel(universe: set<string>)

  /** Security metadata of a document or a subject; label tuples are sorted and
      duplicate-free in the code, hence sets here. */
  datatype Labels = Labels(clearance: Option<string>, classification: set<string>)

  datatype ServerProfile =
    | ProfileNone
    | ProfileClearance(level: string)
    | ProfileLabels(labels: set<string>)

  datatype Requirement =
    | RequireNothing
    | RequireClearance(level: Option<string>)
    | RequireLabels(labels: set<string>)

  datatype SecurityError = ValidationError | PolicyViolation

  datatype Decision = Decision(allowed: bool, reason: string)

  function LevelOf(levels: map<string, nat>, level: string): Result<nat, SecurityError> {
    if level in levels then Ok(levels[level]) else Err(ValidationError)
  }

  function ValidateLabels(universe: set<string>, labels: set<string>): Result<set<string>, SecurityError> {
    if labels <= universe then Ok(labels) else Err(ValidationError)
  }

  // ---------------------------------------------------------------- in-memory decision

  function DocumentVisible(model: SecurityModel, document: Labels, subject: Labels): Result<Decision, SecurityError> {
    match model
    case NoModel => Ok(Decision(true, "security_model_none"))
    case ClearanceModel(levels) =>
      if document.clearance.None? then Ok(Decision(false, "document_clearance_missing"))
      else if subject.clearance.None? then Ok(Decision(false, "subject_clearance_missing"))
      else
        var d := LevelOf(levels, document.clearance.value);
        if d.Err? then Err(d.error) else
        var s := LevelOf(levels, subject.clearance.value);
        if s.Err? then Err(s.error) else
        Ok(Decision(s.value >= d.value, if s.value >= d.value then "clearance_allowed" else "clearance_denied"))
    case LabelsModel(universe) =>
      var d := ValidateLabels(universe, document.classification);
      if d.Err? then Err(d.error) else
      var s := ValidateLabels(universe, subject.classification);
      if s.Err? then Err(s.error) else
      Ok(Decision(d.value <= s.value,
                  if d.value <= s.value then "classification_labels_allowed" else "classification_labels_denied"))
  }

  predicate Sees(model: SecurityModel, document: Labels, subject: Labels) {
    var r := DocumentVisible(model, document, subject);
    r.Ok? && r.value.allowed
  }

  function AclVisible(document: set<string>, subject: set<string>): Decision {
    if document == {} then Decision(true, "acl_public")
    else if document * subject != {} then Decision(true, "acl_allowed")
    else Decision(false, "acl_denied")
  }

  // ---------------------------------------------------- requirement of a whole context

  /** Documents whose metadata the fold over the context can read. */
  predicate Readable(model: SecurityModel, document: Labels) {
    match model
    case NoModel => true
    case ClearanceModel(levels) => document.clearance.Some? && document.clearance.value in levels
    case LabelsModel(universe) => document.classification <= universe
  }

  /** What the requirement of a context means: the clearance of one of its documents that no
      document exceeds, or the least label set that contains every document's labels. */
  ghost predicate Summarises(model: SecurityModel, documents: seq<Labels>, q: Requirement) {
    match model
    case NoModel => q == RequireNothing
    case ClearanceModel(levels) =>
      && q.RequireClearance?
      && (q.level.None? <==> documents == [])
      && (q.level.Some? ==>
            && q.level.value in levels
            && (exists d :: d in documents && d.clearance == q.level)
            && forall d | d in documents ::
                 d.clearance.Some? && d.clearance.value in levels && levels[d.clearance.value] <= levels[q.level.value])
    case LabelsModel(universe) =>
      && q.RequireLabels?
      && q.labels <= universe
      && (forall l :: l in q.labels <==> exists d :: d in documents && l in d.classification)
  }

  predicate Fits(model: SecurityModel, q: Requirement) {
    match model
    case NoModel => true
    case ClearanceModel(_) => q.RequireClearance?
    case LabelsModel(_) => q.RequireLabels?
  }

  /** The fold over a context, last document last; it raises on the first unreadable one. */
  function RequirementOf(model: SecurityModel, documents: seq<Labels>): (r: Result<Requirement, SecurityError>)
    ensures r.Ok? ==> Fits(model, r.value)
  {
    if documents == [] then
      Ok(match model case NoModel => RequireNothing case ClearanceModel(_) => RequireClearance(None) case LabelsModel(_) => RequireLabels({}))
    else
      var before := RequirementOf(model, documents[..|documents| - 1]);
      var last := documents[|documents| - 1];
      if before.Err? then before
      else if !Readable(model, last) then Err(ValidationError)
      else match model
        case NoModel => before
        case ClearanceModel(levels) =>
          if before.value.RequireClearance? && before.value.level.Some? && before.value.level.value in levels
             && levels[last.clearance.value] <= levels[before.value.level.value]
          then before else Ok(RequireClearance(last.clearance))
        case LabelsModel(universe) =>
          Ok(RequireLabels((if before.value.RequireLabels? then before.value.labels else {}) + last.classification))
  }

  lemma {:induction false} RequirementSummarises(model: SecurityModel, documents: seq<Labels>)
    ensures var r := RequirementOf(model, documents);
            && (r.Ok? <==> forall d | d in documents :: Readable(model, d))
            && (r.Ok? ==> Summarises(model, documents, r.value))
            && (r.Err? ==> r.error == ValidationError)
  {
    if documents != [] {
      var before, last := documents[..|documents| - 1], documents[|documents| - 1];
      RequirementSummarises(model, before);
      assert documents == before + [last];
      assert last in documents;
      var r := RequirementOf(model, documents);
      if r.Ok? {
        match model
        case NoModel =>
        case ClearanceModel(levels) =>
          assert forall d | d in before :: d in documents;
        case LabelsModel(universe) =>
          var labels := r.value.labels;
          forall l ensures l in labels <==> exists d :: d in documents && l in d.classification {
            if l in labels && l !in last.classification {
              var d :| d in before && l in d.classification;
              assert d in documents;
            }
          }
      }
    }
  }

  method ContextSecurityRequirement(model: SecurityModel, documents: seq<Labels>)
    returns (r: Result<Requirement, SecurityError>)
    ensures r == RequirementOf(model, documents)
  {
    RequirementSummarises(model, documents);
    match model
    case NoModel => r := Ok(RequireNothing); NothingRequired(documents);
    case ClearanceModel(levels) =>
      var highestLabel: Option<string> := None;
      var highestValue: int := -1;
      for i := 0 to |documents|
        invariant RequirementOf(model, documents[..i]) == Ok(RequireClearance(highestLabel))
        invariant if highestLabel.None? then highestValue == -1
                  else highestLabel.value in levels && highestValue == levels[highestLabel.value]
      {
        assert documents[..i + 1][..i] == documents[..i];
        var level := documents[i].clearance;
        if level.None? {
          assert documents[i] in documents && !Readable(model, documents[i]);
          return Err(ValidationError);
        }
        var value := LevelOf(levels, level.value);
        if value.Err? {
          assert documents[i] in documents && !Readable(model, documents[i]);
          return Err(ValidationError);
        }
        if value.value > highestValue {
          highestLabel, highestValue := level, value.value;
        }
      }
      assert documents[..|documents|] == documents;
      r := Ok(RequireClearance(highestLabel));
    case LabelsModel(universe) =>
      var required: set<string> := {};
      for i := 0 to |documents|
        invariant RequirementOf(model, documents[..i]) == Ok(RequireLabels(required))
      {
        assert documents[..i + 1][..i] == documents[..i];
        var labels := ValidateLabels(universe, documents[i].classification);
        if labels.Err? {
          assert documents[i] in documents && !Readable(model, documents[i]);
          return Err(ValidationError);
        }
        required := required + labels.value;
      }
      assert documents[..|documents|] == documents;
      r := Ok(RequireLabels(required));
  }

  lemma {:induction false} NothingRequired(documents: seq<Labels>)
    ensures RequirementOf(NoModel, documents) == Ok(RequireNothing)
  {
    if documents != [] { NothingRequired(documents[..|documents| - 1]); }
  }

  predicate SameKind(model: SecurityModel, profile: ServerProfile) {
    match model
    case NoModel => profile.ProfileNone?
    case ClearanceModel(_) => profile.ProfileClearance?
    case LabelsModel(_) => profile.ProfileLabels?
  }

  function Satisfies(model: SecurityModel, profile: ServerProfile, q: Requirement): Result<Decision, SecurityError>
    requires Fits(model, q)
  {
    if !SameKind(model, profile) then Ok(Decision(false, "model_server_security_model_mismatch"))
    else match model
      case NoModel => Ok(Decision(true, "model_server_allowed"))
      case ClearanceModel(levels) =>
        if q.level.None? then Ok(Decision(true, "model_server_allowed_empty_context"))
        else
          var s := LevelOf(levels, profile.level);
          if s.Err? then Err(s.error) else
          var needed := LevelOf(levels, q.level.value);
          if needed.Err? then Err(needed.error) else
          Ok(Decision(s.value >= needed.value,
                      if s.value >= needed.value then "model_server_allowed" else "model_server_clearance_too_low"))
      case LabelsModel(universe) =>
        var s := ValidateLabels(universe, profile.labels);
        if s.Err? then Err(s.error) else
        var needed := ValidateLabels(universe, q.labels);
        if needed.Err? then Err(needed.error) else
        Ok(Decision(needed.value <= s.value,
                    if needed.value <= s.value then "model_server_allowed" else "model_server_labels_missing"))
  }

  /** A model server looked at as a reader of documents. */
  function AsSubject(profile: ServerProfile): Labels {
    match profile
    case ProfileNone => Labels(None, {})
    case ProfileClearance(level) => Labels(Some(level), {})
    case ProfileLabels(labels) => Labels(None, labels)
  }

  predicate KnownToModel(model: SecurityModel, profile: ServerProfile) {
    match (model, profile)
    case (ClearanceModel(levels), ProfileClearance(level)) => level in levels
    case (LabelsModel(universe), ProfileLabels(labels)) => labels <= universe
    case _ => true
  }

  /** Checking a summary is checking every document that it summarises. */
  lemma SummaryIsPointwise(model: SecurityModel, documents: seq<Labels>, profile: ServerProfile, q: Requirement)
    requires Summarises(model, documents, q) && forall d | d in documents :: Readable(model, d)
    ensures var s := Satisfies(model, profile, q);
            s.Ok? && s.value.allowed <==>
            && SameKind(model, profile)
            && (model.LabelsModel? ==> KnownToModel(model, profile))
            && (forall d | d in documents :: Sees(model, d, AsSubject(profile)))
  {
  }

  /** Checking the folded requirement once is the same as checking every document: a server
      passes exactly when it is of the model's kind and, read as a subject, sees each one. */
  lemma FoldIsPointwise(model: SecurityModel, documents: seq<Labels>, profile: ServerProfile)
    requires RequirementOf(model, documents).Ok?
    ensures var s := Satisfies(model, profile, RequirementOf(model, documents).value);
            s.Ok? && s.value.allowed <==>
            && SameKind(model, profile)
            && (model.LabelsModel? ==> KnownToModel(model, profile))
            && (forall d | d in documents :: Sees(model, d, AsSubject(profile)))
  {
    hide RequirementOf;
    RequirementSummarises(model, documents);
    SummaryIsPointwise(model, documents, profile, RequirementOf(model, documents).value);
  }

  /** Exactly when the single check raises instead of deciding: the server carries a label the
      model does not know and the check gets as far as looking it up. */
  lemma SatisfiesRaises(model: SecurityModel, documents: seq<Labels>, profile: ServerProfile)
    requires RequirementOf(model, documents).Ok?
    ensures Satisfies(model, profile, RequirementOf(model, documents).value).Err? <==>
            && SameKind(model, profile)
            && !KnownToModel(model, profile)
            && (model.ClearanceModel? ==> documents != [])
  {
    hide RequirementOf;
    RequirementSummarises(model, documents);
  }

  // ------------------------------------------------------------- stored chunks and filters

  datatype Chunk = Chunk(tenant: string, domain: string, acl: set<string>, security: Labels)

  datatype DomainProfile = DomainProfile(name: string, tenant: string, allowedAcl: set<string>, model: SecurityModel)

  datatype Request = Request(tenant: string, domain: string, acl: set<string>, model: SecurityModel, subject: Labels)

  /** Document security that ingestion accepts for a model. */
  predicate IngestibleSecurity(model: SecurityModel, security: Labels) {
    match model
    case NoModel => security.clearance.None? && security.classification == {}
    case ClearanceModel(levels) =>
      security.clearance.Some? && security.clearance.value in levels && security.classification == {}
    case LabelsModel(universe) => security.classification <= universe && security.clearance.None?
  }

  method VerifyIngestionBoundary(profile: DomainProfile, tenant: string, domain: string, chunks: seq<Chunk>)
    returns (r: Result<(), SecurityError>)
    ensures r.Ok? <==>
      && tenant == profile.tenant && domain == profile.name
      && forall c | c in chunks :: c.acl <= profile.allowedAcl && IngestibleSecurity(profile.model, c.security)
    ensures r.Err? ==> r.error == PolicyViolation
  {
    if domain != profile.name || tenant != profile.tenant { return Err(PolicyViolation); }
    for i := 0 to |chunks|
      invariant forall c | c in chunks[..i] :: c.acl <= profile.allowedAcl && IngestibleSecurity(profile.model, c.security)
    {
      assert chunks[..i + 1] == chunks[..i] + [chunks[i]];
      assert chunks[i] in chunks;
      if chunks[i].acl != {} && !(chunks[i].acl <= profile.allowedAcl) { return Err(PolicyViolation); }
      if !IngestibleSecurity(profile.model, chunks[i].security) { return Err(PolicyViolation); }
    }
    assert chunks[..|chunks|] == chunks;
    r := Ok(());
  }

  function AllowedDocumentLabels(levels: map<string, nat>, subject: string): Result<set<string>, SecurityError> {
    var s := LevelOf(levels, subject);
    if s.Err? then Err(s.error) else Ok(set l | l in levels && levels[l] <= s.value)
  }

  /** The PostgreSQL security clause, evaluated on one row. */
  function SqlSecurityClause(q: Request, row: Chunk): Result<bool, SecurityError> {
    match q.model
    case NoModel => Ok(true)
    case ClearanceModel(levels) =>
      if q.subject.clearance.None? then Ok(false)
      else
        var labels := AllowedDocumentLabels(levels, q.subject.clearance.value);
        if labels.Err? then Err(labels.error)
        else Ok(row.security.clearance.Some? && row.security.clearance.value in labels.value)
    case LabelsModel(universe) =>
      var labels := ValidateLabels(universe, q.subject.classification);
      if labels.Err? then Err(labels.error) else Ok(row.security.classification <= labels.value)
  }

  /** When building the clause raises; no row is involved. */
  predicate ClauseRaises(q: Request) {
    match q.model
    case NoModel => false
    case ClearanceModel(levels) => q.subject.clearance.Some? && q.subject.clearance.value !in levels
    case LabelsModel(universe) => !(q.subject.classification <= universe)
  }

  lemma ClauseRaisesForEveryRow(q: Request, row: Chunk)
    ensures SqlSecurityClause(q, row).Err? <==> ClauseRaises(q)
  {
  }

  function SqlFilter(q: Request, row: Chunk): Result<bool, SecurityError> {
    var clause := SqlSecurityClause(q, row);
    if clause.Err? then clause
    else Ok(row.tenant == q.tenant && row.domain == q.domain && (row.acl == {} || row.acl * q.acl != {}) && clause.value)
  }

  const NEVER := "__never__"

  /** The Weaviate security filter: label sets are checked in negative form. */
  function VectorSecurityFilter(q: Request, entry: Chunk): Result<bool, SecurityError> {
    match q.model
    case NoModel => Ok(entry.domain == q.domain)
    case ClearanceModel(levels) =>
      if q.subject.clearance.None? then Ok(entry.domain == NEVER)
      else
        var labels := AllowedDocumentLabels(levels, q.subject.clearance.value);
        if labels.Err? then Err(labels.error)
        else Ok(entry.security.clearance.Some? && entry.security.clearance.value in labels.value)
    case LabelsModel(universe) =>
      var labels := ValidateLabels(universe, q.subject.classification);
      if labels.Err? then Err(labels.error)
      else
        var forbidden := universe - labels.value;
        if forbidden == {} then Ok(entry.domain == q.domain)
        else Ok(entry.security.classification * forbidden == {})
  }

  function VectorFilter(q: Request, entry: Chunk): Result<bool, SecurityError> {
    var clause := VectorSecurityFilter(q, entry);
    if clause.Err? then clause
    else
      var aclPublic := entry.acl == {};
      Ok(&& entry.domain == q.domain
         && entry.tenant == q.tenant
         && clause.value
         && (aclPublic || (q.acl != {} && entry.acl * q.acl != {})))
  }

  /** The check repeated in memory on everything a retrieval provider returned. */
  function MemoryFilter(q: Request, chunk: Chunk): Result<bool, SecurityError> {
    var visible := DocumentVisible(q.model, chunk.security, q.subject);
    if visible.Err? then Err(visible.error)
    else Ok(&& chunk.domain == q.domain
            && chunk.tenant == q.tenant
            && AclVisible(chunk.acl, q.acl).allowed
            && visible.value.allowed)
  }

  /** In the request's scope, and open to its access labels. */
  predicate InScope(q: Request, chunk: Chunk) {
    chunk.domain == q.domain && chunk.tenant == q.tenant && AclVisible(chunk.acl, q.acl).allowed
  }

  /** A domain named like the vector filter's impossible value, asked without a clearance. */
  predicate NeverDomain(q: Request, chunk: Chunk) {
    q.domain == NEVER && q.model.ClearanceModel? && q.subject.clearance.None? && InScope(q, chunk)
  }

  /** A chunk whose labels inside the universe the subject has, and that has others outside. */
  predicate Slips(q: Request, chunk: Chunk) {
    && q.model.LabelsModel? && q.subject.classification <= q.model.universe && InScope(q, chunk)
    && chunk.security.classification * q.model.universe <= q.subject.classification
    && !(chunk.security.classification <= q.model.universe)
  }

  /** The negated form: no label that the model knows and the subject lacks. */
  lemma NoneForbidden(labels: set<string>, universe: set<string>, own: set<string>)
    ensures labels * (universe - own) == {} <==> labels * universe <= own
  {
    if l :| l in labels * universe && l !in own {
      assert l in labels * (universe - own);
    } else {
      forall l ensures l !in labels * (universe - own) {
        assert l in labels * universe ==> l in own;
      }
    }
  }

  /** For every request and chunk, ingested or not: the vector filter differs from the SQL filter
      exactly on these two, and there it lets the chunk through. */
  lemma VectorAgreesExactly(q: Request, chunk: Chunk)
    ensures VectorFilter(q, chunk) == SqlFilter(q, chunk) <==> !NeverDomain(q, chunk) && !Slips(q, chunk)
    ensures NeverDomain(q, chunk) || Slips(q, chunk) ==> VectorFilter(q, chunk) == Ok(true) && SqlFilter(q, chunk) == Ok(false)
  {
    if q.model.LabelsModel? && q.subject.classification <= q.model.universe {
      var labels := chunk.security.classification;
      NoneForbidden(labels, q.model.universe, q.subject.classification);
      if labels <= q.subject.classification {
        assert labels <= q.model.universe;
      } else if labels <= q.model.universe {
        assert labels * q.model.universe == labels;
      }
    }
  }

  /** Metadata that the in-memory check cannot compare although the SQL filter answers, or the other
      way round. */
  predicate Incomparable(q: Request, chunk: Chunk) {
    match q.model
    case NoModel => false
    case ClearanceModel(levels) =>
      && q.subject.clearance.Some?
      && if q.subject.clearance.value in levels
         then chunk.security.clearance.Some? && chunk.security.clearance.value !in levels
         else chunk.security.clearance.None?
    case LabelsModel(universe) => q.subject.classification <= universe && !(chunk.security.classification <= universe)
  }

  /** The in-memory check differs from the SQL filter exactly where one of them raises alone. */
  lemma MemoryAgreesExactly(q: Request, chunk: Chunk)
    ensures MemoryFilter(q, chunk) == SqlFilter(q, chunk) <==> !Incomparable(q, chunk)
    ensures Incomparable(q, chunk) ==> (MemoryFilter(q, chunk).Err? <==> SqlFilter(q, chunk) == Ok(false))
  {
  }

  /** On chunks that ingestion accepts, the three forms give the same answer, raised errors
      included, except for a domain that is itself called `__never__`. */
  lemma EncodingsAgree(q: Request, chunk: Chunk)
    requires IngestibleSecurity(q.model, chunk.security)
    ensures SqlFilter(q, chunk) == MemoryFilter(q, chunk)
    ensures VectorFilter(q, chunk) == MemoryFilter(q, chunk) <==> !NeverDomain(q, chunk)
  {
    VectorAgreesExactly(q, chunk);
    MemoryAgreesExactly(q, chunk);
  }

  /** Concretely: a chunk labelled outside the universe slips through the negated filter alone. */
  lemma UnknownLabelPassesNegativeForm()
    ensures var q := Request("t", "d", {}, LabelsModel({"a", "b"}), Labels(None, {"a"}));
            var chunk := Chunk("t", "d", {}, Labels(None, {"z"}));
            && VectorFilter(q, chunk) == Ok(true) && SqlFilter(q, chunk) == Ok(false) && MemoryFilter(q, chunk).Err?
  {
    var q := Request("t", "d", {}, LabelsModel({"a", "b"}), Labels(None, {"a"}));
    var chunk := Chunk("t", "d", {}, Labels(None, {"z"}));
    assert "z" !in {"a", "b"} && "z" in chunk.security.classification;
    assert Slips(q, chunk);
    VectorAgreesExactly(q, chunk);
  }

  /** Concretely: in a domain called `__never__` the vector filter shows a chunk to a subject without
      a clearance. */
  lemma NeverDomainShowsEverything()
    ensures var q := Request("t", NEVER, {}, ClearanceModel(map["secret" := 1]), Labels(None, {}));
            var chunk := Chunk("t", NEVER, {}, Labels(Some("secret"), {}));
            IngestibleSecurity(q.model, chunk.security) && VectorFilter(q, chunk) == Ok(true) && SqlFilter(q, chunk) == Ok(false)
  {
  }

  /** What the boundary check raises for a hit that fails it. */
  function BoundaryError(q: Request, hit: Chunk): SecurityError {
    if hit.domain != q.domain || hit.tenant != q.tenant || !AclVisible(hit.acl, q.acl).allowed then PolicyViolation
    else
      var visible := DocumentVisible(q.model, hit.security, q.subject);
      if visible.Err? then visible.error else PolicyViolation
  }

  /** Checks hit by hit and raises for the first that fails. */
  method VerifyRetrievalBoundary(q: Request, hits: seq<Chunk>) returns (r: Result<(), SecurityError>)
    ensures r.Ok? <==> forall h | h in hits :: MemoryFilter(q, h) == Ok(true)
    ensures r.Err? ==> exists i :: 0 <= i < |hits| && (forall h | h in hits[..i] :: MemoryFilter(q, h) == Ok(true))
                                   && MemoryFilter(q, hits[i]) != Ok(true) && r.error == BoundaryError(q, hits[i])
  {
    for i := 0 to |hits|
      invariant forall h | h in hits[..i] :: MemoryFilter(q, h) == Ok(true)
    {
      assert hits[..i + 1] == hits[..i] + [hits[i]];
      assert hits[i] in hits;
      if hits[i].domain != q.domain || hits[i].tenant != q.tenant { return Err(PolicyViolation); }
      if hits[i].acl != {} && hits[i].acl * q.acl == {} { return Err(PolicyViolation); }
      var decision := DocumentVisible(q.model, hits[i].security, q.subject);
      if decision.Err? { return Err(decision.error); }
      if !decision.value.allowed { return Err(PolicyViolation); }
    }
    assert hits[..|hits|] == hits;
    r := Ok(());
  }

  // ----------------------------------------------------------- transmission of a context

  datatype TrustBoundary = Internal | External

  datatype Server = Server(id: string, boundary: TrustBoundary, profile: ServerProfile, reroute: Option<string>)

  datatype TransmissionError = UnknownServer(id: string) | RequirementFailed | CheckFailed

  /** The diagnostic, and the server whose gateway becomes the context's model. */
  datatype Transmission = Transmission(
    allowed: bool, reason: string, selected: string, final: Option<string>, rerouted: bool, receiver: Option<Server>)

  function ServerDecision(
    model: SecurityModel, server: Server, q: Requirement, externalAllowed: bool, subjectMayUseExternal: bool)
    : Result<Decision, SecurityError>
    requires Fits(model, q)
  {
    if server.boundary.External? && !externalAllowed then
      Ok(Decision(false, "external_transmission_forbidden_by_pipeline"))
    else if server.boundary.External? && !subjectMayUseExternal then
      Ok(Decision(false, "external_model_not_allowed_for_subject"))
    else Satisfies(model, server.profile, q)
  }

  /** The server may receive every one of these documents. */
  predicate MayReceive(model: SecurityModel, server: Server, documents: seq<Labels>, externalAllowed: bool,
        subjectMayUseExternal: bool) {
    && (server.boundary.External? ==> externalAllowed && subjectMayUseExternal)
    && SameKind(model, server.profile)
    && (model.LabelsModel? ==> KnownToModel(model, server.profile))
    && forall d | d in documents :: Sees(model, d, AsSubject(server.profile))
  }

  lemma DecisionMeansMayReceive(
    model: SecurityModel, documents: seq<Labels>, server: Server, q: Requirement, externalAllowed: bool,
          subjectMayUseExternal: bool)
    requires Summarises(model, documents, q)
    requires forall d | d in documents :: Readable(model, d)
    ensures var d := ServerDecision(model, server, q, externalAllowed, subjectMayUseExternal);
            d.Ok? && d.value.allowed <==> MayReceive(model, server, documents, externalAllowed, subjectMayUseExternal)
  {
    SummaryIsPointwise(model, documents, server.profile, q);
  }

  /** Which server, if any, a context goes to: the selected one, else the one it reroutes to,
      and never a third. */
  ghost predicate Routed(
    model: SecurityModel, servers: map<string, Server>, selectedId: string, documents: seq<Labels>,
    externalAllowed: bool, subjectMayUseExternal: bool, t: Transmission)
  {
    && selectedId in servers
    && var selected := servers[selectedId];
    && t.selected == selected.id
    && if MayReceive(model, selected, documents, externalAllowed, subjectMayUseExternal) then
         t == Transmission(true, "model_server_allowed", selected.id, Some(selected.id), false, Some(selected))
       else if selected.reroute.None? then
         !t.allowed && t.final.None? && !t.rerouted && t.receiver.None?
       else
         && selected.reroute.value in servers
         && var reroute := servers[selected.reroute.value];
         && t.final == Some(reroute.id) && t.rerouted
         && t.allowed == MayReceive(model, reroute, documents, externalAllowed, subjectMayUseExternal)
         && (if t.allowed then t.reason == "model_server_security_rerouted" && t.receiver == Some(reroute)
             else t.receiver.None?)
  }

  function TransmissionDecision(
    model: SecurityModel, servers: map<string, Server>, selectedId: string, documents: seq<Labels>,
    externalAllowed: bool, subjectMayUseExternal: bool)
    : Result<Transmission, TransmissionError>
  {
    RequirementSummarises(model, documents);
    var requirement := RequirementOf(model, documents);
    if requirement.Err? then Err(RequirementFailed)
    else if selectedId !in servers then Err(UnknownServer(selectedId))
    else
      var selected := servers[selectedId];
      var first := ServerDecision(model, selected, requirement.value, externalAllowed, subjectMayUseExternal);
      if first.Err? then Err(CheckFailed)
      else if first.value.allowed then
        Ok(Transmission(true, "model_server_allowed", selected.id, Some(selected.id), false, Some(selected)))
      else if selected.reroute.None? then
        Ok(Transmission(false, first.value.reason, selected.id, None, false, None))
      else if selected.reroute.value !in servers then Err(UnknownServer(selected.reroute.value))
      else
        var reroute := servers[selected.reroute.value];
        var second := ServerDecision(model, reroute, requirement.value, externalAllowed, subjectMayUseExternal);
        if second.Err? then Err(CheckFailed)
        else if !second.value.allowed then
          Ok(Transmission(false, second.value.reason, selected.id, Some(reroute.id), true, None))
        else
          Ok(Transmission(true, "model_server_security_rerouted", selected.id, Some(reroute.id), true, Some(reroute)))
  }

  lemma TransmissionIsRouted(
    model: SecurityModel, servers: map<string, Server>, selectedId: string, documents: seq<Labels>,
    externalAllowed: bool, subjectMayUseExternal: bool)
    ensures var r := TransmissionDecision(model, servers, selectedId, documents, externalAllowed, subjectMayUseExternal);
            && (r.Ok? ==> Routed(model, servers, selectedId, documents, externalAllowed, subjectMayUseExternal, r.value))
            && (r == Err(RequirementFailed) <==> exists d :: d in documents && !Readable(model, d))
  {
    hide MayReceive;
    hide ServerDecision;
    RequirementSummarises(model, documents);
    var requirement := RequirementOf(model, documents);
    if requirement.Ok? && selectedId in servers {
      var selected := servers[selectedId];
      DecisionMeansMayReceive(model, documents, selected, requirement.value, externalAllowed, subjectMayUseExternal);
      if selected.reroute.Some? && selected.reroute.value in servers {
        DecisionMeansMayReceive(model, documents, servers[selected.reroute.value], requirement.value, externalAllowed,
              subjectMayUseExternal);
      }
    }
  }

  /** The check of one server raises: it gets as far as a label that the model does not know. */
  predicate CheckRaises(model: SecurityModel, server: Server, documents: seq<Labels>, externalAllowed: bool,
        subjectMayUseExternal: bool) {
    && (server.boundary.External? ==> externalAllowed && subjectMayUseExternal)
    && SameKind(model, server.profile) && !KnownToModel(model, server.profile)
    && (model.ClearanceModel? ==> documents != [])
  }

  /** Exactly when the policy raises instead of deciding. */
  lemma TransmissionRaises(
    model: SecurityModel, servers: map<string, Server>, selectedId: string, documents: seq<Labels>,
    externalAllowed: bool, subjectMayUseExternal: bool)
    ensures TransmissionDecision(model, servers, selectedId, documents, externalAllowed, subjectMayUseExternal).Err? <==>
              || (exists d :: d in documents && !Readable(model, d))
              || selectedId !in servers
              || CheckRaises(model, servers[selectedId], documents, externalAllowed, subjectMayUseExternal)
              || (&& !MayReceive(model, servers[selectedId], documents, externalAllowed, subjectMayUseExternal)
                  && servers[selectedId].reroute.Some?
                  && (|| servers[selectedId].reroute.value !in servers
                      || CheckRaises(model, servers[servers[selectedId].reroute.value], documents, externalAllowed,
                            subjectMayUseExternal)))
  {
    hide RequirementOf;
    hide Summarises;
    hide MayReceive;
    hide CheckRaises;
    RequirementSummarises(model, documents);
    if RequirementOf(model, documents).Ok? && selectedId in servers {
      OneCheck(model, servers[selectedId], documents, externalAllowed, subjectMayUseExternal);
      var reroute := servers[selectedId].reroute;
      if reroute.Some? && reroute.value in servers {
        OneCheck(model, servers[reroute.value], documents, externalAllowed, subjectMayUseExternal);
      }
    }
  }

  lemma OneCheck(model: SecurityModel, server: Server, documents: seq<Labels>, externalAllowed: bool,
        subjectMayUseExternal: bool)
    requires RequirementOf(model, documents).Ok?
    ensures var d := ServerDecision(model, server, RequirementOf(model, documents).value, externalAllowed,
          subjectMayUseExternal);
            && (d.Err? <==> CheckRaises(model, server, documents, externalAllowed, subjectMayUseExternal))
            && (d.Ok? && d.value.allowed <==> MayReceive(model, server, documents, externalAllowed, subjectMayUseExternal))
  {
    hide RequirementOf;
    RequirementSummarises(model, documents);
    SatisfiesRaises(model, documents, server.profile);
    DecisionMeansMayReceive(model, documents, server, RequirementOf(model, documents).value, externalAllowed,
          subjectMayUseExternal);
  }

  /** Why a server that does not get a context does not get it. */
  function RefusalReason(model: SecurityModel, server: Server, externalAllowed: bool, subjectMayUseExternal: bool): string {
    if server.boundary.External? && !externalAllowed then "external_transmission_forbidden_by_pipeline"
    else if server.boundary.External? && !subjectMayUseExternal then "external_model_not_allowed_for_subject"
    else if !SameKind(model, server.profile) then "model_server_security_model_mismatch"
    else if model.ClearanceModel? then "model_server_clearance_too_low"
    else "model_server_labels_missing"
  }

  lemma RefusalSaysWhy(model: SecurityModel, server: Server, q: Requirement, externalAllowed: bool, subjectMayUseExternal: bool)
    requires Fits(model, q)
    ensures var d := ServerDecision(model, server, q, externalAllowed, subjectMayUseExternal);
            d.Ok? && !d.value.allowed ==> d.value.reason == RefusalReason(model, server, externalAllowed, subjectMayUseExternal)
  {
  }

  /** A refusal names its reason: that of the server looked at last. */
  lemma DenialSaysWhy(
    model: SecurityModel, servers: map<string, Server>, selectedId: string, documents: seq<Labels>,
    externalAllowed: bool, subjectMayUseExternal: bool)
    ensures var r := TransmissionDecision(model, servers, selectedId, documents, externalAllowed, subjectMayUseExternal);
            r.Ok? && !r.value.allowed ==>
              && selectedId in servers
              && (servers[selectedId].reroute.Some? ==> servers[selectedId].reroute.value in servers)
              && var last := if servers[selectedId].reroute.Some? then servers[servers[selectedId].reroute.value]
                             else servers[selectedId];
              r.value.reason == RefusalReason(model, last, externalAllowed, subjectMayUseExternal)
  {
    hide RefusalReason;
    hide ServerDecision;
    var requirement := RequirementOf(model, documents);
    if requirement.Ok? && selectedId in servers {
      RefusalSaysWhy(model, servers[selectedId], requirement.value, externalAllowed, subjectMayUseExternal);
      var reroute := servers[selectedId].reroute;
      if reroute.Some? && reroute.value in servers {
        RefusalSaysWhy(model, servers[reroute.value], requirement.value, externalAllowed, subjectMayUseExternal);
      }
    }
    hide RequirementOf;
  }
}
