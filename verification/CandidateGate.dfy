/**
 The candidate gate: `CandidatePolicyService`, the review endpoint and the handler that
 makes candidates from messages.  Each operation is one transaction; a row's id is its
 index; evidence and policy results are kept with their candidate, oldest first.
 */
module CandidateGate {
  import opened Prelude

  datatype Level = L1 | L2 | L3

  datatype Scope = ProjectScope | GlobalScope

  datatype Status = Generated | Validating | NeedsReview | Approved | Published | Rejected | Superseded

  /** The `text` of a candidate's content, and the rest of it. */
  datatype Content = Content(text: string, rest: string)

  /** An L0 message. */
  datatype Message = Message(project: nat, content: string, hash: string)

  datatype Evidence = Evidence(message: nat, start: int, end: int, quoted: string, hash: string)

  datatype Range = Range(message: nat, start: int, end: int)

  datatype Base = Base(
    schemaValid: bool, evidenceValid: bool, scopeValid: bool, projectAccess: bool, conflictFree: bool, featureEnabled: bool)
  {
    predicate AllPass() {
      schemaValid && evidenceValid && scopeValid && projectAccess && conflictFree && featureEnabled
    }
  }

  /** The named checks recorded with a policy result. */
  datatype Checks =
    | BaseChecks(base: Base)
    | ReleaseChecks(base: Base, levelAllowed: bool, scopeProject: bool, candidateApproved: bool, policyEnabled: bool,
                    policyStrategy: bool, policyLevel: bool, policyScope: bool, confident: bool, notAbstained: bool,
                    decisionApproved: bool)
    | ModelChecks(base: Base, policyEnabled: bool, policyStrategy: bool, policyLevel: bool, policyScope: bool,
                  levelAllowed: bool, modelLevel: bool, modelScope: bool, modelEvidence: bool, confident: bool,
                  notAbstained: bool, riskFree: bool, modelValidated: bool, publishRequested: bool)
    | Remark
  {
    /** `all(checks.values())`; remarks record only true values. */
    predicate AllPass() {
      match this
      case BaseChecks(_) => base.AllPass()
      case ReleaseChecks(_, _, _, _, _, _, _, _, _, _, _) =>
        && base.AllPass() && levelAllowed && scopeProject && candidateApproved && policyEnabled && policyStrategy
        && policyLevel && policyScope && confident && notAbstained && decisionApproved
      case ModelChecks(_, _, _, _, _, _, _, _, _, _, _, _, _, _) =>
        && base.AllPass() && policyEnabled && policyStrategy && policyLevel && policyScope && levelAllowed && modelLevel
        && modelScope && modelEvidence && confident && notAbstained && riskFree && modelValidated && publishRequested
      case Remark => true
    }
  }

  datatype Ruling = Approves | Publishes | Rejects | Skips | AsksReview | Supersedes

  datatype PolicyResult = PolicyResult(ruling: Ruling, checks: Checks)

  datatype Candidate = Candidate(
    project: nat, source: nat, taskType: string, level: Level, scope: Scope, memoryType: string, content: Content,
    status: Status, confidence: Option<real>, abstain: bool, memory: Option<nat>,
    evidence: seq<Evidence>, results: seq<PolicyResult>)

  /** `candidate`, `automatic` and `result` are where the audit record says it came from. */
  datatype Memory = Memory(
    project: Option<nat>, level: Level, memoryType: string, content: Content, scope: Scope, deprecated: bool,
    candidate: nat, automatic: bool, result: nat)

  datatype Flags = Flags(generation: bool, publishing: bool, decisions: bool)

  datatype Policy = Policy(
    enabled: bool, autoPublish: bool, autoStrategy: bool, level: Level, scope: Scope, minConfidence: real)

  datatype State = State(
    projects: set<nat>, messages: seq<Message>, flags: map<nat, Flags>, policies: map<nat, Policy>,
    candidates: seq<Candidate>, memories: seq<Memory>, accepted: seq<nat>)

  const DEFAULT_POLICY := Policy(false, false, false, L1, ProjectScope, 0.80)

  /** SHA-256, taken to be injective. */
  function Digest(content: string): string {
    content
  }

  // ---------- checks ----------

  predicate IsMessage(s: State, id: nat, project: nat) {
    id < |s.messages| && s.messages[id].project == project
  }

  predicate OccursAt(part: string, text: string, k: nat) {
    k + |part| <= |text| && text[k..k + |part|] == part
  }

  predicate Occurs(part: string, text: string) {
    exists k :: 0 <= k <= |text| && OccursAt(part, text, k)
  }

  /** Python's `content[start:end]` where `start <= end`; empty otherwise. */
  function Slice(text: string, start: int, end: int): string
    requires 0 <= start && end <= |text|
  {
    if start <= end then text[start..end] else ""
  }

  predicate EvidenceHolds(messages: seq<Message>, project: nat, content: Content, e: Evidence) {
    && e.message < |messages|
    && messages[e.message].project == project
    && Digest(messages[e.message].content) == e.hash
    && 0 <= e.start && e.end <= |messages[e.message].content|
    && Slice(messages[e.message].content, e.start, e.end) == e.quoted
    && Occurs(e.quoted, content.text)
  }

  /** `_verify_evidence`. */
  predicate EvidenceVerified(messages: seq<Message>, c: Candidate) {
    |c.evidence| > 0 && forall k :: 0 <= k < |c.evidence| ==> EvidenceHolds(messages, c.project, c.content, c.evidence[k])
  }

  predicate Twins(a: Candidate, b: Candidate) {
    && a.project == b.project && a.level == b.level && a.scope == b.scope
    && a.memoryType == b.memoryType && a.content == b.content
  }

  /** `_has_duplicate_candidate`. */
  predicate DuplicateCandidate(candidates: seq<Candidate>, id: nat)
    requires id < |candidates|
  {
    exists k :: 0 <= k < |candidates| && k != id && Twins(candidates[k], candidates[id])
      && candidates[k].status in {Validating, Approved, Published}
  }

  /** `_has_duplicate_memory`. */
  predicate DuplicateMemory(memories: seq<Memory>, c: Candidate) {
    exists k :: 0 <= k < |memories| && memories[k].project == Some(c.project) && memories[k].scope == ProjectScope
      && memories[k].level == c.level && memories[k].memoryType == c.memoryType && memories[k].content == c.content
  }

  function FlagsOf(s: State, project: nat): Flags {
    if project in s.flags then s.flags[project] else Flags(false, false, false)
  }

  function PolicyOf(s: State, project: nat): Policy {
    if project in s.policies then s.policies[project] else DEFAULT_POLICY
  }

  function Threshold(policy: Policy, override: Option<real>): real {
    if override.Some? then override.value else policy.minConfidence
  }

  predicate Confident(confidence: Option<real>, threshold: real) {
    confidence.Some? && confidence.value >= threshold
  }

  /** `_base_checks`. */
  function BaseOf(s: State, id: nat): Base
    requires id < |s.candidates|
  {
    var c := s.candidates[id];
    Base(true, EvidenceVerified(s.messages, c), true, c.project in s.projects,
         c.memory.None? && !DuplicateCandidate(s.candidates, id), FlagsOf(s, c.project).publishing)
  }

  predicate AutoFeature(s: State, project: nat) {
    FlagsOf(s, project).publishing && FlagsOf(s, project).decisions
  }

  predicate LatestApproves(results: seq<PolicyResult>) {
    |results| > 0 && results[|results| - 1].ruling == Approves && results[|results| - 1].checks.AllPass()
  }

  /** The checks of an automatic `publish`. */
  function ReleaseOf(s: State, id: nat, override: Option<real>): Checks
    requires id < |s.candidates|
  {
    var c := s.candidates[id];
    var policy := PolicyOf(s, c.project);
    ReleaseChecks(
      BaseOf(s, id).(featureEnabled := AutoFeature(s, c.project)),
      c.level == L1, c.scope == ProjectScope, c.status == Approved,
      policy.enabled && policy.autoPublish, policy.autoStrategy, policy.level == L1, policy.scope == ProjectScope,
      Confident(c.confidence, Threshold(policy, override)), !c.abstain, LatestApproves(c.results))
  }

  datatype ModelEvidence = ModelEvidence(message: nat, start: int, end: int, quote: string)

  datatype Action = PublishIt | SkipIt | ReviewIt

  /** The model's answer; `level` and `scope` are what its metadata repeats, if anything. */
  datatype Decision = Decision(
    action: Action, confidence: Option<real>, abstain: bool, level: Option<Level>, scope: Option<Scope>,
    evidence: seq<ModelEvidence>, risk: bool, validationPassed: bool)

  /** `_verify_model_evidence`. */
  predicate ModelEvidenceVerified(s: State, project: nat, evidence: seq<ModelEvidence>) {
    |evidence| > 0 && forall k :: 0 <= k < |evidence| ==>
      var e := evidence[k];
      && IsMessage(s, e.message, project)
      && 0 <= e.start < e.end <= |s.messages[e.message].content|
      && s.messages[e.message].content[e.start..e.end] == e.quote
      && Digest(s.messages[e.message].content) == s.messages[e.message].hash
  }

  /** `_automatic_checks`. */
  function ModelChecksOf(s: State, id: nat, d: Decision, override: Option<real>): Checks
    requires id < |s.candidates|
  {
    var c := s.candidates[id];
    var policy := PolicyOf(s, c.project);
    ModelChecks(
      Base(true, EvidenceVerified(s.messages, c), c.scope == ProjectScope, c.project in s.projects,
           c.memory.None? && !DuplicateMemory(s.memories, c) && !DuplicateCandidate(s.candidates, id),
           AutoFeature(s, c.project)),
      policy.enabled && policy.autoPublish, policy.autoStrategy, policy.level == L1, policy.scope == ProjectScope,
      c.level == L1, d.level == Some(L1) && c.level == L1, d.scope == Some(ProjectScope) && c.scope == ProjectScope,
      ModelEvidenceVerified(s, c.project, d.evidence), Confident(d.confidence, Threshold(policy, override)),
      !d.abstain, !d.risk, d.validationPassed, d.action == PublishIt)
  }

  // ---------- the transactions ----------

  datatype Reply =
    | Missing
    | Invalid
    | EvidenceUnverified
    | Refused
    | Done
    | Skipped
    | Queued(event: nat)
    | Released(memory: nat)
    | Created(candidate: nat)

  function SetCandidate(s: State, id: nat, c: Candidate): State
    requires id < |s.candidates|
  {
    s.(candidates := s.candidates[id := c])
  }

  function Ruled(c: Candidate, status: Status, ruling: Ruling, checks: Checks): Candidate {
    c.(status := status, results := c.results + [PolicyResult(ruling, checks)])
  }

  /** One evidence row per range, or None where a range is not a stretch of a message of the project. */
  function Quote(s: State, project: nat, ranges: seq<Range>): Option<seq<Evidence>> {
    if |ranges| == 0 then Some([])
    else
      var r := ranges[|ranges| - 1];
      match Quote(s, project, ranges[..|ranges| - 1])
      case None => None
      case Some(rows) =>
        if !IsMessage(s, r.message, project) || r.start < 0 || r.end <= r.start || r.end > |s.messages[r.message].content| then None
        else
          var m := s.messages[r.message];
          Some(rows + [Evidence(r.message, r.start, r.end, m.content[r.start..r.end], m.hash)])
  }

  datatype Draft = Draft(
    project: nat, source: nat, taskType: string, level: Level, scope: Scope, memoryType: string, content: Content,
    ranges: seq<Range>)

  /** `_create_candidate_in_session`. */
  function Create(s: State, draft: Draft): (State, Reply) {
    if draft.project !in s.projects || !IsMessage(s, draft.source, draft.project) then (s, Invalid)
    else
      match Quote(s, draft.project, draft.ranges)
      case None => (s, Invalid)
      case Some(rows) =>
        var c := Candidate(draft.project, draft.source, draft.taskType, draft.level, draft.scope, draft.memoryType,
                           draft.content, Generated, None, false, None, rows, []);
        (s.(candidates := s.candidates + [c]), Created(|s.candidates|))
  }

  const INGESTION := "message_ingestion"

  predicate Ingested(candidates: seq<Candidate>, project: nat, message: nat) {
    exists k :: 0 <= k < |candidates| && candidates[k].project == project && candidates[k].source == message
      && candidates[k].taskType == INGESTION && candidates[k].status != Rejected
  }

  /** `_handle_candidate_request`: a project without flags first gets them, all off. */
  function Ingest(s: State, project: nat, message: nat): (State, Reply) {
    if !IsMessage(s, message, project) then (s, Missing)
    else if project !in s.flags then (s.(flags := s.flags[project := Flags(false, false, false)]), Refused)
    else if !s.flags[project].generation || Ingested(s.candidates, project, message) then (s, Done)
    else
      var text := s.messages[message].content;
      Create(s, Draft(project, message, INGESTION, L1, ProjectScope, "conversation",
                      Content(text, "message.appended.v1"), [Range(message, 0, |text|)]))
  }

  function Begin(s: State, id: nat): (State, Reply) {
    if id >= |s.candidates| then (s, Missing)
    else if s.candidates[id].status in {Generated, NeedsReview, Validating} then
      (SetCandidate(s, id, s.candidates[id].(status := Validating)), Done)
    else (s, Done)
  }

  function Evaluate(s: State, id: nat): (State, Reply) {
    if id >= |s.candidates| then (s, Missing)
    else
      var c, checks := s.candidates[id], BaseChecks(BaseOf(s, id));
      (SetCandidate(s, id, Ruled(c, c.status, if checks.AllPass() then Publishes else Rejects, checks)), Done)
  }

  function FindAccepted(accepted: seq<nat>, id: nat): (r: Option<nat>)
    ensures r.Some? ==> r.value < |accepted| && accepted[r.value] == id
    ensures r.None? ==> id !in accepted
  {
    if |accepted| == 0 then None
    else if accepted[|accepted| - 1] == id then Some(|accepted| - 1)
    else FindAccepted(accepted[..|accepted| - 1], id)
  }

  /** `_queue_accepted_event`: one event per candidate. */
  function Accept(s: State, id: nat): (State, nat) {
    match FindAccepted(s.accepted, id)
    case Some(k) => (s, k)
    case None => (s.(accepted := s.accepted + [id]), |s.accepted|)
  }

  /** `apply_model_decision`. */
  function ApplyDecision(s: State, id: nat, d: Decision, override: Option<real>): (State, Reply) {
    if id >= |s.candidates| || s.candidates[id].project !in s.projects then (s, Missing)
    else if s.candidates[id].memory.Some? || s.candidates[id].status in {Rejected, Superseded} then (s, Skipped)
    else
      var c := s.candidates[id].(confidence := d.confidence, abstain := d.abstain);
      if d.action == SkipIt then (SetCandidate(s, id, Ruled(c, Rejected, Skips, Remark)), Skipped)
      else if d.action == ReviewIt then (SetCandidate(s, id, Ruled(c, NeedsReview, AsksReview, Remark)), Done)
      else
        var checks := ModelChecksOf(s, id, d, override);
        if !checks.base.conflictFree && (DuplicateMemory(s.memories, c) || DuplicateCandidate(s.candidates, id)) then
          (SetCandidate(s, id, Ruled(c, Superseded, Skips, checks)), Skipped)
        else if !checks.AllPass() then (SetCandidate(s, id, Ruled(c, NeedsReview, AsksReview, checks)), Done)
        else
          var (t, event) := Accept(SetCandidate(s, id, Ruled(c, Approved, Approves, checks)), id);
          (t, Queued(event))
  }

  /** Two evidence rows from one message, which the unique index on memory sources refuses. */
  predicate SharedSource(evidence: seq<Evidence>) {
    exists i, j :: 0 <= i < j < |evidence| && evidence[i].message == evidence[j].message
  }

  /** `publish`; Invalid where the insert of memory sources fails and all is rolled back. */
  function Release(s: State, id: nat, automatic: bool, override: Option<real>): (State, Reply) {
    if id >= |s.candidates| then (s, Missing)
    else if s.candidates[id].memory.Some? && s.candidates[id].memory.value < |s.memories| then
      (s, Released(s.candidates[id].memory.value))
    else
      var c := s.candidates[id];
      var checks := if automatic then ReleaseOf(s, id, override) else BaseChecks(BaseOf(s, id));
      if !checks.AllPass() then
        var status := if automatic && c.status !in {Rejected, Superseded, Published} then NeedsReview else c.status;
        (SetCandidate(s, id, Ruled(c, status, Rejects, checks)),
         if checks.base.evidenceValid then Refused else EvidenceUnverified)
      else if SharedSource(c.evidence) then (s, Invalid)
      else
        var memory := Memory(if c.scope == ProjectScope then Some(c.project) else None, c.level, c.memoryType, c.content,
                             c.scope, false, id, automatic, |c.results|);
        var after := Ruled(c, Published, Publishes, checks).(memory := Some(|s.memories|));
        (SetCandidate(s, id, after).(memories := s.memories + [memory]), Released(|s.memories|))
  }

  /** `mark_model_failure_needs_review`. */
  function MarkFailed(s: State, id: nat): (State, Reply) {
    if id >= |s.candidates| || s.candidates[id].status in {Published, Superseded, Rejected} then (s, Missing)
    else (SetCandidate(s, id, Ruled(s.candidates[id], NeedsReview, AsksReview, Remark)), Done)
  }

  datatype Correction = Discard | Reject | Supersede | Replace(draft: Draft)

  /** `correct`; a replacement's draft carries the original's fields where none are given. */
  function Correct(s: State, id: nat, correction: Correction): (State, Reply) {
    if id >= |s.candidates| || s.candidates[id].project !in s.projects then (s, Missing)
    else if (correction.Discard? || correction.Reject?) && s.candidates[id].memory.Some? then (s, Invalid)
    else
      var (t, reply) := if correction.Replace? then Create(s, correction.draft.(project := s.candidates[id].project)) else (s, Done);
      if reply.Invalid? then (s, Invalid)
      else
        var c := s.candidates[id];
        if correction.Discard? || correction.Reject? then
          (SetCandidate(t, id, Ruled(c, Rejected, Rejects, Remark)), reply)
        else
          var memories :=
            if c.memory.Some? && c.memory.value < |s.memories|
            then s.memories[c.memory.value := s.memories[c.memory.value].(deprecated := true)] else s.memories;
          (SetCandidate(t, id, Ruled(c, Superseded, Supersedes, Remark)).(memories := memories), reply)
  }

  /** `review_admin_candidate`. */
  function Review(s: State, id: nat, approve: bool): (State, Reply) {
    if id >= |s.candidates| || s.candidates[id].project !in s.projects then (s, Missing)
    else
      (SetCandidate(s, id, Ruled(s.candidates[id], if approve then Approved else Rejected,
                                 if approve then Approves else Rejects, Remark)), Done)
  }

  // ---------- steps ----------

  datatype Step =
    | AddProject(project: nat)
    | AddMessage(project: nat, text: string)
    | SetFlags(project: nat, flags: Flags)
    | SetPolicy(project: nat, policy: Policy)
    | IngestStep(project: nat, message: nat)
    | CreateStep(draft: Draft)
    | BeginStep(id: nat)
    | EvaluateStep(id: nat)
    | DecideStep(id: nat, decision: Decision, override: Option<real>)
    | ReleaseStep(id: nat, automatic: bool, override: Option<real>)
    | MarkFailedStep(id: nat)
    | CorrectStep(id: nat, correction: Correction)
    | ReviewStep(id: nat, approve: bool)

  function Apply(s: State, step: Step): State {
    match step
    case AddProject(project) => s.(projects := s.projects + {project})
    case AddMessage(project, text) => s.(messages := s.messages + [Message(project, text, Digest(text))])
    case SetFlags(project, flags) => s.(flags := s.flags[project := flags])
    case SetPolicy(project, policy) => s.(policies := s.policies[project := policy])
    case IngestStep(project, message) => Ingest(s, project, message).0
    case CreateStep(draft) => Create(s, draft).0
    case BeginStep(id) => Begin(s, id).0
    case EvaluateStep(id) => Evaluate(s, id).0
    case DecideStep(id, decision, override) => ApplyDecision(s, id, decision, override).0
    case ReleaseStep(id, automatic, override) => Release(s, id, automatic, override).0
    case MarkFailedStep(id) => MarkFailed(s, id).0
    case CorrectStep(id, correction) => Correct(s, id, correction).0
    case ReviewStep(id, approve) => Review(s, id, approve).0
  }

  // ---------- the tables, updated row by row ----------

  class CandidatePolicyService {
    const projects: set<nat>
    var messages: seq<Message>
    var flags: map<nat, Flags>
    var policies: map<nat, Policy>
    var candidates: seq<Candidate>
    var memories: seq<Memory>
    var accepted: seq<nat>

    ghost function View(): State
      reads this
    {
      State(projects, messages, flags, policies, candidates, memories, accepted)
    }

    constructor (projects: set<nat>)
      ensures View() == State(projects, [], map[], map[], [], [], [])
    {
      this.projects := projects;
      messages, flags, policies, candidates, memories, accepted := [], map[], map[], [], [], [];
    }

    method VerifyEvidence(id: nat) returns (ok: bool)
      requires id < |candidates|
      ensures ok <==> EvidenceVerified(messages, candidates[id])
    {
      var c := candidates[id];
      if |c.evidence| == 0 {
        return false;
      }
      for k := 0 to |c.evidence|
        invariant forall j :: 0 <= j < k ==> EvidenceHolds(messages, c.project, c.content, c.evidence[j])
      {
        var e := c.evidence[k];
        if e.message >= |messages| || messages[e.message].project != c.project {
          return false;
        }
        var text := messages[e.message].content;
        if Digest(text) != e.hash {
          return false;
        }
        if e.start < 0 || e.end > |text| {
          return false;
        }
        if Slice(text, e.start, e.end) != e.quoted {
          return false;
        }
        if !Occurs(e.quoted, c.content.text) {
          return false;
        }
      }
      return true;
    }

    method HasDuplicateCandidate(id: nat) returns (found: bool)
      requires id < |candidates|
      ensures found <==> DuplicateCandidate(candidates, id)
    {
      for k := 0 to |candidates|
        invariant forall j :: 0 <= j < k && j != id && candidates[j].status in {Validating, Approved, Published} ==>
          !Twins(candidates[j], candidates[id])
      {
        if k != id && Twins(candidates[k], candidates[id]) && candidates[k].status in {Validating, Approved, Published} {
          return true;
        }
      }
      return false;
    }

    method CreateCandidate(draft: Draft) returns (reply: Reply)
      modifies this`candidates
      ensures (View(), reply) == Create(old(View()), draft)
    {
      if draft.project !in projects || draft.source >= |messages| || messages[draft.source].project != draft.project {
        return Invalid;
      }
      var rows: seq<Evidence> := [];
      for k := 0 to |draft.ranges|
        invariant View() == old(View())
        invariant Quote(View(), draft.project, draft.ranges[..k]) == Some(rows)
      {
        var r := draft.ranges[k];
        assert draft.ranges[..k + 1][..k] == draft.ranges[..k];
        if r.message >= |messages| || messages[r.message].project != draft.project
          || r.start < 0 || r.end <= r.start || r.end > |messages[r.message].content| {
          QuoteStops(View(), draft.project, draft.ranges, k + 1);
          return Invalid;
        }
        var m := messages[r.message];
        rows := rows + [Evidence(r.message, r.start, r.end, m.content[r.start..r.end], m.hash)];
      }
      assert draft.ranges[..|draft.ranges|] == draft.ranges;
      candidates := candidates + [Candidate(
        draft.project, draft.source, draft.taskType, draft.level, draft.scope, draft.memoryType, draft.content,
        Generated, None, false, None, rows, [])];
      return Created(|candidates| - 1);
    }

    method ApplyModelDecision(id: nat, d: Decision, override: Option<real>) returns (reply: Reply)
      modifies this`candidates, this`accepted
      ensures (View(), reply) == ApplyDecision(old(View()), id, d, override)
    {
      if id >= |candidates| || candidates[id].project !in projects {
        return Missing;
      }
      var c := candidates[id];
      if c.memory.Some? || c.status == Rejected || c.status == Superseded {
        return Skipped;
      }
      c := c.(confidence := d.confidence);
      c := c.(abstain := d.abstain);
      if d.action == SkipIt {
        c := c.(status := Rejected);
        candidates := candidates[id := c.(results := c.results + [PolicyResult(Skips, Remark)])];
        return Skipped;
      }
      if d.action == ReviewIt {
        c := c.(status := NeedsReview);
        candidates := candidates[id := c.(results := c.results + [PolicyResult(AsksReview, Remark)])];
        return Done;
      }
      var checks := ModelChecksOf(State(projects, messages, flags, policies, candidates, memories, accepted), id, d, override);
      var duplicate := HasDuplicateCandidate(id);
      if !checks.base.conflictFree && (DuplicateMemory(memories, c) || duplicate) {
        c := c.(status := Superseded);
        candidates := candidates[id := c.(results := c.results + [PolicyResult(Skips, checks)])];
        return Skipped;
      }
      if !checks.AllPass() {
        c := c.(status := NeedsReview);
        candidates := candidates[id := c.(results := c.results + [PolicyResult(AsksReview, checks)])];
        return Done;
      }
      c := c.(status := Approved);
      candidates := candidates[id := c.(results := c.results + [PolicyResult(Approves, checks)])];
      var event := FindAccepted(accepted, id);
      if event.Some? {
        return Queued(event.value);
      }
      accepted := accepted + [id];
      return Queued(|accepted| - 1);
    }

    method PublishCandidate(id: nat, automatic: bool, override: Option<real>) returns (reply: Reply)
      modifies this`candidates, this`memories
      ensures (View(), reply) == Release(old(View()), id, automatic, override)
    {
      if id >= |candidates| {
        return Missing;
      }
      var c := candidates[id];
      if c.memory.Some? && c.memory.value < |memories| {
        return Released(c.memory.value);
      }
      var s := State(projects, messages, flags, policies, candidates, memories, accepted);
      var checks := BaseChecks(BaseOf(s, id));
      if automatic {
        checks := ReleaseOf(s, id, override);
      }
      if !checks.AllPass() {
        if automatic && c.status != Rejected && c.status != Superseded && c.status != Published {
          c := c.(status := NeedsReview);
        }
        candidates := candidates[id := c.(results := c.results + [PolicyResult(Rejects, checks)])];
        return if checks.base.evidenceValid then Refused else EvidenceUnverified;
      }
      if SharedSource(c.evidence) {
        return Invalid;
      }
      var memory := Memory(if c.scope == ProjectScope then Some(c.project) else None, c.level, c.memoryType, c.content,
                           c.scope, false, id, automatic, |c.results|);
      memories := memories + [memory];
      c := c.(status := Published);
      c := c.(memory := Some(|memories| - 1));
      candidates := candidates[id := c.(results := c.results + [PolicyResult(Publishes, checks)])];
      return Released(|memories| - 1);
    }

    method CorrectCandidate(id: nat, correction: Correction) returns (reply: Reply)
      modifies this`candidates, this`memories
      ensures (View(), reply) == Correct(old(View()), id, correction)
    {
      if id >= |candidates| || candidates[id].project !in projects {
        return Missing;
      }
      var c := candidates[id];
      if (correction.Discard? || correction.Reject?) && c.memory.Some? {
        return Invalid;
      }
      reply := Done;
      if correction.Replace? {
        reply := CreateCandidate(correction.draft.(project := c.project));
        if reply.Invalid? {
          return Invalid;
        }
      }
      if correction.Supersede? || correction.Replace? {
        if c.memory.Some? && c.memory.value < |memories| {
          memories := memories[c.memory.value := memories[c.memory.value].(deprecated := true)];
        }
        c := c.(status := Superseded);
        candidates := candidates[id := c.(results := c.results + [PolicyResult(Supersedes, Remark)])];
      } else {
        c := c.(status := Rejected);
        candidates := candidates[id := c.(results := c.results + [PolicyResult(Rejects, Remark)])];
      }
    }

    method ReviewCandidate(id: nat, approve: bool) returns (reply: Reply)
      modifies this`candidates
      ensures (View(), reply) == Review(old(View()), id, approve)
    {
      if id >= |candidates| || candidates[id].project !in projects {
        return Missing;
      }
      var c := candidates[id];
      c := c.(status := if approve then Approved else Rejected);
      candidates := candidates[id := c.(results := c.results + [PolicyResult(if approve then Approves else Rejects, Remark)])];
      return Done;
    }
  }

  lemma {:induction false} QuoteStops(s: State, project: nat, ranges: seq<Range>, k: nat)
    requires k <= |ranges| && Quote(s, project, ranges[..k]).None?
    ensures Quote(s, project, ranges).None?
    decreases |ranges|
  {
    if k == |ranges| {
      assert ranges[..k] == ranges;
    } else {
      assert ranges[..|ranges| - 1][..k] == ranges[..k];
      QuoteStops(s, project, ranges[..|ranges| - 1], k);
    }
  }
}
