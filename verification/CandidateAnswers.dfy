/** What the candidate gate answers, condition by condition, and what that means for a whole run. */
module CandidateAnswers {
  import opened Prelude
  import opened CandidateGate
  import opened CandidateRuns

  // ---------- the conditions, spelled out ----------

  predicate FlagsAllow(s: State, project: nat) {
    project in s.flags && s.flags[project].publishing && s.flags[project].decisions
  }

  /** A policy was set for the project, and it publishes L1 memories of projects by itself. */
  predicate PolicyAllows(s: State, project: nat) {
    && project in s.policies
    && var policy := s.policies[project];
    policy.enabled && policy.autoPublish && policy.autoStrategy && policy.level == L1 && policy.scope == ProjectScope
  }

  /** The threshold is the service's own where it has one, and the policy's otherwise. */
  predicate SureEnough(s: State, project: nat, confidence: Option<real>, override: Option<real>) {
    && confidence.Some?
    && (override.Some? ==> override.value <= confidence.value)
    && (override.None? && project in s.policies ==> s.policies[project].minConfidence <= confidence.value)
    && (override.None? && project !in s.policies ==> 0.8 <= confidence.value)
  }

  /** The quote is a stretch of a message of the project that has not been altered, and the candidate has it in its text. */
  ghost predicate Stands(messages: seq<Message>, c: Candidate, e: Evidence) {
    && e.message < |messages|
    && var m := messages[e.message];
    && m.project == c.project && Digest(m.content) == e.hash
    && 0 <= e.start && e.end <= |m.content|
    && (if e.start <= e.end then m.content[e.start..e.end] == e.quoted else e.quoted == "")
    && exists before, after :: c.content.text == before + e.quoted + after
  }

  ghost predicate AllStand(messages: seq<Message>, c: Candidate) {
    |c.evidence| > 0 && forall e :: e in c.evidence ==> Stands(messages, c, e)
  }

  /** Another candidate says the same and is on its way or published. */
  predicate HasTwin(s: State, id: nat)
    requires id < |s.candidates|
  {
    exists k :: 0 <= k < |s.candidates| && k != id
      && s.candidates[k].status in {Validating, Approved, Published}
      && s.candidates[k].project == s.candidates[id].project && s.candidates[k].level == s.candidates[id].level
      && s.candidates[k].scope == s.candidates[id].scope && s.candidates[k].memoryType == s.candidates[id].memoryType
      && s.candidates[k].content == s.candidates[id].content
  }

  /** A memory of the project says the same. */
  predicate IsRemembered(s: State, id: nat)
    requires id < |s.candidates|
  {
    exists k :: 0 <= k < |s.memories|
      && s.memories[k].project == Some(s.candidates[id].project) && s.memories[k].scope == ProjectScope
      && s.memories[k].level == s.candidates[id].level && s.memories[k].memoryType == s.candidates[id].memoryType
      && s.memories[k].content == s.candidates[id].content
  }

  /** The model quotes messages of the project, each exactly and unaltered. */
  ghost predicate ModelQuotes(s: State, project: nat, quotes: seq<ModelEvidence>) {
    && |quotes| > 0
    && forall q :: q in quotes ==>
         && q.message < |s.messages|
         && var m := s.messages[q.message];
         && m.project == project && Digest(m.content) == m.hash
         && 0 <= q.start < q.end <= |m.content| && m.content[q.start..q.end] == q.quote
  }

  // ---------- the conditions are the recorded checks ----------

  lemma OccursSomewhere(part: string, text: string)
    ensures Occurs(part, text) <==> exists before, after :: text == before + part + after
  {
    if Occurs(part, text) {
      var k :| 0 <= k <= |text| && OccursAt(part, text, k);
      assert text == text[..k] + part + text[k + |part|..];
    }
    if before, after :| text == before + part + after {
      assert OccursAt(part, text, |before|);
    }
  }

  lemma StandsIsHolds(messages: seq<Message>, c: Candidate, e: Evidence)
    ensures Stands(messages, c, e) <==> EvidenceHolds(messages, c.project, c.content, e)
  {
    OccursSomewhere(e.quoted, c.content.text);
  }

  lemma AllStandIsVerified(messages: seq<Message>, c: Candidate)
    ensures AllStand(messages, c) <==> EvidenceVerified(messages, c)
  {
    forall k | 0 <= k < |c.evidence|
      ensures Stands(messages, c, c.evidence[k]) <==> EvidenceHolds(messages, c.project, c.content, c.evidence[k])
    {
      StandsIsHolds(messages, c, c.evidence[k]);
    }
  }

  lemma TwinIsDuplicate(s: State, id: nat)
    requires id < |s.candidates|
    ensures HasTwin(s, id) <==> DuplicateCandidate(s.candidates, id)
    ensures IsRemembered(s, id) <==> DuplicateMemory(s.memories, s.candidates[id])
  {
  }

  lemma QuotesAreVerified(s: State, project: nat, quotes: seq<ModelEvidence>)
    ensures ModelQuotes(s, project, quotes) <==> ModelEvidenceVerified(s, project, quotes)
  {
    if ModelEvidenceVerified(s, project, quotes) {
      forall q | q in quotes
        ensures q.message < |s.messages| && s.messages[q.message].project == project
          && Digest(s.messages[q.message].content) == s.messages[q.message].hash
          && 0 <= q.start < q.end <= |s.messages[q.message].content|
          && s.messages[q.message].content[q.start..q.end] == q.quote
      {
        var k :| 0 <= k < |quotes| && quotes[k] == q;
      }
    }
    if ModelQuotes(s, project, quotes) {
      forall k | 0 <= k < |quotes| ensures IsMessage(s, quotes[k].message, project) {
        assert quotes[k] in quotes;
      }
    }
  }

  // ---------- the model's decision ----------

  /** Candidate id may still be decided on. */
  predicate Open(s: State, id: nat) {
    && id < |s.candidates| && s.candidates[id].project in s.projects
    && s.candidates[id].memory.None? && s.candidates[id].status !in {Rejected, Superseded}
  }

  /** What the gate asks of a decision to publish, besides that nothing says the same already. */
  ghost predicate Deserves(s: State, id: nat, d: Decision, override: Option<real>)
    requires id < |s.candidates|
  {
    var c := s.candidates[id];
    && d.action == PublishIt && !d.abstain && !d.risk && d.validationPassed
    && SureEnough(s, c.project, d.confidence, override)
    && c.level == L1 && d.level == Some(L1) && c.scope == ProjectScope && d.scope == Some(ProjectScope)
    && PolicyAllows(s, c.project) && FlagsAllow(s, c.project)
    && ModelQuotes(s, c.project, d.evidence) && AllStand(s.messages, c)
  }

  lemma ModelChecksExact(s: State, id: nat, d: Decision, override: Option<real>)
    requires Open(s, id)
    ensures ModelChecksOf(s, id, d, override).AllPass() <==>
      Deserves(s, id, d, override) && !HasTwin(s, id) && !IsRemembered(s, id)
    ensures ModelChecksOf(s, id, d, override).base.conflictFree <==> !HasTwin(s, id) && !IsRemembered(s, id)
  {
    var c := s.candidates[id];
    AllStandIsVerified(s.messages, c);
    TwinIsDuplicate(s, id);
    QuotesAreVerified(s, c.project, d.evidence);
  }

  /** The candidate is changed in its status and the model's answer, and has one more result; nothing else changes but `accepted`. */
  ghost predicate Decided(s: State, t: State, id: nat, d: Decision, status: Status, ruling: Ruling) {
    && id < |s.candidates|
    && t == s.(candidates := t.candidates, accepted := t.accepted)
    && |t.candidates| == |s.candidates|
    && (forall i :: 0 <= i < |s.candidates| && i != id ==> t.candidates[i] == s.candidates[i])
    && var a, b := s.candidates[id], t.candidates[id];
    && b == a.(status := status, confidence := d.confidence, abstain := d.abstain, results := b.results)
    && |b.results| == |a.results| + 1 && b.results[..|a.results|] == a.results && b.results[|a.results|].ruling == ruling
  }

  /**
   A decision, answered: on a candidate that is open it rejects, asks for review, finds a
   twin, or else accepts exactly what deserves it; on any other it does nothing.
   */
  lemma DecisionExact(s: State, id: nat, d: Decision, override: Option<real>)
    ensures var (t, reply) := ApplyDecision(s, id, d, override);
      if !Open(s, id) then t == s && reply in {Missing, Skipped}
      else if d.action == SkipIt then reply == Skipped && Decided(s, t, id, d, Rejected, Skips) && t.accepted == s.accepted
      else if d.action == ReviewIt then reply == Done && Decided(s, t, id, d, NeedsReview, AsksReview) && t.accepted == s.accepted
      else if HasTwin(s, id) || IsRemembered(s, id) then
        reply == Skipped && Decided(s, t, id, d, Superseded, Skips) && t.accepted == s.accepted
      else if !Deserves(s, id, d, override) then
        reply == Done && Decided(s, t, id, d, NeedsReview, AsksReview) && t.accepted == s.accepted
      else
        && reply.Queued? && reply.event < |t.accepted| && t.accepted[reply.event] == id
        && Decided(s, t, id, d, Approved, Approves)
        && t.accepted == if id in s.accepted then s.accepted else s.accepted + [id]
  {
    if Open(s, id) {
      var c := s.candidates[id].(confidence := d.confidence, abstain := d.abstain);
      ModelChecksExact(s, id, d, override);
      TwinIsDuplicate(s, id);
      TwinsOfDecided(s, id, c);
    }
  }

  lemma TwinsOfDecided(s: State, id: nat, c: Candidate)
    requires id < |s.candidates| && c == s.candidates[id].(confidence := c.confidence, abstain := c.abstain)
    ensures DuplicateMemory(s.memories, c) <==> DuplicateMemory(s.memories, s.candidates[id])
  {
  }

  /** So a decision is accepted iff the candidate is open, nothing says the same, and all the conditions hold. */
  lemma AcceptedExact(s: State, id: nat, d: Decision, override: Option<real>)
    ensures ApplyDecision(s, id, d, override).1.Queued? <==>
      Open(s, id) && !HasTwin(s, id) && !IsRemembered(s, id) && Deserves(s, id, d, override)
  {
    DecisionExact(s, id, d, override);
  }

  // ---------- publication ----------

  /** What any publication asks. */
  ghost predicate Publishable(s: State, id: nat) {
    && id < |s.candidates|
    && var c := s.candidates[id];
    && c.memory.None? && c.project in s.projects && AllStand(s.messages, c) && !HasTwin(s, id)
  }

  /** The last thing recorded about the candidate is an approval with nothing against it. */
  predicate JustApproved(c: Candidate) {
    && |c.results| > 0
    && c.results[|c.results| - 1].ruling == Approves && c.results[|c.results| - 1].checks.AllPass()
  }

  /** What an automatic one asks besides. */
  ghost predicate Automatic(s: State, id: nat, override: Option<real>)
    requires id < |s.candidates|
  {
    var c := s.candidates[id];
    && c.level == L1 && c.scope == ProjectScope && c.status == Approved && !c.abstain && JustApproved(c)
    && SureEnough(s, c.project, c.confidence, override)
    && PolicyAllows(s, c.project) && FlagsAllow(s, c.project)
  }

  ghost predicate MayPublish(s: State, id: nat, automatic: bool, override: Option<real>) {
    && Publishable(s, id)
    && if automatic then Automatic(s, id, override)
       else s.candidates[id].project in s.flags && s.flags[s.candidates[id].project].publishing
  }

  lemma ReleaseChecksExact(s: State, id: nat, override: Option<real>)
    requires id < |s.candidates|
    ensures ReleaseOf(s, id, override).AllPass() <==> MayPublish(s, id, true, override)
    ensures BaseChecks(BaseOf(s, id)).AllPass() <==> MayPublish(s, id, false, override)
    ensures ReleaseOf(s, id, override).base.evidenceValid <==> AllStand(s.messages, s.candidates[id])
    ensures BaseOf(s, id).evidenceValid <==> AllStand(s.messages, s.candidates[id])
  {
    AllStandIsVerified(s.messages, s.candidates[id]);
    TwinIsDuplicate(s, id);
  }

  /** The new memory says what the candidate says, and points back to it. */
  ghost predicate MakesMemory(s: State, t: State, id: nat, automatic: bool) {
    && id < |s.candidates|
    && var c := s.candidates[id];
    && t.memories == s.memories + [Memory(
         if c.scope == ProjectScope then Some(c.project) else None, c.level, c.memoryType, c.content, c.scope, false,
         id, automatic, |c.results|)]
    && t == s.(memories := t.memories, candidates := t.candidates) && |t.candidates| == |s.candidates|
    && (forall i :: 0 <= i < |s.candidates| && i != id ==> t.candidates[i] == s.candidates[i])
    && var d := t.candidates[id];
    && d == c.(status := Published, memory := Some(|s.memories|), results := d.results)
    && |d.results| == |c.results| + 1 && d.results[..|c.results|] == c.results && d.results[|c.results|].ruling == Publishes
  }

  /** A refused publication is recorded; when automatic it sends an open candidate to review. */
  ghost predicate Declined(s: State, t: State, id: nat, automatic: bool) {
    && id < |s.candidates| && t == s.(candidates := t.candidates) && |t.candidates| == |s.candidates|
    && (forall i :: 0 <= i < |s.candidates| && i != id ==> t.candidates[i] == s.candidates[i])
    && var c, d := s.candidates[id], t.candidates[id];
    && d == c.(status := d.status, results := d.results)
    && d.status == (if automatic && c.status in {Generated, Validating, NeedsReview, Approved} then NeedsReview else c.status)
    && |d.results| == |c.results| + 1 && d.results[..|c.results|] == c.results && d.results[|c.results|].ruling == Rejects
  }

  /** A publication, answered. */
  lemma ReleaseExact(s: State, id: nat, automatic: bool, override: Option<real>)
    requires OneMemoryEach(s)
    ensures var (t, reply) := Release(s, id, automatic, override);
      if id >= |s.candidates| then t == s && reply == Missing
      else if s.candidates[id].memory.Some? then t == s && reply == Released(s.candidates[id].memory.value)
      else if !MayPublish(s, id, automatic, override) then
        && Declined(s, t, id, automatic)
        && reply == if AllStand(s.messages, s.candidates[id]) then Refused else EvidenceUnverified
      else if exists i, j :: 0 <= i < j < |s.candidates[id].evidence|
                && s.candidates[id].evidence[i].message == s.candidates[id].evidence[j].message then
        t == s && reply == Invalid
      else MakesMemory(s, t, id, automatic) && reply == Released(|s.memories|)
  {
    if id < |s.candidates| {
      ReleaseChecksExact(s, id, override);
    }
  }

  // ---------- new candidates, and people ----------

  predicate IsStretch(s: State, project: nat, r: Range) {
    && r.message < |s.messages| && s.messages[r.message].project == project
    && 0 <= r.start < r.end <= |s.messages[r.message].content|
  }

  /** The evidence quotes the ranges one by one. */
  ghost predicate Quotes(s: State, ranges: seq<Range>, rows: seq<Evidence>) {
    && |rows| == |ranges|
    && forall k :: 0 <= k < |ranges| ==>
         && ranges[k].message < |s.messages|
         && var m := s.messages[ranges[k].message];
         && 0 <= ranges[k].start < ranges[k].end <= |m.content|
         && rows[k] == Evidence(ranges[k].message, ranges[k].start, ranges[k].end,
                                m.content[ranges[k].start..ranges[k].end], m.hash)
  }

  lemma {:induction false} QuoteExact(s: State, project: nat, ranges: seq<Range>)
    ensures Quote(s, project, ranges).Some? <==> forall k :: 0 <= k < |ranges| ==> IsStretch(s, project, ranges[k])
    ensures Quote(s, project, ranges).Some? ==> Quotes(s, ranges, Quote(s, project, ranges).value)
  {
    if |ranges| != 0 {
      QuoteExact(s, project, ranges[..|ranges| - 1]);
      assert forall k :: 0 <= k < |ranges| - 1 ==> ranges[..|ranges| - 1][k] == ranges[k];
    }
  }

  /** A candidate is made exactly when its source and every range of it lie in messages of the project. */
  lemma CreateExact(s: State, draft: Draft)
    ensures var (t, reply) := Create(s, draft);
      if draft.project in s.projects
         && draft.source < |s.messages| && s.messages[draft.source].project == draft.project
         && forall k :: 0 <= k < |draft.ranges| ==> IsStretch(s, draft.project, draft.ranges[k])
      then
        && reply == Created(|s.candidates|) && |t.candidates| == |s.candidates| + 1
        && t == s.(candidates := s.candidates + [t.candidates[|s.candidates|]])
        && var c := t.candidates[|s.candidates|];
        && Quotes(s, draft.ranges, c.evidence)
        && c == Candidate(draft.project, draft.source, draft.taskType, draft.level, draft.scope, draft.memoryType,
                          draft.content, Generated, None, false, None, c.evidence, [])
      else t == s && reply == Invalid
  {
    QuoteExact(s, draft.project, draft.ranges);
  }

  /** A candidate was made from the message before, and is not rejected. */
  predicate HasCandidate(s: State, project: nat, message: nat) {
    exists k :: 0 <= k < |s.candidates|
      && s.candidates[k].project == project && s.candidates[k].source == message
      && s.candidates[k].taskType == "message_ingestion" && s.candidates[k].status != Rejected
  }

  /** A message of a project that generates candidates gets one, which quotes the whole message, unless it has one. */
  lemma IngestExact(s: State, project: nat, message: nat)
    requires project in s.projects
    ensures var (t, reply) := Ingest(s, project, message);
      if message < |s.messages| && s.messages[message].project == project && s.messages[message].content != ""
         && project in s.flags && s.flags[project].generation && !HasCandidate(s, project, message)
      then
        && reply == Created(|s.candidates|) && |t.candidates| == |s.candidates| + 1
        && var c := t.candidates[|s.candidates|];
        && c.project == project && c.source == message && c.level == L1 && c.scope == ProjectScope && c.status == Generated
        && |c.evidence| == 1 && c.evidence[0].quoted == s.messages[message].content == c.content.text
      else t.candidates == s.candidates && t.memories == s.memories && !reply.Created?
  {
    if IsMessage(s, message, project) {
      var text := s.messages[message].content;
      var range := Range(message, 0, |text|);
      CreateExact(s, Draft(project, message, INGESTION, L1, ProjectScope, "conversation",
                           Content(text, "message.appended.v1"), [range]));
      assert text[0..|text|] == text;
      assert text != "" <==> IsStretch(s, project, [range][0]);
    }
  }

  /** An evaluation records whether the candidate could be published by hand, and leaves its status. */
  lemma EvaluateExact(s: State, id: nat)
    requires id < |s.candidates|
    ensures var (t, reply) := Evaluate(s, id);
      && reply == Done && t == s.(candidates := t.candidates) && |t.candidates| == |s.candidates|
      && (forall i :: 0 <= i < |s.candidates| && i != id ==> t.candidates[i] == s.candidates[i])
      && var c, d := s.candidates[id], t.candidates[id];
      && d == c.(results := d.results) && |d.results| == |c.results| + 1 && d.results[..|c.results|] == c.results
      && d.results[|c.results|].ruling == (if MayPublish(s, id, false, None) then Publishes else Rejects)
  {
    ReleaseChecksExact(s, id, None);
  }

  /** A model that fails sends a candidate that is not settled to review; one that begins marks it as being validated. */
  lemma ModelRuns(s: State, id: nat)
    requires id < |s.candidates|
    ensures var t, c := MarkFailed(s, id).0, s.candidates[id];
      t == if c.status in {Generated, Validating, NeedsReview, Approved}
           then s.(candidates := s.candidates[id := c.(
             status := NeedsReview, results := c.results + [PolicyResult(AsksReview, Remark)])])
           else s
    ensures var t, c := Begin(s, id).0, s.candidates[id];
      t == if c.status in {Generated, Validating, NeedsReview}
           then s.(candidates := s.candidates[id := c.(status := Validating)]) else s
  {
    var c := s.candidates[id];
    assert c.status.Generated? || c.status.Validating? || c.status.NeedsReview? || c.status.Approved?
      || c.status.Published? || c.status.Rejected? || c.status.Superseded?;
    assert Ruled(c, NeedsReview, AsksReview, Remark) == c.(
      status := NeedsReview, results := c.results + [PolicyResult(AsksReview, Remark)]);
  }

  /** A person's review sets the status, whatever it was, and leaves all but that and the record alone. */
  lemma ReviewExact(s: State, id: nat, approve: bool)
    ensures var (t, reply) := Review(s, id, approve);
      if id < |s.candidates| && s.candidates[id].project in s.projects then
        && reply == Done && t == s.(candidates := t.candidates) && |t.candidates| == |s.candidates|
        && (forall i :: 0 <= i < |s.candidates| && i != id ==> t.candidates[i] == s.candidates[i])
        && var c, d := s.candidates[id], t.candidates[id];
        && d == c.(status := if approve then Approved else Rejected, results := d.results)
        && d.results == c.results + [PolicyResult(if approve then Approves else Rejects, Remark)]
      else t == s && reply == Missing
  {
  }

  /** Candidate id has the status and one more result; no other candidate there was is changed. */
  ghost predicate Settles(s: State, t: State, id: nat, status: Status, ruling: Ruling) {
    && id < |s.candidates| <= |t.candidates|
    && (forall i :: 0 <= i < |s.candidates| && i != id ==> t.candidates[i] == s.candidates[i])
    && t.candidates[id] == s.candidates[id].(
         status := status, results := s.candidates[id].results + [PolicyResult(ruling, Remark)])
  }

  /**
   A person's correction: nothing published can be rejected; superseding deprecates the memory
   there is; a replacement comes with a new candidate or not at all.
   */
  lemma CorrectExact(s: State, id: nat, correction: Correction)
    requires OneMemoryEach(s)
    ensures var (t, reply) := Correct(s, id, correction);
      if id >= |s.candidates| || s.candidates[id].project !in s.projects then t == s && reply == Missing
      else
        var c := s.candidates[id];
        if correction.Discard? || correction.Reject? then
          if c.memory.Some? then t == s && reply == Invalid
          else
            reply == Done && Settles(s, t, id, Rejected, Rejects)
            && t == s.(candidates := t.candidates) && |t.candidates| == |s.candidates|
        else if correction.Replace? && Create(s, correction.draft.(project := c.project)).1.Invalid? then
          t == s && reply == Invalid
        else
          && Settles(s, t, id, Superseded, Supersedes)
          && t == s.(candidates := t.candidates, memories := t.memories) && |t.memories| == |s.memories|
          && (forall m :: 0 <= m < |s.memories| ==>
                t.memories[m] == if c.memory == Some(m) then s.memories[m].(deprecated := true) else s.memories[m])
          && (correction.Supersede? ==> reply == Done && |t.candidates| == |s.candidates|)
          && (correction.Replace? ==>
                && reply == Created(|s.candidates|) && |t.candidates| == |s.candidates| + 1
                && t.candidates[|s.candidates|]
                   == Create(s, correction.draft.(project := c.project)).0.candidates[|s.candidates|])
  {
  }

  // ---------- over every run ----------

  /** Step b made memory m. */
  ghost predicate Origin(states: seq<State>, steps: seq<Step>, b: nat, m: nat, memory: Memory)
    requires |states| == |steps| + 1
  {
    && b < |steps| && |states[b].memories| == m && |states[b + 1].memories| == m + 1
    && steps[b].ReleaseStep? && steps[b].id == memory.candidate && steps[b].automatic == memory.automatic
  }

  lemma OriginOfNew(s: State, step: Step, m: nat)
    requires |s.memories| <= m < |Apply(s, step).memories|
    ensures m == |s.memories| && |Apply(s, step).memories| == m + 1
    ensures step.ReleaseStep? && step.id == Apply(s, step).memories[m].candidate
    ensures step.automatic == Apply(s, step).memories[m].automatic
  {
    StepCases(s, step);
  }

  lemma MemoryStays(s: State, step: Step, m: nat)
    requires m < |s.memories|
    ensures m < |Apply(s, step).memories|
    ensures Apply(s, step).memories[m] == s.memories[m].(deprecated := Apply(s, step).memories[m].deprecated)
  {
    StepCases(s, step);
    var t := Apply(s, step);
    if !Edits(s, t) {
      assert t.memories[m] == t.memories[..|s.memories|][m];
    }
  }

  lemma {:induction false} EveryMemoryHasOrigin(states: seq<State>, steps: seq<Step>, k: nat, m: nat) returns (b: nat)
    requires Trace(states, steps) && k <= |steps| && m < |states[k].memories|
    ensures b < k && Origin(states, steps, b, m, states[k].memories[m])
    decreases k
  {
    assert k > 0;
    assert Steps(states[k - 1], steps[k - 1], states[k]);
    if m < |states[k - 1].memories| {
      MemoryStays(states[k - 1], steps[k - 1], m);
      b := EveryMemoryHasOrigin(states, steps, k - 1, m);
    } else {
      OriginOfNew(states[k - 1], steps[k - 1], m);
      b := k - 1;
    }
  }

  /**
   Every memory made automatically, in every reachable state: when it was made its candidate
   was approved and in every respect fit to be published, its confidence at least the
   threshold of that moment.
   */
  lemma AutomaticWasFit(states: seq<State>, steps: seq<Step>, k: nat, m: nat) returns (b: nat)
    requires Trace(states, steps) && k <= |steps| && m < |states[k].memories| && states[k].memories[m].automatic
    ensures b < k && steps[b].ReleaseStep? && |states[b].memories| == m
    ensures var id := states[k].memories[m].candidate;
      MayPublish(states[b], id, true, steps[b].override)
    ensures var s, id := states[b], states[k].memories[m].candidate;
      id < |s.candidates| && SureEnough(s, s.candidates[id].project, s.candidates[id].confidence, steps[b].override)
  {
    b := EveryMemoryHasOrigin(states, steps, k, m);
    TraceInvariant(states, steps, b);
    assert Steps(states[b], steps[b], states[b + 1]);
    ReleaseExact(states[b], steps[b].id, true, steps[b].override);
  }
}
