/** What the candidate gate guarantees over every run. */
module CandidateRuns {
  import opened Prelude
  import opened CandidateGate

  // ---------- how a step may change the tables ----------

  /** A candidate keeps what it was created with, its memory once it has one, and its results. */
  ghost predicate Continues(a: Candidate, b: Candidate) {
    && b == a.(status := b.status, confidence := b.confidence, abstain := b.abstain, memory := b.memory, results := b.results)
    && a.results <= b.results
  }

  ghost predicate SameMemories(a: seq<Memory>, b: seq<Memory>) {
    |a| == |b| && forall m :: 0 <= m < |a| ==> b[m] == a[m].(deprecated := b[m].deprecated)
  }

  ghost predicate AcceptedGrows(a: seq<nat>, b: seq<nat>) {
    b == a || exists id :: id !in a && b == a + [id]
  }

  /** No memory is made and none is bound to a candidate; no candidate becomes published. */
  ghost predicate Edits(s: State, t: State) {
    && s.messages <= t.messages
    && SameMemories(s.memories, t.memories)
    && AcceptedGrows(s.accepted, t.accepted)
    && |s.candidates| <= |t.candidates|
    && (forall i :: 0 <= i < |s.candidates| ==>
          && Continues(s.candidates[i], t.candidates[i])
          && t.candidates[i].memory == s.candidates[i].memory
          && (t.candidates[i].status == Published ==> s.candidates[i].status == Published))
    && (forall i :: |s.candidates| <= i < |t.candidates| ==>
          t.candidates[i].memory.None? && t.candidates[i].status != Published)
  }

  /** One memory is made from candidate id, whose checks have passed. */
  ghost predicate Mints(s: State, t: State, id: nat, automatic: bool) {
    && id < |s.candidates|
    && var c := s.candidates[id];
    && c.memory.None? && EvidenceVerified(s.messages, c) && !DuplicateCandidate(s.candidates, id)
    && t.messages == s.messages && t.accepted == s.accepted
    && |t.memories| == |s.memories| + 1 && t.memories[..|s.memories|] == s.memories
    && (var m := t.memories[|s.memories|];
        && m.candidate == id && m.automatic == automatic && m.result == |c.results|
        && m.content == c.content && m.level == c.level && m.scope == c.scope && m.memoryType == c.memoryType
        && m.project == if c.scope == ProjectScope then Some(c.project) else None)
    && |t.candidates| == |s.candidates|
    && (forall i :: 0 <= i < |s.candidates| && i != id ==> t.candidates[i] == s.candidates[i])
    && (var d := t.candidates[id];
        && Continues(c, d) && d.memory == Some(|s.memories|)
        && |d.results| == |c.results| + 1 && d.results[|c.results|].ruling == Publishes)
    && (automatic ==> c.level == L1 && c.scope == ProjectScope && LatestApproves(c.results))
  }

  lemma CreateEdits(s: State, draft: Draft)
    ensures Edits(s, Create(s, draft).0)
    ensures Create(s, draft).0.memories == s.memories && Create(s, draft).0.accepted == s.accepted
    ensures Create(s, draft).0.candidates[..|s.candidates|] == s.candidates
  {
  }

  lemma RuledEdits(s: State, id: nat, c: Candidate, status: Status, ruling: Ruling, checks: Checks)
    requires id < |s.candidates| && Continues(s.candidates[id], c) && c.memory == s.candidates[id].memory
    requires status == Published ==> s.candidates[id].status == Published
    ensures Edits(s, SetCandidate(s, id, Ruled(c, status, ruling, checks)))
    ensures SetCandidate(s, id, Ruled(c, status, ruling, checks)).accepted == s.accepted
  {
  }

  lemma DecideEdits(s: State, id: nat, d: Decision, override: Option<real>)
    ensures Edits(s, ApplyDecision(s, id, d, override).0)
  {
    if id < |s.candidates| {
      var c := s.candidates[id].(confidence := d.confidence, abstain := d.abstain);
      var checks := ModelChecksOf(s, id, d, override);
      RuledEdits(s, id, c, Rejected, Skips, Remark);
      RuledEdits(s, id, c, NeedsReview, AsksReview, Remark);
      RuledEdits(s, id, c, Superseded, Skips, checks);
      RuledEdits(s, id, c, NeedsReview, AsksReview, checks);
      RuledEdits(s, id, c, Approved, Approves, checks);
    }
  }

  lemma CorrectEdits(s: State, id: nat, correction: Correction)
    ensures Edits(s, Correct(s, id, correction).0)
  {
    if id < |s.candidates| && correction.Replace? {
      CreateEdits(s, correction.draft.(project := s.candidates[id].project));
      var t := Create(s, correction.draft.(project := s.candidates[id].project)).0;
      assert t.candidates[id] == s.candidates[id] by {
        assert t.candidates[..|s.candidates|][id] == s.candidates[id];
      }
    }
  }

  lemma ReleaseCases(s: State, id: nat, automatic: bool, override: Option<real>)
    ensures var t := Release(s, id, automatic, override).0;
      Edits(s, t) || Mints(s, t, id, automatic)
  {
    var t := Release(s, id, automatic, override).0;
    if t != s && t.memories == s.memories {
      assert t == SetCandidate(s, id, t.candidates[id]);
    }
  }

  lemma IngestEdits(s: State, project: nat, message: nat)
    ensures Edits(s, Ingest(s, project, message).0)
  {
    if IsMessage(s, message, project) {
      var text := s.messages[message].content;
      CreateEdits(s, Draft(project, message, INGESTION, L1, ProjectScope, "conversation",
                           Content(text, "message.appended.v1"), [Range(message, 0, |text|)]));
    }
  }

  lemma BeginEdits(s: State, id: nat)
    ensures Edits(s, Begin(s, id).0)
  {
  }

  lemma EvaluateEdits(s: State, id: nat)
    ensures Edits(s, Evaluate(s, id).0)
  {
    if id < |s.candidates| {
      var c, checks := s.candidates[id], BaseChecks(BaseOf(s, id));
      RuledEdits(s, id, c, c.status, if checks.AllPass() then Publishes else Rejects, checks);
    }
  }

  lemma MarkFailedEdits(s: State, id: nat)
    ensures Edits(s, MarkFailed(s, id).0)
  {
    if id < |s.candidates| {
      RuledEdits(s, id, s.candidates[id], NeedsReview, AsksReview, Remark);
    }
  }

  lemma ReviewEdits(s: State, id: nat, approve: bool)
    ensures Edits(s, Review(s, id, approve).0)
  {
    if id < |s.candidates| {
      RuledEdits(s, id, s.candidates[id], if approve then Approved else Rejected, if approve then Approves else Rejects, Remark);
    }
  }

  lemma StepCases(s: State, step: Step)
    ensures Edits(s, Apply(s, step))
      || (step.ReleaseStep? && Mints(s, Apply(s, step), step.id, step.automatic))
  {
    match step
    case AddProject(_) =>
    case AddMessage(_, _) =>
    case SetFlags(_, _) =>
    case SetPolicy(_, _) =>
    case IngestStep(project, message) => IngestEdits(s, project, message);
    case CreateStep(draft) => CreateEdits(s, draft);
    case DecideStep(id, d, override) => DecideEdits(s, id, d, override);
    case CorrectStep(id, correction) => CorrectEdits(s, id, correction);
    case ReleaseStep(id, automatic, override) => ReleaseCases(s, id, automatic, override);
    case BeginStep(id) => BeginEdits(s, id);
    case EvaluateStep(id) => EvaluateEdits(s, id);
    case MarkFailedStep(id) => MarkFailedEdits(s, id);
    case ReviewStep(id, approve) => ReviewEdits(s, id, approve);
  }

  // ---------- the invariant ----------

  /** Memories and published candidates correspond one to one. */
  ghost predicate OneMemoryEach(s: State) {
    && (forall i :: 0 <= i < |s.candidates| && s.candidates[i].memory.Some? ==>
          s.candidates[i].memory.value < |s.memories| && s.memories[s.candidates[i].memory.value].candidate == i)
    && (forall m :: 0 <= m < |s.memories| ==>
          s.memories[m].candidate < |s.candidates| && s.candidates[s.memories[m].candidate].memory == Some(m))
  }

  ghost predicate OneAcceptedEach(s: State) {
    forall i, j :: 0 <= i < j < |s.accepted| ==> s.accepted[i] != s.accepted[j]
  }

  ghost predicate NoTwinsPublished(s: State) {
    forall i, j :: 0 <= i < |s.candidates| && 0 <= j < |s.candidates| && i != j
      && s.candidates[i].status == Published && s.candidates[j].status == Published
      ==> !Twins(s.candidates[i], s.candidates[j])
  }

  /** Every memory rests on evidence that is still there. */
  ghost predicate Grounded(s: State, m: Memory) {
    m.candidate < |s.candidates| && EvidenceVerified(s.messages, s.candidates[m.candidate])
      && m.content == s.candidates[m.candidate].content
  }

  /**
   A memory made automatically is L1, of its project, and was made when the latest policy
   result was an approval whose checks had all passed: the publication comes right after it.
   */
  ghost predicate Warranted(s: State, m: Memory) {
    m.automatic ==>
      && m.level == L1 && m.scope == ProjectScope
      && m.candidate < |s.candidates|
      && var c := s.candidates[m.candidate];
      && m.project == Some(c.project)
      && 0 < m.result < |c.results|
      && c.results[m.result].ruling == Publishes
      && c.results[m.result - 1].ruling == Approves
      && c.results[m.result - 1].checks.AllPass()
  }

  ghost predicate Invariant(s: State) {
    && OneMemoryEach(s)
    && OneAcceptedEach(s)
    && NoTwinsPublished(s)
    && forall m :: 0 <= m < |s.memories| ==> Grounded(s, s.memories[m]) && Warranted(s, s.memories[m])
  }

  lemma EditsKeep(s: State, t: State)
    requires Invariant(s) && Edits(s, t)
    ensures Invariant(t)
  {
    forall m | 0 <= m < |t.memories| ensures Grounded(t, t.memories[m]) && Warranted(t, t.memories[m]) {}
    EditsKeepLinks(s, t);
    EditsKeepTwins(s, t);
  }

  lemma EditsKeepLinks(s: State, t: State)
    requires OneMemoryEach(s) && OneAcceptedEach(s) && Edits(s, t)
    ensures OneMemoryEach(t) && OneAcceptedEach(t)
  {
    if id :| id !in s.accepted && t.accepted == s.accepted + [id] {
      assert forall i :: 0 <= i < |s.accepted| ==> s.accepted[i] in s.accepted;
    }
  }

  lemma EditsKeepTwins(s: State, t: State)
    requires NoTwinsPublished(s) && Edits(s, t)
    ensures NoTwinsPublished(t)
  {
  }

  lemma MintsKeepLinks(s: State, t: State, id: nat, automatic: bool)
    requires OneMemoryEach(s) && Mints(s, t, id, automatic)
    ensures OneMemoryEach(t)
  {
    forall m | 0 <= m < |t.memories|
      ensures t.memories[m].candidate < |t.candidates| && t.candidates[t.memories[m].candidate].memory == Some(m)
    {
      if m < |s.memories| {
        assert t.memories[m] == t.memories[..|s.memories|][m];
      }
    }
    forall i | 0 <= i < |t.candidates| && t.candidates[i].memory.Some?
      ensures t.candidates[i].memory.value < |t.memories| && t.memories[t.candidates[i].memory.value].candidate == i
    {
      if i != id {
        assert t.memories[t.candidates[i].memory.value] == t.memories[..|s.memories|][t.candidates[i].memory.value];
      }
    }
  }

  lemma MintsKeepTwins(s: State, t: State, id: nat, automatic: bool)
    requires NoTwinsPublished(s) && Mints(s, t, id, automatic)
    ensures NoTwinsPublished(t)
  {
    forall i | 0 <= i < |t.candidates| && i != id && t.candidates[i].status == Published
      ensures !Twins(t.candidates[i], t.candidates[id])
    {
      assert s.candidates[i].status in {Validating, Approved, Published};
    }
  }

  lemma MintsKeep(s: State, t: State, id: nat, automatic: bool)
    requires Invariant(s) && Mints(s, t, id, automatic)
    ensures Invariant(t)
  {
    forall m | 0 <= m < |t.memories| ensures Grounded(t, t.memories[m]) && Warranted(t, t.memories[m]) {
      if m < |s.memories| {
        assert t.memories[m] == t.memories[..|s.memories|][m];
      } else {
        var c, d := s.candidates[id], t.candidates[id];
        assert |c.results| > 0 ==> d.results[|c.results| - 1] == c.results[|c.results| - 1];
      }
    }
    MintsKeepLinks(s, t, id, automatic);
    MintsKeepTwins(s, t, id, automatic);
  }

  lemma ApplyKeeps(s: State, step: Step)
    requires Invariant(s)
    ensures Invariant(Apply(s, step))
  {
    StepCases(s, step);
    if Edits(s, Apply(s, step)) {
      EditsKeep(s, Apply(s, step));
    } else {
      MintsKeep(s, Apply(s, step), step.id, step.automatic);
    }
  }

  // ---------- over every run ----------

  const EMPTY := State({}, [], map[], map[], [], [], [])

  ghost predicate Steps(s: State, step: Step, t: State) {
    t == Apply(s, step)
  }

  /** A run from the empty tables. */
  ghost predicate Trace(states: seq<State>, steps: seq<Step>) {
    && |states| == |steps| + 1
    && states[0] == EMPTY
    && forall k :: 0 <= k < |steps| ==> Steps(states[k], steps[k], states[k + 1])
  }

  /** Every reachable state satisfies the invariant. */
  lemma {:induction false} TraceInvariant(states: seq<State>, steps: seq<Step>, k: nat)
    requires Trace(states, steps) && k <= |steps|
    ensures Invariant(states[k])
  {
    if k != 0 {
      TraceInvariant(states, steps, k - 1);
      assert Steps(states[k - 1], steps[k - 1], states[k]);
      ApplyKeeps(states[k - 1], steps[k - 1]);
    }
  }

  /** What an automatic memory means, read off any state that satisfies the invariant. */
  lemma AutomaticMemory(s: State, m: nat, e: Evidence)
    requires Invariant(s) && m < |s.memories| && s.memories[m].automatic
    requires s.memories[m].candidate < |s.candidates| && e in s.candidates[s.memories[m].candidate].evidence
    ensures var memory := s.memories[m];
      && memory.level == L1 && memory.project == Some(s.candidates[memory.candidate].project)
      && e.message < |s.messages| && Some(s.messages[e.message].project) == memory.project
      && 0 <= e.start && e.end <= |s.messages[e.message].content|
      && e.quoted == Slice(s.messages[e.message].content, e.start, e.end)
      && Occurs(e.quoted, memory.content.text)
  {
    assert Grounded(s, s.memories[m]) && Warranted(s, s.memories[m]);
    var c := s.candidates[s.memories[m].candidate];
    var k :| 0 <= k < |c.evidence| && c.evidence[k] == e;
    assert EvidenceHolds(s.messages, c.project, c.content, c.evidence[k]);
  }

  // ---------- after a refusal ----------

  /** Between the two states an approval of candidate id was recorded. */
  predicate ApprovalRecorded(s: State, t: State, id: nat) {
    && id < |s.candidates| && id < |t.candidates|
    && var a, b := s.candidates[id].results, t.candidates[id].results;
    |b| > |a| && b[|b| - 1].ruling == Approves
  }

  predicate Unapproved(s: State, id: nat) {
    && id < |s.candidates|
    && (|s.candidates[id].results| > 0 ==> s.candidates[id].results[|s.candidates[id].results| - 1].ruling != Approves)
  }

  lemma ResultsContinue(s: State, step: Step, t: State, id: nat)
    requires Steps(s, step, t) && id < |s.candidates|
    ensures id < |t.candidates| && s.candidates[id].results <= t.candidates[id].results
  {
    StepCases(s, step);
  }

  /** The step is an automatic publication of id that makes a memory. */
  predicate MintsAutomatically(s: State, step: Step, t: State, id: nat) {
    step.ReleaseStep? && step.id == id && step.automatic && |t.memories| > |s.memories|
  }

  /** The step is an automatic publication of id that the checks refuse. */
  predicate RefusesAutomatically(s: State, step: Step, id: nat) {
    && step.ReleaseStep? && step.id == id && step.automatic && id < |s.candidates|
    && Release(s, id, true, step.override).1 in {Refused, EvidenceUnverified}
  }

  lemma {:induction false} StaysUnapproved(states: seq<State>, steps: seq<Step>, id: nat, a: nat, b: nat)
    requires Trace(states, steps) && a <= b <= |steps| && Unapproved(states[a], id)
    requires forall k :: a <= k < b ==> !ApprovalRecorded(states[k], states[k + 1], id)
    ensures Unapproved(states[b], id)
    decreases b
  {
    if a < b {
      StaysUnapproved(states, steps, id, a, b - 1);
      ResultsContinue(states[b - 1], steps[b - 1], states[b], id);
    }
  }

  /**
   After an automatic publication of a candidate was refused, none succeeds until a fresh
   approval of it is recorded.
   */
  lemma RefusedUntilApproved(states: seq<State>, steps: seq<Step>, id: nat, a: nat, b: nat)
    requires Trace(states, steps) && a < b < |steps|
    requires RefusesAutomatically(states[a], steps[a], id)
    requires MintsAutomatically(states[b], steps[b], states[b + 1], id)
    ensures exists k :: a < k < b && ApprovalRecorded(states[k], states[k + 1], id)
  {
    assert Steps(states[a], steps[a], states[a + 1]);
    if forall k :: a < k < b ==> !ApprovalRecorded(states[k], states[k + 1], id) {
      StaysUnapproved(states, steps, id, a + 1, b);
      assert false;
    }
  }
}
