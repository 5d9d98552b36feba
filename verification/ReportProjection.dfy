/**
 Task events and the reports projected from them: `TaskEventService.append_event` and
 `TaskReportProjector.handle`.  Each call is one transaction; a row's id is its index.
 */
module ReportProjection {
  import opened Prelude
  import opened Json

  datatype Kind = UserPromptSubmit | PreToolUse | PostToolUse | Stop | SessionEnd

  /** The six `git_*` columns of a run. */
  datatype Baseline = Baseline(
    branch: Option<string>, head: Option<string>, porcelain: Option<string>, diffHash: Option<string>,
    untracked: Option<Json>, available: Option<bool>)

  datatype Run = Run(project: string, session: string, completed: bool, revision: nat, baseline: Baseline)

  datatype Event = Event(run: nat, key: string, kind: Kind, sequence: nat, hash: string, git: seq<Field>)

  datatype ReportKind = Checkpoint | Final

  /** A report's row and body, apart from what they repeat of stored events. */
  datatype Report = Report(
    run: nat, event: nat, revision: nat, kind: ReportKind, completed: bool, uncertain: bool, git: Baseline,
    timeline: seq<nat>)

  /** `memories[k]` is the report an L1 memory was made of; `outbox[k]` the event an outbox row names. */
  datatype State = State(runs: seq<Run>, events: seq<Event>, reports: seq<Report>, memories: seq<nat>, outbox: seq<nat>)

  datatype Reply = Invalid | Conflict(event: nat) | Duplicate(event: nat) | Accepted(event: nat)

  const NO_BASELINE := Baseline(None, None, None, None, None, None)

  // ---------- queries ----------

  function FindRun(runs: seq<Run>, project: string, session: string): (r: Option<nat>)
    ensures r.Some? ==> r.value < |runs| && runs[r.value].project == project && runs[r.value].session == session
    ensures r.None? ==> forall i :: 0 <= i < |runs| ==> !(runs[i].project == project && runs[i].session == session)
  {
    if |runs| == 0 then None
    else
      var last := runs[|runs| - 1];
      if last.project == project && last.session == session then Some(|runs| - 1)
      else FindRun(runs[..|runs| - 1], project, session)
  }

  function FindEvent(events: seq<Event>, run: nat, key: string): (r: Option<nat>)
    ensures r.Some? ==> r.value < |events| && events[r.value].run == run && events[r.value].key == key
    ensures r.None? ==> forall i :: 0 <= i < |events| ==> !(events[i].run == run && events[i].key == key)
  {
    if |events| == 0 then None
    else
      var last := events[|events| - 1];
      if last.run == run && last.key == key then Some(|events| - 1) else FindEvent(events[..|events| - 1], run, key)
  }

  function FindReport(reports: seq<Report>, event: nat): (r: Option<nat>)
    ensures r.Some? ==> r.value < |reports| && reports[r.value].event == event
    ensures r.None? ==> forall i :: 0 <= i < |reports| ==> reports[i].event != event
  {
    if |reports| == 0 then None
    else if reports[|reports| - 1].event == event then Some(|reports| - 1)
    else FindReport(reports[..|reports| - 1], event)
  }

  /** The highest sequence number of the run's events, 0 when there are none. */
  function LastSequence(events: seq<Event>, run: nat): nat {
    if |events| == 0 then 0
    else
      var last, rest := events[|events| - 1], LastSequence(events[..|events| - 1], run);
      if last.run == run && last.sequence > rest then last.sequence else rest
  }

  /** The sequence numbers of the run's events, in table order. */
  function Timeline(events: seq<Event>, run: nat): seq<nat> {
    if |events| == 0 then []
    else
      var last := events[|events| - 1];
      Timeline(events[..|events| - 1], run) + if last.run == run then [last.sequence] else []
  }

  predicate EndsRun(kind: Kind) {
    kind == Stop || kind == SessionEnd
  }

  predicate Uncertain(baseline: Baseline) {
    baseline.available == Some(false) || (baseline.porcelain.Some? && !IsBlank(baseline.porcelain.value))
  }

  function TextAt(git: seq<Field>, key: string): Option<string> {
    match Lookup(git, key) case Some(Str(text)) => Some(text) case _ => None
  }

  /** Python's `or`. */
  function Or(first: Option<string>, second: Option<string>): Option<string> {
    if first.Some? && first.value != "" then first else second
  }

  /** `_capture_baseline`. */
  function Capture(git: seq<Field>): Baseline {
    Baseline(
      Or(TextAt(git, "branch"), TextAt(git, "git_branch")),
      Or(TextAt(git, "head"), TextAt(git, "git_head")),
      Or(TextAt(git, "status_porcelain"), TextAt(git, "status")),
      TextAt(git, "diff_hash"),
      match Lookup(git, "untracked") case Some(Null) => None case other => other,
      match Lookup(git, "available")
      case Some(Bool(flag)) => Some(flag)
      case Some(_) => None
      case None => Some(|git| > 0))
  }

  // ---------- the transactions ----------

  /** `append_event`, the content already redacted, truncated, size-checked and hashed. */
  function Append(s: State, project: string, session: string, key: string, kind: Kind, hash: string, git: seq<Field>)
    : (State, Reply)
  {
    if IsBlank(session) || IsBlank(key) then (s, Invalid)
    else
      var found := FindRun(s.runs, project, session);
      var run := if found.Some? then found.value else |s.runs|;
      match FindEvent(s.events, run, key)
      case Some(e) => (s, if s.events[e].hash != hash then Conflict(e) else Duplicate(e))
      case None =>
        var runs := if found.Some? then s.runs else s.runs + [Run(project, session, false, 0, NO_BASELINE)];
        var event := Event(run, key, kind, LastSequence(s.events, run) + 1, hash, git);
        (s.(runs := runs, events := s.events + [event], outbox := s.outbox + [|s.events|]), Accepted(|s.events|))
  }

  function SetRun(s: State, r: nat, run: Run): State
    requires r < |s.runs|
  {
    s.(runs := s.runs[r := run])
  }

  /** `_project_l1`: one memory per report. */
  function ProjectL1(s: State, report: nat): State {
    if report in s.memories then s else s.(memories := s.memories + [report])
  }

  /** `handle`; None where it raises `LookupError`. */
  function Handle(s: State, e: nat): (State, Option<Option<nat>>) {
    if e >= |s.events| || s.events[e].run >= |s.runs| then (s, None)
    else
      var event := s.events[e];
      var run := s.runs[event.run];
      if event.kind == PreToolUse && run.baseline.available.None? then
        (SetRun(s, event.run, run.(baseline := Capture(event.git))), Some(None))
      else if !EndsRun(event.kind) then (s, Some(None))
      else
        match FindReport(s.reports, e)
        case Some(report) => (s, Some(Some(report)))
        case None =>
          var revision := run.revision + 1;
          var kind := if event.kind == Stop then Checkpoint else Final;
          var completed := run.completed || kind == Final;
          var report := Report(
            event.run, e, revision, kind, completed, Uncertain(run.baseline), run.baseline, Timeline(s.events, event.run));
          var t := SetRun(s, event.run, run.(completed := completed, revision := revision))
            .(reports := s.reports + [report]);
          (ProjectL1(t, |s.reports|), Some(Some(|s.reports|)))
  }

  class TaskTables {
    var runs: seq<Run>
    var events: seq<Event>
    var reports: seq<Report>
    var memories: seq<nat>
    var outbox: seq<nat>

    ghost function View(): State
      reads this
    {
      State(runs, events, reports, memories, outbox)
    }

    constructor ()
      ensures View() == State([], [], [], [], [])
    {
      runs, events, reports, memories, outbox := [], [], [], [], [];
    }

    method AppendEvent(project: string, session: string, key: string, kind: Kind, hash: string, git: seq<Field>)
      returns (reply: Reply)
      modifies this
      ensures (View(), reply) == Append(old(View()), project, session, key, kind, hash, git)
    {
      if IsBlank(session) || IsBlank(key) {
        return Invalid;
      }
      var saved := runs;
      var found := FindRun(runs, project, session);
      var run := |runs|;
      if found.Some? {
        run := found.value;
      } else {
        runs := runs + [Run(project, session, false, 0, NO_BASELINE)];
      }
      var existing := FindEvent(events, run, key);
      if existing.Some? {
        runs := saved;
        if events[existing.value].hash != hash {
          return Conflict(existing.value);
        }
        return Duplicate(existing.value);
      }
      var sequence := LastSequence(events, run) + 1;
      outbox := outbox + [|events|];
      events := events + [Event(run, key, kind, sequence, hash, git)];
      return Accepted(|events| - 1);
    }

    method HandleEvent(e: nat) returns (report: Option<Option<nat>>)
      modifies this
      ensures (View(), report) == Handle(old(View()), e)
    {
      if e >= |events| || events[e].run >= |runs| {
        return None;
      }
      var event := events[e];
      var run := runs[event.run];
      if event.kind == PreToolUse && run.baseline.available.None? {
        runs := runs[event.run := run.(baseline := Capture(event.git))];
        return Some(None);
      }
      if event.kind != Stop && event.kind != SessionEnd {
        return Some(None);
      }
      var existing := FindReport(reports, e);
      if existing.Some? {
        return Some(existing);
      }
      var revision := run.revision + 1;
      var kind := if event.kind == Stop then Checkpoint else Final;
      var uncertain := Uncertain(run.baseline);
      if kind == Final {
        run := run.(completed := true);
      }
      var id := |reports|;
      reports := reports
        + [Report(event.run, e, revision, kind, run.completed, uncertain, run.baseline, Timeline(events, event.run))];
      run := run.(revision := revision);
      runs := runs[event.run := run];
      if id !in memories {
        memories := memories + [id];
      }
      return Some(Some(id));
    }
  }

  // ---------- the invariant ----------

  function EventCount(events: seq<Event>, run: nat): nat {
    if |events| == 0 then 0
    else EventCount(events[..|events| - 1], run) + if events[|events| - 1].run == run then 1 else 0
  }

  function ReportCount(reports: seq<Report>, run: nat): nat {
    if |reports| == 0 then 0
    else ReportCount(reports[..|reports| - 1], run) + if reports[|reports| - 1].run == run then 1 else 0
  }

  /** A run's events carry 1, 2, 3, ... in the order of insertion, and each key once. */
  ghost predicate Sequenced(events: seq<Event>) {
    && (forall i :: 0 <= i < |events| ==> events[i].sequence == EventCount(events[..i], events[i].run) + 1)
    && (forall i, j :: 0 <= i < j < |events| ==> events[i].run != events[j].run || events[i].key != events[j].key)
  }

  ghost predicate OneRunPerSession(runs: seq<Run>) {
    forall i, j :: 0 <= i < j < |runs| ==> runs[i].project != runs[j].project || runs[i].session != runs[j].session
  }

  ghost predicate Numbered(reports: seq<Report>) {
    forall i :: 0 <= i < |reports| ==> reports[i].revision == ReportCount(reports[..i], reports[i].run) + 1
  }

  ghost predicate RevisionsCurrent(runs: seq<Run>, reports: seq<Report>) {
    forall r :: 0 <= r < |runs| ==> runs[r].revision == ReportCount(reports, r)
  }

  ghost predicate OnePerEvent(reports: seq<Report>) {
    forall i, j :: 0 <= i < j < |reports| ==> reports[i].event != reports[j].event
  }

  predicate ReportsEvent(events: seq<Event>, report: Report) {
    && report.event < |events|
    && EndsRun(events[report.event].kind)
    && report.run == events[report.event].run
    && (report.kind == Final <==> events[report.event].kind == SessionEnd)
  }

  /**
   A run's reports carry revisions 1 to its current one; each comes from one event that
   ends a turn or the session, and each event has at most one.
   */
  ghost predicate Revised(s: State) {
    && Numbered(s.reports)
    && RevisionsCurrent(s.runs, s.reports)
    && OnePerEvent(s.reports)
    && forall i :: 0 <= i < |s.reports| ==> ReportsEvent(s.events, s.reports[i])
  }

  ghost predicate HasFinal(reports: seq<Report>, r: nat) {
    exists i :: 0 <= i < |reports| && reports[i].run == r && reports[i].kind == Final
  }

  /** A run is completed exactly when it has a final report. */
  ghost predicate CompletedByFinal(s: State) {
    forall r :: 0 <= r < |s.runs| ==>
      (s.runs[r].completed <==> HasFinal(s.reports, r))
  }

  ghost predicate Counting(ids: seq<nat>, n: nat) {
    |ids| == n && forall k :: 0 <= k < n ==> ids[k] == k
  }

  ghost predicate Invariant(s: State) {
    && (forall i :: 0 <= i < |s.events| ==> s.events[i].run < |s.runs|)
    && Sequenced(s.events)
    && OneRunPerSession(s.runs)
    && Revised(s)
    && CompletedByFinal(s)
    && Counting(s.memories, |s.reports|)
    && Counting(s.outbox, |s.events|)
  }

  lemma SequencedPrefix(events: seq<Event>, n: nat)
    requires Sequenced(events) && n <= |events|
    ensures Sequenced(events[..n])
  {
    forall i | 0 <= i < n
      ensures events[..n][i].sequence == EventCount(events[..n][..i], events[..n][i].run) + 1
    {
      assert events[..n][..i] == events[..i];
    }
  }

  lemma {:induction false} LastIsCount(events: seq<Event>, run: nat)
    requires Sequenced(events)
    ensures LastSequence(events, run) == EventCount(events, run)
  {
    if |events| != 0 {
      SequencedPrefix(events, |events| - 1);
      LastIsCount(events[..|events| - 1], run);
    }
  }

  lemma {:induction false} SequenceExtends(events: seq<Event>, event: Event)
    requires Sequenced(events) && event.sequence == LastSequence(events, event.run) + 1
    requires FindEvent(events, event.run, event.key).None?
    ensures Sequenced(events + [event])
  {
    LastIsCount(events, event.run);
    var more := events + [event];
    forall i | 0 <= i < |more| ensures more[i].sequence == EventCount(more[..i], more[i].run) + 1 {
      assert more[..i] == events[..i];
      assert events[..|events|] == events;
    }
  }

  lemma {:induction false} NoReports(reports: seq<Report>, run: nat)
    requires forall i :: 0 <= i < |reports| ==> reports[i].run != run
    ensures ReportCount(reports, run) == 0
  {
    if |reports| != 0 {
      NoReports(reports[..|reports| - 1], run);
    }
  }

  /** An event was added, with its outbox row, and its run first if the session is new. */
  ghost predicate Appends(s: State, t: State, event: Event) {
    && t.events == s.events + [event] && t.outbox == s.outbox + [|s.events|]
    && t.reports == s.reports && t.memories == s.memories
    && event.sequence == LastSequence(s.events, event.run) + 1
    && FindEvent(s.events, event.run, event.key).None?
    && event.run < |t.runs|
    && (t.runs == s.runs || exists project, session ::
          FindRun(s.runs, project, session).None? && t.runs == s.runs + [Run(project, session, false, 0, NO_BASELINE)])
  }

  lemma AppendCases(s: State, project: string, session: string, key: string, kind: Kind, hash: string, git: seq<Field>)
    ensures var t := Append(s, project, session, key, kind, hash, git).0;
      t == s || exists event :: Appends(s, t, event)
  {
    var t := Append(s, project, session, key, kind, hash, git).0;
    if t != s {
      assert Appends(s, t, t.events[|s.events|]);
    }
  }

  lemma AppendedRuns(s: State, t: State, event: Event)
    requires Revised(s) && CompletedByFinal(s) && Appends(s, t, event)
    requires forall i :: 0 <= i < |s.events| ==> s.events[i].run < |s.runs|
    ensures RevisionsCurrent(t.runs, t.reports) && CompletedByFinal(t)
  {
    if t.runs != s.runs {
      forall i | 0 <= i < |s.reports| ensures s.reports[i].run < |s.runs| {
        assert ReportsEvent(s.events, s.reports[i]);
      }
      NoReports(s.reports, |s.runs|);
    }
  }

  lemma AppendedKeeps(s: State, t: State, event: Event)
    requires Invariant(s) && Appends(s, t, event)
    ensures Invariant(t)
  {
    SequenceExtends(s.events, event);
    AppendedRuns(s, t, event);
    forall i | 0 <= i < |t.reports| ensures ReportsEvent(t.events, t.reports[i]) {
      assert ReportsEvent(s.events, s.reports[i]);
    }
    assert OneRunPerSession(t.runs);
  }

  lemma AppendKeeps(s: State, project: string, session: string, key: string, kind: Kind, hash: string, git: seq<Field>)
    requires Invariant(s)
    ensures Invariant(Append(s, project, session, key, kind, hash, git).0)
  {
    var t := Append(s, project, session, key, kind, hash, git).0;
    AppendCases(s, project, session, key, kind, hash, git);
    if event :| Appends(s, t, event) {
      AppendedKeeps(s, t, event);
    }
  }

  /** A report was added for event e. */
  ghost predicate Reports(s: State, t: State, e: nat) {
    && e < |s.events| && s.events[e].run < |s.runs| && EndsRun(s.events[e].kind)
    && FindReport(s.reports, e).None?
    && t.events == s.events && t.outbox == s.outbox
    && |t.reports| == |s.reports| + 1 && t.reports[..|s.reports|] == s.reports
    && var r, report, run := s.events[e].run, t.reports[|s.reports|], s.runs[s.events[e].run];
    && report.run == r && report.event == e && report.revision == run.revision + 1
    && (report.kind == Final <==> s.events[e].kind == SessionEnd)
    && report.timeline == Timeline(s.events, r)
    && report.completed == (run.completed || report.kind == Final)
    && t.runs == s.runs[r := run.(completed := report.completed, revision := report.revision)]
    && t.memories == if |s.reports| in s.memories then s.memories else s.memories + [|s.reports|]
  }

  /** Only a run's baseline was set. */
  ghost predicate Baselines(s: State, t: State) {
    && t == s.(runs := t.runs) && |t.runs| == |s.runs|
    && forall r :: 0 <= r < |s.runs| ==> t.runs[r] == s.runs[r].(baseline := t.runs[r].baseline)
  }

  lemma HandleCases(s: State, e: nat)
    ensures var t := Handle(s, e).0; Baselines(s, t) || Reports(s, t, e)
  {
  }

  lemma {:induction false} NumberedExtends(reports: seq<Report>, report: Report)
    requires Numbered(reports) && report.revision == ReportCount(reports, report.run) + 1
    ensures Numbered(reports + [report])
  {
    var more := reports + [report];
    forall i | 0 <= i < |more| ensures more[i].revision == ReportCount(more[..i], more[i].run) + 1 {
      assert more[..i] == reports[..i];
      assert reports[..|reports|] == reports;
    }
  }

  lemma CurrentExtends(runs: seq<Run>, next: seq<Run>, reports: seq<Report>, report: Report)
    requires RevisionsCurrent(runs, reports) && report.run < |runs| == |next| && report.revision == runs[report.run].revision + 1
    requires forall r :: 0 <= r < |runs| ==> next[r].revision == if r == report.run then report.revision else runs[r].revision
    ensures RevisionsCurrent(next, reports + [report])
  {
    assert (reports + [report])[..|reports|] == reports;
  }

  lemma {:induction false} OneMorePerEvent(reports: seq<Report>, report: Report)
    requires OnePerEvent(reports) && FindReport(reports, report.event).None?
    ensures OnePerEvent(reports + [report])
  {
  }

  lemma ReportsItsEvent(s: State, t: State, e: nat)
    requires Reports(s, t, e)
    ensures ReportsEvent(t.events, t.reports[|s.reports|])
  {
  }

  lemma OneMoreEvent(events: seq<Event>, reports: seq<Report>, report: Report)
    requires ReportsEvent(events, report) && forall i :: 0 <= i < |reports| ==> ReportsEvent(events, reports[i])
    ensures forall i :: 0 <= i < |reports + [report]| ==> ReportsEvent(events, (reports + [report])[i])
  {
  }

  lemma ReportsKeepRevised(s: State, t: State, e: nat)
    requires Revised(s) && Reports(s, t, e)
    ensures Revised(t)
  {
    var report := t.reports[|s.reports|];
    assert t.reports == s.reports + [report];
    NumberedExtends(s.reports, report);
    CurrentExtends(s.runs, t.runs, s.reports, report);
    OneMorePerEvent(s.reports, report);
    ReportsItsEvent(s, t, e);
    OneMoreEvent(s.events, s.reports, report);
  }

  lemma ReportsKeepCompleted(s: State, t: State, e: nat)
    requires CompletedByFinal(s) && Reports(s, t, e)
    ensures CompletedByFinal(t)
  {
    var n := |s.reports|;
    assert t.reports == s.reports + [t.reports[n]];
    forall r | 0 <= r < |t.runs| ensures t.runs[r].completed <==> HasFinal(t.reports, r) {
      HasFinalExtends(s.reports, t.reports[n], r);
    }
  }

  lemma HasFinalExtends(reports: seq<Report>, report: Report, r: nat)
    ensures HasFinal(reports + [report], r) <==> HasFinal(reports, r) || (report.run == r && report.kind == Final)
  {
    var more := reports + [report];
    if i :| 0 <= i < |reports| && reports[i].run == r && reports[i].kind == Final {
      assert more[i] == reports[i];
    }
    if report.run == r && report.kind == Final {
      assert more[|reports|] == report;
    }
  }

  lemma BaselinesKeep(s: State, t: State)
    requires Invariant(s) && Baselines(s, t)
    ensures Invariant(t)
  {
  }

  lemma HandleKeeps(s: State, e: nat)
    requires Invariant(s)
    ensures Invariant(Handle(s, e).0)
  {
    var t := Handle(s, e).0;
    HandleCases(s, e);
    if Reports(s, t, e) {
      ReportsKeep(s, t, e);
    } else {
      BaselinesKeep(s, t);
    }
  }

  lemma ReportsKeep(s: State, t: State, e: nat)
    requires Invariant(s) && Reports(s, t, e)
    ensures Invariant(t)
  {
    ReportsKeepRevised(s, t, e);
    ReportsKeepCompleted(s, t, e);
    assert |s.reports| !in s.memories;
  }

  // ---------- runs ----------

  datatype Step =
    | AppendStep(project: string, session: string, key: string, kind: Kind, hash: string, git: seq<Field>)
    | Deliver(event: nat)

  function Apply(s: State, step: Step): State {
    match step
    case AppendStep(project, session, key, kind, hash, git) =>
      Append(s, project, session, key, kind, hash, git).0
    case Deliver(e) => Handle(s, e).0
  }

  ghost predicate Follows(s: State, step: Step, t: State) {
    t == Apply(s, step)
  }

  ghost predicate Trace(states: seq<State>, steps: seq<Step>) {
    && |states| == |steps| + 1
    && states[0] == State([], [], [], [], [])
    && forall k :: 0 <= k < |steps| ==> Follows(states[k], steps[k], states[k + 1])
  }

  /** Every reachable state satisfies the invariant. */
  lemma {:induction false} TraceInvariant(states: seq<State>, steps: seq<Step>, k: nat)
    requires Trace(states, steps) && k <= |steps|
    ensures Invariant(states[k])
  {
    if k != 0 {
      TraceInvariant(states, steps, k - 1);
      assert Follows(states[k - 1], steps[k - 1], states[k]);
      match steps[k - 1]
      case AppendStep(project, session, key, kind, hash, git) =>
        AppendKeeps(states[k - 1], project, session, key, kind, hash, git);
      case Deliver(e) => HandleKeeps(states[k - 1], e);
    }
  }

  /** What never changes back: events and reports stay, a completed run stays completed. */
  ghost predicate Grows(s: State, t: State) {
    && s.events <= t.events && s.reports <= t.reports && s.memories <= t.memories && |s.runs| <= |t.runs|
    && forall r :: 0 <= r < |s.runs| ==>
      (s.runs[r].completed ==> t.runs[r].completed) && s.runs[r].revision <= t.runs[r].revision
  }

  lemma StepGrows(s: State, step: Step, t: State)
    requires Follows(s, step, t)
    ensures Grows(s, t)
  {
    if step.Deliver? {
      HandleCases(s, step.event);
      if Reports(s, t, step.event) {
        assert t.reports == s.reports + [t.reports[|s.reports|]];
      }
    }
  }

  lemma {:induction false} TraceGrows(states: seq<State>, steps: seq<Step>, a: nat, b: nat)
    requires Trace(states, steps) && a <= b <= |steps|
    ensures Grows(states[a], states[b])
    decreases b
  {
    if a < b {
      TraceGrows(states, steps, a, b - 1);
      assert Follows(states[b - 1], steps[b - 1], states[b]);
      StepGrows(states[b - 1], steps[b - 1], states[b]);
    }
  }

  /** Delivering an event twice in a row is delivering it once. */
  lemma HandleIdempotent(s: State, e: nat)
    ensures Handle(Handle(s, e).0, e).0 == Handle(s, e).0
  {
    var t := Handle(s, e).0;
    HandleCases(s, e);
    if Reports(s, t, e) {
      assert t.reports[|s.reports|].event == e;
    }
  }

  /**
   Under any order and repetition of deliveries: once an event that ends a turn or the
   session has been delivered it has exactly one report, made by its first delivery, and
   every later delivery changes nothing.
   */
  lemma DeliveredIsReportedOnce(states: seq<State>, steps: seq<Step>, e: nat, a: nat, b: nat) returns (report: nat)
    requires Trace(states, steps) && a < b <= |steps|
    requires steps[a] == Deliver(e) && e < |states[a].events| && EndsRun(states[a].events[e].kind)
    ensures report < |states[a + 1].reports| <= |states[b].reports|
    ensures states[b].reports[report] == states[a + 1].reports[report]
    ensures forall i :: 0 <= i < |states[b].reports| ==> (states[b].reports[i].event == e <==> i == report)
    ensures forall i :: 0 <= i < |states[b].memories| ==> (states[b].memories[i] == report <==> i == report)
    ensures report < |states[b].memories|
    ensures Handle(states[b], e) == (states[b], Some(Some(report)))
  {
    TraceInvariant(states, steps, b);
    TraceGrows(states, steps, a, b);
    TraceGrows(states, steps, a + 1, b);
    assert Follows(states[a], steps[a], states[a + 1]);
    TraceInvariant(states, steps, a);
    report := HandledOnce(states[a], e);
    ReportedOnce(states[b], e, report);
  }

  lemma HandledOnce(s: State, e: nat) returns (report: nat)
    requires e < |s.events| && s.events[e].run < |s.runs| && EndsRun(s.events[e].kind)
    ensures report < |Handle(s, e).0.reports| && Handle(s, e).0.reports[report].event == e
  {
    HandleCases(s, e);
    report := Handle(s, e).1.value.value;
  }

  lemma ReportedOnce(s: State, e: nat, report: nat)
    requires Invariant(s) && report < |s.reports| && s.reports[report].event == e && e < |s.events|
    ensures forall i :: 0 <= i < |s.reports| ==> (s.reports[i].event == e <==> i == report)
    ensures report < |s.memories| && forall i :: 0 <= i < |s.memories| ==> (s.memories[i] == report <==> i == report)
    ensures Handle(s, e) == (s, Some(Some(report)))
  {
    assert ReportsEvent(s.events, s.reports[report]);
    assert FindReport(s.reports, e).Some?;
  }

  /** The report an ending event makes of its run as it is now. */
  function NewReport(s: State, e: nat): Report
    requires e < |s.events| && s.events[e].run < |s.runs|
  {
    var event, run := s.events[e], s.runs[s.events[e].run];
    var kind := if event.kind == Stop then Checkpoint else Final;
    Report(event.run, e, run.revision + 1, kind, run.completed || kind == Final,
           Uncertain(run.baseline), run.baseline, Timeline(s.events, event.run))
  }

  lemma {:induction false} ReportMade(s: State, e: nat)
    requires e < |s.events| && s.events[e].run < |s.runs| && EndsRun(s.events[e].kind) && FindReport(s.reports, e).None?
    ensures var t := Handle(s, e).0;
      && t.reports == s.reports + [NewReport(s, e)] && t.events == s.events
      && |t.runs| == |s.runs| && t.runs[s.events[e].run].baseline == s.runs[s.events[e].run].baseline
  {
  }

  lemma BaselineTaken(s: State, e: nat)
    requires e < |s.events| && s.events[e].run < |s.runs| && s.events[e].kind == PreToolUse
    ensures var r := s.events[e].run;
      Handle(s, e).0 ==
        if s.runs[r].baseline.available.None? then SetRun(s, r, s.runs[r].(baseline := Capture(s.events[e].git))) else s
  {
  }

  /** The two reports of an ending event: with a baseline event delivered before it, and after it. */
  function BothOrders(s: State, pre: nat, stop: nat): (seq<Report>, seq<Report>) {
    (Handle(Handle(s, pre).0, stop).0.reports, Handle(Handle(s, stop).0, pre).0.reports)
  }

  ghost predicate InOneRun(s: State, pre: nat, stop: nat) {
    && pre < |s.events| && stop < |s.events| && s.events[pre].run == s.events[stop].run < |s.runs|
    && s.events[pre].kind == PreToolUse && EndsRun(s.events[stop].kind) && FindReport(s.reports, stop).None?
  }

  /** The baseline a run has after a baseline event. */
  function BaselineAfter(s: State, pre: nat): Baseline
    requires pre < |s.events| && s.events[pre].run < |s.runs|
  {
    var baseline := s.runs[s.events[pre].run].baseline;
    if baseline.available.None? then Capture(s.events[pre].git) else baseline
  }

  lemma BothOrdersAre(s: State, pre: nat, stop: nat)
    requires InOneRun(s, pre, stop)
    ensures var baseline, report := BaselineAfter(s, pre), NewReport(s, stop);
      BothOrders(s, pre, stop)
      == (s.reports + [report.(git := baseline, uncertain := Uncertain(baseline))], s.reports + [report])
  {
    ReportMade(s, stop);
    BaselineTaken(Handle(s, stop).0, pre);
    BaselineThenReport(s, pre, stop);
  }

  /** The state after a baseline event: the run's baseline at most is different. */
  function AfterBaseline(s: State, pre: nat): State
    requires pre < |s.events| && s.events[pre].run < |s.runs|
  {
    SetRun(s, s.events[pre].run, s.runs[s.events[pre].run].(baseline := BaselineAfter(s, pre)))
  }

  lemma BaselineHandled(s: State, pre: nat)
    requires pre < |s.events| && s.events[pre].run < |s.runs| && s.events[pre].kind == PreToolUse
    ensures Handle(s, pre).0 == AfterBaseline(s, pre)
  {
    BaselineTaken(s, pre);
    var r := s.events[pre].run;
    assert s.runs[r := s.runs[r]] == s.runs;
  }

  lemma {:induction false} ReportOn(s: State, stop: nat, baseline: Baseline)
    requires stop < |s.events| && s.events[stop].run < |s.runs|
    requires EndsRun(s.events[stop].kind) && FindReport(s.reports, stop).None?
    ensures var r := s.events[stop].run;
      Handle(SetRun(s, r, s.runs[r].(baseline := baseline)), stop).0.reports
      == s.reports + [NewReport(s, stop).(git := baseline, uncertain := Uncertain(baseline))]
  {
    var r := s.events[stop].run;
    ReportMade(SetRun(s, r, s.runs[r].(baseline := baseline)), stop);
  }

  lemma BaselineThenReport(s: State, pre: nat, stop: nat)
    requires InOneRun(s, pre, stop)
    ensures var baseline := BaselineAfter(s, pre);
      Handle(Handle(s, pre).0, stop).0.reports
      == s.reports + [NewReport(s, stop).(git := baseline, uncertain := Uncertain(baseline))]
  {
    BaselineHandled(s, pre);
    ReportOn(s, stop, BaselineAfter(s, pre));
  }

  /**
   When the order of delivery shows in a report: a baseline event delivered before the ending
   event makes a different report from one delivered after it exactly when the run does not
   yet know whether Git is available and the event would change its baseline.  The reports
   differ in the baseline they carry, and in whether they are uncertain when the two
   baselines do; in nothing else.
   */
  lemma BaselineOrderExact(s: State, pre: nat, stop: nat)
    requires InOneRun(s, pre, stop)
    ensures var (before, after) := BothOrders(s, pre, stop);
      var n, run, captured := |s.reports|, s.runs[s.events[pre].run], Capture(s.events[pre].git);
      && |before| == |after| == n + 1
      && (before != after <==> run.baseline.available.None? && run.baseline != captured)
      && (before[n].uncertain != after[n].uncertain
          <==> run.baseline.available.None? && Uncertain(run.baseline) != Uncertain(captured))
      && after[n].git == run.baseline
      && after[n] == before[n].(git := after[n].git, uncertain := after[n].uncertain)
  {
    BothOrdersAre(s, pre, stop);
  }

  /** On a run without any baseline: exactly when the event records anything at all. */
  lemma FirstBaselineOrder(s: State, pre: nat, stop: nat)
    requires InOneRun(s, pre, stop) && s.runs[s.events[pre].run].baseline == NO_BASELINE
    ensures var (before, after) := BothOrders(s, pre, stop);
      before != after <==> Capture(s.events[pre].git) != NO_BASELINE
  {
    BaselineOrderExact(s, pre, stop);
  }

  /** Git is available and its status is clean. */
  const CLEAN_GIT := [Field("available", Bool(true)), Field("status_porcelain", Str(""))]

  lemma CleanGit(git: seq<Field>)
    requires git == CLEAN_GIT
    ensures Capture(git) == NO_BASELINE.(available := Some(true))
  {
    assert git[1..][1..] == [];
    forall key ensures Lookup(git, key) ==
      if key == "available" then Some(Bool(true)) else if key == "status_porcelain" then Some(Str("")) else None
    {
    }
  }

  /** A session with a clean first baseline and an ending event, neither delivered yet. */
  function CleanSession(project: string, session: string, ending: Kind): State {
    var run, pre := Run(project, session, false, 0, NO_BASELINE), Event(0, "1", PreToolUse, 1, "", CLEAN_GIT);
    State([run], [pre, Event(0, "2", ending, 2, "", [])], [], [], [0, 1])
  }

  /** The first event of a session nobody has reported on yet. */
  lemma FirstEvent(project: string, session: string, key: string, git: seq<Field>)
    requires !IsBlank(session) && !IsBlank(key)
    ensures Append(State([], [], [], [], []), project, session, key, PreToolUse, "", git).0 ==
      State([Run(project, session, false, 0, NO_BASELINE)], [Event(0, key, PreToolUse, 1, "", git)], [], [], [0])
  {
  }

  lemma SecondEvent(run: Run, first: Event, key: string, ending: Kind)
    requires first.run == 0 && first.sequence == 1 && first.key != key && !IsBlank(run.session) && !IsBlank(key)
    ensures Append(State([run], [first], [], [], [0]), run.project, run.session, key, ending, "", []).0 ==
      State([run], [first, Event(0, key, ending, 2, "", [])], [], [], [0, 1])
  {
    assert [first][..0] == [] && [run][..0] == [];
    assert FindRun([run], run.project, run.session) == Some(0);
    assert FindEvent([first][..0], 0, key) == None && FindEvent([first], 0, key) == None;
    assert LastSequence([first][..0], 0) == 0 && LastSequence([first], 0) == 1;
    assert [first] + [Event(0, key, ending, 2, "", [])] == [first, Event(0, key, ending, 2, "", [])];
    assert [0] + [1] == [0, 1];
  }

  lemma CleanSessionReached(project: string, session: string, ending: Kind)
    requires !IsBlank(session)
    ensures CleanSession(project, session, ending) ==
      Append(Append(State([], [], [], [], []), project, session, "1", PreToolUse, "", CLEAN_GIT).0,
             project, session, "2", ending, "", []).0
  {
    assert !IsSpace("1"[0]) && !IsSpace("2"[0]);
    FirstEvent(project, session, "1", CLEAN_GIT);
    SecondEvent(Run(project, session, false, 0, NO_BASELINE), Event(0, "1", PreToolUse, 1, "", CLEAN_GIT), "2", ending);
  }

  lemma CleanShows(s: State, pre: nat, stop: nat)
    requires InOneRun(s, pre, stop) && s.runs[s.events[pre].run].baseline == NO_BASELINE
    requires s.events[pre].git == CLEAN_GIT
    ensures var (before, after) := BothOrders(s, pre, stop);
      && |before| == |after| == |s.reports| + 1
      && before[|s.reports|].git != after[|s.reports|].git
      && !before[|s.reports|].uncertain && !after[|s.reports|].uncertain
  {
    CleanGit(s.events[pre].git);
    BothOrdersAre(s, pre, stop);
  }

  /** Neither of the two reports of such a session is uncertain, and still they differ. */
  lemma CleanBaselineShows(project: string, session: string, ending: Kind)
    requires EndsRun(ending)
    ensures var (before, after) := BothOrders(CleanSession(project, session, ending), 0, 1);
      |before| == |after| == 1 && before[0] != after[0] && !before[0].uncertain && !after[0].uncertain
  {
    var s := CleanSession(project, session, ending);
    assert FindReport(s.reports, 1) == None;
    CleanShows(s, 0, 1);
  }
}
