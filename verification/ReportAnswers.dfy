/** What appending and handling a task event do, condition by condition. */
module ReportAnswers {
  import opened Prelude
  import opened Json
  import opened ReportProjection

  // ---------- events ----------

  /** Event e is the session's under the key. */
  predicate IsKnown(s: State, project: string, session: string, key: string, e: nat) {
    && e < |s.events| && s.events[e].key == key && s.events[e].run < |s.runs|
    && s.runs[s.events[e].run].project == project && s.runs[s.events[e].run].session == session
  }

  /** Run r is the session's; it is the one there was, or a new one if there was none. */
  ghost predicate InSession(runs: seq<Run>, after: seq<Run>, project: string, session: string, r: nat) {
    && r < |after| && after[r].project == project && after[r].session == session
    && (|| after == runs
        || (&& after == runs + [Run(project, session, false, 0, NO_BASELINE)] && r == |runs|
            && forall i :: 0 <= i < |runs| ==> runs[i].project != project || runs[i].session != session))
  }

  lemma RunFound(s: State, project: string, session: string, key: string, e: nat)
    requires Invariant(s) && IsKnown(s, project, session, key, e)
    ensures FindRun(s.runs, project, session) == Some(s.events[e].run)
    ensures FindEvent(s.events, s.events[e].run, key) == Some(e)
  {
    var r := FindRun(s.runs, project, session).value;
    assert r == s.events[e].run;
    var found := FindEvent(s.events, r, key).value;
    assert found == e;
  }

  /** An event under a known key changes nothing: it is the one there is, or in conflict with it. */
  lemma AppendKnown(s: State, project: string, session: string, key: string, kind: Kind, hash: string, git: seq<Field>, e: nat)
    requires Invariant(s) && !IsBlank(session) && !IsBlank(key) && IsKnown(s, project, session, key, e)
    ensures Append(s, project, session, key, kind, hash, git) ==
      (s, if s.events[e].hash == hash then Duplicate(e) else Conflict(e))
  {
    RunFound(s, project, session, key, e);
  }

  lemma {:induction false} NotFound(s: State, project: string, session: string, key: string, r: nat)
    requires forall e: nat :: !IsKnown(s, project, session, key, e)
    requires r < |s.runs| ==> s.runs[r].project == project && s.runs[r].session == session
    requires forall i :: 0 <= i < |s.events| ==> s.events[i].run < |s.runs|
    ensures FindEvent(s.events, r, key) == None
  {
    var found := FindEvent(s.events, r, key);
    if found.Some? {
      assert IsKnown(s, project, session, key, found.value);
    }
  }

  /**
   Under a new key it is the session's next event, with a row in the outbox; a session or a
   key that is blank is refused.
   */
  lemma AppendNew(s: State, project: string, session: string, key: string, kind: Kind, hash: string, git: seq<Field>)
    requires Invariant(s) && forall e: nat :: !IsKnown(s, project, session, key, e)
    ensures var (t, reply) := Append(s, project, session, key, kind, hash, git);
      if IsBlank(session) || IsBlank(key) then t == s && reply == Invalid
      else
        && reply == Accepted(|s.events|) && |t.events| == |s.events| + 1
        && t == s.(runs := t.runs, events := s.events + [t.events[|s.events|]], outbox := s.outbox + [|s.events|])
        && var event := t.events[|s.events|];
        && InSession(s.runs, t.runs, project, session, event.run)
        && event == Event(event.run, key, kind, EventCount(s.events, event.run) + 1, hash, git)
  {
    var found := FindRun(s.runs, project, session);
    var r := if found.Some? then found.value else |s.runs|;
    NotFound(s, project, session, key, r);
    LastIsCount(s.events, r);
  }

  // ---------- the timeline ----------

  /** The timeline of a run names its events from the first to the last. */
  lemma {:induction false} TimelineExact(events: seq<Event>, run: nat)
    requires Sequenced(events)
    ensures |Timeline(events, run)| == EventCount(events, run)
    ensures forall k :: 0 <= k < |Timeline(events, run)| ==> Timeline(events, run)[k] == k + 1
  {
    if |events| != 0 {
      var n := |events| - 1;
      SequencedPrefix(events, n);
      TimelineExact(events[..n], run);
    }
  }

  // ---------- the baseline ----------

  /** The status a Git record gives: under one key if it is a text with anything in it, else under the other. */
  function StatusText(git: seq<Field>): string {
    match Lookup(git, "status_porcelain")
    case Some(Str(text)) => if text != "" then text else OtherStatus(git)
    case _ => OtherStatus(git)
  }

  function OtherStatus(git: seq<Field>): string {
    match Lookup(git, "status") case Some(Str(text)) => text case _ => ""
  }

  /** Git is not available: it says so, or says nothing at all. */
  predicate Unavailable(git: seq<Field>) {
    git == [] || Lookup(git, "available") == Some(Bool(false))
  }

  /** Whether Git is available is what the record says of it, or whether there is a record at all. */
  lemma AvailableExact(git: seq<Field>)
    ensures Capture(git).available == Some(false) <==> Unavailable(git)
    ensures Capture(git).available == Some(true) <==>
      Lookup(git, "available") == Some(Bool(true)) || (git != [] && !Has(git, "available"))
  {
    assert git == [] ==> Lookup(git, "available") == None;
  }

  lemma StatusCaptured(git: seq<Field>)
    ensures Capture(git).porcelain.Some? && !IsBlank(Capture(git).porcelain.value) <==> !IsBlank(StatusText(git))
  {
    assert IsBlank("");
  }

  /** A run is uncertain of its baseline exactly when Git was not available or not clean. */
  lemma UncertainExact(git: seq<Field>)
    ensures Uncertain(Capture(git)) <==> Unavailable(git) || !IsBlank(StatusText(git))
  {
    StatusCaptured(git);
    assert git == [] ==> Lookup(git, "available") == None;
  }

  // ---------- reports ----------

  /** A new report on event e, with all it says of its run. */
  ghost predicate NewReportOn(s: State, t: State, e: nat) {
    && e < |s.events| && s.events[e].run < |s.runs|
    && var r, kind := s.events[e].run, s.events[e].kind;
    && |t.reports| == |s.reports| + 1 && t.reports[..|s.reports|] == s.reports
    && var report := t.reports[|s.reports|];
    && report.run == r && report.event == e
    && report.kind == (if kind == SessionEnd then Final else Checkpoint)
    && report.revision == ReportCount(s.reports, r) + 1
    && report.completed == (s.runs[r].completed || kind == SessionEnd)
    && report.git == s.runs[r].baseline && report.uncertain == Uncertain(s.runs[r].baseline)
    && |report.timeline| == EventCount(s.events, r)
    && (forall k :: 0 <= k < |report.timeline| ==> report.timeline[k] == k + 1)
    && t == s.(runs := t.runs, reports := t.reports, memories := s.memories + [|s.reports|])
    && t.runs == s.runs[r := s.runs[r].(completed := report.completed, revision := report.revision)]
  }

  /**
   A delivery, answered: an ending event gets one report, found again ever after; the first
   baseline event of a run that does not know of Git sets its baseline; others do nothing.
   */
  lemma HandleExact(s: State, e: nat)
    requires Invariant(s)
    ensures var (t, reply) := Handle(s, e);
      if e >= |s.events| then t == s && reply == None
      else if s.events[e].kind == Stop || s.events[e].kind == SessionEnd then
        if exists i :: 0 <= i < |s.reports| && s.reports[i].event == e then
          t == s && reply.Some? && reply.value.Some? && reply.value.value < |s.reports| && s.reports[reply.value.value].event == e
        else NewReportOn(s, t, e) && reply == Some(Some(|s.reports|))
      else
        && reply == Some(None)
        && var r := s.events[e].run;
        if s.events[e].kind == PreToolUse && s.runs[r].baseline.available == None then
          t == s.(runs := s.runs[r := s.runs[r].(baseline := Capture(s.events[e].git))])
        else t == s
  {
    if e < |s.events| && EndsRun(s.events[e].kind) && FindReport(s.reports, e).None? {
      ReportIsNew(s, e);
    }
  }

  lemma ReportIsNew(s: State, e: nat)
    requires Invariant(s) && e < |s.events| && EndsRun(s.events[e].kind) && FindReport(s.reports, e).None?
    ensures NewReportOn(s, Handle(s, e).0, e) && Handle(s, e).1 == Some(Some(|s.reports|))
  {
    TimelineExact(s.events, s.events[e].run);
    assert |s.reports| !in s.memories;
  }
}
