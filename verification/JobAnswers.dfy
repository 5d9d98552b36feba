/** What each call on the queue does, field by field, in every consistent state. */
module JobAnswers {
  import opened Prelude
  import opened JobQueue
  import opened JobGuarantees
  import opened JobRuns

  // ---------- in words of its own ----------

  /** The job's last attempt ended so, and the earlier ones are as they were. */
  ghost predicate LastEnds(before: seq<Attempt>, after: seq<Attempt>, outcome: JobQueue.Outcome) {
    var n := |before|;
    && n > 0 && |after| == n && after[..n - 1] == before[..n - 1]
    && after[n - 1] == Attempt(before[n - 1].number, before[n - 1].worker, outcome)
  }

  /** The job's event, where it has one, got this status and is free again. */
  ghost predicate EventGets(before: Option<Event>, after: Option<Event>, status: EventStatus) {
    && (before.Some? <==> after.Some?)
    && (before.Some? ==>
          && after.value.status == status && after.value.lease == None
          && SameEvent(before.value, after.value))
  }

  /** So did its next attempt. */
  ghost predicate EventWaits(before: Option<Event>, after: Option<Event>, status: EventStatus, next: int) {
    EventGets(before, after, status) && (before.Some? ==> after.value.nextAttempt == next)
  }

  ghost predicate EventKeepsTime(before: Option<Event>, after: Option<Event>) {
    before.Some? && after.Some? ==> after.value.nextAttempt == before.value.nextAttempt
  }

  /** The job is free: no owner and no lease. */
  predicate Free(job: Job) {
    job.owner == None && job.lease == None
  }

  // ---------- the worker ----------

  /** The lease of a running job has run out. */
  predicate RanOut(job: Job, now: int) {
    job.status == Running && job.lease.Some? && job.lease.value <= now
  }

  /** A live lease of the worker's. */
  predicate Holds(job: Job, worker: string, now: int) {
    job.status == Running && job.owner == Some(worker) && (job.lease.Some? ==> now < job.lease.value)
  }

  /** What becomes of a job whose last attempt came to nothing: it waits until `next`, or is dead. */
  ghost predicate WaitsOrDies(a: Slot, b: Slot, again: bool, next: int) {
    && Free(b.job) && SameJob(a.job, b.job) && b.job.attemptCount == a.job.attemptCount
    && (again ==> b.job.status == RetryWait && b.job.nextAttempt == next && EventWaits(a.event, b.event, Retrying, next))
    && (!again ==>
          b.job.status == Dead && b.job.nextAttempt == a.job.nextAttempt
          && EventWaits(a.event, b.event, Lost, a.job.nextAttempt))
  }

  /**
   A sweep puts a running job whose lease has run out back at once when it has an attempt
   left, declares it dead otherwise, abandons its attempt either way, and touches no other job.
   */
  lemma SweepExact(s: State, now: int, i: nat)
    requires Consistent(s) && IsJob(s, i)
    ensures IsJob(Apply(s, Sweep(now)), i)
    ensures var a, b := SlotOf(s, i), SlotOf(Apply(s, Sweep(now)), i);
      && (RanOut(a.job, now) ==>
            && WaitsOrDies(a, b, a.job.attemptCount < a.job.maxAttempts, now)
            && LastEnds(a.attempts, b.attempts, Abandoned))
      && (!RanOut(a.job, now) ==> b == a)
  {
    StepProjects(s, Sweep(now));
    var a := SlotOf(s, i);
    if |a.attempts| > 0 {
      LatestIsLast(a.attempts);
    }
  }

  /** What a worker that fails a job must wait: 1, 2, 4, ... seconds, and never more than `limit`. */
  function Delay(attempt: nat, limit: int): int
    requires attempt >= 1
  {
    if Power2(attempt - 1) < limit then Power2(attempt - 1) else limit
  }

  /**
   A failure reported under a live lease puts the job off by the delay when it may be retried
   and has an attempt left, and declares it dead otherwise; any other report changes nothing.
   */
  lemma FailExact(s: State, j: nat, worker: string, now: int, retryable: bool, limit: int, i: nat)
    requires Consistent(s) && IsJob(s, i)
    ensures var t := Apply(s, Fail(j, worker, now, retryable, limit));
      && IsJob(t, i)
      && var a, b := SlotOf(s, i), SlotOf(t, i);
      && (i == j && Holds(a.job, worker, now) ==>
            && a.job.attemptCount >= 1
            && WaitsOrDies(a, b, retryable && a.job.attemptCount < a.job.maxAttempts, now + Delay(a.job.attemptCount, limit))
            && LastEnds(a.attempts, b.attempts, Failure))
      && (i != j || !Holds(a.job, worker, now) ==> b == a)
  {
    StepProjects(s, Fail(j, worker, now, retryable, limit));
    var a := SlotOf(s, i);
    if |a.attempts| > 0 {
      LatestIsLast(a.attempts);
    }
  }

  /** A completion reported under a live lease settles the job, its attempt and its event; any other changes nothing. */
  lemma CompleteExact(s: State, j: nat, worker: string, now: int, i: nat)
    requires Consistent(s) && IsJob(s, i)
    ensures var t := Apply(s, Complete(j, worker, now));
      && IsJob(t, i)
      && var a, b := SlotOf(s, i), SlotOf(t, i);
      && (i == j && Holds(a.job, worker, now) ==>
            && b.job.status == Succeeded && Free(b.job) && SameJob(a.job, b.job)
            && b.job.attemptCount == a.job.attemptCount && b.job.nextAttempt == a.job.nextAttempt
            && LastEnds(a.attempts, b.attempts, Success)
            && EventGets(a.event, b.event, Completed) && EventKeepsTime(a.event, b.event))
      && (i != j || !Holds(a.job, worker, now) ==> b == a)
  {
    StepProjects(s, Complete(j, worker, now));
    var a := SlotOf(s, i);
    if |a.attempts| > 0 {
      LatestIsLast(a.attempts);
    }
  }

  /** A heartbeat under a live lease makes it last `leaseSeconds` from now, and does nothing else. */
  lemma HeartbeatExact(s: State, j: nat, worker: string, now: int, leaseSeconds: int, i: nat)
    requires Consistent(s) && IsJob(s, i)
    ensures var t := Apply(s, Heartbeat(j, worker, now, leaseSeconds));
      && IsJob(t, i)
      && var a, b := SlotOf(s, i), SlotOf(t, i);
      && (i == j && Holds(a.job, worker, now) ==>
            && b == a.(job := b.job) && b.job == a.job.(lease := b.job.lease)
            && b.job.lease == Some(now + leaseSeconds))
      && (i != j || !Holds(a.job, worker, now) ==> b == a)
  {
    StepProjects(s, Heartbeat(j, worker, now, leaseSeconds));
  }

  /**
   A claim starts the next attempt of each picked job, under a lease of `leaseSeconds` from
   now, and touches neither events nor other jobs.
   */
  lemma ClaimExact(s: State, worker: string, now: int, picked: seq<nat>, leaseSeconds: int, i: nat)
    requires Consistent(s) && Enabled(s, Claim(worker, now, picked, leaseSeconds)) && IsJob(s, i)
    ensures var t := Apply(s, Claim(worker, now, picked, leaseSeconds));
      && IsJob(t, i)
      && var a, b := SlotOf(s, i), SlotOf(t, i);
      && b.event == a.event
      && (i in picked ==>
            && a.job.status in {Pending, RetryWait} && a.job.nextAttempt <= now
            && b.job.status == Running && b.job.owner == Some(worker) && b.job.lease == Some(now + leaseSeconds)
            && SameJob(a.job, b.job) && b.job.nextAttempt == a.job.nextAttempt
            && b.job.attemptCount == a.job.attemptCount + 1
            && |b.attempts| == |a.attempts| + 1 && b.attempts[..|a.attempts|] == a.attempts
            && b.attempts[|a.attempts|] == Attempt(|b.attempts|, worker, InProgress))
      && (i !in picked ==> b == a)
  {
    StepProjects(s, Claim(worker, now, picked, leaseSeconds));
  }

  // ---------- and so ----------

  /** A job that outlived its worker's lease with an attempt left can be claimed as soon as it is swept. */
  lemma SweptRunsAgain(s: State, now: int, i: nat, worker: string, leaseSeconds: int)
    requires Consistent(s) && IsJob(s, i) && RanOut(s.jobs[i], now)
    ensures var t := Apply(s, Sweep(now));
      && |t.jobs| == |t.attempts|
      && (Enabled(t, Claim(worker, now, [i], leaseSeconds)) <==> s.jobs[i].attemptCount < s.jobs[i].maxAttempts)
      && (Enabled(t, Claim(worker, now, [i], leaseSeconds)) ==>
            var u := Apply(t, Claim(worker, now, [i], leaseSeconds));
            IsJob(u, i) && Holds(u.jobs[i], worker, now + leaseSeconds - 1)
            && u.jobs[i].attemptCount == s.jobs[i].attemptCount + 1)
  {
    var t := Apply(s, Sweep(now));
    StepProjects(s, Sweep(now));
    SweepExact(s, now, i);
    assert SlotOf(t, i).job == t.jobs[i];
    if Enabled(t, Claim(worker, now, [i], leaseSeconds)) {
      assert [i][0] == i;
      ClaimExact(t, worker, now, [i], leaseSeconds, i);
      assert i in [i];
    }
  }

  /** After a failure a job can be claimed from the end of the delay on, not earlier, and never if it may not be retried. */
  lemma FailedWaits(s: State, i: nat, worker: string, now: int, retryable: bool, limit: int, later: int)
    requires Consistent(s) && IsJob(s, i) && Holds(s.jobs[i], worker, now)
    ensures var t := Apply(s, Fail(i, worker, now, retryable, limit));
      && s.jobs[i].attemptCount >= 1 && IsJob(t, i)
      && (Claimable(t.jobs[i], later) <==>
            retryable && s.jobs[i].attemptCount < s.jobs[i].maxAttempts
            && now + Delay(s.jobs[i].attemptCount, limit) <= later)
  {
    FailExact(s, i, worker, now, retryable, limit, i);
    assert SlotOf(s, i).job == s.jobs[i];
    assert SlotOf(Apply(s, Fail(i, worker, now, retryable, limit)), i).job.nextAttempt
      == Apply(s, Fail(i, worker, now, retryable, limit)).jobs[i].nextAttempt;
  }

  // ---------- the administrator ----------

  /** The job is free and due now. */
  ghost predicate DueNow(a: Slot, b: Slot, now: int) {
    && b.job.status == Pending && Free(b.job) && b.job.nextAttempt == now
    && SameJob(a.job, b.job) && b.job.attemptCount == a.job.attemptCount && b.attempts == a.attempts
  }

  /** Retrying and replaying make a job due now, and differ in the event: a retry leaves it alone. */
  lemma PutBackExact(s: State, j: nat, now: int, i: nat)
    requires Consistent(s) && IsJob(s, i)
    ensures var t := Apply(s, Retry(j, now));
      && IsJob(t, i)
      && var a, b := SlotOf(s, i), SlotOf(t, i);
      if i == j && a.job.status in {Dead, RetryWait} then DueNow(a, b, now) && b.event == a.event else b == a
    ensures var t := Apply(s, ReplayJob(j, now));
      && IsJob(t, i)
      && var a, b := SlotOf(s, i), SlotOf(t, i);
      if i == j && a.job.status in {Dead, RetryWait, Cancelled}
      then DueNow(a, b, now) && EventWaits(a.event, b.event, Waiting, now) else b == a
  {
    StepProjects(s, Retry(j, now));
    StepProjects(s, ReplayJob(j, now));
  }

  /** Cancelling stops any job that is not finished, leaves its attempts as they are, and gives its event up. */
  lemma CancelExact(s: State, j: nat, i: nat)
    requires Consistent(s) && IsJob(s, i)
    ensures var t := Apply(s, Cancel(j));
      && IsJob(t, i)
      && var a, b := SlotOf(s, i), SlotOf(t, i);
      if i == j && a.job.status in {Pending, Running, RetryWait} then
        && b.job.status == Cancelled && Free(b.job) && SameJob(a.job, b.job)
        && b.job.attemptCount == a.job.attemptCount && b.job.nextAttempt == a.job.nextAttempt && b.attempts == a.attempts
        && EventGets(a.event, b.event, Lost) && EventKeepsTime(a.event, b.event)
      else b == a
  {
    StepProjects(s, Cancel(j));
  }

  /** Replaying an event makes it wait again, and its job due now when that has stopped. */
  lemma ReplayEventExact(s: State, e: nat, now: int, i: nat)
    requires Consistent(s) && IsJob(s, i)
    ensures var t := Apply(s, ReplayEvent(e, now));
      && IsJob(t, i)
      && var a, b := SlotOf(s, i), SlotOf(t, i);
      if a.job.event == Some(e) && a.event.Some? && a.event.value.status in {Lost, Retrying, Dispatched} then
        && EventWaits(a.event, b.event, Waiting, now)
        && (if a.job.status in {Dead, RetryWait, Cancelled} then DueNow(a, b, now) else b == a.(event := b.event))
      else b == a
  {
    StepProjects(s, ReplayEvent(e, now));
  }

  /** A job made by the replay of a project, for one of the messages. */
  predicate IsReplay(job: Job, project: nat, jobType: string, messages: seq<nat>, now: int) {
    && job.key.Replay? && job.key.jobType == jobType && job.key.message in messages
    && job.project == project && job.jobType == jobType && job.event == None && job.idempotency == None
    && job.status == Pending && Free(job) && job.attemptCount == 0 && job.maxAttempts == 5 && job.nextAttempt == now
  }

  ghost predicate Replays(s: State, t: State, project: nat, jobType: string, messages: seq<nat>, now: int) {
    && t.events == s.events && s.jobs <= t.jobs && s.attempts <= t.attempts && |t.jobs| == |t.attempts|
    && (forall k :: 0 <= k < |messages| ==> KeyTaken(t.jobs, Replay(jobType, messages[k])))
    && (forall j :: |s.jobs| <= j < |t.jobs| ==> IsReplay(t.jobs[j], project, jobType, messages, now) && t.attempts[j] == [])
  }

  lemma KeyStaysTaken(jobs: seq<Job>, more: seq<Job>, key: Key)
    requires KeyTaken(jobs, key) && jobs <= more
    ensures KeyTaken(more, key)
  {
    var j :| 0 <= j < |jobs| && jobs[j].key == key;
    assert more[j] == jobs[j];
  }

  lemma {:induction false} ReplayedMore(
    s: State, t: State, u: State, project: nat, jobType: string, messages: seq<nat>, message: nat, now: int)
    requires Replays(s, t, project, jobType, messages, now)
    requires t.jobs <= u.jobs && t.attempts <= u.attempts && |u.jobs| == |u.attempts| && u.events == t.events
    requires KeyTaken(u.jobs, Replay(jobType, message))
    requires forall j :: |t.jobs| <= j < |u.jobs| ==> IsReplay(u.jobs[j], project, jobType, [message], now) && u.attempts[j] == []
    ensures Replays(s, u, project, jobType, messages + [message], now)
  {
    var all := messages + [message];
    forall k | 0 <= k < |all| ensures KeyTaken(u.jobs, Replay(jobType, all[k])) {
      if k < |messages| {
        KeyStaysTaken(t.jobs, u.jobs, Replay(jobType, messages[k]));
      }
    }
    forall j | |s.jobs| <= j < |u.jobs| ensures IsReplay(u.jobs[j], project, jobType, all, now) && u.attempts[j] == [] {
      if j < |t.jobs| {
        assert u.jobs[j] == t.jobs[j] && u.attempts[j] == t.attempts[j];
      }
    }
  }

  /** Replaying a project gives each message a job of the type, unless it has one, and does nothing else. */
  lemma {:induction false} ReplayProjectExact(s: State, project: nat, jobType: string, messages: seq<nat>, now: int)
    requires |s.jobs| == |s.attempts|
    ensures Replays(s, ReplayMessages(s, project, jobType, messages, now), project, jobType, messages, now)
    decreases |messages|
  {
    if |messages| != 0 {
      var n := |messages| - 1;
      ReplayProjectExact(s, project, jobType, messages[..n], now);
      var t := ReplayMessages(s, project, jobType, messages[..n], now);
      var u := ReplayMessages(s, project, jobType, messages, now);
      if !KeyTaken(t.jobs, Replay(jobType, messages[n])) {
        assert u.jobs[|t.jobs|].key == Replay(jobType, messages[n]);
      }
      ReplayedMore(s, t, u, project, jobType, messages[..n], messages[n], now);
      assert messages == messages[..n] + [messages[n]];
    }
  }

  // ---------- dispatch ----------

  /** Operation and handler version of an event. */
  const HANDLERS: map<string, (string, string)> := map[
    "message.appended.v1" := ("extract_memory_candidate", "memory-extractor-v1"),
    "memory.created.v1" := ("generate_embedding", "embedding-v1"),
    "candidate.accepted.v1" := ("publish_memory", "publish-v1"),
    "candidate.decision.requested.v1" := ("decide_candidate", "candidate-decision-v1"),
    "reflection.requested.v1" := ("reflect_project", "reflection-v1")]

  /** A job for the event: the one for this very row when it has no idempotency key. */
  predicate Serves(job: Job, id: nat, event: Event) {
    if event.idempotency == "" then
      job.key == Legacy(id, event.eventType, event.aggregateId, event.payloadVersion)
    else if event.eventType == "document.imported.v1" then
      job.project == event.project && job.jobType == "parse_document" && job.idempotency == Some(Given(event.idempotency))
    else
      var handler := if event.eventType in HANDLERS then HANDLERS[event.eventType] else (event.eventType, event.payloadVersion);
      && job.project == event.project && job.jobType == handler.0
      && job.idempotency == Some(Built(event.project, handler.0, event.aggregateType, event.aggregateId, handler.1))
  }

  lemma ActionByName(event: Event)
    ensures ActionOf(event) ==
      if event.eventType in HANDLERS then HANDLERS[event.eventType] else (event.eventType, event.payloadVersion)
  {
  }

  lemma AnswersIsServes(job: Job, id: nat, event: Event)
    ensures Answers(job, event.project, SpecOf(id, event)) <==> Serves(job, id, event)
  {
    ActionByName(event);
  }

  /** The key a new job for the event would get. */
  function KeyFor(id: nat, event: Event): Key {
    if event.idempotency == "" then Legacy(id, event.eventType, event.aggregateId, event.payloadVersion)
    else if event.eventType == "document.imported.v1" then Given(event.idempotency)
    else
      var handler := if event.eventType in HANDLERS then HANDLERS[event.eventType] else (event.eventType, event.payloadVersion);
      Built(event.project, handler.0, event.aggregateType, event.aggregateId, handler.1)
  }

  predicate Served(jobs: seq<Job>, id: nat, event: Event) {
    exists j :: 0 <= j < |jobs| && Serves(jobs[j], id, event)
  }

  predicate KeyUsed(jobs: seq<Job>, id: nat, event: Event) {
    exists j :: 0 <= j < |jobs| && jobs[j].key == KeyFor(id, event)
  }

  /** Made by a dispatch: waiting, due now, without attempts, for the event it serves. */
  predicate Created(job: Job, events: seq<Event>, picked: seq<nat>, now: int) {
    && job.status == Pending && Free(job) && job.attemptCount == 0 && job.maxAttempts == 5 && job.nextAttempt == now
    && job.event.Some? && job.event.value in picked && job.event.value < |events|
    && Serves(job, job.event.value, events[job.event.value])
    && job.key == KeyFor(job.event.value, events[job.event.value])
  }

  /** The picked events are dispatched and served; the jobs there were are untouched. */
  ghost predicate DispatchedTo(s: State, t: State, picked: seq<nat>, now: int, leaseSeconds: int) {
    && |t.events| == |s.events| && s.jobs <= t.jobs && s.attempts <= t.attempts && |t.jobs| == |t.attempts|
    && (forall e :: 0 <= e < |s.events| ==>
          t.events[e] == if e in picked then s.events[e].(status := Dispatched, lease := Some(now + leaseSeconds)) else s.events[e])
    && (forall k :: 0 <= k < |picked| ==> picked[k] < |s.events| && Served(t.jobs, picked[k], s.events[picked[k]]))
    && (forall j :: |s.jobs| <= j < |t.jobs| ==> Created(t.jobs[j], s.events, picked, now) && t.attempts[j] == [])
  }

  lemma SpecByName(id: nat, event: Event)
    ensures SpecOf(id, event).key == KeyFor(id, event)
  {
    ActionByName(event);
  }

  lemma NewJobServes(id: nat, event: Event, now: int)
    ensures var job := NewJob(event.project, Some(id), SpecOf(id, event), now);
      && Serves(job, id, event) && job.key == KeyFor(id, event)
      && job.event == Some(id) && job.status == Pending && Free(job) && job.attemptCount == 0 && job.maxAttempts == 5
      && job.nextAttempt == now
  {
    ActionByName(event);
  }

  /** One event: the batch it is in goes through unless no job serves the event and another job has its key. */
  lemma DispatchOneExact(s: State, e: nat, now: int, leaseSeconds: int)
    requires e < |s.events| && |s.jobs| == |s.attempts|
    ensures DispatchOne(s, e, now, leaseSeconds).None? <==>
      !Served(s.jobs, e, s.events[e]) && KeyUsed(s.jobs, e, s.events[e])
    ensures DispatchOne(s, e, now, leaseSeconds).Some? ==>
      DispatchedTo(s, DispatchOne(s, e, now, leaseSeconds).value, [e], now, leaseSeconds)
  {
    var event := s.events[e];
    forall j | 0 <= j < |s.jobs| ensures Answers(s.jobs[j], event.project, SpecOf(e, event)) <==> Serves(s.jobs[j], e, event) {
      AnswersIsServes(s.jobs[j], e, event);
    }
    SpecByName(e, event);
    var found := FindJob(s.jobs, event.project, SpecOf(e, event));
    if found.Some? {
      assert Served(s.jobs, e, event);
    } else if DispatchOne(s, e, now, leaseSeconds).Some? {
      NewJobServes(e, event, now);
      var t := DispatchOne(s, e, now, leaseSeconds).value;
      assert Serves(t.jobs[|s.jobs|], e, event);
    }
  }

  lemma ServedByMore(jobs: seq<Job>, more: seq<Job>, id: nat, event: Event)
    requires Served(jobs, id, event) && jobs <= more
    ensures Served(more, id, event)
  {
    var j :| 0 <= j < |jobs| && Serves(jobs[j], id, event);
    assert more[j] == jobs[j];
  }

  lemma DispatchedMore(s: State, t: State, u: State, picked: seq<nat>, e: nat, now: int, leaseSeconds: int)
    requires e < |s.events| && e !in picked
    requires DispatchedTo(s, t, picked, now, leaseSeconds) && DispatchedTo(t, u, [e], now, leaseSeconds)
    ensures DispatchedTo(s, u, picked + [e], now, leaseSeconds)
  {
    var all := picked + [e];
    forall k | 0 <= k < |all| ensures all[k] < |s.events| && Served(u.jobs, all[k], s.events[all[k]]) {
      if k < |picked| {
        ServedByMore(t.jobs, u.jobs, picked[k], s.events[picked[k]]);
      } else {
        assert [e][0] == e;
      }
    }
    forall j | |s.jobs| <= j < |u.jobs| ensures Created(u.jobs[j], s.events, all, now) && u.attempts[j] == [] {
      if j < |t.jobs| {
        assert u.jobs[j] == t.jobs[j] && u.attempts[j] == t.attempts[j];
      }
    }
  }

  /**
   A dispatch goes through as a whole or not at all.  If it does, every picked event is
   dispatched, under a lease, and has a job for it; new jobs are made for picked events only.
   */
  lemma {:induction false} DispatchExact(s: State, picked: seq<nat>, now: int, leaseSeconds: int)
    requires |s.jobs| == |s.attempts| && Enabled(s, Dispatch(now, picked, leaseSeconds))
    ensures var t := DispatchAll(s, picked, now, leaseSeconds);
      && Apply(s, Dispatch(now, picked, leaseSeconds)) == (if t.Some? then t.value else s)
      && (t.Some? ==> DispatchedTo(s, t.value, picked, now, leaseSeconds))
    decreases |picked|
  {
    if |picked| != 0 {
      DispatchExact(s, picked[..|picked| - 1], now, leaseSeconds);
      if DispatchAll(s, picked, now, leaseSeconds).Some? {
        LastDispatched(s, picked, now, leaseSeconds);
      }
    }
  }

  lemma {:induction false} LastDispatched(s: State, picked: seq<nat>, now: int, leaseSeconds: int)
    requires |s.jobs| == |s.attempts| && Enabled(s, Dispatch(now, picked, leaseSeconds)) && |picked| != 0
    requires DispatchAll(s, picked, now, leaseSeconds).Some?
    requires DispatchedTo(s, DispatchAll(s, picked[..|picked| - 1], now, leaseSeconds).value, picked[..|picked| - 1], now, leaseSeconds)
    ensures DispatchedTo(s, DispatchAll(s, picked, now, leaseSeconds).value, picked, now, leaseSeconds)
  {
    var n := |picked| - 1;
    var t := DispatchAll(s, picked[..n], now, leaseSeconds).value;
    DispatchOneExact(t, picked[n], now, leaseSeconds);
    DispatchedMore(s, t, DispatchAll(s, picked, now, leaseSeconds).value, picked[..n], picked[n], now, leaseSeconds);
    assert picked == picked[..n] + [picked[n]];
  }

  /** After the first k picked events, no job serves the next one and its key is used. */
  ghost predicate Blocked(s: State, picked: seq<nat>, k: nat, now: int, leaseSeconds: int)
    requires k < |picked| && Enabled(s, Dispatch(now, picked, leaseSeconds))
  {
    var t := DispatchAll(s, picked[..k], now, leaseSeconds);
    t.Some? && !Served(t.value.jobs, picked[k], s.events[picked[k]]) && KeyUsed(t.value.jobs, picked[k], s.events[picked[k]])
  }

  lemma {:induction false} LastBlocked(s: State, picked: seq<nat>, now: int, leaseSeconds: int)
    requires |s.jobs| == |s.attempts| && Enabled(s, Dispatch(now, picked, leaseSeconds)) && |picked| != 0
    requires DispatchAll(s, picked[..|picked| - 1], now, leaseSeconds).Some?
    ensures DispatchAll(s, picked, now, leaseSeconds).None? <==> Blocked(s, picked, |picked| - 1, now, leaseSeconds)
  {
    var n := |picked| - 1;
    DispatchExact(s, picked[..n], now, leaseSeconds);
    DispatchOneExact(DispatchAll(s, picked[..n], now, leaseSeconds).value, picked[n], now, leaseSeconds);
  }

  lemma EarlierBlocked(s: State, picked: seq<nat>, k: nat, now: int, leaseSeconds: int)
    requires Enabled(s, Dispatch(now, picked, leaseSeconds)) && k < |picked| - 1
    ensures Blocked(s, picked, k, now, leaseSeconds) <==> Blocked(s, picked[..|picked| - 1], k, now, leaseSeconds)
  {
    assert picked[..|picked| - 1][..k] == picked[..k];
  }

  /** It does not exactly when one of the picked events is blocked. */
  lemma {:induction false} DispatchRefused(s: State, picked: seq<nat>, now: int, leaseSeconds: int)
    requires |s.jobs| == |s.attempts| && Enabled(s, Dispatch(now, picked, leaseSeconds))
    ensures DispatchAll(s, picked, now, leaseSeconds).None? <==>
      exists k :: 0 <= k < |picked| && Blocked(s, picked, k, now, leaseSeconds)
    decreases |picked|
  {
    if |picked| != 0 {
      var n := |picked| - 1;
      DispatchRefused(s, picked[..n], now, leaseSeconds);
      forall k | 0 <= k < n ensures Blocked(s, picked, k, now, leaseSeconds) <==> Blocked(s, picked[..n], k, now, leaseSeconds) {
        EarlierBlocked(s, picked, k, now, leaseSeconds);
      }
      if DispatchAll(s, picked[..n], now, leaseSeconds).Some? {
        LastBlocked(s, picked, now, leaseSeconds);
      }
    }
  }
}
