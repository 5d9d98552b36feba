/**
 The job queue: dispatch of outbox events into jobs, the worker's claim, heartbeat,
 complete, fail and sweep, and the administrator's retry, cancel and replays.
 Each operation is one transaction.  A row's id is its index in its table; the attempts of
 job i are the rows attempts[i], oldest first.  Times are whole seconds.
 */
module JobQueue {
  import opened Prelude

  datatype JobStatus = Pending | Running | RetryWait | Succeeded | Dead | Cancelled

  datatype EventStatus = Waiting | Dispatched | Retrying | Completed | Lost

  datatype Outcome = InProgress | Success | Failure | Abandoned

  datatype Attempt = Attempt(number: nat, worker: string, outcome: Outcome)

  /** Job keys: built from the action, taken from the event, or spelled out for one row. */
  datatype Key =
    | Built(project: nat, operation: string, aggregateType: string, aggregateId: nat, version: string)
    | Given(text: string)
    | Legacy(event: nat, eventType: string, aggregate: nat, payloadVersion: string)
    | Replay(jobType: string, message: nat)

  datatype Event = Event(
    project: nat, eventType: string, aggregateType: string, aggregateId: nat,
    payloadVersion: string, idempotency: string, status: EventStatus, nextAttempt: int, lease: Option<int>)

  datatype Job = Job(
    project: nat, event: Option<nat>, jobType: string, key: Key, idempotency: Option<Key>,
    status: JobStatus, attemptCount: nat, maxAttempts: nat,
    owner: Option<string>, lease: Option<int>, nextAttempt: int)

  datatype State = State(events: seq<Event>, jobs: seq<Job>, attempts: seq<seq<Attempt>>)

  const DEFAULT_MAX_ATTEMPTS: nat := 5

  // ---------- one job with its attempts and its event ----------

  datatype Slot = Slot(job: Job, attempts: seq<Attempt>, event: Option<Event>)

  function EventOf(s: State, job: Job): Option<Event> {
    if job.event.Some? && job.event.value < |s.events| then Some(s.events[job.event.value]) else None
  }

  predicate IsJob(s: State, i: nat) {
    i < |s.jobs| && i < |s.attempts|
  }

  function SlotOf(s: State, i: nat): Slot
    requires IsJob(s, i)
  {
    Slot(s.jobs[i], s.attempts[i], EventOf(s, s.jobs[i]))
  }

  function PutSlot(s: State, i: nat, slot: Slot): State
    requires IsJob(s, i)
  {
    var job := s.jobs[i];
    State(
      if EventOf(s, job).Some? && slot.event.Some? then s.events[job.event.value := slot.event.value] else s.events,
      s.jobs[i := slot.job],
      s.attempts[i := slot.attempts])
  }

  /** The row with the highest attempt number. */
  function Latest(attempts: seq<Attempt>): (r: nat)
    requires |attempts| > 0
    ensures r < |attempts|
    ensures forall k :: 0 <= k < |attempts| ==> attempts[k].number <= attempts[r].number
  {
    if |attempts| == 1 then 0
    else
      var r := Latest(attempts[..|attempts| - 1]);
      assert forall k :: 0 <= k < |attempts| - 1 ==> attempts[k] == attempts[..|attempts| - 1][k];
      if attempts[|attempts| - 1].number > attempts[r].number then |attempts| - 1 else r
  }

  function CloseLatest(attempts: seq<Attempt>, outcome: Outcome): seq<Attempt> {
    if |attempts| == 0 then attempts
    else attempts[Latest(attempts) := attempts[Latest(attempts)].(outcome := outcome)]
  }

  function AbandonLatest(attempts: seq<Attempt>): seq<Attempt> {
    if |attempts| == 0 || attempts[Latest(attempts)].outcome != InProgress then attempts
    else CloseLatest(attempts, Abandoned)
  }

  function Settled(job: Job, status: JobStatus): Job {
    job.(status := status, owner := None, lease := None)
  }

  function EventAfter(event: Option<Event>, status: EventStatus): Option<Event> {
    match event
    case None => None
    case Some(e) => Some(e.(status := status, lease := None))
  }

  function EventAt(event: Option<Event>, status: EventStatus, next: int): Option<Event> {
    match event
    case None => None
    case Some(e) => Some(e.(status := status, nextAttempt := next, lease := None))
  }

  // ---------- what each operation does to one job ----------

  predicate Claimable(job: Job, now: int) {
    && job.status in {Pending, RetryWait}
    && job.nextAttempt <= now
    && (job.lease.None? || job.lease.value <= now)
  }

  function Claimed(slot: Slot, worker: string, now: int, leaseSeconds: int): Slot {
    var job := slot.job;
    slot.(
      job := job.(attemptCount := job.attemptCount + 1, status := Running,
                  owner := Some(worker), lease := Some(now + leaseSeconds)),
      attempts := slot.attempts + [Attempt(job.attemptCount + 1, worker, InProgress)])
  }

  /** `_owns_live_job`. */
  predicate OwnsLive(job: Job, worker: string, now: int) {
    && job.status == Running && job.owner == Some(worker)
    && (job.lease.None? || job.lease.value > now)
  }

  function Beaten(slot: Slot, now: int, leaseSeconds: int): Slot {
    slot.(job := slot.job.(lease := Some(now + leaseSeconds)))
  }

  function Finished(slot: Slot): Slot {
    Slot(Settled(slot.job, Succeeded), CloseLatest(slot.attempts, Success), EventAfter(slot.event, Completed))
  }

  /** `min(max_backoff_seconds, 2 ** max(attempt_count - 1, 0))`. */
  function Backoff(attemptCount: nat, maxBackoff: int): int {
    var delay := Power2(if attemptCount >= 1 then attemptCount - 1 else 0);
    if maxBackoff < delay then maxBackoff else delay
  }

  function Failed(slot: Slot, now: int, retryable: bool, maxBackoff: int): Slot {
    var retry := retryable && slot.job.attemptCount < slot.job.maxAttempts;
    var next := if retry then now + Backoff(slot.job.attemptCount, maxBackoff) else slot.job.nextAttempt;
    Slot(
      Settled(slot.job, if retry then RetryWait else Dead).(nextAttempt := next),
      CloseLatest(slot.attempts, Failure),
      EventAt(slot.event, if retry then Retrying else Lost, next))
  }

  predicate Expired(job: Job, now: int) {
    job.status == Running && job.lease.Some? && job.lease.value <= now
  }

  function CountExpired(jobs: seq<Job>, n: nat, now: int): nat
    requires n <= |jobs|
  {
    if n == 0 then 0 else CountExpired(jobs, n - 1, now) + if Expired(jobs[n - 1], now) then 1 else 0
  }

  function Swept(slot: Slot, now: int): Slot {
    var retry := slot.job.attemptCount < slot.job.maxAttempts;
    var next := if retry then now else slot.job.nextAttempt;
    Slot(
      Settled(slot.job, if retry then RetryWait else Dead).(nextAttempt := next),
      AbandonLatest(slot.attempts),
      EventAt(slot.event, if retry then Retrying else Lost, next))
  }

  /** `retry_admin_job` leaves the event alone. */
  function Retried(slot: Slot, now: int): Slot {
    slot.(job := Settled(slot.job, Pending).(nextAttempt := now))
  }

  function Stopped(slot: Slot): Slot {
    slot.(job := Settled(slot.job, Cancelled), event := EventAfter(slot.event, Lost))
  }

  function Replayed(slot: Slot, now: int): Slot {
    slot.(job := Settled(slot.job, Pending).(nextAttempt := now), event := EventAt(slot.event, Waiting, now))
  }

  // ---------- dispatch ----------

  predicate Dispatchable(event: Event, now: int) {
    && event.status in {Waiting, Retrying}
    && event.nextAttempt <= now
    && (event.lease.None? || event.lease.value <= now)
  }

  datatype Spec = Spec(jobType: string, idempotency: Option<Key>, key: Key)

  /** `_job_spec`. */
  function SpecOf(id: nat, event: Event): Spec {
    if event.idempotency == "" then
      Spec(event.eventType, None, Legacy(id, event.eventType, event.aggregateId, event.payloadVersion))
    else if event.eventType == "document.imported.v1" then
      Spec("parse_document", Some(Given(event.idempotency)), Given(event.idempotency))
    else
      var action := ActionOf(event);
      var key := Built(event.project, action.0, event.aggregateType, event.aggregateId, action.1);
      Spec(action.0, Some(key), key)
  }

  /** Operation and handler version. */
  function ActionOf(event: Event): (string, string) {
    if event.eventType == "message.appended.v1" then ("extract_memory_candidate", "memory-extractor-v1")
    else if event.eventType == "memory.created.v1" then ("generate_embedding", "embedding-v1")
    else if event.eventType == "candidate.accepted.v1" then ("publish_memory", "publish-v1")
    else if event.eventType == "candidate.decision.requested.v1" then ("decide_candidate", "candidate-decision-v1")
    else if event.eventType == "reflection.requested.v1" then ("reflect_project", "reflection-v1")
    else (event.eventType, event.payloadVersion)
  }

  predicate Answers(job: Job, project: nat, spec: Spec) {
    if spec.idempotency.Some? then
      job.project == project && job.jobType == spec.jobType && job.idempotency == spec.idempotency
    else job.key == spec.key
  }

  function FindJob(jobs: seq<Job>, project: nat, spec: Spec): (r: Option<nat>)
    ensures r.Some? ==> r.value < |jobs| && Answers(jobs[r.value], project, spec)
    ensures r.None? ==> forall i :: 0 <= i < |jobs| ==> !Answers(jobs[i], project, spec)
  {
    if |jobs| == 0 then None
    else if Answers(jobs[|jobs| - 1], project, spec) then Some(|jobs| - 1)
    else FindJob(jobs[..|jobs| - 1], project, spec)
  }

  predicate KeyTaken(jobs: seq<Job>, key: Key) {
    exists i :: 0 <= i < |jobs| && jobs[i].key == key
  }

  function NewJob(project: nat, event: Option<nat>, spec: Spec, now: int): Job {
    Job(project, event, spec.jobType, spec.key, spec.idempotency, Pending, 0, DEFAULT_MAX_ATTEMPTS, None, None, now)
  }

  function AddJob(s: State, job: Job): State {
    s.(jobs := s.jobs + [job], attempts := s.attempts + [[]])
  }

  function MarkDispatched(s: State, e: nat, now: int, leaseSeconds: int): State
    requires e < |s.events|
  {
    s.(events := s.events[e := s.events[e].(status := Dispatched, lease := Some(now + leaseSeconds))])
  }

  /** None where the unique constraint on `job_key` refuses the insert. */
  function DispatchOne(s: State, e: nat, now: int, leaseSeconds: int): (r: Option<State>)
    requires e < |s.events|
    ensures r.Some? ==> |r.value.events| == |s.events|
  {
    var event := s.events[e];
    var spec := SpecOf(e, event);
    if FindJob(s.jobs, event.project, spec).Some? then Some(MarkDispatched(s, e, now, leaseSeconds))
    else if KeyTaken(s.jobs, spec.key) then None
    else Some(MarkDispatched(AddJob(s, NewJob(event.project, Some(e), spec, now)), e, now, leaseSeconds))
  }

  function DispatchAll(s: State, picked: seq<nat>, now: int, leaseSeconds: int): (r: Option<State>)
    requires forall k :: 0 <= k < |picked| ==> picked[k] < |s.events|
    ensures r.Some? ==> |r.value.events| == |s.events|
  {
    if |picked| == 0 then Some(s)
    else
      match DispatchAll(s, picked[..|picked| - 1], now, leaseSeconds)
      case None => None
      case Some(t) => DispatchOne(t, picked[|picked| - 1], now, leaseSeconds)
  }

  function ClaimAll(s: State, picked: seq<nat>, worker: string, now: int, leaseSeconds: int): (r: State)
    requires forall k :: 0 <= k < |picked| ==> IsJob(s, picked[k])
    ensures |r.jobs| == |s.jobs| && |r.attempts| == |s.attempts|
  {
    if |picked| == 0 then s
    else
      var t := ClaimAll(s, picked[..|picked| - 1], worker, now, leaseSeconds);
      var i := picked[|picked| - 1];
      assert IsJob(s, i);
      PutSlot(t, i, Claimed(SlotOf(t, i), worker, now, leaseSeconds))
  }

  function SweepOne(s: State, i: nat, now: int): State
    requires IsJob(s, i)
  {
    if Expired(s.jobs[i], now) then PutSlot(s, i, Swept(SlotOf(s, i), now)) else s
  }

  function SweepFirst(s: State, n: nat, now: int): (r: State)
    requires n <= |s.jobs| == |s.attempts|
    ensures |r.jobs| == |s.jobs| && |r.attempts| == |s.attempts|
  {
    if n == 0 then s else SweepOne(SweepFirst(s, n - 1, now), n - 1, now)
  }

  function JobOfEvent(jobs: seq<Job>, e: nat): (r: Option<nat>)
    ensures r.Some? ==> r.value < |jobs| && jobs[r.value].event == Some(e)
    ensures r.None? ==> forall i :: 0 <= i < |jobs| ==> jobs[i].event != Some(e)
  {
    if |jobs| == 0 then None
    else if jobs[|jobs| - 1].event == Some(e) then Some(|jobs| - 1)
    else JobOfEvent(jobs[..|jobs| - 1], e)
  }

  /** `replay_admin_outbox`: the event first, then its job when that has stopped. */
  function ReplayOutbox(s: State, e: nat, now: int): State
    requires |s.jobs| == |s.attempts|
  {
    if e >= |s.events| || s.events[e].status !in {Lost, Retrying, Dispatched} then s
    else
      var t := s.(events := s.events[e := s.events[e].(status := Waiting, nextAttempt := now, lease := None)]);
      match JobOfEvent(t.jobs, e)
      case Some(i) =>
        if t.jobs[i].status in {Dead, RetryWait, Cancelled} then
          t.(jobs := t.jobs[i := Settled(t.jobs[i], Pending).(nextAttempt := now)])
        else t
      case None => t
  }

  /** `replay_admin`: one job per message that has none under the replay key, without event. */
  function ReplayMessages(s: State, project: nat, jobType: string, messages: seq<nat>, now: int): State {
    if |messages| == 0 then s
    else
      var t := ReplayMessages(s, project, jobType, messages[..|messages| - 1], now);
      var key := Replay(jobType, messages[|messages| - 1]);
      if KeyTaken(t.jobs, key) then t else AddJob(t, NewJob(project, None, Spec(jobType, None, key), now))
  }

  // ---------- steps ----------

  datatype Step =
    | Append(event: Event)
    | Dispatch(now: int, picked: seq<nat>, leaseSeconds: int)
    | Claim(worker: string, now: int, picked: seq<nat>, leaseSeconds: int)
    | Heartbeat(job: nat, worker: string, now: int, leaseSeconds: int)
    | Complete(job: nat, worker: string, now: int)
    | Fail(job: nat, worker: string, now: int, retryable: bool, maxBackoff: int)
    | Sweep(now: int)
    | Retry(job: nat, now: int)
    | Cancel(job: nat)
    | ReplayJob(job: nat, now: int)
    | ReplayEvent(event_: nat, now: int)
    | ReplayProject(project: nat, jobType: string, messages: seq<nat>, now: int)

  predicate Distinct(picked: seq<nat>) {
    forall i, j :: 0 <= i < j < |picked| ==> picked[i] != picked[j]
  }

  /** The rows a step's query returned are distinct and match the query; new events are waiting. */
  predicate Enabled(s: State, step: Step) {
    match step
    case Append(event) => event.status == Waiting && event.lease == None
    case Dispatch(now, picked, _) =>
      Distinct(picked) && forall k :: 0 <= k < |picked| ==> picked[k] < |s.events| && Dispatchable(s.events[picked[k]], now)
    case Claim(_, now, picked, _) =>
      Distinct(picked) && forall k :: 0 <= k < |picked| ==> IsJob(s, picked[k]) && Claimable(s.jobs[picked[k]], now)
    case _ => true
  }

  function Apply(s: State, step: Step): State
    requires |s.jobs| == |s.attempts| && Enabled(s, step)
  {
    match step
    case Append(event) => s.(events := s.events + [event])
    case Dispatch(now, picked, leaseSeconds) =>
      (match DispatchAll(s, picked, now, leaseSeconds) case Some(t) => t case None => s)
    case Claim(worker, now, picked, leaseSeconds) => ClaimAll(s, picked, worker, now, leaseSeconds)
    case Heartbeat(i, worker, now, leaseSeconds) =>
      if IsJob(s, i) && OwnsLive(s.jobs[i], worker, now) then PutSlot(s, i, Beaten(SlotOf(s, i), now, leaseSeconds)) else s
    case Complete(i, worker, now) =>
      if IsJob(s, i) && OwnsLive(s.jobs[i], worker, now) then PutSlot(s, i, Finished(SlotOf(s, i))) else s
    case Fail(i, worker, now, retryable, maxBackoff) =>
      if IsJob(s, i) && OwnsLive(s.jobs[i], worker, now)
      then PutSlot(s, i, Failed(SlotOf(s, i), now, retryable, maxBackoff)) else s
    case Sweep(now) => SweepFirst(s, |s.jobs|, now)
    case Retry(i, now) =>
      if IsJob(s, i) && s.jobs[i].status in {Dead, RetryWait} then PutSlot(s, i, Retried(SlotOf(s, i), now)) else s
    case Cancel(i) =>
      if IsJob(s, i) && s.jobs[i].status !in {Succeeded, Dead, Cancelled} then PutSlot(s, i, Stopped(SlotOf(s, i))) else s
    case ReplayJob(i, now) =>
      if IsJob(s, i) && s.jobs[i].status in {Dead, RetryWait, Cancelled} then PutSlot(s, i, Replayed(SlotOf(s, i), now))
      else s
    case ReplayEvent(e, now) => ReplayOutbox(s, e, now)
    case ReplayProject(project, jobType, messages, now) => ReplayMessages(s, project, jobType, messages, now)
  }

  // ---------- the tables, updated row by row ----------

  class Queue {
    var events: seq<Event>
    var jobs: seq<Job>
    var attempts: seq<seq<Attempt>>

    ghost function View(): State
      reads this
    {
      State(events, jobs, attempts)
    }

    ghost predicate Valid()
      reads this
    {
      |jobs| == |attempts|
    }

    constructor ()
      ensures View() == State([], [], [])
    {
      events, jobs, attempts := [], [], [];
    }

    method DispatchOnce(now: int, picked: seq<nat>, leaseSeconds: int) returns (dispatched: nat)
      requires Valid() && Enabled(View(), Dispatch(now, picked, leaseSeconds))
      modifies this
      ensures View() == Apply(old(View()), Dispatch(now, picked, leaseSeconds))
      ensures dispatched == |picked| || (dispatched == 0 && View() == old(View()))
    {
      var savedEvents, savedJobs, savedAttempts := events, jobs, attempts;
      dispatched := 0;
      for k := 0 to |picked|
        invariant dispatched == k
        invariant |events| == |savedEvents| && |jobs| == |attempts|
        invariant DispatchAll(old(View()), picked[..k], now, leaseSeconds) == Some(View())
      {
        var e := picked[k];
        assert picked[..k + 1][..k] == picked[..k];
        var event := events[e];
        var spec := SpecOf(e, event);
        var found := FindJob(jobs, event.project, spec);
        if found.None? {
          if KeyTaken(jobs, spec.key) {
            DispatchStops(old(View()), picked, k + 1, now, leaseSeconds);
            events, jobs, attempts := savedEvents, savedJobs, savedAttempts;
            return 0;
          }
          jobs, attempts := jobs + [NewJob(event.project, Some(e), spec, now)], attempts + [[]];
        }
        events := events[e := event.(status := Dispatched, lease := Some(now + leaseSeconds))];
        dispatched := dispatched + 1;
      }
      assert picked[..|picked|] == picked;
    }

    method ClaimRow(i: nat, worker: string, now: int, leaseSeconds: int) returns (number: nat)
      requires Valid() && i < |jobs|
      modifies this
      ensures Valid() && View() == PutSlot(old(View()), i, Claimed(SlotOf(old(View()), i), worker, now, leaseSeconds))
      ensures number == old(jobs)[i].attemptCount + 1
      ensures |jobs| == |old(jobs)| && forall k :: 0 <= k < |jobs| && k != i ==> jobs[k] == old(jobs)[k]
    {
      var job := jobs[i];
      job := job.(attemptCount := job.attemptCount + 1);
      job := job.(status := Running);
      job := job.(owner := Some(worker));
      job := job.(lease := Some(now + leaseSeconds));
      jobs := jobs[i := job];
      attempts := attempts[i := attempts[i] + [Attempt(job.attemptCount, worker, InProgress)]];
      return job.attemptCount;
    }

    method ClaimJobs(worker: string, now: int, picked: seq<nat>, leaseSeconds: int) returns (claims: seq<(nat, nat)>)
      requires Valid() && Enabled(View(), Claim(worker, now, picked, leaseSeconds))
      modifies this
      ensures Valid() && View() == Apply(old(View()), Claim(worker, now, picked, leaseSeconds))
      ensures |claims| == |picked|
      ensures forall k :: 0 <= k < |claims| ==> claims[k] == (picked[k], old(jobs)[picked[k]].attemptCount + 1)
    {
      claims := [];
      for k := 0 to |picked|
        invariant Valid() && |jobs| == |old(jobs)|
        invariant View() == ClaimAll(old(View()), picked[..k], worker, now, leaseSeconds)
        invariant |claims| == k
        invariant forall m :: 0 <= m < k ==> claims[m] == (picked[m], old(jobs)[picked[m]].attemptCount + 1)
        invariant forall m :: k <= m < |picked| ==> jobs[picked[m]] == old(jobs)[picked[m]]
      {
        var i := picked[k];
        assert picked[..k + 1][..k] == picked[..k];
        var number := ClaimRow(i, worker, now, leaseSeconds);
        claims := claims + [(i, number)];
      }
      assert picked[..|picked|] == picked;
    }

    method RenewLease(i: nat, worker: string, now: int, leaseSeconds: int) returns (ok: bool)
      requires Valid()
      modifies this`jobs
      ensures Valid() && View() == Apply(old(View()), Heartbeat(i, worker, now, leaseSeconds))
      ensures ok <==> i < |jobs| && OwnsLive(old(jobs[i]), worker, now)
    {
      if i >= |jobs| || jobs[i].status != Running || jobs[i].owner != Some(worker) {
        return false;
      }
      if jobs[i].lease.Some? && jobs[i].lease.value <= now {
        return false;
      }
      jobs := jobs[i := jobs[i].(lease := Some(now + leaseSeconds))];
      return true;
    }

    method CompleteJob(i: nat, worker: string, now: int) returns (ok: bool)
      requires Valid()
      modifies this
      ensures Valid() && View() == Apply(old(View()), Complete(i, worker, now))
      ensures ok <==> i < |jobs| && OwnsLive(old(jobs[i]), worker, now)
    {
      if i >= |jobs| || !OwnsLive(jobs[i], worker, now) {
        return false;
      }
      jobs := jobs[i := Settled(jobs[i], Succeeded)];
      attempts := attempts[i := CloseLatest(attempts[i], Success)];
      var e := jobs[i].event;
      if e.Some? && e.value < |events| {
        events := events[e.value := events[e.value].(status := Completed, lease := None)];
      }
      return true;
    }

    method FailJob(i: nat, worker: string, now: int, retryable: bool, maxBackoff: int) returns (status: Option<JobStatus>)
      requires Valid()
      modifies this
      ensures Valid() && View() == Apply(old(View()), Fail(i, worker, now, retryable, maxBackoff))
      ensures status.Some? <==> i < |old(jobs)| && OwnsLive(old(jobs)[i], worker, now)
      ensures status.Some? ==> i < |jobs| && status.value == jobs[i].status
    {
      if i >= |jobs| || !OwnsLive(jobs[i], worker, now) {
        return None;
      }
      var retry := retryable && jobs[i].attemptCount < jobs[i].maxAttempts;
      var job := Settled(jobs[i], if retry then RetryWait else Dead);
      if retry {
        job := job.(nextAttempt := now + Backoff(job.attemptCount, maxBackoff));
      }
      jobs := jobs[i := job];
      attempts := attempts[i := CloseLatest(attempts[i], Failure)];
      if job.event.Some? && job.event.value < |events| {
        var event := events[job.event.value];
        event := event.(status := if retry then Retrying else Lost, nextAttempt := job.nextAttempt, lease := None);
        events := events[job.event.value := event];
      }
      return Some(job.status);
    }

    method SweepRow(i: nat, now: int) returns (swept: bool)
      requires Valid() && i < |jobs|
      modifies this
      ensures Valid() && View() == SweepOne(old(View()), i, now)
      ensures |jobs| == |old(jobs)| && (swept <==> Expired(old(jobs[i]), now))
      ensures forall k :: 0 <= k < |jobs| && k != i ==> jobs[k] == old(jobs)[k]
    {
      var job := jobs[i];
      if job.status != Running || job.lease.None? || job.lease.value > now {
        return false;
      }
      var retry := job.attemptCount < job.maxAttempts;
      job := Settled(job, if retry then RetryWait else Dead);
      if retry {
        job := job.(nextAttempt := now);
      }
      jobs := jobs[i := job];
      var rows := attempts[i];
      if |rows| > 0 && rows[Latest(rows)].outcome == InProgress {
        rows := CloseLatest(rows, Abandoned);
      }
      attempts := attempts[i := rows];
      if job.event.Some? && job.event.value < |events| {
        var event := events[job.event.value];
        event := event.(status := if retry then Retrying else Lost, nextAttempt := job.nextAttempt, lease := None);
        events := events[job.event.value := event];
      }
      return true;
    }

    method SweepExpired(now: int) returns (recovered: nat)
      requires Valid()
      modifies this
      ensures Valid() && View() == Apply(old(View()), Sweep(now))
      ensures recovered == CountExpired(old(jobs), |old(jobs)|, now)
    {
      recovered := 0;
      for i := 0 to |jobs|
        invariant Valid() && |jobs| == |old(jobs)| && recovered == CountExpired(old(jobs), i, now)
        invariant forall k :: i <= k < |jobs| ==> jobs[k] == old(jobs)[k]
        invariant View() == SweepFirst(old(View()), i, now)
      {
        var swept := SweepRow(i, now);
        if swept {
          recovered := recovered + 1;
        }
      }
    }

    method RetryJob(i: nat, now: int) returns (ok: bool)
      requires Valid()
      modifies this`jobs
      ensures Valid() && View() == Apply(old(View()), Retry(i, now))
      ensures ok <==> i < |jobs| && old(jobs)[i].status in {Dead, RetryWait}
    {
      if i >= |jobs| || jobs[i].status !in {Dead, RetryWait} {
        return false;
      }
      var job := jobs[i];
      job := job.(status := Pending, nextAttempt := now);
      job := job.(owner := None, lease := None);
      jobs := jobs[i := job];
      PutSameEvent(old(View()), i, job);
      return true;
    }

    method CancelJob(i: nat) returns (ok: bool)
      requires Valid()
      modifies this`jobs, this`events
      ensures Valid() && View() == Apply(old(View()), Cancel(i))
      ensures ok <==> i < |jobs| && old(jobs)[i].status !in {Succeeded, Dead, Cancelled}
    {
      if i >= |jobs| || jobs[i].status in {Succeeded, Dead, Cancelled} {
        return false;
      }
      var job := jobs[i];
      jobs := jobs[i := job.(status := Cancelled, owner := None, lease := None)];
      if job.event.Some? && job.event.value < |events| {
        events := events[job.event.value := events[job.event.value].(status := Lost, lease := None)];
      }
      assert attempts == attempts[i := attempts[i]];
      return true;
    }

    method ReplayJobRow(i: nat, now: int) returns (ok: bool)
      requires Valid()
      modifies this`jobs, this`events
      ensures Valid() && View() == Apply(old(View()), ReplayJob(i, now))
      ensures ok <==> i < |jobs| && old(jobs)[i].status in {Dead, RetryWait, Cancelled}
    {
      if i >= |jobs| || jobs[i].status !in {Dead, RetryWait, Cancelled} {
        return false;
      }
      var job := jobs[i];
      jobs := jobs[i := job.(status := Pending, nextAttempt := now, owner := None, lease := None)];
      if job.event.Some? && job.event.value < |events| {
        var event := events[job.event.value];
        events := events[job.event.value := event.(status := Waiting, nextAttempt := now, lease := None)];
      }
      assert attempts == attempts[i := attempts[i]];
      return true;
    }

    method ReplayOutboxRow(e: nat, now: int) returns (ok: bool)
      requires Valid()
      modifies this`jobs, this`events
      ensures Valid() && View() == Apply(old(View()), ReplayEvent(e, now))
      ensures ok <==> e < |events| && old(events)[e].status in {Lost, Retrying, Dispatched}
    {
      if e >= |events| || events[e].status !in {Lost, Retrying, Dispatched} {
        return false;
      }
      events := events[e := events[e].(status := Waiting, nextAttempt := now, lease := None)];
      var found := JobOfEvent(jobs, e);
      if found.Some? && jobs[found.value].status in {Dead, RetryWait, Cancelled} {
        var job := jobs[found.value];
        jobs := jobs[found.value := job.(status := Pending, nextAttempt := now, owner := None, lease := None)];
      }
      return true;
    }
  }

  /** A retry leaves the event as it is. */
  lemma PutSameEvent(s: State, i: nat, job: Job)
    requires IsJob(s, i)
    ensures PutSlot(s, i, SlotOf(s, i).(job := job)) == s.(jobs := s.jobs[i := job])
  {
    assert s.attempts[i := s.attempts[i]] == s.attempts;
    if EventOf(s, s.jobs[i]).Some? {
      var e := s.jobs[i].event.value;
      assert s.events[e := s.events[e]] == s.events;
    }
  }

  lemma {:induction false} DispatchStops(s: State, picked: seq<nat>, k: nat, now: int, leaseSeconds: int)
    requires k <= |picked|
    requires forall k :: 0 <= k < |picked| ==> picked[k] < |s.events|
    requires DispatchAll(s, picked[..k], now, leaseSeconds).None?
    ensures DispatchAll(s, picked, now, leaseSeconds).None?
    decreases |picked|
  {
    if k == |picked| {
      assert picked[..k] == picked;
    } else {
      assert picked[..|picked| - 1][..k] == picked[..k];
      DispatchStops(s, picked[..|picked| - 1], k, now, leaseSeconds);
    }
  }
}
