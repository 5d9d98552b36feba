/**
 What the job queue guarantees over every run.  The tables are first shown to evolve job
 by job: each step moves one job with its attempts and its event, on its own.
 */
module JobGuarantees {
  import opened Prelude
  import opened JobQueue

  // ---------- the invariant ----------

  /** Rows of one identity: nothing in them that keys depend on differs. */
  predicate SameJob(a: Job, b: Job) {
    b == a.(status := b.status, attemptCount := b.attemptCount, owner := b.owner, lease := b.lease, nextAttempt := b.nextAttempt)
  }

  predicate SameEvent(a: Event, b: Event) {
    b == a.(status := b.status, nextAttempt := b.nextAttempt, lease := b.lease)
  }

  predicate SameIdentity(a: Slot, b: Slot) {
    && SameJob(a.job, b.job)
    && a.event.Some? == b.event.Some?
    && (a.event.Some? ==> SameEvent(a.event.value, b.event.value))
  }

  /**
   A job runs exactly while an owner and a lease are recorded, and then its last attempt is
   in progress; its attempts are numbered 1 to attemptCount; it has succeeded exactly when
   its event is completed.
   */
  ghost predicate SlotOk(slot: Slot) {
    && (slot.job.status == Running <==> slot.job.owner.Some?)
    && (slot.job.status == Running <==> slot.job.lease.Some?)
    && (slot.job.status == Running ==> slot.job.attemptCount >= 1)
    && |slot.attempts| == slot.job.attemptCount
    && (slot.job.status == Running ==> |slot.attempts| > 0 && slot.attempts[|slot.attempts| - 1].outcome == InProgress)
    && (forall k :: 0 <= k < |slot.attempts| ==> slot.attempts[k].number == k + 1)
    && (slot.event.Some? ==> (slot.job.status == Succeeded <==> slot.event.value.status == Completed))
  }

  /** A job made from an event carries the key the event calls for. */
  ghost predicate Linked(events: seq<Event>, jobs: seq<Job>) {
    forall i :: 0 <= i < |jobs| && jobs[i].event.Some? ==>
      && jobs[i].event.value < |events|
      && Answers(jobs[i], events[jobs[i].event.value].project, SpecOf(jobs[i].event.value, events[jobs[i].event.value]))
  }

  /** At most one job per key, per (project, type, idempotency key), and per event. */
  ghost predicate Unique(jobs: seq<Job>) {
    forall i, j :: 0 <= i < j < |jobs| ==>
      && jobs[i].key != jobs[j].key
      && !(jobs[i].idempotency.Some? && jobs[i].idempotency == jobs[j].idempotency
           && jobs[i].project == jobs[j].project && jobs[i].jobType == jobs[j].jobType)
      && !(jobs[i].event.Some? && jobs[i].event == jobs[j].event)
  }

  ghost predicate Consistent(s: State) {
    && |s.jobs| == |s.attempts|
    && Linked(s.events, s.jobs)
    && Unique(s.jobs)
    && forall i :: 0 <= i < |s.jobs| ==> SlotOk(SlotOf(s, i))
  }

  // ---------- updating one job ----------

  lemma PutFrames(s: State, i: nat, slot: Slot)
    requires |s.jobs| == |s.attempts| && Linked(s.events, s.jobs) && Unique(s.jobs)
    requires IsJob(s, i) && SameIdentity(SlotOf(s, i), slot)
    ensures var next := PutSlot(s, i, slot);
      && |next.jobs| == |next.attempts| == |s.jobs| && |next.events| == |s.events|
      && Linked(next.events, next.jobs) && Unique(next.jobs)
      && SlotOf(next, i) == slot
      && forall k :: 0 <= k < |s.jobs| && k != i ==> SlotOf(next, k) == SlotOf(s, k)
  {
    var next := PutSlot(s, i, slot);
    forall k | 0 <= k < |s.jobs| && k != i ensures SlotOf(next, k) == SlotOf(s, k) {
      assert s.jobs[k].event.Some? ==> s.jobs[k].event != s.jobs[i].event;
    }
  }

  lemma PutKeeps(s: State, i: nat, slot: Slot)
    requires Consistent(s) && IsJob(s, i) && SameIdentity(SlotOf(s, i), slot) && SlotOk(slot)
    ensures Consistent(PutSlot(s, i, slot))
  {
    PutFrames(s, i, slot);
  }

  // ---------- what a step does to one job ----------

  predicate Redispatched(a: Option<Event>, b: Option<Event>) {
    && a.Some? && b.Some? && a.value.status in {Waiting, Retrying}
    && SameEvent(a.value, b.value) && b.value.status == Dispatched
  }

  function OutboxReplayed(a: Slot, now: int): Slot {
    Slot(
      if a.job.status in {Dead, RetryWait, Cancelled} then Settled(a.job, Pending).(nextAttempt := now) else a.job,
      a.attempts,
      EventAt(a.event, Waiting, now))
  }

  /** The life of job i alone: how each step moves it. */
  ghost predicate SlotMoves(step: Step, i: nat, a: Slot, b: Slot) {
    match step
    case Dispatch(_, _, _) => b == a || (b == a.(event := b.event) && Redispatched(a.event, b.event))
    case Claim(worker, now, picked, leaseSeconds) =>
      if i in picked then Claimable(a.job, now) && b == Claimed(a, worker, now, leaseSeconds) else b == a
    case Heartbeat(j, worker, now, leaseSeconds) =>
      b == if i == j && OwnsLive(a.job, worker, now) then Beaten(a, now, leaseSeconds) else a
    case Complete(j, worker, now) => b == if i == j && OwnsLive(a.job, worker, now) then Finished(a) else a
    case Fail(j, worker, now, retryable, maxBackoff) =>
      b == if i == j && OwnsLive(a.job, worker, now) then Failed(a, now, retryable, maxBackoff) else a
    case Sweep(now) => b == if Expired(a.job, now) then Swept(a, now) else a
    case Retry(j, now) => b == if i == j && a.job.status in {Dead, RetryWait} then Retried(a, now) else a
    case Cancel(j) => b == if i == j && a.job.status !in {Succeeded, Dead, Cancelled} then Stopped(a) else a
    case ReplayJob(j, now) =>
      b == if i == j && a.job.status in {Dead, RetryWait, Cancelled} then Replayed(a, now) else a
    case ReplayEvent(e, now) =>
      b == if a.job.event == Some(e) && a.event.Some? && a.event.value.status in {Lost, Retrying, Dispatched}
           then OutboxReplayed(a, now) else a
    case _ => b == a
  }

  lemma {:induction false} LatestIsLast(attempts: seq<Attempt>)
    requires |attempts| > 0 && forall k :: 0 <= k < |attempts| ==> attempts[k].number == k + 1
    ensures Latest(attempts) == |attempts| - 1
  {
    assert attempts[|attempts| - 1].number <= attempts[Latest(attempts)].number;
  }

  lemma MoveKeepsIdentity(step: Step, i: nat, a: Slot, b: Slot)
    requires SlotMoves(step, i, a, b)
    ensures SameIdentity(a, b)
  {
  }

  lemma WorkerMoveKeeps(step: Step, i: nat, a: Slot, b: Slot)
    requires SlotOk(a) && SlotMoves(step, i, a, b) && (step.Complete? || step.Fail? || step.Sweep?)
    ensures SlotOk(b)
  {
    if |a.attempts| > 0 {
      LatestIsLast(a.attempts);
    }
  }

  lemma OtherMoveKeeps(step: Step, i: nat, a: Slot, b: Slot)
    requires SlotOk(a) && SlotMoves(step, i, a, b) && !step.Complete? && !step.Fail? && !step.Sweep?
    ensures SlotOk(b)
  {
  }

  /** Every move keeps a job in order. */
  lemma MoveKeeps(step: Step, i: nat, a: Slot, b: Slot)
    requires SlotOk(a) && SlotMoves(step, i, a, b)
    ensures SlotOk(b) && SameIdentity(a, b)
  {
    MoveKeepsIdentity(step, i, a, b);
    if step.Complete? || step.Fail? || step.Sweep? {
      WorkerMoveKeeps(step, i, a, b);
    } else {
      OtherMoveKeeps(step, i, a, b);
    }
  }

  // ---------- the table steps, job by job ----------

  lemma PutMoves(s: State, step: Step, i: nat, slot: Slot)
    requires Consistent(s) && IsJob(s, i)
    requires SlotMoves(step, i, SlotOf(s, i), slot)
    ensures Consistent(PutSlot(s, i, slot))
    ensures SlotOf(PutSlot(s, i, slot), i) == slot
    ensures forall k :: 0 <= k < |s.jobs| && k != i ==> SlotOf(PutSlot(s, i, slot), k) == SlotOf(s, k)
  {
    MoveKeeps(step, i, SlotOf(s, i), slot);
    PutFrames(s, i, slot);
    PutKeeps(s, i, slot);
  }

  lemma {:induction false} ClaimEffect(s: State, picked: seq<nat>, worker: string, now: int, leaseSeconds: int)
    requires Consistent(s) && Enabled(s, Claim(worker, now, picked, leaseSeconds))
    ensures var t := ClaimAll(s, picked, worker, now, leaseSeconds);
      && Consistent(t) && |t.jobs| == |s.jobs|
      && forall i :: 0 <= i < |s.jobs| ==>
           SlotOf(t, i) == if i in picked then Claimed(SlotOf(s, i), worker, now, leaseSeconds) else SlotOf(s, i)
    decreases |picked|
  {
    if |picked| != 0 {
      var n := |picked| - 1;
      ClaimEffect(s, picked[..n], worker, now, leaseSeconds);
      var t, i := ClaimAll(s, picked[..n], worker, now, leaseSeconds), picked[n];
      assert i !in picked[..n];
      ClaimOneKeeps(t, i, worker, now, leaseSeconds);
      assert picked == picked[..n] + [i];
    }
  }

  lemma ClaimOneKeeps(s: State, i: nat, worker: string, now: int, leaseSeconds: int)
    requires Consistent(s) && IsJob(s, i) && Claimable(s.jobs[i], now)
    ensures var slot := Claimed(SlotOf(s, i), worker, now, leaseSeconds);
      var t := PutSlot(s, i, slot);
      && Consistent(t) && |t.jobs| == |s.jobs| && SlotOf(t, i) == slot
      && forall k :: 0 <= k < |s.jobs| && k != i ==> SlotOf(t, k) == SlotOf(s, k)
  {
    assert i in [i];
    PutMoves(s, Claim(worker, now, [i], leaseSeconds), i, Claimed(SlotOf(s, i), worker, now, leaseSeconds));
  }

  function SweptTo(slot: Slot, now: int): Slot {
    if Expired(slot.job, now) then Swept(slot, now) else slot
  }

  /** No two jobs share an event. */
  ghost predicate Apart(s: State) {
    && |s.jobs| == |s.attempts|
    && forall i, j :: 0 <= i < j < |s.jobs| ==> !(s.jobs[i].event.Some? && s.jobs[i].event == s.jobs[j].event)
  }

  lemma {:induction false} SweepEffect(s: State, n: nat, now: int, k: nat)
    requires Apart(s) && n <= |s.jobs| && IsJob(s, k)
    ensures Apart(SweepFirst(s, n, now))
    ensures SlotOf(SweepFirst(s, n, now), k) == if k < n then SweptTo(SlotOf(s, k), now) else SlotOf(s, k)
    decreases n
  {
    if n != 0 {
      SweepEffect(s, n - 1, now, k);
    }
  }

  lemma {:induction false} SweepKeeps(s: State, n: nat, now: int)
    requires Consistent(s) && n <= |s.jobs|
    ensures Consistent(SweepFirst(s, n, now))
    decreases n
  {
    if n != 0 {
      SweepKeeps(s, n - 1, now);
      SweepOneKeeps(SweepFirst(s, n - 1, now), n - 1, now);
      SweepUnfolds(s, n, now);
    }
  }

  lemma SweepUnfolds(s: State, n: nat, now: int)
    requires 0 < n <= |s.jobs| == |s.attempts|
    ensures SweepFirst(s, n, now) == SweepOne(SweepFirst(s, n - 1, now), n - 1, now)
  {
  }

  lemma SweepOneKeeps(s: State, i: nat, now: int)
    requires Consistent(s) && IsJob(s, i)
    ensures Consistent(SweepOne(s, i, now))
  {
    if Expired(s.jobs[i], now) {
      PutMoves(s, Sweep(now), i, Swept(SlotOf(s, i), now));
    }
  }

  lemma AddKeeps(s: State, job: Job)
    requires Consistent(s) && SlotOk(Slot(job, [], EventOf(s, job)))
    requires Linked(s.events, s.jobs + [job]) && Unique(s.jobs + [job])
    ensures Consistent(AddJob(s, job))
    ensures forall i :: 0 <= i < |s.jobs| ==> SlotOf(AddJob(s, job), i) == SlotOf(s, i)
  {
    var t := AddJob(s, job);
    forall i | 0 <= i < |t.jobs| ensures SlotOk(SlotOf(t, i)) {
      if i < |s.jobs| {
        assert SlotOf(t, i) == SlotOf(s, i);
      }
    }
  }

  lemma EventMoves(s: State, e: nat, event: Event)
    requires Consistent(s) && e < |s.events| && SameEvent(s.events[e], event)
    requires s.events[e].status != Completed && event.status != Completed
    ensures var t := s.(events := s.events[e := event]);
      && Consistent(t)
      && forall i :: 0 <= i < |s.jobs| ==>
           SlotOf(t, i) == if s.jobs[i].event == Some(e) then SlotOf(s, i).(event := Some(event)) else SlotOf(s, i)
  {
    var t := s.(events := s.events[e := event]);
    forall i | 0 <= i < |s.jobs|
      ensures SlotOf(t, i) == if s.jobs[i].event == Some(e) then SlotOf(s, i).(event := Some(event)) else SlotOf(s, i)
    {}
    forall i | 0 <= i < |t.jobs| ensures SlotOk(SlotOf(t, i)) {
      assert SlotOk(SlotOf(s, i));
    }
  }

  lemma DispatchOneEffect(s: State, e: nat, now: int, leaseSeconds: int)
    requires Consistent(s) && e < |s.events| && s.events[e].status in {Waiting, Retrying}
    requires DispatchOne(s, e, now, leaseSeconds).Some?
    ensures var t := DispatchOne(s, e, now, leaseSeconds).value;
      && Consistent(t) && |t.jobs| >= |s.jobs|
      && t.events == s.events[e := s.events[e].(status := Dispatched, lease := Some(now + leaseSeconds))]
      && (forall i :: 0 <= i < |s.jobs| ==>
           SlotOf(t, i) == if s.jobs[i].event == Some(e) then SlotOf(s, i).(event := Some(t.events[e])) else SlotOf(s, i))
  {
    var event, spec := s.events[e], SpecOf(e, s.events[e]);
    var marked := event.(status := Dispatched, lease := Some(now + leaseSeconds));
    if FindJob(s.jobs, event.project, spec).Some? {
      EventMoves(s, e, marked);
    } else {
      var job := NewJob(event.project, Some(e), spec, now);
      AddKeeps(s, job);
      EventMoves(AddJob(s, job), e, marked);
    }
  }

  predicate DispatchMoves(a: Slot, b: Slot) {
    b == a || (b == a.(event := b.event) && Redispatched(a.event, b.event))
  }

  lemma {:induction false} DispatchEvents(s: State, picked: seq<nat>, now: int, leaseSeconds: int, e: nat)
    requires forall k :: 0 <= k < |picked| ==> picked[k] < |s.events|
    requires e < |s.events| && e !in picked
    requires DispatchAll(s, picked, now, leaseSeconds).Some?
    ensures DispatchAll(s, picked, now, leaseSeconds).value.events[e] == s.events[e]
    decreases |picked|
  {
    if |picked| != 0 {
      DispatchEvents(s, picked[..|picked| - 1], now, leaseSeconds, e);
    }
  }

  lemma {:induction false} DispatchEffect(s: State, picked: seq<nat>, now: int, leaseSeconds: int)
    requires Consistent(s) && Enabled(s, Dispatch(now, picked, leaseSeconds))
    requires DispatchAll(s, picked, now, leaseSeconds).Some?
    ensures Consistent(DispatchAll(s, picked, now, leaseSeconds).value)
    ensures |DispatchAll(s, picked, now, leaseSeconds).value.jobs| >= |s.jobs|
    decreases |picked|
  {
    if |picked| != 0 {
      var n := |picked| - 1;
      DispatchEffect(s, picked[..n], now, leaseSeconds);
      DispatchEvents(s, picked[..n], now, leaseSeconds, picked[n]);
      DispatchOneEffect(DispatchAll(s, picked[..n], now, leaseSeconds).value, picked[n], now, leaseSeconds);
    }
  }

  lemma {:induction false} DispatchMovesAt(s: State, picked: seq<nat>, now: int, leaseSeconds: int, i: nat)
    requires Consistent(s) && Enabled(s, Dispatch(now, picked, leaseSeconds)) && IsJob(s, i)
    requires DispatchAll(s, picked, now, leaseSeconds).Some?
    requires IsJob(DispatchAll(s, picked, now, leaseSeconds).value, i)
    ensures DispatchMoves(SlotOf(s, i), SlotOf(DispatchAll(s, picked, now, leaseSeconds).value, i))
    decreases |picked|
  {
    if |picked| != 0 {
      var n := |picked| - 1;
      DispatchEffect(s, picked[..n], now, leaseSeconds);
      DispatchEvents(s, picked[..n], now, leaseSeconds, picked[n]);
      DispatchMovesAt(s, picked[..n], now, leaseSeconds, i);
      var t := DispatchAll(s, picked[..n], now, leaseSeconds).value;
      DispatchOneEffect(t, picked[n], now, leaseSeconds);
    }
  }

  lemma DispatchProjects(s: State, picked: seq<nat>, now: int, leaseSeconds: int)
    requires Consistent(s) && Enabled(s, Dispatch(now, picked, leaseSeconds))
    ensures var t := Apply(s, Dispatch(now, picked, leaseSeconds));
      && Consistent(t) && |t.jobs| >= |s.jobs|
      && (forall i :: 0 <= i < |s.jobs| ==> SlotMoves(Dispatch(now, picked, leaseSeconds), i, SlotOf(s, i), SlotOf(t, i)))
  {
    var all := DispatchAll(s, picked, now, leaseSeconds);
    if all.Some? {
      DispatchEffect(s, picked, now, leaseSeconds);
      forall i | 0 <= i < |s.jobs| ensures DispatchMoves(SlotOf(s, i), SlotOf(all.value, i)) {
        DispatchMovesAt(s, picked, now, leaseSeconds, i);
      }
    }
  }

  lemma {:induction false} ReplayOutboxIsPut(s: State, e: nat, now: int, i: nat)
    requires Consistent(s) && e < |s.events| && s.events[e].status in {Lost, Retrying, Dispatched}
    requires JobOfEvent(s.jobs, e) == Some(i)
    ensures ReplayOutbox(s, e, now) == PutSlot(s, i, OutboxReplayed(SlotOf(s, i), now))
  {
    assert s.attempts == s.attempts[i := s.attempts[i]];
    assert s.jobs == s.jobs[i := s.jobs[i]];
  }

  lemma ReplayOutboxEffect(s: State, e: nat, now: int)
    requires Consistent(s)
    ensures var t := ReplayOutbox(s, e, now);
      && Consistent(t) && |t.jobs| == |s.jobs|
      && (forall i :: 0 <= i < |s.jobs| ==> SlotMoves(ReplayEvent(e, now), i, SlotOf(s, i), SlotOf(t, i)))
  {
    if e < |s.events| && s.events[e].status in {Lost, Retrying, Dispatched} {
      var found := JobOfEvent(s.jobs, e);
      if found.Some? {
        ReplayOutboxIsPut(s, e, now, found.value);
        PutMoves(s, ReplayEvent(e, now), found.value, OutboxReplayed(SlotOf(s, found.value), now));
        forall k | 0 <= k < |s.jobs| && k != found.value ensures s.jobs[k].event != Some(e) {}
      } else {
        EventMoves(s, e, s.events[e].(status := Waiting, nextAttempt := now, lease := None));
      }
    }
  }

  lemma {:induction false} ReplayMessagesEffect(s: State, project: nat, jobType: string, messages: seq<nat>, now: int)
    requires Consistent(s)
    ensures var t := ReplayMessages(s, project, jobType, messages, now);
      && Consistent(t) && |t.jobs| >= |s.jobs|
      && (forall i :: 0 <= i < |s.jobs| ==> SlotOf(t, i) == SlotOf(s, i))
    decreases |messages|
  {
    if |messages| != 0 {
      var n := |messages| - 1;
      ReplayMessagesEffect(s, project, jobType, messages[..n], now);
      var t := ReplayMessages(s, project, jobType, messages[..n], now);
      var key := Replay(jobType, messages[n]);
      if !KeyTaken(t.jobs, key) {
        AddKeeps(t, NewJob(project, None, Spec(jobType, None, key), now));
      }
    }
  }

  lemma AppendEffect(s: State, event: Event)
    requires Consistent(s)
    ensures var t := s.(events := s.events + [event]);
      && Consistent(t)
      && (forall i :: 0 <= i < |s.jobs| ==> SlotOf(t, i) == SlotOf(s, i))
  {
    var t := s.(events := s.events + [event]);
    forall i | 0 <= i < |s.jobs| ensures SlotOf(t, i) == SlotOf(s, i) {}
  }

  lemma SweepMoves(s: State, now: int)
    requires Consistent(s)
    ensures var t := Apply(s, Sweep(now));
      && Consistent(t) && |t.jobs| == |s.jobs|
      && (forall i :: 0 <= i < |s.jobs| ==> SlotMoves(Sweep(now), i, SlotOf(s, i), SlotOf(t, i)))
  {
    var t := SweepFirst(s, |s.jobs|, now);
    SweepKeeps(s, |s.jobs|, now);
    forall i | 0 <= i < |s.jobs| ensures SlotMoves(Sweep(now), i, SlotOf(s, i), SlotOf(t, i)) {
      SweepEffect(s, |s.jobs|, now, i);
    }
  }

  lemma OwnerProjects(s: State, step: Step)
    requires Consistent(s) && (step.Heartbeat? || step.Complete? || step.Fail?)
    ensures var t := Apply(s, step);
      && Consistent(t) && |t.jobs| == |s.jobs|
      && (forall i :: 0 <= i < |s.jobs| ==> SlotMoves(step, i, SlotOf(s, i), SlotOf(t, i)))
  {
    var i := step.job;
    if IsJob(s, i) && OwnsLive(s.jobs[i], step.worker, step.now) {
      match step
      case Heartbeat(_, _, now, leaseSeconds) => PutMoves(s, step, i, Beaten(SlotOf(s, i), now, leaseSeconds));
      case Complete(_, _, _) => PutMoves(s, step, i, Finished(SlotOf(s, i)));
      case Fail(_, _, now, retryable, maxBackoff) => PutMoves(s, step, i, Failed(SlotOf(s, i), now, retryable, maxBackoff));
    }
  }

  lemma AdminProjects(s: State, step: Step)
    requires Consistent(s) && (step.Retry? || step.Cancel? || step.ReplayJob?)
    ensures var t := Apply(s, step);
      && Consistent(t) && |t.jobs| == |s.jobs|
      && (forall i :: 0 <= i < |s.jobs| ==> SlotMoves(step, i, SlotOf(s, i), SlotOf(t, i)))
  {
    match step
    case Retry(i, now) =>
      if IsJob(s, i) && s.jobs[i].status in {Dead, RetryWait} {
        PutMoves(s, step, i, Retried(SlotOf(s, i), now));
      }
    case Cancel(i) =>
      if IsJob(s, i) && s.jobs[i].status !in {Succeeded, Dead, Cancelled} {
        PutMoves(s, step, i, Stopped(SlotOf(s, i)));
      }
    case ReplayJob(i, now) =>
      if IsJob(s, i) && s.jobs[i].status in {Dead, RetryWait, Cancelled} {
        PutMoves(s, step, i, Replayed(SlotOf(s, i), now));
      }
  }

  lemma ClaimProjects(s: State, picked: seq<nat>, worker: string, now: int, leaseSeconds: int)
    requires Consistent(s) && Enabled(s, Claim(worker, now, picked, leaseSeconds))
    ensures var t := Apply(s, Claim(worker, now, picked, leaseSeconds));
      && Consistent(t) && |t.jobs| == |s.jobs|
      && (forall i :: 0 <= i < |s.jobs| ==> SlotMoves(Claim(worker, now, picked, leaseSeconds), i, SlotOf(s, i), SlotOf(t, i)))
  {
    ClaimEffect(s, picked, worker, now, leaseSeconds);
  }

  /** Every step keeps the tables consistent and moves every job as `SlotMoves` says. */
  lemma StepProjects(s: State, step: Step)
    requires Consistent(s) && Enabled(s, step)
    ensures Consistent(Apply(s, step)) && |Apply(s, step).jobs| >= |s.jobs|
    ensures forall i :: 0 <= i < |s.jobs| ==> SlotMoves(step, i, SlotOf(s, i), SlotOf(Apply(s, step), i))
  {
    match step
    case Append(event) => AppendEffect(s, event);
    case Dispatch(now, picked, leaseSeconds) => DispatchProjects(s, picked, now, leaseSeconds);
    case Claim(worker, now, picked, leaseSeconds) => ClaimProjects(s, picked, worker, now, leaseSeconds);
    case Sweep(now) => SweepMoves(s, now);
    case ReplayEvent(e, now) => ReplayOutboxEffect(s, e, now);
    case ReplayProject(project, jobType, messages, now) => ReplayMessagesEffect(s, project, jobType, messages, now);
    case Heartbeat(_, _, _, _) => OwnerProjects(s, step);
    case Complete(_, _, _) => OwnerProjects(s, step);
    case Fail(_, _, _, _, _) => OwnerProjects(s, step);
    case Retry(_, _) => AdminProjects(s, step);
    case Cancel(_) => AdminProjects(s, step);
    case ReplayJob(_, _) => AdminProjects(s, step);
  }
}
