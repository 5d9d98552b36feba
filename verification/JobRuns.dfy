/** Safety of the job queue over whole runs: fencing, attempt ledger, bounds, backoff. */
module JobRuns {
  import opened Prelude
  import opened JobQueue
  import opened JobGuarantees

  // ---------- runs ----------

  ghost predicate Steps(s: State, step: Step, t: State) {
    |s.jobs| == |s.attempts| && Enabled(s, step) && t == Apply(s, step)
  }

  /** A run from any consistent state; the empty tables are one. */
  ghost predicate Trace(states: seq<State>, steps: seq<Step>) {
    && |states| == |steps| + 1
    && Consistent(states[0])
    && forall k :: 0 <= k < |steps| ==> Steps(states[k], steps[k], states[k + 1])
  }

  /** Every reachable state is consistent. */
  lemma {:induction false} TraceConsistent(states: seq<State>, steps: seq<Step>, k: nat)
    requires Trace(states, steps) && k <= |steps|
    ensures Consistent(states[k])
  {
    if k != 0 {
      TraceConsistent(states, steps, k - 1);
      assert Steps(states[k - 1], steps[k - 1], states[k]);
      StepProjects(states[k - 1], steps[k - 1]);
    }
  }

  /** One job followed through a run: it stays in its table and moves by `SlotMoves`. */
  lemma {:induction false} JobMoves(states: seq<State>, steps: seq<Step>, i: nat, a: nat, k: nat)
    requires Trace(states, steps) && a <= k < |steps| && IsJob(states[a], i)
    ensures IsJob(states[k], i) && IsJob(states[k + 1], i)
    ensures SlotOk(SlotOf(states[k], i))
    ensures SlotMoves(steps[k], i, SlotOf(states[k], i), SlotOf(states[k + 1], i))
    decreases k
  {
    if a < k {
      JobMoves(states, steps, i, a, k - 1);
    }
    TraceConsistent(states, steps, k);
    assert Steps(states[k], steps[k], states[k + 1]);
    StepProjects(states[k], steps[k]);
    TraceConsistent(states, steps, k + 1);
  }

  // ---------- one instant ----------

  /** At any instant a running job can be settled by its owner or swept, never both. */
  lemma SettleOrSweep(slot: Slot, now: int)
    requires SlotOk(slot) && slot.job.status == Running
    ensures OwnsLive(slot.job, slot.job.owner.value, now) <==> !Expired(slot.job, now)
    ensures forall w :: OwnsLive(slot.job, w, now) ==> Some(w) == slot.job.owner
  {
  }

  /** Once the lease has run out, nothing the worker calls changes any row. */
  lemma ExpiredWorkerIsPowerless(s: State, i: nat, worker: string, now: int, leaseSeconds: int, retryable: bool, maxBackoff: int)
    requires Consistent(s)
    requires IsJob(s, i) ==> s.jobs[i].owner != Some(worker) || Expired(s.jobs[i], now)
    ensures Apply(s, Heartbeat(i, worker, now, leaseSeconds)) == s
    ensures Apply(s, Complete(i, worker, now)) == s
    ensures Apply(s, Fail(i, worker, now, retryable, maxBackoff)) == s
  {
    if IsJob(s, i) {
      assert SlotOk(SlotOf(s, i));
    }
  }

  lemma {:induction false} SucceededStays(states: seq<State>, steps: seq<Step>, i: nat, a: nat, b: nat)
    requires Trace(states, steps) && a <= b <= |steps|
    requires IsJob(states[a], i) && states[a].jobs[i].status == Succeeded
    ensures IsJob(states[b], i) && SlotOf(states[b], i) == SlotOf(states[a], i)
    decreases b
  {
    if a < b {
      SucceededStays(states, steps, i, a, b - 1);
      JobMoves(states, steps, i, a, b - 1);
    }
  }

  // ---------- lease fencing ----------

  predicate Claims(step: Step, worker: string, i: nat) {
    step.Claim? && step.worker == worker && i in step.picked
  }

  /** The worker loses the job: swept after the worker's lease ran out, or failed by the worker itself. */
  predicate LosesLease(s: State, step: Step, i: nat, worker: string) {
    && IsJob(s, i)
    && (|| (step.Sweep? && s.jobs[i].owner == Some(worker) && Expired(s.jobs[i], step.now))
        || (step.Fail? && step.job == i && step.worker == worker && OwnsLive(s.jobs[i], worker, step.now)))
  }

  predicate Held(job: Job, worker: string) {
    (job.status == Running && job.owner == Some(worker)) || job.status == Succeeded
  }

  lemma HeldAfterClaim(step: Step, i: nat, a: Slot, b: Slot, worker: string)
    requires SlotMoves(step, i, a, b) && Claims(step, worker, i)
    ensures Held(b.job, worker)
  {
  }

  lemma ClaimedIsJob(s: State, step: Step, t: State, worker: string, i: nat)
    requires Steps(s, step, t) && Claims(step, worker, i)
    ensures IsJob(s, i)
  {
    var k :| 0 <= k < |step.picked| && step.picked[k] == i;
  }

  lemma {:induction false} StillHeld(states: seq<State>, steps: seq<Step>, i: nat, worker: string, a: nat, b: nat)
    requires Trace(states, steps) && a < b <= |steps|
    requires Claims(steps[a], worker, i)
    requires forall c :: a < c < b ==> !LosesLease(states[c], steps[c], i, worker) && steps[c] != Cancel(i)
    ensures IsJob(states[a], i) && IsJob(states[b], i) && Held(states[b].jobs[i], worker)
    decreases b
  {
    if a + 1 == b {
      ClaimedIsJob(states[a], steps[a], states[b], worker, i);
      JobMoves(states, steps, i, a, a);
      HeldAfterClaim(steps[a], i, SlotOf(states[a], i), SlotOf(states[b], i), worker);
    } else {
      StillHeld(states, steps, i, worker, a, b - 1);
      JobMoves(states, steps, i, a, b - 1);
    }
  }

  /**
   Lease fencing, over every run: between two claims of one job, unless an administrator
   cancelled it, its first lease expired and was swept or the first worker failed it.
   */
  lemma LeaseFencing(states: seq<State>, steps: seq<Step>, i: nat, first: string, second: string, a: nat, b: nat)
    requires Trace(states, steps) && a < b < |steps|
    requires Claims(steps[a], first, i) && Claims(steps[b], second, i)
    requires forall c :: a < c < b ==> steps[c] != Cancel(i)
    ensures exists c :: a < c < b && LosesLease(states[c], steps[c], i, first)
  {
    if forall c :: a < c < b ==> !LosesLease(states[c], steps[c], i, first) {
      StillHeld(states, steps, i, first, a, b);
      JobMoves(states, steps, i, a, b);
      assert false;
    }
  }

  // ---------- the attempt ledger ----------

  /** Only the latest attempt can be in progress, and it is exactly while the job runs. */
  ghost predicate Ledger(slot: Slot) {
    var n := |slot.attempts|;
    && (forall k :: 0 <= k < n - 1 ==> slot.attempts[k].outcome != InProgress)
    && (slot.job.status == Running <==> n > 0 && slot.attempts[n - 1].outcome == InProgress)
  }

  /** Every step keeps the ledger but one: cancelling a running job always breaks it. */
  lemma LedgerExact(step: Step, i: nat, a: Slot, b: Slot)
    requires SlotOk(a) && Ledger(a) && SlotMoves(step, i, a, b)
    ensures Ledger(b) <==> !(step == Cancel(i) && a.job.status == Running)
  {
  }

  lemma {:induction false} LedgerKept(states: seq<State>, steps: seq<Step>, i: nat, a: nat, b: nat)
    requires Trace(states, steps) && a <= b <= |steps|
    requires IsJob(states[a], i) && Ledger(SlotOf(states[a], i))
    requires forall c :: a <= c < b && steps[c] == Cancel(i) && IsJob(states[c], i) ==> states[c].jobs[i].status != Running
    ensures IsJob(states[b], i) && Ledger(SlotOf(states[b], i))
    decreases b
  {
    if a < b {
      LedgerKept(states, steps, i, a, b - 1);
      JobMoves(states, steps, i, a, b - 1);
      LedgerExact(steps[b - 1], i, SlotOf(states[b - 1], i), SlotOf(states[b], i));
    }
  }

  /** Cancel, replay and claim again: two attempts of one job are then in progress. */
  lemma TwoAttemptsInProgress(a: Slot, now: int, worker: string, leaseSeconds: int)
    requires SlotOk(a) && Ledger(a) && a.job.status == Running
    ensures var b := Claimed(Replayed(Stopped(a), now), worker, now, leaseSeconds);
      var n := |b.attempts|;
      Claimable(Replayed(Stopped(a), now).job, now)
      && n >= 2 && b.attempts[n - 2].outcome == InProgress && b.attempts[n - 1].outcome == InProgress
      && b.attempts[n - 2] == a.attempts[n - 2]
  {
  }

  // ---------- bounds on attempts ----------

  /** Never more attempts than allowed, and a waiting job still has one left. */
  predicate Budgeted(job: Job) {
    && job.attemptCount <= job.maxAttempts
    && (job.status in {Pending, RetryWait} ==> job.attemptCount < job.maxAttempts)
  }

  predicate PutsBack(step: Step, i: nat, a: Slot) {
    || (step.Retry? && step.job == i && a.job.status in {Dead, RetryWait})
    || (step.ReplayJob? && step.job == i && a.job.status in {Dead, RetryWait, Cancelled})
    || (step.ReplayEvent? && a.job.event == Some(step.event_) && a.event.Some?
        && a.event.value.status in {Lost, Retrying, Dispatched} && a.job.status in {Dead, RetryWait, Cancelled})
  }

  /** Worker steps keep the budget; an administrator's does exactly when an attempt is left. */
  lemma BudgetExact(step: Step, i: nat, a: Slot, b: Slot)
    requires SlotOk(a) && Budgeted(a.job) && SlotMoves(step, i, a, b)
    ensures Budgeted(b.job) <==> (PutsBack(step, i, a) ==> a.job.attemptCount < a.job.maxAttempts)
  {
  }

  function Attempted(jobs: seq<Job>): nat {
    if |jobs| == 0 then 0 else Attempted(jobs[..|jobs| - 1]) + jobs[|jobs| - 1].attemptCount
  }

  function Allowed(jobs: seq<Job>): nat {
    if |jobs| == 0 then 0 else Allowed(jobs[..|jobs| - 1]) + jobs[|jobs| - 1].maxAttempts
  }

  lemma {:induction false} AttemptedPut(jobs: seq<Job>, i: nat, job: Job)
    requires i < |jobs|
    ensures Attempted(jobs[i := job]) == Attempted(jobs) - jobs[i].attemptCount + job.attemptCount
  {
    var n := |jobs| - 1;
    if i == n {
      assert jobs[i := job][..n] == jobs[..n];
    } else {
      AttemptedPut(jobs[..n], i, job);
      assert jobs[i := job][..n] == jobs[..n][i := job];
    }
  }

  lemma {:induction false} AttemptedSame(a: seq<Job>, b: seq<Job>)
    requires |a| <= |b|
    requires forall k :: 0 <= k < |a| ==> b[k].attemptCount == a[k].attemptCount
    requires forall k :: |a| <= k < |b| ==> b[k].attemptCount == 0
    ensures Attempted(b) == Attempted(a)
    decreases |b|
  {
    if |b| != 0 {
      if |a| == |b| {
        AttemptedSame(a[..|a| - 1], b[..|b| - 1]);
      } else {
        AttemptedSame(a, b[..|b| - 1]);
      }
    }
  }

  lemma {:induction false} ClaimsCount(s: State, picked: seq<nat>, worker: string, now: int, leaseSeconds: int)
    requires forall k :: 0 <= k < |picked| ==> IsJob(s, picked[k])
    ensures Attempted(ClaimAll(s, picked, worker, now, leaseSeconds).jobs) == Attempted(s.jobs) + |picked|
    decreases |picked|
  {
    if |picked| != 0 {
      var n := |picked| - 1;
      ClaimsCount(s, picked[..n], worker, now, leaseSeconds);
      var t := ClaimAll(s, picked[..n], worker, now, leaseSeconds);
      assert IsJob(s, picked[n]);
      AttemptedPut(t.jobs, picked[n], Claimed(SlotOf(t, picked[n]), worker, now, leaseSeconds).job);
    }
  }

  /** Jobs a step creates start with no attempt behind them and all of them ahead. */
  predicate Fresh(job: Job) {
    job.status == Pending && job.attemptCount == 0 && job.maxAttempts == DEFAULT_MAX_ATTEMPTS
  }

  ghost predicate FreshFrom(jobs: seq<Job>, n: nat) {
    forall k :: n <= k < |jobs| ==> Fresh(jobs[k])
  }

  lemma {:induction false} DispatchFresh(s: State, picked: seq<nat>, now: int, leaseSeconds: int)
    requires forall k :: 0 <= k < |picked| ==> picked[k] < |s.events|
    requires DispatchAll(s, picked, now, leaseSeconds).Some?
    ensures FreshFrom(DispatchAll(s, picked, now, leaseSeconds).value.jobs, |s.jobs|)
    ensures |DispatchAll(s, picked, now, leaseSeconds).value.jobs| >= |s.jobs|
    decreases |picked|
  {
    if |picked| != 0 {
      DispatchFresh(s, picked[..|picked| - 1], now, leaseSeconds);
    }
  }

  lemma {:induction false} ReplayFresh(s: State, project: nat, jobType: string, messages: seq<nat>, now: int)
    ensures FreshFrom(ReplayMessages(s, project, jobType, messages, now).jobs, |s.jobs|)
    ensures |ReplayMessages(s, project, jobType, messages, now).jobs| >= |s.jobs|
    decreases |messages|
  {
    if |messages| != 0 {
      ReplayFresh(s, project, jobType, messages[..|messages| - 1], now);
    }
  }

  lemma NewJobsAreFresh(s: State, step: Step)
    requires Consistent(s) && Enabled(s, step)
    ensures FreshFrom(Apply(s, step).jobs, |s.jobs|)
  {
    match step
    case Dispatch(now, picked, leaseSeconds) =>
      if DispatchAll(s, picked, now, leaseSeconds).Some? {
        DispatchFresh(s, picked, now, leaseSeconds);
      }
    case ReplayProject(project, jobType, messages, now) => ReplayFresh(s, project, jobType, messages, now);
    case _ =>
  }

  ghost predicate AllBudgeted(s: State) {
    forall i :: 0 <= i < |s.jobs| ==> Budgeted(s.jobs[i])
  }

  function Claimings(steps: seq<Step>): nat {
    if |steps| == 0 then 0
    else Claimings(steps[..|steps| - 1]) + if steps[|steps| - 1].Claim? then |steps[|steps| - 1].picked| else 0
  }

  lemma CountKept(step: Step, i: nat, a: Slot, b: Slot)
    requires SlotMoves(step, i, a, b) && !step.Claim?
    ensures b.job.attemptCount == a.job.attemptCount
  {
  }

  lemma StepCounts(s: State, step: Step)
    requires Consistent(s) && Enabled(s, step)
    ensures Attempted(Apply(s, step).jobs) == Attempted(s.jobs) + if step.Claim? then |step.picked| else 0
  {
    if step.Claim? {
      ClaimsCount(s, step.picked, step.worker, step.now, step.leaseSeconds);
    } else {
      var t := Apply(s, step);
      StepProjects(s, step);
      NewJobsAreFresh(s, step);
      forall k | 0 <= k < |s.jobs| ensures t.jobs[k].attemptCount == s.jobs[k].attemptCount {
        CountKept(step, k, SlotOf(s, k), SlotOf(t, k));
      }
      AttemptedSame(s.jobs, t.jobs);
    }
  }

  /** Every job the step puts back has an attempt left. */
  ghost predicate PutsBackInBudget(s: State, step: Step) {
    forall i :: 0 <= i < |s.jobs| && IsJob(s, i) && PutsBack(step, i, SlotOf(s, i)) ==>
      s.jobs[i].attemptCount < s.jobs[i].maxAttempts
  }

  /** A step keeps all jobs within budget exactly when every job it puts back has an attempt left. */
  lemma StepBudgets(s: State, step: Step)
    requires Consistent(s) && Enabled(s, step) && AllBudgeted(s)
    ensures AllBudgeted(Apply(s, step)) <==> PutsBackInBudget(s, step)
  {
    var t := Apply(s, step);
    StepProjects(s, step);
    NewJobsAreFresh(s, step);
    forall i | 0 <= i < |t.jobs|
      ensures i < |s.jobs| ==>
        (Budgeted(t.jobs[i]) <==> (PutsBack(step, i, SlotOf(s, i)) ==> s.jobs[i].attemptCount < s.jobs[i].maxAttempts))
      ensures i >= |s.jobs| ==> Budgeted(t.jobs[i])
    {
      if i < |s.jobs| {
        BudgetExact(step, i, SlotOf(s, i), SlotOf(t, i));
      } else {
        assert Fresh(t.jobs[i]);
      }
    }
  }

  lemma {:induction false} AttemptedWithin(jobs: seq<Job>)
    requires forall i :: 0 <= i < |jobs| ==> Budgeted(jobs[i])
    ensures Attempted(jobs) <= Allowed(jobs)
  {
    if |jobs| != 0 {
      AttemptedWithin(jobs[..|jobs| - 1]);
    }
  }

  /** Over every run, whatever the administrator does, each claim is one attempt. */
  lemma {:induction false} ClaimsAreAttempts(states: seq<State>, steps: seq<Step>, k: nat)
    requires Trace(states, steps) && k <= |steps|
    ensures Attempted(states[k].jobs) == Attempted(states[0].jobs) + Claimings(steps[..k])
  {
    if k != 0 {
      ClaimsAreAttempts(states, steps, k - 1);
      TraceConsistent(states, steps, k - 1);
      assert Steps(states[k - 1], steps[k - 1], states[k]);
      StepCounts(states[k - 1], steps[k - 1]);
      assert steps[..k][..k - 1] == steps[..k - 1];
    }
  }

  lemma {:induction false} RunBudgets(states: seq<State>, steps: seq<Step>, k: nat)
    requires Trace(states, steps) && k <= |steps| && AllBudgeted(states[0])
    requires forall c :: 0 <= c < |steps| ==> PutsBackInBudget(states[c], steps[c])
    ensures AllBudgeted(states[k])
  {
    if k != 0 {
      RunBudgets(states, steps, k - 1);
      TraceConsistent(states, steps, k - 1);
      assert Steps(states[k - 1], steps[k - 1], states[k]);
      StepBudgets(states[k - 1], steps[k - 1]);
    }
  }

  /**
   Termination: from the empty tables, as long as no job is put back that has no attempt
   left, the jobs claimed over a run are at most the attempts its jobs are allowed.
   */
  lemma {:induction false} ClaimsAreBounded(states: seq<State>, steps: seq<Step>)
    requires Trace(states, steps) && states[0] == State([], [], [])
    requires forall c :: 0 <= c < |steps| ==> PutsBackInBudget(states[c], steps[c])
    ensures Claimings(steps) == Attempted(states[|steps|].jobs) <= Allowed(states[|steps|].jobs)
  {
    ClaimsAreAttempts(states, steps, |steps|);
    RunBudgets(states, steps, |steps|);
    assert steps[..|steps|] == steps;
    AttemptedWithin(states[|steps|].jobs);
  }

  // ---------- backoff ----------

  predicate IsAdmin(step: Step, i: nat, event: Option<nat>) {
    || (step.Retry? && step.job == i)
    || (step.Cancel? && step.job == i)
    || (step.ReplayJob? && step.job == i)
    || (step.ReplayEvent? && event == Some(step.event_))
  }

  lemma {:induction false} Parked(states: seq<State>, steps: seq<Step>, i: nat, a: nat, b: nat)
    requires Trace(states, steps) && a <= b <= |steps|
    requires IsJob(states[a], i) && states[a].jobs[i].status == RetryWait
    requires forall c :: a <= c < b ==> !IsAdmin(steps[c], i, states[a].jobs[i].event) && !(steps[c].Claim? && i in steps[c].picked)
    ensures IsJob(states[b], i) && states[b].jobs[i] == states[a].jobs[i]
    decreases b
  {
    if a < b {
      Parked(states, steps, i, a, b - 1);
      JobMoves(states, steps, i, a, b - 1);
    }
  }

  /**
   A job that fails with retry at one time is next claimed at least
   min(max_backoff, 2^(attempts - 1)) seconds later, unless an administrator steps in.
   */
  lemma BackoffRespected(states: seq<State>, steps: seq<Step>, i: nat, worker: string, a: nat, b: nat)
    requires Trace(states, steps) && a < b < |steps|
    requires steps[a].Fail? && steps[a].job == i && IsJob(states[a], i) && OwnsLive(states[a].jobs[i], steps[a].worker, steps[a].now)
    requires steps[a].retryable && states[a].jobs[i].attemptCount < states[a].jobs[i].maxAttempts
    requires Claims(steps[b], worker, i)
    requires forall c :: a < c < b ==> !IsAdmin(steps[c], i, states[a].jobs[i].event) && !(steps[c].Claim? && i in steps[c].picked)
    ensures states[a].jobs[i].attemptCount >= 1
    ensures var delay := Power2(states[a].jobs[i].attemptCount - 1);
      steps[b].now >= steps[a].now + (if steps[a].maxBackoff < delay then steps[a].maxBackoff else delay)
  {
    JobMoves(states, steps, i, a, a);
    Parked(states, steps, i, a + 1, b);
    JobMoves(states, steps, i, a, b);
  }
}
