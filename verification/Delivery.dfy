/**
 Delivery from the client's outbox to the archive, step by step: each `send`, each write of
 a file and a crash between any two of them, on any number of projects at once.
 */
module Delivery {
  import opened Prelude
  import opened MessageArchive
  import opened ClientOutbox

  // ---------- the machine ----------

  /** Where a replay is; a project's lock is held unless Idle. */
  datatype Phase =
    | Idle
    | Sending(now: int, next: nat, progress: Progress)
    | Burying(progress: Progress, next: nat)

  datatype Client = Client(pending: seq<Record>, dead: seq<Record>, phase: Phase)

  /** `log` records every event ever enqueued. */
  datatype World = World(clients: map<string, Client>, archive: Archive, log: seq<Row>)

  /** The fate of one request: whether it reaches the server and the answer comes back. */
  datatype Network = Answered | AnswerLost | Unreachable | Rejected

  datatype Step =
    | Enqueue(project: string, key: string, content: string)
    | Begin(project: string, now: int)
    | Send(project: string, network: Network)
    | Bury(project: string)
    | Rewrite(project: string)
    | Crash(project: string)
    | Direct(project: string, key: string, content: string)

  function ClientOf(w: World, project: string): Client {
    if project in w.clients then w.clients[project] else Client([], [], Idle)
  }

  function SetClient(w: World, project: string, client: Client): World {
    w.(clients := w.clients[project := client])
  }

  /** How the client sees the server's reply: a conflict is a 409, a clash or refusal of the key a 500. */
  function SeenAs(reply: Reply): Seen {
    match reply
    case Stored(_) => Accepted
    case Duplicate(_) => Accepted
    case Conflict(_) => Refused
    case KeyClash => Unavailable
    case KeyRefused => Unavailable
  }

  function Exchange(a: Archive, project: string, record: Record, network: Network): (Archive, Seen) {
    var (b, reply) := Append(a, project, record.key, record.content);
    match network
    case Answered => (b, SeenAs(reply))
    case AnswerLost => (b, Unavailable)
    case Unreachable => (a, Unavailable)
    case Rejected => (a, Refused)
  }

  /** Steps that are not possible in the state change nothing. */
  function Apply(w: World, step: Step): World {
    var project := step.project;
    var c := ClientOf(w, project);
    match step
    case Enqueue(_, key, content) =>
      if !c.phase.Idle? || key == "" then w
      else
        SetClient(w, project, c.(pending := c.pending + [Record(key, content, 0, None)]))
          .(log := w.log + [Row(project, key, content)])
    case Begin(_, now) =>
      if !c.phase.Idle? then w else SetClient(w, project, c.(phase := Sending(now, 0, START)))
    case Send(_, network) =>
      if !c.phase.Sending? then w
      else if c.phase.next >= |c.pending| then SetClient(w, project, c.(phase := Burying(c.phase.progress, 0)))
      else
        var record := c.pending[c.phase.next];
        if !IsDue(record, c.phase.now) then
          SetClient(w, project, c.(phase := Sending(
            c.phase.now, c.phase.next + 1, Handle(c.phase.progress, record, Accepted, c.phase.now))))
        else
          var (archive, seen) := Exchange(w.archive, project, record, network);
          SetClient(w, project, c.(phase := Sending(
            c.phase.now, c.phase.next + 1, Handle(c.phase.progress, record, seen, c.phase.now)))).(archive := archive)
    case Bury(_) =>
      if !c.phase.Burying? || c.phase.next >= |c.phase.progress.dead| then w
      else
        SetClient(w, project, c.(dead := c.dead + [c.phase.progress.dead[c.phase.next]],
                                 phase := Burying(c.phase.progress, c.phase.next + 1)))
    case Rewrite(_) =>
      if !c.phase.Burying? || c.phase.next < |c.phase.progress.dead| then w
      else SetClient(w, project, c.(pending := c.phase.progress.remaining, phase := Idle))
    case Crash(_) => SetClient(w, project, c.(phase := Idle))
    case Direct(_, key, content) => w.(archive := Append(w.archive, project, key, content).0)
  }

  function Run(w: World, steps: seq<Step>): World {
    if |steps| == 0 then w else Apply(Run(w, steps[..|steps| - 1]), steps[|steps| - 1])
  }

  // ---------- the invariant ----------

  predicate Filed(records: seq<Record>, key: string, content: string) {
    exists i :: 0 <= i < |records| && records[i].key == key && records[i].content == content
  }

  /** The event is in one of the two lists, or the archive holds it. */
  predicate Safe(remaining: seq<Record>, dead: seq<Record>, a: Archive, project: string, key: string, content: string) {
    || Filed(remaining, key, content)
    || Filed(dead, key, content)
    || Holds(a.rows, project, key, content)
  }

  /** The records handled so far are each kept, set aside or delivered, and counted once. */
  ghost predicate Accounted(records: seq<Record>, n: nat, p: Progress, a: Archive, project: string) {
    && n <= |records|
    && p.delivered + |p.remaining| + |p.dead| == n
    && forall j :: 0 <= j < n ==> Safe(p.remaining, p.dead, a, project, records[j].key, records[j].content)
  }

  ghost predicate ClientOk(c: Client, a: Archive, project: string) {
    match c.phase
    case Idle => true
    case Sending(_, next, p) => Accounted(c.pending, next, p, a, project)
    case Burying(p, next) =>
      && Accounted(c.pending, |c.pending|, p, a, project)
      && next <= |p.dead|
      && forall k :: 0 <= k < next ==> Filed(c.dead, p.dead[k].key, p.dead[k].content)
  }

  /** No enqueued event is lost: it is pending, dead-lettered, or in the archive as enqueued. */
  ghost predicate NothingLost(w: World) {
    forall i :: 0 <= i < |w.log| ==>
      var c := ClientOf(w, w.log[i].project);
      Safe(c.pending, c.dead, w.archive, w.log[i].project, w.log[i].key, w.log[i].content)
  }

  ghost predicate Invariant(w: World) {
    && Sound(w.archive)
    && (forall p :: p in w.clients ==> ClientOk(w.clients[p], w.archive, p))
    && NothingLost(w)
  }

  // ---------- preservation ----------

  lemma FiledKept(records: seq<Record>, more: seq<Record>, key: string, content: string)
    requires Filed(records, key, content)
    ensures Filed(records + more, key, content)
  {
    var i :| 0 <= i < |records| && records[i].key == key && records[i].content == content;
    assert (records + more)[i] == records[i];
  }

  lemma HoldsKept(a: Archive, b: Archive, project: string, key: string, content: string)
    requires a.rows <= b.rows && Holds(a.rows, project, key, content)
    ensures Holds(b.rows, project, key, content)
  {
    var i :| 0 <= i < |a.rows| && a.rows[i] == Row(project, key, content);
    assert b.rows[i] == a.rows[i];
  }

  lemma AccountedGrows(records: seq<Record>, n: nat, p: Progress, a: Archive, b: Archive, project: string)
    requires Accounted(records, n, p, a, project) && a.rows <= b.rows
    ensures Accounted(records, n, p, b, project)
  {
    forall j | 0 <= j < n ensures Safe(p.remaining, p.dead, b, project, records[j].key, records[j].content) {
      if Holds(a.rows, project, records[j].key, records[j].content) {
        HoldsKept(a, b, project, records[j].key, records[j].content);
      }
    }
  }

  /** Handling a record accounts for it, given that "accepted" means the archive holds it. */
  lemma HandleAccounts(records: seq<Record>, n: nat, p: Progress, a: Archive, project: string, seen: Seen, now: int)
    requires Accounted(records, n, p, a, project) && n < |records|
    requires IsDue(records[n], now) && seen == Accepted ==> Holds(a.rows, project, records[n].key, records[n].content)
    ensures Accounted(records, n + 1, Handle(p, records[n], seen, now), a, project)
  {
    var q := Handle(p, records[n], seen, now);
    forall j | 0 <= j < n + 1 ensures Safe(q.remaining, q.dead, a, project, records[j].key, records[j].content) {
      if j < n {
        var key, content := records[j].key, records[j].content;
        if Filed(p.remaining, key, content) {
          FiledKept(p.remaining, q.remaining[|p.remaining|..], key, content);
          assert q.remaining == p.remaining + q.remaining[|p.remaining|..];
        } else if Filed(p.dead, key, content) {
          FiledKept(p.dead, q.dead[|p.dead|..], key, content);
          assert q.dead == p.dead + q.dead[|p.dead|..];
        }
      } else if |q.remaining| > |p.remaining| {
        assert q.remaining[|p.remaining|].key == records[n].key;
      } else if |q.dead| > |p.dead| {
        assert q.dead[|p.dead|] == records[n];
      }
    }
  }

  lemma ExchangeSound(a: Archive, project: string, record: Record, network: Network)
    requires Sound(a)
    ensures var (b, seen) := Exchange(a, project, record, network);
      && Sound(b) && a.rows <= b.rows
      && (seen == Accepted ==> Holds(b.rows, project, record.key, record.content))
  {
    AppendSound(a, project, record.key, record.content);
  }

  lemma EnqueueKeeps(w: World, project: string, key: string, content: string)
    requires Invariant(w)
    ensures Invariant(Apply(w, Enqueue(project, key, content)))
  {
    var c := ClientOf(w, project);
    if c.phase.Idle? && key != "" {
      var record := Record(key, content, 0, None);
      var log := w.log + [Row(project, key, content)];
      var after := c.(pending := c.pending + [record]);
      forall i | 0 <= i < |log| && log[i].project == project
        ensures Safe(after.pending, after.dead, w.archive, project, log[i].key, log[i].content)
      {
        if i < |w.log| {
          if Filed(c.pending, log[i].key, log[i].content) {
            FiledKept(c.pending, [record], log[i].key, log[i].content);
          }
        } else {
          assert after.pending[|c.pending|] == record;
        }
      }
    }
  }

  lemma SendKeeps(w: World, project: string, network: Network)
    requires Invariant(w)
    ensures Invariant(Apply(w, Send(project, network)))
  {
    var c := ClientOf(w, project);
    if c.phase.Sending? {
      var next, now, p := c.phase.next, c.phase.now, c.phase.progress;
      assert project in w.clients;
      if next >= |c.pending| {
        PhaseKeeps(w, project, c.(phase := Burying(p, 0)), w.archive);
      } else if !IsDue(c.pending[next], now) {
        HandleAccounts(c.pending, next, p, w.archive, project, Accepted, now);
        PhaseKeeps(w, project, c.(phase := Sending(now, next + 1, Handle(p, c.pending[next], Accepted, now))), w.archive);
      } else {
        ExchangeSound(w.archive, project, c.pending[next], network);
        var (b, seen) := Exchange(w.archive, project, c.pending[next], network);
        AccountedGrows(c.pending, next, p, w.archive, b, project);
        HandleAccounts(c.pending, next, p, b, project, seen, now);
        PhaseKeeps(w, project, c.(phase := Sending(now, next + 1, Handle(p, c.pending[next], seen, now))), b);
      }
    }
  }

  /** A step that touches neither file. */
  lemma PhaseKeeps(w: World, project: string, after: Client, b: Archive)
    requires Invariant(w) && Sound(b) && w.archive.rows <= b.rows && ClientOk(after, b, project)
    requires after.pending == ClientOf(w, project).pending && after.dead == ClientOf(w, project).dead
    ensures Invariant(World(w.clients[project := after], b, w.log))
  {
    forall i | 0 <= i < |w.log| && w.log[i].project == project
      ensures Safe(after.pending, after.dead, b, project, w.log[i].key, w.log[i].content)
    {
    }
  }

  lemma BuryKeeps(w: World, project: string)
    requires Invariant(w)
    ensures Invariant(Apply(w, Bury(project)))
  {
    var c := ClientOf(w, project);
    if c.phase.Burying? && c.phase.next < |c.phase.progress.dead| {
      var p, next := c.phase.progress, c.phase.next;
      assert project in w.clients;
      var after := c.(dead := c.dead + [p.dead[next]], phase := Burying(p, next + 1));
      forall k | 0 <= k < next + 1 ensures Filed(after.dead, p.dead[k].key, p.dead[k].content) {
        if k < next {
          FiledKept(c.dead, [p.dead[next]], p.dead[k].key, p.dead[k].content);
        } else {
          assert after.dead[|c.dead|] == p.dead[next];
        }
      }
      forall i | 0 <= i < |w.log| && w.log[i].project == project
        ensures Safe(after.pending, after.dead, w.archive, project, w.log[i].key, w.log[i].content)
      {
        if Filed(c.dead, w.log[i].key, w.log[i].content) {
          FiledKept(c.dead, [p.dead[next]], w.log[i].key, w.log[i].content);
        }
      }
    }
  }

  lemma RewriteKeeps(w: World, project: string)
    requires Invariant(w)
    ensures Invariant(Apply(w, Rewrite(project)))
  {
    var c := ClientOf(w, project);
    if c.phase.Burying? && c.phase.next >= |c.phase.progress.dead| {
      var p := c.phase.progress;
      assert project in w.clients;
      var after := c.(pending := p.remaining, phase := Idle);
      forall i | 0 <= i < |w.log| && w.log[i].project == project
        ensures Safe(after.pending, after.dead, w.archive, project, w.log[i].key, w.log[i].content)
      {
        var key, content := w.log[i].key, w.log[i].content;
        if Filed(c.pending, key, content) {
          var j :| 0 <= j < |c.pending| && c.pending[j].key == key && c.pending[j].content == content;
          assert Safe(p.remaining, p.dead, w.archive, project, c.pending[j].key, c.pending[j].content);
          if Filed(p.dead, key, content) {
            var k :| 0 <= k < |p.dead| && p.dead[k].key == key && p.dead[k].content == content;
            assert Filed(c.dead, p.dead[k].key, p.dead[k].content);
          }
        }
      }
    }
  }

  lemma DirectKeeps(w: World, project: string, key: string, content: string)
    requires Invariant(w)
    ensures Invariant(Apply(w, Direct(project, key, content)))
  {
    AppendSound(w.archive, project, key, content);
    ArchiveGrows(w, Append(w.archive, project, key, content).0);
  }

  lemma ArchiveGrows(w: World, b: Archive)
    requires Invariant(w) && Sound(b) && w.archive.rows <= b.rows
    ensures Invariant(w.(archive := b))
  {
    forall p | p in w.clients ensures ClientOk(w.clients[p], b, p) {
      ClientKept(w.clients[p], w.archive, b, p);
    }
    var v := w.(archive := b);
    forall i | 0 <= i < |w.log|
      ensures var c := ClientOf(v, w.log[i].project);
        Safe(c.pending, c.dead, b, w.log[i].project, w.log[i].key, w.log[i].content)
    {
      assert ClientOf(v, w.log[i].project) == ClientOf(w, w.log[i].project);
      if Holds(w.archive.rows, w.log[i].project, w.log[i].key, w.log[i].content) {
        HoldsKept(w.archive, b, w.log[i].project, w.log[i].key, w.log[i].content);
      }
    }
  }

  lemma ClientKept(c: Client, a: Archive, b: Archive, project: string)
    requires ClientOk(c, a, project) && a.rows <= b.rows
    ensures ClientOk(c, b, project)
  {
    match c.phase
    case Sending(_, next, p) => AccountedGrows(c.pending, next, p, a, b, project);
    case Burying(p, _) => AccountedGrows(c.pending, |c.pending|, p, a, b, project);
    case Idle =>
  }

  lemma ApplyKeeps(w: World, step: Step)
    requires Invariant(w)
    ensures Invariant(Apply(w, step))
  {
    match step
    case Enqueue(project, key, content) => EnqueueKeeps(w, project, key, content);
    case Begin(project, now) =>
      var c := ClientOf(w, project);
      if c.phase.Idle? {
        PhaseKeeps(w, project, c.(phase := Sending(now, 0, START)), w.archive);
      }
    case Send(project, network) => SendKeeps(w, project, network);
    case Bury(project) => BuryKeeps(w, project);
    case Rewrite(project) => RewriteKeeps(w, project);
    case Crash(project) => PhaseKeeps(w, project, ClientOf(w, project).(phase := Idle), w.archive);
    case Direct(project, key, content) => DirectKeeps(w, project, key, content);
  }

  // ---------- over every run ----------

  const EMPTY := World(map[], Archive([], []), [])

  /**
   Over every run, with crashes anywhere, lost answers and repeated replays: no enqueued
   event is lost, and the archive has at most one row per key with exactly one event.
   */
  lemma {:induction false} RunInvariant(steps: seq<Step>)
    ensures Invariant(Run(EMPTY, steps))
  {
    if |steps| != 0 {
      RunInvariant(steps[..|steps| - 1]);
      ApplyKeeps(Run(EMPTY, steps[..|steps| - 1]), steps[|steps| - 1]);
    }
  }

  /** Rows, events and log are only ever added to. */
  ghost predicate Grows(w: World, v: World) {
    w.archive.rows <= v.archive.rows && w.archive.events <= v.archive.events && w.log <= v.log
  }

  lemma SendGrows(w: World, project: string, network: Network)
    requires Sound(w.archive)
    ensures Grows(w, Apply(w, Send(project, network)))
  {
    var c := ClientOf(w, project);
    if c.phase.Sending? && c.phase.next < |c.pending| {
      AppendSound(w.archive, project, c.pending[c.phase.next].key, c.pending[c.phase.next].content);
    }
  }

  lemma ApplyGrows(w: World, step: Step)
    requires Sound(w.archive)
    ensures Grows(w, Apply(w, step))
  {
    match step
    case Direct(project, key, content) => AppendSound(w.archive, project, key, content);
    case Send(project, network) => SendGrows(w, project, network);
    case _ =>
  }

  lemma {:induction false} LastStepGrows(steps: seq<Step>)
    requires |steps| > 0
    ensures Grows(Run(EMPTY, steps[..|steps| - 1]), Run(EMPTY, steps))
  {
    RunInvariant(steps[..|steps| - 1]);
    ApplyGrows(Run(EMPTY, steps[..|steps| - 1]), steps[|steps| - 1]);
  }

  /** A stored message keeps its content, and its one event, for the rest of the run. */
  lemma {:induction false} StoredIsForever(before: seq<Step>, after: seq<Step>)
    ensures Grows(Run(EMPTY, before), Run(EMPTY, before + after))
    decreases |after|
  {
    var all := before + after;
    if |after| == 0 {
      assert all == before;
    } else {
      var earlier := after[..|after| - 1];
      StoredIsForever(before, earlier);
      LastStepGrows(all);
      assert all[..|all| - 1] == before + earlier;
    }
  }

  predicate SameKey(a: Row, b: Row) {
    a.project == b.project && a.key == b.key
  }

  /**
   Exactly once: an event that has left both files after any run is in the archive, in
   exactly one row for its key, which has its content and exactly one event.
   */
  lemma ExactlyOnce(steps: seq<Step>, i: nat) returns (row: nat)
    requires i < |Run(EMPTY, steps).log|
    requires var w := Run(EMPTY, steps);
      var e := w.log[i];
      !Filed(ClientOf(w, e.project).pending, e.key, e.content) && !Filed(ClientOf(w, e.project).dead, e.key, e.content)
    ensures var w := Run(EMPTY, steps);
      && row < |w.archive.rows| && w.archive.rows[row] == w.log[i]
      && (forall r :: 0 <= r < |w.archive.rows| && SameKey(w.archive.rows[r], w.log[i]) ==> r == row)
      && (forall v :: 0 <= v < |w.archive.events| ==> (w.archive.events[v].message == row <==> v == row))
      && row < |w.archive.events|
  {
    RunInvariant(steps);
    var w := Run(EMPTY, steps);
    var e := w.log[i];
    row :| 0 <= row < |w.archive.rows| && w.archive.rows[row] == Row(e.project, e.key, e.content);
  }

  // ---------- what is dead-lettered ----------

  /** The archive holds another message under the record's key. */
  ghost predicate Conflicts(a: Archive, project: string, record: Record) {
    exists other :: other != record.content && Holds(a.rows, project, record.key, other)
  }

  ghost predicate AllConflict(a: Archive, project: string, records: seq<Record>) {
    forall k :: 0 <= k < |records| ==> Conflicts(a, project, records[k])
  }

  function Condemned(c: Client): seq<Record> {
    match c.phase
    case Idle => []
    case Sending(_, _, p) => p.dead
    case Burying(p, _) => p.dead
  }

  ghost predicate DeadConflict(w: World) {
    forall p :: AllConflict(w.archive, p, ClientOf(w, p).dead) && AllConflict(w.archive, p, Condemned(ClientOf(w, p)))
  }

  lemma ConflictsGrow(a: Archive, b: Archive, project: string, records: seq<Record>)
    requires a.rows <= b.rows && AllConflict(a, project, records)
    ensures AllConflict(b, project, records)
  {
    forall k | 0 <= k < |records| ensures Conflicts(b, project, records[k]) {
      var other :| other != records[k].content && Holds(a.rows, project, records[k].key, other);
      HoldsKept(a, b, project, records[k].key, other);
    }
  }

  ghost predicate ClientConflict(a: Archive, p: string, c: Client) {
    AllConflict(a, p, c.dead) && AllConflict(a, p, Condemned(c))
  }

  lemma SendConflicts(w: World, project: string, network: Network)
    requires Invariant(w) && DeadConflict(w) && network != Rejected
    ensures var v := Apply(w, Send(project, network)); ClientConflict(v.archive, project, ClientOf(v, project))
  {
    var v := Apply(w, Send(project, network));
    var c := ClientOf(w, project);
    SendGrows(w, project, network);
    ConflictsGrow(w.archive, v.archive, project, c.dead);
    ConflictsGrow(w.archive, v.archive, project, Condemned(c));
    if c.phase.Sending? && c.phase.next < |c.pending| {
      AppendSound(w.archive, project, c.pending[c.phase.next].key, c.pending[c.phase.next].content);
    }
  }

  lemma OthersConflict(w: World, step: Step, p: string)
    requires Invariant(w) && DeadConflict(w) && !(step.Send? && step.project == p)
    ensures var v := Apply(w, step); ClientConflict(v.archive, p, ClientOf(v, p))
  {
    var v := Apply(w, step);
    var c := ClientOf(w, p);
    ApplyGrows(w, step);
    ConflictsGrow(w.archive, v.archive, p, c.dead);
    ConflictsGrow(w.archive, v.archive, p, Condemned(c));
  }

  lemma DeadConflictKept(w: World, step: Step)
    requires Invariant(w) && DeadConflict(w)
    requires step.Send? ==> step.network != Rejected
    ensures DeadConflict(Apply(w, step))
  {
    var v := Apply(w, step);
    forall p ensures AllConflict(v.archive, p, ClientOf(v, p).dead) && AllConflict(v.archive, p, Condemned(ClientOf(v, p))) {
      if step.Send? && step.project == p {
        SendConflicts(w, p, step.network);
      } else {
        OthersConflict(w, step, p);
      }
    }
  }

  /**
   When no request is rejected outright, a record is dead-lettered only because the archive
   holds a different message under its key.
   */
  lemma {:induction false} DeadLettersConflict(steps: seq<Step>)
    requires forall k :: 0 <= k < |steps| && steps[k].Send? ==> steps[k].network != Rejected
    ensures DeadConflict(Run(EMPTY, steps))
  {
    if |steps| != 0 {
      DeadLettersConflict(steps[..|steps| - 1]);
      RunInvariant(steps[..|steps| - 1]);
      DeadConflictKept(Run(EMPTY, steps[..|steps| - 1]), steps[|steps| - 1]);
    }
  }

  // ---------- records that wait for ever ----------

  /** Every record handled so far under the key has been kept. */
  ghost predicate Clings(records: seq<Record>, n: nat, p: Progress, key: string) {
    n <= |records| && forall j :: 0 <= j < n && records[j].key == key ==> Filed(p.remaining, key, records[j].content)
  }

  ghost predicate ClientClings(c: Client, key: string) {
    match c.phase
    case Idle => true
    case Sending(_, next, p) => Clings(c.pending, next, p, key)
    case Burying(p, _) => Clings(c.pending, |c.pending|, p, key)
  }

  /** The record is pending under a key that can never be stored. */
  ghost predicate Starves(w: World, project: string, key: string, content: string) {
    && Sound(w.archive) && Doomed(w.archive, project, key)
    && Filed(ClientOf(w, project).pending, key, content)
    && ClientClings(ClientOf(w, project), key)
  }

  lemma HandleClings(records: seq<Record>, n: nat, p: Progress, key: string, seen: Seen, now: int)
    requires Clings(records, n, p, key) && n < |records|
    requires records[n].key == key && IsDue(records[n], now) ==> seen == Unavailable
    ensures Clings(records, n + 1, Handle(p, records[n], seen, now), key)
  {
    var q := Handle(p, records[n], seen, now);
    forall j | 0 <= j < n + 1 && records[j].key == key ensures Filed(q.remaining, key, records[j].content) {
      if j < n {
        FiledKept(p.remaining, q.remaining[|p.remaining|..], key, records[j].content);
        assert q.remaining == p.remaining + q.remaining[|p.remaining|..];
      } else {
        assert q.remaining[|p.remaining|].key == key && q.remaining[|p.remaining|].content == records[n].content;
      }
    }
  }

  lemma SendStarves(w: World, project: string, network: Network, key: string, content: string)
    requires Starves(w, project, key, content) && network != Rejected
    ensures Starves(Apply(w, Send(project, network)), project, key, content)
  {
    var c := ClientOf(w, project);
    if c.phase.Sending? && c.phase.next < |c.pending| {
      var next, now, p := c.phase.next, c.phase.now, c.phase.progress;
      var record := c.pending[next];
      AppendSound(w.archive, project, record.key, record.content);
      FailsExactly(w.archive, project, record.key, record.content);
      DoomedStays(w.archive, project, key, project, record.key, record.content);
      var seen := if IsDue(record, now) then Exchange(w.archive, project, record, network).1 else Accepted;
      HandleClings(c.pending, next, p, key, seen, now);
    }
  }

  lemma RewriteStarves(w: World, project: string, key: string, content: string)
    requires Starves(w, project, key, content)
    ensures Starves(Apply(w, Rewrite(project)), project, key, content)
  {
    var c := ClientOf(w, project);
    if c.phase.Burying? && c.phase.next >= |c.phase.progress.dead| {
      var j :| 0 <= j < |c.pending| && c.pending[j].key == key && c.pending[j].content == content;
      assert Filed(c.phase.progress.remaining, key, c.pending[j].content);
    }
  }

  lemma EnqueueStarves(w: World, step: Step, project: string, key: string, content: string)
    requires Starves(w, project, key, content) && step.Enqueue?
    ensures Starves(Apply(w, step), project, key, content)
  {
    var c := ClientOf(w, project);
    if step.project == project && c.phase.Idle? && step.key != "" {
      FiledKept(c.pending, [Record(step.key, step.content, 0, None)], key, content);
    }
  }

  lemma ExchangeDooms(a: Archive, other: string, record: Record, network: Network, project: string, key: string)
    requires Sound(a) && Doomed(a, project, key)
    ensures var b := Exchange(a, other, record, network).0; Sound(b) && Doomed(b, project, key)
  {
    AppendSound(a, other, record.key, record.content);
    DoomedStays(a, project, key, other, record.key, record.content);
  }

  lemma OtherSendStarves(w: World, step: Step, project: string, key: string, content: string)
    requires Starves(w, project, key, content) && step.Send? && step.project != project
    ensures Starves(Apply(w, step), project, key, content)
  {
    var c := ClientOf(w, step.project);
    var v := Apply(w, step);
    assert ClientOf(v, project) == ClientOf(w, project);
    if c.phase.Sending? && c.phase.next < |c.pending| {
      ExchangeDooms(w.archive, step.project, c.pending[c.phase.next], step.network, project, key);
    }
  }

  lemma ApplyStarves(w: World, step: Step, project: string, key: string, content: string)
    requires Starves(w, project, key, content)
    requires step.Send? && step.project == project ==> step.network != Rejected
    ensures Starves(Apply(w, step), project, key, content)
  {
    match step
    case Enqueue(_, _, _) => EnqueueStarves(w, step, project, key, content);
    case Send(p, network) =>
      if p == project {
        SendStarves(w, project, network, key, content);
      } else {
        OtherSendStarves(w, step, project, key, content);
      }
    case Rewrite(p) =>
      if p == project {
        RewriteStarves(w, project, key, content);
      }
    case Direct(p, otherKey, other) =>
      AppendSound(w.archive, p, otherKey, other);
      DoomedStays(w.archive, project, key, p, otherKey, other);
    case _ =>
  }

  lemma {:induction false} LastStepStarves(steps: seq<Step>, project: string, key: string, content: string)
    requires |steps| > 0 && Starves(Run(EMPTY, steps[..|steps| - 1]), project, key, content)
    requires steps[|steps| - 1].Send? && steps[|steps| - 1].project == project ==> steps[|steps| - 1].network != Rejected
    ensures Starves(Run(EMPTY, steps), project, key, content)
  {
    ApplyStarves(Run(EMPTY, steps[..|steps| - 1]), steps[|steps| - 1], project, key, content);
  }

  /** No request of the project is rejected outright from the n-th step on. */
  predicate NeverRejects(steps: seq<Step>, n: nat, project: string) {
    forall k :: n <= k < |steps| && steps[k].Send? && steps[k].project == project ==> steps[k].network != Rejected
  }

  /**
   A record whose key is doomed waits for ever: through every replay of every run in which
   no request of its project is rejected outright it stays pending, and its key is never stored.
   */
  lemma {:induction false} WaitsForEver(steps: seq<Step>, n: nat, project: string, key: string, content: string)
    requires n <= |steps| && Starves(Run(EMPTY, steps[..n]), project, key, content) && NeverRejects(steps, n, project)
    ensures Starves(Run(EMPTY, steps), project, key, content)
    decreases |steps|
  {
    if n == |steps| {
      assert steps[..n] == steps;
    } else {
      var earlier := steps[..|steps| - 1];
      assert earlier[..n] == steps[..n];
      WaitsForEver(earlier, n, project, key, content);
      LastStepStarves(steps, project, key, content);
    }
  }

  /** And only such a record does: an answered request settles every other one. */
  lemma SettlesUnlessDoomed(a: Archive, project: string, record: Record)
    requires Sound(a)
    ensures Exchange(a, project, record, Answered).1 == Unavailable <==> Doomed(a, project, record.key)
  {
    FailsExactly(a, project, record.key, record.content);
  }

  // ---------- one record sent ----------

  /** The next record to be sent; a replay is under way. */
  predicate SendsNext(w: World, project: string) {
    var c := ClientOf(w, project);
    c.phase.Sending? && c.phase.next < |c.pending|
  }

  /** The fate of the record is as given, and the replay moves on to the next. */
  ghost predicate MovesOn(w: World, v: World, project: string, fate: Fate) {
    var c, d := ClientOf(w, project), ClientOf(v, project);
    && c.phase.Sending? && d.pending == c.pending && d.dead == c.dead && d.phase.Sending?
    && d.phase.now == c.phase.now && d.phase.next == c.phase.next + 1
    && d.phase.progress == Progress(
         c.phase.progress.remaining + (if fate.Remains? then [fate.record] else []),
         c.phase.progress.dead + (if fate.Dies? then [fate.record] else []),
         c.phase.progress.delivered + if fate.Goes? then 1 else 0)
  }

  lemma SendMoves(w: World, project: string, network: Network)
    requires SendsNext(w, project)
    ensures var c := ClientOf(w, project);
      var record, now := c.pending[c.phase.next], c.phase.now;
      var (archive, seen) := Exchange(w.archive, project, record, network);
      var v := Apply(w, Send(project, network));
      && MovesOn(w, v, project, FateOf(record, seen, now))
      && v.archive == if record.nextAttempt.Some? && now < record.nextAttempt.value then w.archive else archive
  {
  }

  /** An answered request, by what the archive holds. */
  lemma AnsweredExact(a: Archive, project: string, record: Record)
    requires Sound(a)
    ensures var (b, seen) := Exchange(a, project, record, Answered);
      if Doomed(a, project, record.key) then b == a && seen == Unavailable
      else if Conflicts(a, project, record) then b == a && seen == Refused
      else seen == Accepted && Holds(b.rows, project, record.key, record.content)
  {
    AppendSound(a, project, record.key, record.content);
    FailsExactly(a, project, record.key, record.content);
    var (b, reply) := Append(a, project, record.key, record.content);
    if other :| other != record.content && Holds(a.rows, project, record.key, other) {
      HoldsKept(a, b, project, record.key, other);
    }
  }

  /**
   One record sent.  Before its time it stays and the archive hears nothing of it.  From then
   on an answered request leaves it in the archive, unless its key is doomed, so that it is put
   off, or the archive holds another message under it, so that it dies.
   */
  lemma SendExact(w: World, project: string)
    requires Invariant(w) && SendsNext(w, project)
    ensures var c := ClientOf(w, project);
      var record, now := c.pending[c.phase.next], c.phase.now;
      var v := Apply(w, Send(project, Answered));
      var later := Record(record.key, record.content, record.attempts + 1, Some(now + RetryDelay(record.attempts + 1)));
      if record.nextAttempt.Some? && now < record.nextAttempt.value then
        v.archive == w.archive && MovesOn(w, v, project, Remains(record))
      else if Doomed(w.archive, project, record.key) then
        v.archive == w.archive && MovesOn(w, v, project, Remains(later))
      else if Conflicts(w.archive, project, record) then
        v.archive == w.archive && MovesOn(w, v, project, Dies(record))
      else
        Holds(v.archive.rows, project, record.key, record.content) && MovesOn(w, v, project, Goes)
  {
    var c := ClientOf(w, project);
    SendMoves(w, project, Answered);
    AnsweredExact(w.archive, project, c.pending[c.phase.next]);
  }

  /**
   When the answer is lost or the server is out of reach, a record whose time has come is put
   off, and the archive is as if the answer had come, or untouched; a rejection buries it.
   */
  lemma SendUnanswered(w: World, project: string)
    requires SendsNext(w, project)
    ensures var c := ClientOf(w, project);
      var record, now := c.pending[c.phase.next], c.phase.now;
      var later := Record(record.key, record.content, record.attempts + 1, Some(now + RetryDelay(record.attempts + 1)));
      record.nextAttempt.None? || record.nextAttempt.value <= now ==>
        && MovesOn(w, Apply(w, Send(project, AnswerLost)), project, Remains(later))
        && Apply(w, Send(project, AnswerLost)).archive == Append(w.archive, project, record.key, record.content).0
        && MovesOn(w, Apply(w, Send(project, Unreachable)), project, Remains(later))
        && Apply(w, Send(project, Unreachable)).archive == w.archive
        && MovesOn(w, Apply(w, Send(project, Network.Rejected)), project, Dies(record))
        && Apply(w, Send(project, Network.Rejected)).archive == w.archive
  {
    SendMoves(w, project, AnswerLost);
    SendMoves(w, project, Unreachable);
    SendMoves(w, project, Network.Rejected);
  }

  /** The other steps: enqueueing and beginning need an idle client, a crash leaves the files, and others may append. */
  lemma StepExact(w: World, project: string, key: string, content: string, now: int)
    ensures var c, v := ClientOf(w, project), Apply(w, Enqueue(project, key, content));
      if c.phase == Idle && key != "" then
        && ClientOf(v, project) == Client(c.pending + [Record(key, content, 0, None)], c.dead, Idle)
        && v.log == w.log + [Row(project, key, content)] && v.archive == w.archive
      else v == w
    ensures var c, v := ClientOf(w, project), Apply(w, Begin(project, now));
      if c.phase == Idle then
        && ClientOf(v, project) == Client(c.pending, c.dead, Sending(now, 0, Progress([], [], 0)))
        && v.log == w.log && v.archive == w.archive
      else v == w
    ensures var c, v := ClientOf(w, project), Apply(w, Crash(project));
      ClientOf(v, project) == Client(c.pending, c.dead, Idle) && v.log == w.log && v.archive == w.archive
    ensures var v := Apply(w, Direct(project, key, content));
      v.clients == w.clients && v.log == w.log && v.archive == Append(w.archive, project, key, content).0
  {
  }

  /** No step of one project touches the files of another. */
  lemma OthersUntouched(w: World, step: Step, other: string)
    requires step.project != other
    ensures ClientOf(Apply(w, step), other) == ClientOf(w, other)
  {
  }

  /** The archive has the message, or can never have it. */
  ghost predicate Resolved(a: Archive, project: string, record: Record) {
    || Holds(a.rows, project, record.key, record.content)
    || Doomed(a, project, record.key)
    || Conflicts(a, project, record)
  }

  lemma ResolvedStays(a: Archive, project: string, record: Record, other: string, key: string, content: string)
    requires Sound(a) && Resolved(a, project, record)
    ensures Resolved(Append(a, other, key, content).0, project, record)
  {
    var b := Append(a, other, key, content).0;
    AppendSound(a, other, key, content);
    if Doomed(a, project, record.key) {
      DoomedStays(a, project, record.key, other, key, content);
    } else if Holds(a.rows, project, record.key, record.content) {
      HoldsKept(a, b, project, record.key, record.content);
    } else {
      var held :| held != record.content && Holds(a.rows, project, record.key, held);
      HoldsKept(a, b, project, record.key, held);
    }
  }

  /** A replay begun at `now` in which the first n requests are answered. */
  function Replaying(w: World, project: string, now: int, n: nat): World {
    if n == 0 then Apply(w, Begin(project, now)) else Apply(Replaying(w, project, now, n - 1), Send(project, Answered))
  }

  ghost predicate ResolvedUpTo(a: Archive, project: string, records: seq<Record>, now: int, n: nat) {
    n <= |records| && forall j :: 0 <= j < n && (records[j].nextAttempt.Some? ==> records[j].nextAttempt.value <= now) ==>
      Resolved(a, project, records[j])
  }

  lemma SendResolves(w: World, project: string)
    requires Invariant(w) && SendsNext(w, project)
    requires var c := ClientOf(w, project); ResolvedUpTo(w.archive, project, c.pending, c.phase.now, c.phase.next)
    ensures var c := ClientOf(w, project);
      ResolvedUpTo(Apply(w, Send(project, Answered)).archive, project, c.pending, c.phase.now, c.phase.next + 1)
  {
    var c := ClientOf(w, project);
    var v := Apply(w, Send(project, Answered));
    var next := c.pending[c.phase.next];
    SendMoves(w, project, Answered);
    AnsweredExact(w.archive, project, next);
    forall j | 0 <= j < c.phase.next + 1 && (c.pending[j].nextAttempt.Some? ==> c.pending[j].nextAttempt.value <= c.phase.now)
      ensures Resolved(v.archive, project, c.pending[j])
    {
      if j < c.phase.next {
        ResolvedStays(w.archive, project, c.pending[j], project, next.key, next.content);
      }
    }
  }

  /**
   A replay whose requests are answered reaches every record whose time has come: afterwards
   the archive has each of them, or can never have it.
   */
  lemma {:induction false} ReplayReaches(w: World, project: string, now: int, n: nat)
    requires Invariant(w) && ClientOf(w, project).phase.Idle? && n <= |ClientOf(w, project).pending|
    ensures var v := Replaying(w, project, now, n);
      var c, d := ClientOf(w, project), ClientOf(v, project);
      && Invariant(v) && d.pending == c.pending && d.phase.Sending? && d.phase.now == now && d.phase.next == n
      && ResolvedUpTo(v.archive, project, c.pending, now, n)
  {
    if n == 0 {
      ApplyKeeps(w, Begin(project, now));
    } else {
      ReplayReaches(w, project, now, n - 1);
      var v := Replaying(w, project, now, n - 1);
      ApplyKeeps(v, Send(project, Answered));
      SendMoves(v, project, Answered);
      SendResolves(v, project);
    }
  }

  /** The replay is over: n of the dead records have been written. */
  function Ending(w: World, project: string, n: nat): World {
    if n == 0 then Apply(w, Send(project, Answered)) else Apply(Ending(w, project, n - 1), Bury(project))
  }

  lemma {:induction false} BuriedSoFar(w: World, project: string, n: nat)
    requires ClientOf(w, project).phase.Sending? && ClientOf(w, project).phase.next >= |ClientOf(w, project).pending|
    requires n <= |ClientOf(w, project).phase.progress.dead|
    ensures var c := ClientOf(w, project);
      && ClientOf(Ending(w, project, n), project)
         == Client(c.pending, c.dead + c.phase.progress.dead[..n], Burying(c.phase.progress, n))
      && Ending(w, project, n).archive == w.archive && Ending(w, project, n).log == w.log
  {
    if n != 0 {
      BuriedSoFar(w, project, n - 1);
    }
  }

  /** A replay that is not interrupted ends with what remains in one file and the dead added to the other. */
  lemma {:induction false} ReplayEnds(w: World, project: string)
    requires ClientOf(w, project).phase.Sending? && ClientOf(w, project).phase.next >= |ClientOf(w, project).pending|
    ensures var c := ClientOf(w, project);
      var v := Apply(Ending(w, project, |c.phase.progress.dead|), Rewrite(project));
      && ClientOf(v, project) == Client(c.phase.progress.remaining, c.dead + c.phase.progress.dead, Idle)
      && v.archive == w.archive && v.log == w.log
  {
    var c := ClientOf(w, project);
    BuriedSoFar(w, project, |c.phase.progress.dead|);
    assert c.phase.progress.dead[..|c.phase.progress.dead|] == c.phase.progress.dead;
  }

  // ---------- the doomed ----------

  /** It begins to when a record is pending under a doomed key and no replay is under way. */
  lemma {:induction false} StarvesFromIdle(steps: seq<Step>, project: string, key: string, content: string)
    requires Doomed(Run(EMPTY, steps).archive, project, key)
    requires ClientOf(Run(EMPTY, steps), project).phase.Idle?
    requires Filed(ClientOf(Run(EMPTY, steps), project).pending, key, content)
    ensures Starves(Run(EMPTY, steps), project, key, content)
  {
    RunInvariant(steps);
  }
}
