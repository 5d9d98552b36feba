/**
 Contract services and their revisions: `create_service`, `create_revision` and `publish`,
 each one transaction.  A row's id is its index in its table.
 */
module ContractRevisions {
  import opened Prelude
  import opened OperationIdentity

  datatype Status = Proposed | Published | Superseded

  datatype Service = Service(project: nat, key: string, current: Option<nat>)

  datatype Revision = Revision(
    service: nat, number: nat, status: Status, hash: string, operations: seq<Operation>)

  datatype State = State(services: seq<Service>, revisions: seq<Revision>)

  /** What parsing a document yields: content hash and operation catalogue. */
  datatype Parsed = Parsed(hash: string, operations: seq<Operation>)

  datatype Failure =
    | EmptyKey
    | ServiceExists
    | NoService
    | NoRevision
    | HashMismatch
    | NotPublishable
    | OperationIdChanged(change: IdChanged)

  /** The row returned, and whether it was there already. */
  datatype Reply = Reply(id: nat, existing: bool)

  type Outcome = Result<Reply, Failure>

  // ---------- queries ----------

  predicate HasService(s: State, service: nat, project: Option<nat>) {
    service < |s.services| && (project.Some? ==> s.services[service].project == project.value)
  }

  /** The last revision of the service, among the first n, that satisfies the query. */
  function FindRevision(s: State, service: nat, wanted: Revision -> bool, n: nat): (r: Option<nat>)
    requires n <= |s.revisions|
    ensures r.Some? ==>
      r.value < n && s.revisions[r.value].service == service && wanted(s.revisions[r.value])
    ensures r.None? ==>
      forall i :: 0 <= i < n && s.revisions[i].service == service ==> !wanted(s.revisions[i])
  {
    if n == 0 then None
    else if s.revisions[n - 1].service == service && wanted(s.revisions[n - 1]) then Some(n - 1)
    else FindRevision(s, service, wanted, n - 1)
  }

  function ByHash(s: State, service: nat, hash: string): Option<nat> {
    FindRevision(s, service, (r: Revision) => r.hash == hash, |s.revisions|)
  }

  function ByNumber(s: State, service: nat, number: nat): Option<nat> {
    FindRevision(s, service, (r: Revision) => r.number == number, |s.revisions|)
  }

  /** The service's pointer, else whichever revision has status `published`. */
  function PublishedOf(s: State, service: nat): (r: Option<nat>)
    requires service < |s.services|
    ensures r.Some? ==> r.value < |s.revisions|
  {
    var pointer := s.services[service].current;
    if pointer.Some? && pointer.value < |s.revisions| then pointer
    else FindRevision(s, service, (r: Revision) => r.status == Published, |s.revisions|)
  }

  /** `max(revision_number)`, 0 when the service has none. */
  function MaxNumber(revisions: seq<Revision>, service: nat): nat {
    if |revisions| == 0 then 0
    else
      var last := revisions[|revisions| - 1];
      var rest := MaxNumber(revisions[..|revisions| - 1], service);
      if last.service == service && last.number > rest then last.number else rest
  }

  // ---------- the transactions ----------

  /** The key comes stripped of outer white space. */
  function CreateService(s: State, project: nat, key: string): (State, Outcome) {
    if key == "" then (s, Err(EmptyKey))
    else if exists i :: 0 <= i < |s.services| && s.services[i].project == project && s.services[i].key == key then
      (s, Err(ServiceExists))
    else (s.(services := s.services + [Service(project, key, None)]), Ok(Reply(|s.services|, false)))
  }

  function CreateRevision(s: State, service: nat, parsed: Parsed, project: Option<nat>): (State, Outcome) {
    if !HasService(s, service, project) then (s, Err(NoService))
    else
      var existing := ByHash(s, service, parsed.hash);
      if existing.Some? then (s, Ok(Reply(existing.value, true)))
      else
        var previous := PublishedOf(s, service);
        var known := if previous.Some? then s.revisions[previous.value].operations else [];
        match Transition(parsed.operations, known)
        case Err(change) => (s, Err(OperationIdChanged(change)))
        case Ok(_) =>
          var row := Revision(service, MaxNumber(s.revisions, service) + 1, Proposed, parsed.hash, parsed.operations);
          (s.(revisions := s.revisions + [row]), Ok(Reply(|s.revisions|, false)))
  }

  function SetStatus(s: State, id: nat, status: Status): State
    requires id < |s.revisions|
  {
    s.(revisions := s.revisions[id := s.revisions[id].(status := status)])
  }

  function PointTo(s: State, service: nat, id: nat): State
    requires service < |s.services|
  {
    s.(services := s.services[service := s.services[service].(current := Some(id))])
  }

  /** The revision to be superseded: the pointer unless it names the target itself. */
  function CurrentOf(s: State, service: nat, id: nat): (r: Option<nat>)
    requires service < |s.services|
    ensures r.Some? ==> r.value < |s.revisions|
  {
    var pointer := s.services[service].current;
    if pointer.Some? && pointer.value != id && pointer.value < |s.revisions| then pointer
    else FindRevision(s, service, (r: Revision) => r.status == Published, |s.revisions|)
  }

  function Publish(s: State, service: nat, number: nat, expectedHash: string, project: Option<nat>): (State, Outcome) {
    if !HasService(s, service, project) then (s, Err(NoService))
    else
      match ByNumber(s, service, number)
      case None => (s, Err(NoRevision))
      case Some(id) =>
        var revision := s.revisions[id];
        if revision.hash != expectedHash then (s, Err(HashMismatch))
        else if revision.status == Published then (PointTo(s, service, id), Ok(Reply(id, true)))
        else if revision.status != Proposed then (s, Err(NotPublishable))
        else
          var current := CurrentOf(s, service, id);
          if current.Some? && current.value != id then
            match Transition(revision.operations, s.revisions[current.value].operations)
            case Err(change) => (s, Err(OperationIdChanged(change)))
            case Ok(_) =>
              var superseded := SetStatus(s, current.value, Superseded);
              (PointTo(SetStatus(superseded, id, Published), service, id), Ok(Reply(id, false)))
          else (PointTo(SetStatus(s, id, Published), service, id), Ok(Reply(id, false)))
  }

  // ---------- the service object ----------

  class ContractRevisionService {
    var services: seq<Service>
    var revisions: seq<Revision>

    ghost function View(): State
      reads this
    {
      State(services, revisions)
    }

    constructor ()
      ensures View() == State([], [])
    {
      services, revisions := [], [];
    }

    method AddService(project: nat, key: string) returns (outcome: Outcome)
      modifies this`services
      ensures (View(), outcome) == CreateService(old(View()), project, key)
    {
      if key == "" {
        return Err(EmptyKey);
      }
      for i := 0 to |services|
        invariant services == old(services)
        invariant forall k :: 0 <= k < i ==> services[k].project != project || services[k].key != key
      {
        if services[i].project == project && services[i].key == key {
          return Err(ServiceExists);
        }
      }
      services := services + [Service(project, key, None)];
      return Ok(Reply(|services| - 1, false));
    }

    method Create(service: nat, parsed: Parsed, project: Option<nat>) returns (outcome: Outcome)
      modifies this`revisions
      ensures (View(), outcome) == CreateRevision(old(View()), service, parsed, project)
    {
      if service >= |services| || (project.Some? && services[service].project != project.value) {
        return Err(NoService);
      }
      var s := State(services, revisions);
      var existing := ByHash(s, service, parsed.hash);
      if existing.Some? {
        return Ok(Reply(existing.value, true));
      }
      var previousOperations := [];
      var previous := PublishedOf(s, service);
      if previous.Some? {
        previousOperations := revisions[previous.value].operations;
      }
      var checked := ValidateTransition(parsed.operations, previousOperations);
      if checked.Err? {
        return Err(OperationIdChanged(checked.error));
      }
      var nextNumber := MaxNumber(revisions, service) + 1;
      revisions := revisions + [Revision(service, nextNumber, Proposed, parsed.hash, parsed.operations)];
      return Ok(Reply(|revisions| - 1, false));
    }

    method PublishRevision(service: nat, number: nat, expectedHash: string, project: Option<nat>) returns (outcome: Outcome)
      modifies this
      ensures (View(), outcome) == Publish(old(View()), service, number, expectedHash, project)
    {
      if service >= |services| || (project.Some? && services[service].project != project.value) {
        return Err(NoService);
      }
      var s := State(services, revisions);
      var target := ByNumber(s, service, number);
      if target.None? {
        return Err(NoRevision);
      }
      var id := target.value;
      if revisions[id].hash != expectedHash {
        return Err(HashMismatch);
      }
      if revisions[id].status == Published {
        services := services[service := services[service].(current := Some(id))];
        return Ok(Reply(id, true));
      }
      if revisions[id].status != Proposed {
        return Err(NotPublishable);
      }
      var current := CurrentOf(s, service, id);
      if current.Some? && current.value != id {
        var checked := ValidateTransition(revisions[id].operations, revisions[current.value].operations);
        if checked.Err? {
          return Err(OperationIdChanged(checked.error));
        }
        revisions := revisions[current.value := revisions[current.value].(status := Superseded)];
      }
      revisions := revisions[id := revisions[id].(status := Published)];
      services := services[service := services[service].(current := Some(id))];
      return Ok(Reply(id, false));
    }
  }

  // ---------- runs ----------

  datatype Action =
    | NewService(owner: nat, key: string)
    | NewRevision(service: nat, parsed: Parsed, project: Option<nat>)
    | PublishOne(service: nat, number: nat, expectedHash: string, project: Option<nat>)

  /** Parsing yields each route and each operation id once. */
  ghost predicate Parses(action: Action) {
    action.NewRevision? ==> Catalogue(action.parsed.operations)
  }

  function Apply(s: State, action: Action): State {
    match action
    case NewService(owner, key) => CreateService(s, owner, key).0
    case NewRevision(service, parsed, project) => CreateRevision(s, service, parsed, project).0
    case PublishOne(service, number, hash, project) => Publish(s, service, number, hash, project).0
  }

  function Run(s: State, actions: seq<Action>): State
    decreases actions
  {
    if |actions| == 0 then s else Run(Apply(s, actions[0]), actions[1..])
  }

  ghost predicate AllParse(actions: seq<Action>) {
    forall i :: 0 <= i < |actions| ==> Parses(actions[i])
  }

  // ---------- the invariant ----------

  function CountOf(revisions: seq<Revision>, service: nat): nat {
    if |revisions| == 0 then 0
    else CountOf(revisions[..|revisions| - 1], service) + if revisions[|revisions| - 1].service == service then 1 else 0
  }

  /** A service's revisions are numbered 1, 2, 3, ... in the order of creation. */
  ghost predicate NumbersRun(revisions: seq<Revision>) {
    forall i :: 0 <= i < |revisions| ==> revisions[i].number == CountOf(revisions[..i], revisions[i].service) + 1
  }

  ghost predicate HashesDistinct(revisions: seq<Revision>) {
    forall i, j :: 0 <= i < j < |revisions| && revisions[i].service == revisions[j].service
      ==> revisions[i].hash != revisions[j].hash
  }

  /** A revision is published exactly when its service points to it: so at most one is. */
  ghost predicate PointersAgree(s: State) {
    && (forall i :: 0 <= i < |s.revisions| ==> s.revisions[i].service < |s.services|)
    && (forall i :: 0 <= i < |s.revisions| ==>
          (s.revisions[i].status == Published <==> s.services[s.revisions[i].service].current == Some(i)))
    && (forall k :: 0 <= k < |s.services| && s.services[k].current.Some? ==>
          s.services[k].current.value < |s.revisions| && s.revisions[s.services[k].current.value].service == k)
  }

  ghost predicate Catalogues(revisions: seq<Revision>) {
    forall i :: 0 <= i < |revisions| ==> Catalogue(revisions[i].operations)
  }

  ghost predicate Invariant(s: State) {
    && NumbersRun(s.revisions)
    && HashesDistinct(s.revisions)
    && PointersAgree(s)
    && Catalogues(s.revisions)
  }

  lemma {:induction false} MaxIsCount(revisions: seq<Revision>, service: nat)
    requires NumbersRun(revisions)
    ensures MaxNumber(revisions, service) == CountOf(revisions, service)
  {
    if |revisions| != 0 {
      var n := |revisions| - 1;
      forall i | 0 <= i < n ensures revisions[..n][i].number == CountOf(revisions[..n][..i], revisions[..n][i].service) + 1 {
        assert revisions[..n][..i] == revisions[..i];
      }
      MaxIsCount(revisions[..n], service);
    }
  }

  lemma {:induction false} NumbersExtend(revisions: seq<Revision>, row: Revision)
    requires NumbersRun(revisions) && row.number == MaxNumber(revisions, row.service) + 1
    ensures NumbersRun(revisions + [row])
  {
    MaxIsCount(revisions, row.service);
    var more := revisions + [row];
    forall i | 0 <= i < |more| ensures more[i].number == CountOf(more[..i], more[i].service) + 1 {
      assert more[..i] == revisions[..i];
      assert revisions[..|revisions|] == revisions;
    }
  }

  lemma {:induction false} CountIgnoresStatus(a: seq<Revision>, b: seq<Revision>, service: nat)
    requires |a| == |b| && forall i :: 0 <= i < |a| ==> a[i].service == b[i].service
    ensures CountOf(a, service) == CountOf(b, service)
  {
    if |a| != 0 {
      CountIgnoresStatus(a[..|a| - 1], b[..|b| - 1], service);
    }
  }

  /** Two tables that differ in nothing but status. */
  ghost predicate SameButStatus(a: seq<Revision>, b: seq<Revision>) {
    |a| == |b| && forall i :: 0 <= i < |a| ==> b[i] == a[i].(status := b[i].status)
  }

  lemma StatusKeepsRows(a: seq<Revision>, b: seq<Revision>)
    requires SameButStatus(a, b) && NumbersRun(a) && HashesDistinct(a) && Catalogues(a)
    ensures NumbersRun(b) && HashesDistinct(b) && Catalogues(b)
  {
    forall i | 0 <= i < |b| ensures b[i].number == CountOf(b[..i], b[i].service) + 1 {
      CountIgnoresStatus(a[..i], b[..i], b[i].service);
    }
  }

  /** Status moves only from proposed to published to superseded; nothing else of a row changes. */
  ghost predicate Progresses(a: Status, b: Status) {
    a == b || a == Proposed || b == Superseded
  }

  ghost predicate Grown(a: seq<Revision>, b: seq<Revision>) {
    |a| <= |b| && forall i :: 0 <= i < |a| ==> b[i] == a[i].(status := b[i].status) && Progresses(a[i].status, b[i].status)
  }

  // ---------- what each transaction does to the tables ----------

  /** A publication took effect: the target is promoted, the former current one superseded. */
  ghost predicate Promotes(s: State, next: State, service: nat, id: nat) {
    && service < |s.services| && id < |s.revisions|
    && s.revisions[id].service == service && s.revisions[id].status == Proposed
    && next.services == s.services[service := s.services[service].(current := Some(id))]
    && match s.services[service].current
       case None => next.revisions == s.revisions[id := s.revisions[id].(status := Published)]
       case Some(c) =>
         && c != id && c < |s.revisions|
         && KeepsIds(s.revisions[id].operations, s.revisions[c].operations)
         && next.revisions ==
              s.revisions[c := s.revisions[c].(status := Superseded)][id := s.revisions[id].(status := Published)]
  }

  /** A proposal took effect: one row is added, numbered next, with a hash new to the service. */
  ghost predicate Appends(s: State, next: State, row: Revision) {
    && next == s.(revisions := s.revisions + [row])
    && row.service < |s.services| && row.status == Proposed
    && row.number == MaxNumber(s.revisions, row.service) + 1
    && Catalogue(row.operations)
    && forall i :: 0 <= i < |s.revisions| && s.revisions[i].service == row.service ==> s.revisions[i].hash != row.hash
  }

  lemma PublishCases(s: State, service: nat, number: nat, hash: string, project: Option<nat>)
    requires PointersAgree(s) && Catalogues(s.revisions)
    ensures var next := Publish(s, service, number, hash, project).0;
      next == s || exists id :: Promotes(s, next, service, id)
  {
    var next := Publish(s, service, number, hash, project).0;
    if HasService(s, service, project) && ByNumber(s, service, number).Some? {
      var id := ByNumber(s, service, number).value;
      if s.revisions[id].status == Proposed {
        var current := s.services[service].current;
        if current.Some? {
          TransitionExact(s.revisions[id].operations, s.revisions[current.value].operations);
        }
        if next != s {
          assert Promotes(s, next, service, id);
        }
      } else if s.revisions[id].status == Published {
        assert s.services[service].(current := Some(id)) == s.services[service];
        assert PointTo(s, service, id) == s;
      }
    }
  }

  lemma CreateCases(s: State, service: nat, parsed: Parsed, project: Option<nat>)
    requires Catalogue(parsed.operations)
    ensures var next := CreateRevision(s, service, parsed, project).0;
      next == s || exists row :: Appends(s, next, row)
  {
    var next := CreateRevision(s, service, parsed, project).0;
    if next != s {
      assert Appends(s, next, next.revisions[|s.revisions|]);
    }
  }

  lemma PromotedAgrees(s: State, next: State, service: nat, id: nat)
    requires PointersAgree(s) && Promotes(s, next, service, id)
    ensures PointersAgree(next)
    ensures Grown(s.revisions, next.revisions)
  {
  }

  lemma PromotedInvariant(s: State, next: State, service: nat, id: nat)
    requires Invariant(s) && Promotes(s, next, service, id)
    ensures Invariant(next)
  {
    PromotedAgrees(s, next, service, id);
    StatusKeepsRows(s.revisions, next.revisions);
  }

  lemma AppendedInvariant(s: State, next: State, row: Revision)
    requires Invariant(s) && Appends(s, next, row)
    ensures Invariant(next)
  {
    NumbersExtend(s.revisions, row);
    HashesExtend(s.revisions, row);
    PointersExtend(s, next, row);
  }

  lemma HashesExtend(revisions: seq<Revision>, row: Revision)
    requires HashesDistinct(revisions)
    requires forall i :: 0 <= i < |revisions| && revisions[i].service == row.service ==> revisions[i].hash != row.hash
    ensures HashesDistinct(revisions + [row])
  {
  }

  lemma PointersExtend(s: State, next: State, row: Revision)
    requires PointersAgree(s) && next == s.(revisions := s.revisions + [row])
    requires row.service < |s.services| && row.status == Proposed
    ensures PointersAgree(next)
  {
  }

  /** Nothing, one more revision, one publication, or one more service. */
  ghost predicate Evolves(s: State, next: State) {
    || next == s
    || (exists row :: Appends(s, next, row))
    || (exists service, id :: Promotes(s, next, service, id))
    || (exists project, key :: next == s.(services := s.services + [Service(project, key, None)]))
  }

  lemma ApplyCases(s: State, action: Action)
    requires Invariant(s) && Parses(action)
    ensures Evolves(s, Apply(s, action))
  {
    match action
    case NewService(_, _) =>
    case NewRevision(service, parsed, project) => CreateCases(s, service, parsed, project);
    case PublishOne(service, number, hash, project) => PublishCases(s, service, number, hash, project);
  }

  lemma EvolvesKeeps(s: State, next: State)
    requires Invariant(s) && Evolves(s, next)
    ensures Invariant(next) && Grown(s.revisions, next.revisions)
  {
    if row :| Appends(s, next, row) {
      AppendedInvariant(s, next, row);
    } else if service, id :| Promotes(s, next, service, id) {
      PromotedAgrees(s, next, service, id);
      PromotedInvariant(s, next, service, id);
    }
  }

  lemma ApplyInvariant(s: State, action: Action)
    requires Invariant(s) && Parses(action)
    ensures Invariant(Apply(s, action))
    ensures Grown(s.revisions, Apply(s, action).revisions)
  {
    ApplyCases(s, action);
    EvolvesKeeps(s, Apply(s, action));
  }

  /** Every reachable state satisfies the invariant. */
  lemma {:induction false} RunInvariant(s: State, actions: seq<Action>)
    requires Invariant(s) && AllParse(actions)
    ensures Invariant(Run(s, actions))
    decreases actions
  {
    if |actions| != 0 {
      ApplyInvariant(s, actions[0]);
      RunInvariant(Apply(s, actions[0]), actions[1..]);
    }
  }

  lemma {:induction false} RunGrows(s: State, actions: seq<Action>)
    requires Invariant(s) && AllParse(actions)
    ensures Grown(s.revisions, Run(s, actions).revisions)
    decreases actions
  {
    if |actions| != 0 {
      ApplyInvariant(s, actions[0]);
      RunGrows(Apply(s, actions[0]), actions[1..]);
    }
  }

  // ---------- the published history of a service ----------

  /** The catalogue the service publishes now. */
  function PublishedNow(s: State, service: nat): Option<seq<Operation>> {
    if service < |s.services| && s.services[service].current.Some? && s.services[service].current.value < |s.revisions|
    then Some(s.revisions[s.services[service].current.value].operations)
    else None
  }

  /** The catalogues published one after the other in the course of a run. */
  function History(s: State, actions: seq<Action>, service: nat): seq<seq<Operation>>
    decreases actions
  {
    if |actions| == 0 then []
    else
      var next := Apply(s, actions[0]);
      var rest := History(next, actions[1..], service);
      if Superseding(s, next, service) then [PublishedNow(next, service).value] + rest else rest
  }

  predicate Superseding(s: State, next: State, service: nat) {
    && PublishedNow(next, service).Some?
    && next.services[service].current != if service < |s.services| then s.services[service].current else None
  }

  lemma PromotedNow(s: State, next: State, changed: nat, id: nat, service: nat)
    requires PointersAgree(s) && Promotes(s, next, changed, id)
    ensures if service == changed then
        PublishedNow(next, service) == Some(s.revisions[id].operations)
        && (PublishedNow(s, service).Some? ==> KeepsIds(s.revisions[id].operations, PublishedNow(s, service).value))
      else PublishedNow(next, service) == PublishedNow(s, service) && !Superseding(s, next, service)
    ensures service == changed ==> Superseding(s, next, service)
  {
    if service != changed && service < |s.services| {
      assert next.services[service] == s.services[service];
      var current := s.services[service].current;
      if current.Some? {
        assert s.revisions[current.value].service == service;
      }
    }
  }

  lemma SupersedingKeepsIds(s: State, action: Action, service: nat)
    requires Invariant(s) && Parses(action)
    ensures var next := Apply(s, action);
      if Superseding(s, next, service) then
        PublishedNow(s, service).Some? ==> KeepsIds(PublishedNow(next, service).value, PublishedNow(s, service).value)
      else PublishedNow(next, service) == PublishedNow(s, service)
  {
    var next := Apply(s, action);
    ApplyCases(s, action);
    if row :| Appends(s, next, row) {
    } else if changed, id :| Promotes(s, next, changed, id) {
      PromotedNow(s, next, changed, id, service);
    } else if next != s && service < |s.services| {
      assert next.services[service] == s.services[service];
    }
  }

  ghost predicate AllKeepIds(history: seq<seq<Operation>>) {
    forall k :: 0 <= k < |history| - 1 ==> KeepsIds(history[k + 1], history[k])
  }

  /** What is published now, followed by what the run publishes. */
  function Timeline(s: State, actions: seq<Action>, service: nat): seq<seq<Operation>> {
    (if PublishedNow(s, service).Some? then [PublishedNow(s, service).value] else []) + History(s, actions, service)
  }

  lemma Prepend(first: seq<Operation>, rest: seq<seq<Operation>>)
    requires AllKeepIds(rest) && (|rest| > 0 ==> KeepsIds(rest[0], first))
    ensures AllKeepIds([first] + rest)
  {
    var all := [first] + rest;
    forall k | 0 <= k < |all| - 1 ensures KeepsIds(all[k + 1], all[k]) {
      assert all[k + 1] == rest[k];
      assert k > 0 ==> all[k] == rest[k - 1];
    }
  }

  lemma {:induction false} HistoryKeepsIds(s: State, actions: seq<Action>, service: nat)
    requires Invariant(s) && AllParse(actions)
    ensures AllKeepIds(Timeline(s, actions, service))
    decreases actions
  {
    if |actions| != 0 {
      var next := Apply(s, actions[0]);
      SupersedingKeepsIds(s, actions[0], service);
      ApplyInvariant(s, actions[0]);
      HistoryKeepsIds(next, actions[1..], service);
      var rest := Timeline(next, actions[1..], service);
      if Superseding(s, next, service) {
        assert rest == History(s, actions, service);
        if PublishedNow(s, service).Some? {
          Prepend(PublishedNow(s, service).value, rest);
        } else {
          assert Timeline(s, actions, service) == rest;
        }
      }
    }
  }

  /** The route is in every revision published from the i-th to the j-th. */
  ghost predicate Throughout(history: seq<seq<Operation>>, i: nat, j: nat, route: Route) {
    i < j < |history| && forall k :: i <= k <= j ==> HasRoute(history[k], route)
  }

  lemma {:induction false} RouteChain(history: seq<seq<Operation>>, i: nat, j: nat, route: Route, first: string, last: string)
    requires AllKeepIds(history) && Throughout(history, i, j, route)
    requires Operation(route, first) in history[i] && Operation(route, last) in history[j]
    ensures first == last
    decreases j - i
  {
    assert HasRoute(history[i + 1], route);
    var next :| next in history[i + 1] && next.route == route;
    assert KeepsIds(history[i + 1], history[i]);
    if i + 1 < j {
      RouteChain(history, i + 1, j, route, next.operationId, last);
    }
  }

  /**
   From the empty store, over any run: a route present in every revision a service
   published from the i-th to the j-th has the same operation id in the i-th and the j-th,
   in whatever order those revisions were proposed.
   */
  lemma {:induction false} PublishedRouteKeepsItsId(actions: seq<Action>, service: nat, i: nat, j: nat, route: Route, first: string, last: string)
    requires AllParse(actions)
    requires Throughout(History(State([], []), actions, service), i, j, route)
    requires Operation(route, first) in History(State([], []), actions, service)[i]
    requires Operation(route, last) in History(State([], []), actions, service)[j]
    ensures first == last
  {
    var empty := State([], []);
    HistoryKeepsIds(empty, actions, service);
    assert Timeline(empty, actions, service) == History(empty, actions, service);
    RouteChain(History(empty, actions, service), i, j, route, first, last);
  }
}
