/** What creating and publishing a revision answer, condition by condition. */
module RevisionAnswers {
  import opened Prelude
  import opened OperationIdentity
  import opened ContractRevisions

  /** The service is there, and in the project where one is named. */
  predicate IsService(s: State, service: nat, project: Option<nat>) {
    && service < |s.services|
    && (project == None || project == Some(s.services[service].project))
  }

  predicate IsRevision(s: State, service: nat, number: nat, id: nat) {
    id < |s.revisions| && s.revisions[id].service == service && s.revisions[id].number == number
  }

  // ---------- one revision a number ----------

  lemma {:induction false} CountGrows(revisions: seq<Revision>, i: nat, service: nat)
    requires i < |revisions| && revisions[i].service == service
    ensures CountOf(revisions, service) > CountOf(revisions[..i], service)
    decreases |revisions|
  {
    var n := |revisions| - 1;
    if i < n {
      CountGrows(revisions[..n], i, service);
      assert revisions[..n][..i] == revisions[..i];
    }
  }

  lemma NumbersApart(revisions: seq<Revision>, i: nat, j: nat)
    requires NumbersRun(revisions) && i < j < |revisions| && revisions[i].service == revisions[j].service
    ensures revisions[i].number < revisions[j].number
  {
    CountGrows(revisions[..j], i, revisions[i].service);
    assert revisions[..j][..i] == revisions[..i];
  }

  lemma OneRevision(s: State, service: nat, number: nat, id: nat)
    requires NumbersRun(s.revisions) && IsRevision(s, service, number, id)
    ensures ByNumber(s, service, number) == Some(id)
  {
    var found := ByNumber(s, service, number).value;
    if found < id {
      NumbersApart(s.revisions, found, id);
    } else if id < found {
      NumbersApart(s.revisions, id, found);
    }
  }

  // ---------- publication ----------

  /** The operations keep every id of what the service publishes now. */
  ghost predicate KeepsPublishedIds(s: State, service: nat, operations: seq<Operation>)
    requires service < |s.services|
  {
    var current := s.services[service].current;
    current.Some? && current.value < |s.revisions| ==>
      forall was, will :: was in s.revisions[current.value].operations && will in operations && was.route == will.route ==>
        was.operationId == will.operationId
  }

  function OperationsNow(s: State, service: nat): seq<Operation> {
    if PublishedNow(s, service).Some? then PublishedNow(s, service).value else []
  }

  lemma KeepsPublished(s: State, service: nat, operations: seq<Operation>)
    requires service < |s.services|
    ensures KeepsPublishedIds(s, service, operations) <==> KeepsIds(operations, OperationsNow(s, service))
  {
    KeptIds(operations, OperationsNow(s, service));
  }

  lemma KeptIds(operations: seq<Operation>, previous: seq<Operation>)
    ensures KeepsIds(operations, previous) <==>
      forall was, will :: was in previous && will in operations && was.route == will.route ==> was.operationId == will.operationId
  {
    if KeepsIds(operations, previous) {
      forall was, will | was in previous && will in operations && was.route == will.route ensures was.operationId == will.operationId {
        var i :| 0 <= i < |operations| && operations[i] == will;
        var j :| 0 <= j < |previous| && previous[j] == was;
      }
    }
  }

  /** Revision id is what the service publishes from now on; the one before it, if any, is superseded. */
  ghost predicate PublishedInstead(s: State, t: State, service: nat, id: nat) {
    && service < |s.services| && id < |s.revisions|
    && t.services == s.services[service := s.services[service].(current := Some(id))]
    && |t.revisions| == |s.revisions|
    && forall i :: 0 <= i < |s.revisions| ==>
         t.revisions[i] == s.revisions[i].(
           status := if i == id then Published
                     else if s.services[service].current == Some(i) then Superseded
                     else s.revisions[i].status)
  }

  /** A publication of a revision that is there, answered by its hash, its status and its operations. */
  lemma PublishFound(s: State, service: nat, number: nat, hash: string, project: Option<nat>, id: nat)
    requires Invariant(s) && IsService(s, service, project) && IsRevision(s, service, number, id)
    ensures var (t, outcome) := Publish(s, service, number, hash, project);
      var revision := s.revisions[id];
      if revision.hash != hash then t == s && outcome == Err(HashMismatch)
      else if revision.status == Published then t == s && outcome == Ok(Reply(id, true))
      else if revision.status == Superseded then t == s && outcome == Err(NotPublishable)
      else if !KeepsPublishedIds(s, service, revision.operations) then
        t == s && outcome.Err? && outcome.error.OperationIdChanged?
      else PublishedInstead(s, t, service, id) && outcome == Ok(Reply(id, false))
  {
    OneRevision(s, service, number, id);
    if s.revisions[id].status == Published {
      assert s.services[service := s.services[service].(current := Some(id))] == s.services;
    } else if s.revisions[id].status == Proposed && s.revisions[id].hash == hash {
      ProposalFound(s, service, number, hash, project, id);
    }
  }

  lemma CurrentIsPointer(s: State, service: nat, id: nat)
    requires PointersAgree(s) && service < |s.services| && id < |s.revisions| && s.revisions[id].status != Published
    ensures CurrentOf(s, service, id) == s.services[service].current == PublishedOf(s, service)
  {
  }

  lemma ProposalFound(s: State, service: nat, number: nat, hash: string, project: Option<nat>, id: nat)
    requires Invariant(s) && IsService(s, service, project) && ByNumber(s, service, number) == Some(id)
    requires s.revisions[id].hash == hash && s.revisions[id].status == Proposed
    ensures var (t, outcome) := Publish(s, service, number, hash, project);
      if KeepsPublishedIds(s, service, s.revisions[id].operations)
      then PublishedInstead(s, t, service, id) && outcome == Ok(Reply(id, false))
      else t == s && outcome.Err? && outcome.error.OperationIdChanged?
  {
    var operations := s.revisions[id].operations;
    CurrentIsPointer(s, service, id);
    ProposalStep(s, service, number, hash, project, id);
    KeptExactly(s, service, operations);
  }

  lemma ProposalStep(s: State, service: nat, number: nat, hash: string, project: Option<nat>, id: nat)
    requires IsService(s, service, project) && ByNumber(s, service, number) == Some(id)
    requires s.revisions[id].hash == hash && s.revisions[id].status == Proposed
    requires CurrentOf(s, service, id) == s.services[service].current && s.services[service].current != Some(id)
    ensures var (t, outcome) := Publish(s, service, number, hash, project);
      if s.services[service].current.None? || Transition(s.revisions[id].operations, OperationsNow(s, service)).Ok?
      then PublishedInstead(s, t, service, id) && outcome == Ok(Reply(id, false))
      else t == s && outcome.Err? && outcome.error.OperationIdChanged?
  {
  }

  /** A transition is refused exactly when an id that is published now would change. */
  lemma KeptExactly(s: State, service: nat, operations: seq<Operation>)
    requires Catalogues(s.revisions) && service < |s.services|
    ensures Transition(operations, OperationsNow(s, service)).Ok? <==> KeepsPublishedIds(s, service, operations)
    ensures s.services[service].current.None? ==> KeepsPublishedIds(s, service, operations)
  {
    KeepsPublished(s, service, operations);
    OperationsCatalogued(s, service);
    TransitionExact(operations, OperationsNow(s, service));
  }

  lemma OperationsCatalogued(s: State, service: nat)
    requires Catalogues(s.revisions)
    ensures Catalogue(OperationsNow(s, service))
  {
  }

  lemma PublishMissing(s: State, service: nat, number: nat, hash: string, project: Option<nat>)
    ensures var (t, outcome) := Publish(s, service, number, hash, project);
      && (!IsService(s, service, project) ==> t == s && outcome == Err(NoService))
      && (IsService(s, service, project) && (forall id :: !IsRevision(s, service, number, id)) ==>
            t == s && outcome == Err(NoRevision))
  {
    if IsService(s, service, project) && ByNumber(s, service, number).Some? {
      assert IsRevision(s, service, number, ByNumber(s, service, number).value);
    }
  }

  /** The numbered revision has the hash, and is published or a proposal that keeps the published ids. */
  ghost predicate CanPublish(s: State, service: nat, number: nat, hash: string, id: nat)
    requires service < |s.services|
  {
    && IsRevision(s, service, number, id) && s.revisions[id].hash == hash
    && (|| s.revisions[id].status == Published
        || (s.revisions[id].status == Proposed && KeepsPublishedIds(s, service, s.revisions[id].operations)))
  }

  /** The row is what the service points to, and has the number and the hash. */
  predicate IsPublished(t: State, service: nat, number: nat, hash: string, id: nat) {
    && IsRevision(t, service, number, id) && t.revisions[id].hash == hash && t.revisions[id].status == Published
    && service < |t.services| && t.services[service].current == Some(id)
  }

  /**
   Publication succeeds exactly for the hash of the numbered revision, when that is published
   already or is a proposal that keeps the published ids; the row answered is then what the
   service points to.
   */
  lemma PublishExact(s: State, service: nat, number: nat, hash: string, project: Option<nat>)
    requires Invariant(s)
    ensures var (t, outcome) := Publish(s, service, number, hash, project);
      && (outcome.Ok? <==>
            && IsService(s, service, project)
            && exists id :: CanPublish(s, service, number, hash, id))
      && (outcome.Ok? ==> IsPublished(t, service, number, hash, outcome.value.id))
      && (outcome.Err? ==> t == s)
  {
    PublishMissing(s, service, number, hash, project);
    if IsService(s, service, project) {
      if id :| IsRevision(s, service, number, id) {
        PublishFound(s, service, number, hash, project, id);
        forall other | CanPublish(s, service, number, hash, other) ensures other == id {
          OneRevision(s, service, number, id);
          OneRevision(s, service, number, other);
        }
        assert Publish(s, service, number, hash, project).1.Ok? ==> CanPublish(s, service, number, hash, id);
      }
    }
  }

  // ---------- proposals ----------

  /** A proposal, answered: known by its hash, in conflict with the published ids, or added under the next number. */
  lemma {:induction false} CreateExact(s: State, service: nat, parsed: Parsed, project: Option<nat>)
    requires PointersAgree(s) && Catalogues(s.revisions) && Catalogue(parsed.operations)
    ensures var (t, outcome) := CreateRevision(s, service, parsed, project);
      if !IsService(s, service, project) then t == s && outcome == Err(NoService)
      else if exists i :: 0 <= i < |s.revisions| && s.revisions[i].service == service && s.revisions[i].hash == parsed.hash then
        && t == s && outcome.Ok? && outcome.value.existing && outcome.value.id < |s.revisions|
        && s.revisions[outcome.value.id].service == service && s.revisions[outcome.value.id].hash == parsed.hash
      else if !KeepsPublishedIds(s, service, parsed.operations) then
        t == s && outcome.Err? && outcome.error.OperationIdChanged?
      else
        && outcome == Ok(Reply(|s.revisions|, false)) && t.services == s.services
        && t.revisions == s.revisions + [Revision(
             service, MaxNumber(s.revisions, service) + 1, Proposed, parsed.hash, parsed.operations)]
  {
    if IsService(s, service, project) && ByHash(s, service, parsed.hash).None? {
      NewHash(s, service, parsed, project);
    }
  }

  /** The numbers of a service's revisions are 1, 2, 3, ... without gaps. */
  lemma {:induction false} NextNumber(s: State, service: nat)
    requires Invariant(s)
    ensures MaxNumber(s.revisions, service) == CountOf(s.revisions, service)
    ensures forall i :: 0 <= i < |s.revisions| && s.revisions[i].service == service ==>
      1 <= s.revisions[i].number <= CountOf(s.revisions, service)
  {
    MaxIsCount(s.revisions, service);
    forall i | 0 <= i < |s.revisions| && s.revisions[i].service == service
      ensures 1 <= s.revisions[i].number <= CountOf(s.revisions, service)
    {
      CountGrows(s.revisions, i, service);
    }
  }

  lemma PublishedIsPointer(s: State, service: nat)
    requires PointersAgree(s) && service < |s.services|
    ensures PublishedOf(s, service) == s.services[service].current
  {
  }

  lemma {:induction false} NewHash(s: State, service: nat, parsed: Parsed, project: Option<nat>)
    requires PointersAgree(s) && Catalogues(s.revisions) && IsService(s, service, project)
    requires ByHash(s, service, parsed.hash).None?
    ensures var (t, outcome) := CreateRevision(s, service, parsed, project);
      if KeepsPublishedIds(s, service, parsed.operations) then
        && outcome == Ok(Reply(|s.revisions|, false)) && t.services == s.services
        && t.revisions == s.revisions + [Revision(
             service, MaxNumber(s.revisions, service) + 1, Proposed, parsed.hash, parsed.operations)]
      else t == s && outcome.Err? && outcome.error.OperationIdChanged?
  {
    PublishedIsPointer(s, service);
    NewStep(s, service, parsed, project);
    KeptExactly(s, service, parsed.operations);
  }

  lemma {:induction false} NewStep(s: State, service: nat, parsed: Parsed, project: Option<nat>)
    requires IsService(s, service, project) && ByHash(s, service, parsed.hash).None?
    requires PublishedOf(s, service) == s.services[service].current
    ensures var (t, outcome) := CreateRevision(s, service, parsed, project);
      if Transition(parsed.operations, OperationsNow(s, service)).Ok? then
        && outcome == Ok(Reply(|s.revisions|, false)) && t.services == s.services
        && t.revisions == s.revisions + [Revision(
             service, MaxNumber(s.revisions, service) + 1, Proposed, parsed.hash, parsed.operations)]
      else t == s && outcome.Err? && outcome.error.OperationIdChanged?
  {
  }

  // ---------- services ----------

  predicate KeyTaken(s: State, project: nat, key: string) {
    exists i :: 0 <= i < |s.services| && s.services[i].project == project && s.services[i].key == key
  }

  /** A service is added, without anything published, unless its key is empty or taken in the project. */
  lemma ServiceExact(s: State, project: nat, key: string)
    ensures var (t, outcome) := CreateService(s, project, key);
      if key == "" then t == s && outcome == Err(EmptyKey)
      else if KeyTaken(s, project, key) then t == s && outcome == Err(ServiceExists)
      else t == s.(services := s.services + [Service(project, key, None)]) && outcome == Ok(Reply(|s.services|, false))
  {
  }

  ghost predicate KeysDistinct(services: seq<Service>) {
    && (forall i :: 0 <= i < |services| ==> services[i].key != "")
    && forall i, j :: 0 <= i < j < |services| ==> services[i].project != services[j].project || services[i].key != services[j].key
  }

  lemma StepKeepsKeys(s: State, action: Action)
    requires KeysDistinct(s.services)
    ensures KeysDistinct(Apply(s, action).services)
  {
  }

  /** So in every reachable state no two services of a project share a key, and none is empty. */
  lemma {:induction false} ServiceKeysDistinct(s: State, actions: seq<Action>)
    requires KeysDistinct(s.services)
    ensures KeysDistinct(Run(s, actions).services)
    decreases actions
  {
    if |actions| != 0 {
      StepKeepsKeys(s, actions[0]);
      ServiceKeysDistinct(Apply(s, actions[0]), actions[1..]);
    }
  }

  // ---------- over every run ----------

  /** An action of the run asked for the row by its number and its hash. */
  ghost predicate AskedFor(actions: seq<Action>, service: nat, row: Revision) {
    exists j :: 0 <= j < |actions| && actions[j].PublishOne? && actions[j].service == service
      && actions[j].number == row.number && actions[j].expectedHash == row.hash
  }

  /** A step moves a service's pointer only to a row the action asked for by number and hash. */
  lemma PointerAsked(s: State, action: Action, service: nat)
    requires Invariant(s) && Parses(action)
    requires service < |Apply(s, action).services| && Apply(s, action).services[service].current.Some?
    ensures var t := Apply(s, action);
      || (service < |s.services| && t.services[service].current == s.services[service].current)
      || (t.services[service].current.value < |t.revisions|
          && AskedFor([action], service, t.revisions[t.services[service].current.value]))
  {
    match action
    case NewService(_, _) =>
    case NewRevision(_, _, _) =>
    case PublishOne(other, number, hash, project) =>
      if other == service {
        PublishAsked(s, service, number, hash, project);
        assert [action][0] == action;
      } else {
        OtherPointers(s, other, number, hash, project, service);
      }
  }

  lemma PublishAsked(s: State, service: nat, number: nat, hash: string, project: Option<nat>)
    requires Invariant(s)
    ensures var (t, outcome) := Publish(s, service, number, hash, project);
      if outcome.Ok? then
        IsPublished(t, service, number, hash, outcome.value.id)
      else t == s
  {
    PublishExact(s, service, number, hash, project);
  }

  lemma OtherPointers(s: State, other: nat, number: nat, hash: string, project: Option<nat>, service: nat)
    requires service != other
    ensures var t := Publish(s, other, number, hash, project).0;
      |t.services| == |s.services| && (service < |s.services| ==> t.services[service] == s.services[service])
  {
  }

  predicate SamePointer(s: State, t: State, service: nat) {
    service < |s.services| && service < |t.services| && t.services[service].current == s.services[service].current
  }

  /** The service pointed there before, or an action of the run asked for it. */
  ghost predicate PointerOrigin(s: State, actions: seq<Action>, t: State, service: nat)
    requires service < |t.services| && t.services[service].current.Some?
  {
    || SamePointer(s, t, service)
    || (t.services[service].current.value < |t.revisions|
        && AskedFor(actions, service, t.revisions[t.services[service].current.value]))
  }

  lemma AskedForMore(actions: seq<Action>, i: nat, j: nat, service: nat, row: Revision)
    requires i <= j <= |actions| && AskedFor(actions[i..j], service, row)
    ensures AskedFor(actions, service, row)
  {
    var k :| 0 <= k < |actions[i..j]| && actions[i..j][k].PublishOne? && actions[i..j][k].service == service
      && actions[i..j][k].number == row.number && actions[i..j][k].expectedHash == row.hash;
    assert actions[i + k] == actions[i..j][k];
  }

  lemma FirstAsked(s: State, actions: seq<Action>, t: State, service: nat)
    requires Invariant(s) && |actions| > 0 && Parses(actions[0])
    requires SamePointer(Apply(s, actions[0]), t, service) && t.services[service].current.Some?
    requires Grown(Apply(s, actions[0]).revisions, t.revisions)
    ensures PointerOrigin(s, actions, t, service)
  {
    PointerAsked(s, actions[0], service);
    if !SamePointer(s, t, service) {
      assert actions[0..1] == [actions[0]];
      AskedForMore(actions, 0, 1, service, t.revisions[t.services[service].current.value]);
    }
  }

  lemma LaterAsked(s: State, actions: seq<Action>, t: State, service: nat)
    requires |actions| > 0 && service < |t.services| && t.services[service].current.Some?
    requires PointerOrigin(s, actions[1..], t, service) && !SamePointer(s, t, service)
    ensures PointerOrigin(s, actions, t, service)
  {
    assert actions[1..|actions|] == actions[1..];
    AskedForMore(actions, 1, |actions|, service, t.revisions[t.services[service].current.value]);
  }

  lemma {:induction false} PointerWasAsked(s: State, actions: seq<Action>, service: nat)
    requires Invariant(s) && AllParse(actions)
    requires service < |Run(s, actions).services| && Run(s, actions).services[service].current.Some?
    ensures PointerOrigin(s, actions, Run(s, actions), service)
    decreases actions
  {
    if |actions| != 0 {
      var next, t := Apply(s, actions[0]), Run(s, actions);
      ApplyInvariant(s, actions[0]);
      PointerWasAsked(next, actions[1..], service);
      if SamePointer(next, t, service) {
        RunGrows(next, actions[1..]);
        FirstAsked(s, actions, t, service);
      } else if !SamePointer(s, t, service) {
        LaterAsked(s, actions, t, service);
      }
    }
  }

  /** What a service publishes after any run was asked for by its number and by the hash it has. */
  lemma {:induction false} PublishedWasAsked(actions: seq<Action>, service: nat)
    requires AllParse(actions)
    requires service < |Run(State([], []), actions).services| && Run(State([], []), actions).services[service].current.Some?
    ensures var t := Run(State([], []), actions);
      && t.services[service].current.value < |t.revisions|
      && AskedFor(actions, service, t.revisions[t.services[service].current.value])
  {
    PointerWasAsked(State([], []), actions, service);
  }
}
