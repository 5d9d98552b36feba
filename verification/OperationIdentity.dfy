/**
 Operation identity between revisions: `validate_operation_transition`.
 A route (method and path) keeps its `operationId`; an `operationId` may move to another
 route, with a warning.
 */
module OperationIdentity {
  import opened Prelude

  datatype Route = Route(verb: string, path: string)

  datatype Operation = Operation(route: Route, operationId: string)

  /** `OpenAPIContractError` with code `operation_id_changed`. */
  datatype IdChanged = IdChanged(route: Route, previousId: string, operationId: string)

  /** A `route_changed` warning. */
  datatype RouteChanged = RouteChanged(operationId: string, previous: Route, current: Route)

  function OldRoute(operation: Operation): Route {
    Route(Upper(operation.route.verb), operation.route.path)
  }

  /** `old_by_route`: a later entry replaces an earlier one. */
  function OldByRoute(previous: seq<Operation>): map<Route, string> {
    if |previous| == 0 then map[]
    else
      var last := previous[|previous| - 1];
      OldByRoute(previous[..|previous| - 1])[OldRoute(last) := last.operationId]
  }

  /** `old_by_id`. */
  function OldById(previous: seq<Operation>): map<string, Route> {
    if |previous| == 0 then map[]
    else
      var last := previous[|previous| - 1];
      OldById(previous[..|previous| - 1])[last.operationId := OldRoute(last)]
  }

  predicate Clashes(operation: Operation, byRoute: map<Route, string>) {
    operation.route in byRoute && byRoute[operation.route] != operation.operationId
  }

  predicate Moves(operation: Operation, byId: map<string, Route>) {
    operation.operationId in byId && byId[operation.operationId] != operation.route
  }

  function WarningOf(operation: Operation, byId: map<string, Route>): seq<RouteChanged> {
    if Moves(operation, byId) then [RouteChanged(operation.operationId, byId[operation.operationId], operation.route)]
    else []
  }

  function Warnings(operations: seq<Operation>, byId: map<string, Route>): seq<RouteChanged> {
    if |operations| == 0 then []
    else Warnings(operations[..|operations| - 1], byId) + WarningOf(operations[|operations| - 1], byId)
  }

  /** The first operation that changes the id of a known route. */
  function FirstClash(operations: seq<Operation>, byRoute: map<Route, string>): (r: Option<nat>)
    ensures r.Some? ==> r.value < |operations| && Clashes(operations[r.value], byRoute)
    ensures r.Some? ==> forall i :: 0 <= i < r.value ==> !Clashes(operations[i], byRoute)
    ensures r.None? ==> forall i :: 0 <= i < |operations| ==> !Clashes(operations[i], byRoute)
  {
    if |operations| == 0 then None
    else
      match FirstClash(operations[..|operations| - 1], byRoute)
      case Some(i) => Some(i)
      case None => if Clashes(operations[|operations| - 1], byRoute) then Some(|operations| - 1) else None
  }

  function Transition(operations: seq<Operation>, previous: seq<Operation>): Result<seq<RouteChanged>, IdChanged> {
    var byRoute := OldByRoute(previous);
    match FirstClash(operations, byRoute)
    case Some(i) => Err(IdChanged(operations[i].route, byRoute[operations[i].route], operations[i].operationId))
    case None => Ok(Warnings(operations, OldById(previous)))
  }

  method ValidateTransition(operations: seq<Operation>, previous: seq<Operation>)
    returns (result: Result<seq<RouteChanged>, IdChanged>)
    ensures result == Transition(operations, previous)
  {
    var oldByRoute: map<Route, string>, oldById: map<string, Route> := map[], map[];
    for i := 0 to |previous|
      invariant oldByRoute == OldByRoute(previous[..i]) && oldById == OldById(previous[..i])
    {
      assert previous[..i + 1][..i] == previous[..i];
      oldByRoute := oldByRoute[OldRoute(previous[i]) := previous[i].operationId];
      oldById := oldById[previous[i].operationId := OldRoute(previous[i])];
    }
    assert previous[..|previous|] == previous;
    var warnings: seq<RouteChanged> := [];
    for i := 0 to |operations|
      invariant forall k :: 0 <= k < i ==> !Clashes(operations[k], oldByRoute)
      invariant warnings == Warnings(operations[..i], oldById)
    {
      var operation := operations[i];
      assert operations[..i + 1][..i] == operations[..i];
      if operation.route in oldByRoute && oldByRoute[operation.route] != operation.operationId {
        return Err(IdChanged(operation.route, oldByRoute[operation.route], operation.operationId));
      }
      if operation.operationId in oldById && oldById[operation.operationId] != operation.route {
        warnings := warnings + [RouteChanged(operation.operationId, oldById[operation.operationId], operation.route)];
      }
    }
    assert operations[..|operations|] == operations;
    return Ok(warnings);
  }

  // ---------- what an accepted transition means ----------

  /** The operations of one revision: each route once, each id once, methods in upper case. */
  ghost predicate Catalogue(operations: seq<Operation>) {
    && (forall i, j :: 0 <= i < j < |operations| ==> operations[i].route != operations[j].route)
    && (forall i, j :: 0 <= i < j < |operations| ==> operations[i].operationId != operations[j].operationId)
    && (forall i :: 0 <= i < |operations| ==> OldRoute(operations[i]) == operations[i].route)
  }

  predicate HasRoute(operations: seq<Operation>, route: Route) {
    exists o :: o in operations && o.route == route
  }

  ghost predicate KeepsIds(operations: seq<Operation>, previous: seq<Operation>) {
    forall i, j :: 0 <= i < |operations| && 0 <= j < |previous| && operations[i].route == previous[j].route
      ==> operations[i].operationId == previous[j].operationId
  }

  lemma {:induction false} OldTables(previous: seq<Operation>, route: Route, id: string)
    requires Catalogue(previous)
    ensures (route in OldByRoute(previous) && OldByRoute(previous)[route] == id) <==> Operation(route, id) in previous
    ensures (id in OldById(previous) && OldById(previous)[id] == route) <==> Operation(route, id) in previous
  {
    OldRoutes(previous, route, id);
    OldIds(previous, route, id);
  }

  lemma {:induction false} OldRoutes(previous: seq<Operation>, route: Route, id: string)
    requires Catalogue(previous)
    ensures (route in OldByRoute(previous) && OldByRoute(previous)[route] == id) <==> Operation(route, id) in previous
  {
    if |previous| != 0 {
      var n := |previous| - 1;
      OldRoutes(previous[..n], route, id);
      LastApart(previous, route, id);
    }
  }

  lemma {:induction false} OldIds(previous: seq<Operation>, route: Route, id: string)
    requires Catalogue(previous)
    ensures (id in OldById(previous) && OldById(previous)[id] == route) <==> Operation(route, id) in previous
  {
    if |previous| != 0 {
      var n := |previous| - 1;
      OldIds(previous[..n], route, id);
      LastApart(previous, route, id);
    }
  }

  /** The last operation shares neither route nor id with an earlier one. */
  lemma LastApart(previous: seq<Operation>, route: Route, id: string)
    requires Catalogue(previous) && |previous| > 0
    ensures var n := |previous| - 1;
      && Catalogue(previous[..n]) && OldRoute(previous[n]) == previous[n].route
      && (Operation(route, id) in previous <==> Operation(route, id) in previous[..n] || previous[n] == Operation(route, id))
      && (Operation(route, id) in previous[..n] ==> previous[n].route != route && previous[n].operationId != id)
  {
    var n := |previous| - 1;
    assert previous == previous[..n] + [previous[n]];
    if Operation(route, id) in previous[..n] {
      var j :| 0 <= j < n && previous[..n][j] == Operation(route, id);
      assert previous[j].route != previous[n].route && previous[j].operationId != previous[n].operationId;
    }
  }

  /**
   A transition is accepted exactly when every route known before keeps its id; when it is
   refused, the error names a route, its former id and its new one.
   */
  lemma TransitionExact(operations: seq<Operation>, previous: seq<Operation>)
    requires Catalogue(previous)
    ensures Transition(operations, previous).Ok? <==> KeepsIds(operations, previous)
    ensures Transition(operations, previous).Err? ==>
      var e := Transition(operations, previous).error;
      Operation(e.route, e.previousId) in previous && Operation(e.route, e.operationId) in operations
      && e.previousId != e.operationId
  {
    var byRoute := OldByRoute(previous);
    match FirstClash(operations, byRoute) {
      case Some(i) =>
        OldTables(previous, operations[i].route, byRoute[operations[i].route]);
        var j :| 0 <= j < |previous| && previous[j] == Operation(operations[i].route, byRoute[operations[i].route]);
        assert operations[i] == Operation(operations[i].route, operations[i].operationId);
      case None =>
        forall i, j | 0 <= i < |operations| && 0 <= j < |previous| && operations[i].route == previous[j].route
          ensures operations[i].operationId == previous[j].operationId
        {
          assert previous[j] == Operation(previous[j].route, previous[j].operationId);
          OldTables(previous, previous[j].route, previous[j].operationId);
          assert !Clashes(operations[i], byRoute);
        }
    }
  }

  predicate Announces(operation: Operation, byId: map<string, Route>, w: RouteChanged) {
    Moves(operation, byId) && w == RouteChanged(operation.operationId, byId[operation.operationId], operation.route)
  }

  lemma {:induction false} WarningsAre(operations: seq<Operation>, byId: map<string, Route>, w: RouteChanged)
    ensures w in Warnings(operations, byId) <==> exists o :: o in operations && Announces(o, byId, w)
  {
    if |operations| != 0 {
      var n := |operations| - 1;
      WarningsAre(operations[..n], byId, w);
      assert forall o :: o in operations <==> o in operations[..n] || o == operations[n] by {
        assert operations == operations[..n] + [operations[n]];
      }
      assert w in WarningOf(operations[n], byId) <==> Announces(operations[n], byId, w);
    }
  }

  /** The warnings are exactly the ids found before on one route and now on another. */
  lemma TransitionWarns(operations: seq<Operation>, previous: seq<Operation>, w: RouteChanged)
    requires Catalogue(previous) && Transition(operations, previous).Ok?
    ensures w in Transition(operations, previous).value <==>
      && w.previous != w.current
      && Operation(w.current, w.operationId) in operations
      && Operation(w.previous, w.operationId) in previous
  {
    var byId := OldById(previous);
    var now := Operation(w.current, w.operationId);
    OldTables(previous, w.previous, w.operationId);
    WarningsAre(operations, byId, w);
    if w in Transition(operations, previous).value {
      var o :| o in operations && Announces(o, byId, w);
      assert o == now;
    } else {
      assert now in operations ==> !Announces(now, byId, w);
    }
  }
}
