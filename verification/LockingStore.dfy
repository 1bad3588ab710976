// The store object (internal/store/store.go) over the map-backed backend
// (internal/store/memory_backend.go). Marshalling is the identity on values; listing creates new
// gateway objects, which binding then updates in place.

module LockingStore {
  import opened Wrappers
  import opened Core
  import opened Gateways
  import opened Binder
  import opened StoreSpec

  // ----- The backend ---------------------------------------------------------------------------

  class MemoryBackend {
    var gateways: map<GatewayID, Gateway>
    var routes: map<string, Route>

    constructor ()
      ensures gateways == map[] && routes == map[]
    {
      gateways, routes := map[], map[];
    }

    method GetGateway(id: GatewayID) returns (g: Option<Gateway>)
      ensures g == if id in gateways then Some(gateways[id]) else None
    {
      g := if id in gateways then Some(gateways[id]) else None;
    }

    method GetRoute(id: string) returns (r: Option<Route>)
      ensures r == if id in routes then Some(routes[id]) else None
    {
      r := if id in routes then Some(routes[id]) else None;
    }

    method ListGateways() returns (list: seq<Gateway>)
      ensures Enumerates(list, gateways)
    {
      list := MapValues(gateways);
    }

    method ListRoutes() returns (list: seq<Route>)
      ensures Enumerates(list, routes)
    {
      list := MapValues(routes);
    }

    method DeleteGateway(id: GatewayID)
      modifies this`gateways
      ensures gateways == old(gateways) - {id}
    {
      gateways := gateways - {id};
    }

    method DeleteRoute(id: string)
      modifies this`routes
      ensures routes == old(routes) - {id}
    {
      routes := routes - {id};
    }

    method UpsertGateways(records: seq<Gateway>)
      modifies this`gateways
      ensures gateways == old(gateways) + RecordMap(records, {})
    {
      for k := 0 to |records|
        invariant gateways == old(gateways) + RecordMap(records[..k], {})
      {
        RecordMapStep(old(gateways), records, k, {});
        gateways := gateways[records[k].ID() := records[k]];
      }
      assert records[..|records|] == records;
    }

    method UpsertRoutes(records: seq<Route>)
      modifies this`routes
      ensures routes == old(routes) + Prefix(records, |records|)
    {
      for k := 0 to |records|
        invariant routes == old(routes) + Prefix(records, k)
      {
        routes := routes[records[k].ID() := records[k]];
      }
    }
  }

  /** The records by ID, less those in skip. */
  function RecordMap(records: seq<Gateway>, skip: set<GatewayID>): map<GatewayID, Gateway> {
    if records == [] then map[]
    else
      var rest, last := RecordMap(records[..|records| - 1], skip), records[|records| - 1];
      if last.ID() in skip then rest else rest[last.ID() := last]
  }

  ghost predicate DistinctIDs(records: seq<Gateway>) {
    forall i, j | 0 <= i < j < |records| :: records[i].ID() != records[j].ID()
  }

  lemma {:induction false} RecordMapContents(records: seq<Gateway>, skip: set<GatewayID>, id: GatewayID)
    ensures id in RecordMap(records, skip) ==>
              id !in skip && exists k | 0 <= k < |records| ::
                records[k].ID() == id && RecordMap(records, skip)[id] == records[k]
    ensures id !in RecordMap(records, skip) ==> id in skip || forall k | 0 <= k < |records| :: records[k].ID() != id
  {
    if records != [] {
      var shorter, last := records[..|records| - 1], records[|records| - 1];
      RecordMapContents(shorter, skip, id);
      if last.ID() == id {
        assert id !in skip ==> RecordMap(records, skip)[id] == records[|records| - 1];
      } else if id in RecordMap(records, skip) {
        var k :| 0 <= k < |shorter| && shorter[k].ID() == id && RecordMap(shorter, skip)[id] == shorter[k];
        assert records[k].ID() == id && RecordMap(records, skip)[id] == records[k];
      }
    }
  }

  lemma {:induction false} RecordMapStep(base: map<GatewayID, Gateway>, records: seq<Gateway>, i: nat,
                                         skip: set<GatewayID>)
    requires i < |records|
    ensures base + RecordMap(records[..i + 1], skip) ==
            if records[i].ID() in skip then base + RecordMap(records[..i], skip)
            else (base + RecordMap(records[..i], skip))[records[i].ID() := records[i]]
  {
    assert records[..i + 1][..i] == records[..i];
  }

  // ----- Binding many routes to many gateways ----------------------------------------------------

  ghost predicate Distinct(gs: seq<K8sGateway>) {
    forall i, j | 0 <= i < j < |gs| :: gs[i] != gs[j] && gs[i].spec.ID() != gs[j].spec.ID()
  }

  ghost predicate AllValid(gs: seq<K8sGateway>)
    reads gs
  {
    forall i | 0 <= i < |gs| :: gs[i].Valid()
  }

  ghost function Values(gs: seq<K8sGateway>): (vs: seq<Gateway>)
    reads gs
    requires AllValid(gs)
    ensures |vs| == |gs| && forall i | 0 <= i < |gs| :: vs[i] == gs[i].Value() && vs[i].WellFormed()
  {
    seq(|gs|, i requires 0 <= i < |gs| reads gs requires AllValid(gs) => gs[i].Value())
  }

  /** The inner loop of bindOrUnbindAll: all routes against one gateway. */
  method BindOrUnbindRoutes(c: Cluster, g: K8sGateway, routes: seq<Route>, bind: bool)
    returns (modified: bool, modifiedRoutes: map<string, Route>)
    requires g.Valid()
    modifies g
    ensures g.Valid() && g.Value() == ReboundAll(c, old(g.Value()), routes, |routes|, bind)
    ensures modified <==> ReportsAny(c, old(g.Value()), routes, |routes|, bind)
    ensures forall rid | rid in modifiedRoutes :: modifiedRoutes[rid] in routes && modifiedRoutes[rid].ID() == rid
  {
    modified, modifiedRoutes := false, map[];
    ghost var before := g.Value();
    for j := 0 to |routes|
      invariant g.Valid() && g.Value() == ReboundAll(c, before, routes, j, bind)
      invariant modified <==> ReportsAny(c, before, routes, j, bind)
      invariant forall rid | rid in modifiedRoutes :: modifiedRoutes[rid] in routes && modifiedRoutes[rid].ID() == rid
    {
      var touched;
      if bind {
        touched := Bind(c, g, routes[j]);
      } else {
        touched := Unbind(g, routes[j]);
      }
      if touched {
        modified, modifiedRoutes := true, modifiedRoutes[routes[j].ID() := routes[j]];
      }
    }
  }

  method BindOrUnbindAll(c: Cluster, gs: seq<K8sGateway>, routes: seq<Route>, bind: bool)
    returns (modifiedGateways: seq<K8sGateway>, modifiedRoutes: map<string, Route>)
    requires AllValid(gs) && Distinct(gs)
    modifies gs
    ensures AllValid(gs)
    ensures forall i | 0 <= i < |gs| :: gs[i].Value() == ReboundAll(c, old(Values(gs))[i], routes, |routes|, bind)
    ensures forall i | 0 <= i < |gs| ::
              gs[i] in modifiedGateways <==> ReportsAny(c, old(Values(gs))[i], routes, |routes|, bind)
    ensures forall k | 0 <= k < |modifiedGateways| :: modifiedGateways[k] in gs
    ensures Distinct(modifiedGateways)
    ensures forall rid | rid in modifiedRoutes :: modifiedRoutes[rid] in routes && modifiedRoutes[rid].ID() == rid
  {
    modifiedGateways, modifiedRoutes := [], map[];
    ghost var before := Values(gs);
    ghost var reported := seq(|gs|, k requires 0 <= k < |gs| => ReportsAny(c, before[k], routes, |routes|, bind));
    for i := 0 to |gs|
      invariant AllValid(gs)
      invariant forall k | 0 <= k < i :: gs[k].Value() == ReboundAll(c, before[k], routes, |routes|, bind)
      invariant forall k | i <= k < |gs| :: gs[k].Value() == before[k]
      invariant ModifiedSoFar(modifiedGateways, gs, i, reported)
      invariant FromRoutes(modifiedRoutes, routes)
    {
      assert forall k | 0 <= k < |gs| && k != i :: gs[k] != gs[i];
      var modified, routes' := BindOrUnbindRoutes(c, gs[i], routes, bind);
      OneMoreModified(modifiedGateways, gs, i, reported);
      if modified {
        modifiedGateways := modifiedGateways + [gs[i]];
      }
      modifiedRoutes := modifiedRoutes + routes';
    }
    assert gs[..|gs|] == gs;
  }

  ghost predicate FromRoutes(modified: map<string, Route>, routes: seq<Route>) {
    forall rid | rid in modified :: modified[rid] in routes && modified[rid].ID() == rid
  }

  /** Of the first i gateways, exactly those reported as modified have been collected, each once. */
  ghost predicate ModifiedSoFar(modified: seq<K8sGateway>, gs: seq<K8sGateway>, i: nat, reported: seq<bool>)
    requires i <= |gs| == |reported|
  {
    && (forall k | 0 <= k < i :: gs[k] in modified <==> reported[k])
    && (forall k | 0 <= k < |modified| :: modified[k] in gs[..i])
    && Distinct(modified)
  }

  lemma {:induction false} OneMoreModified(modified: seq<K8sGateway>, gs: seq<K8sGateway>, i: nat, reported: seq<bool>)
    requires i < |gs| == |reported|
    requires Distinct(gs) && ModifiedSoFar(modified, gs, i, reported)
    ensures ModifiedSoFar(if reported[i] then modified + [gs[i]] else modified, gs, i + 1, reported)
  {
    NotYetModified(modified, gs, i);
    assert gs[..i + 1] == gs[..i] + [gs[i]];
    assert forall k | 0 <= k < i :: gs[k] != gs[i];
    var modified' := modified + [gs[i]];
    assert Distinct(modified');
    assert forall k | 0 <= k < i :: gs[k] in modified' <==> gs[k] in modified;
    assert gs[i] in modified';
  }

  lemma {:induction false} NotYetModified(modified: seq<K8sGateway>, gs: seq<K8sGateway>, i: nat)
    requires i < |gs| && Distinct(gs) && forall k | 0 <= k < |modified| :: modified[k] in gs[..i]
    ensures gs[i] !in modified
    ensures forall k | 0 <= k < |modified| :: modified[k] != gs[i] && modified[k].spec.ID() != gs[i].spec.ID()
  {
    forall k | 0 <= k < |modified|
      ensures modified[k] != gs[i] && modified[k].spec.ID() != gs[i].spec.ID()
    {
      assert modified[k] in gs[..i];
      var j :| 0 <= j < i && gs[..i][j] == modified[k];
      assert gs[j] == modified[k];
    }
  }

  // ----- Persisting and syncing only what was modified --------------------------------------------

  ghost predicate ListsGateways(list: seq<Gateway>, gateways: map<GatewayID, Gateway>) {
    && (forall i | 0 <= i < |list| :: list[i].ID() in gateways && gateways[list[i].ID()] == list[i])
    && (forall i, j | 0 <= i < j < |list| :: list[i].ID() != list[j].ID())
    && (forall id | id in gateways :: exists i | 0 <= i < |list| :: list[i].ID() == id)
  }

  lemma {:induction false} EnumerationLists(list: seq<Gateway>, gateways: map<GatewayID, Gateway>)
    requires Enumerates(list, gateways) && forall id | id in gateways :: gateways[id].ID() == id
    ensures ListsGateways(list, gateways)
  {
    var order: seq<GatewayID> :| EnumeratesIn(list, gateways, order);
    forall i | 0 <= i < |list|
      ensures list[i].ID() == order[i]
    {}
    forall id | id in gateways
      ensures exists i | 0 <= i < |list| :: list[i].ID() == id
    {
      var i :| 0 <= i < |order| && order[i] == id;
    }
  }

  lemma {:induction false} EnumerationListsRoutes(list: seq<Route>, routes: map<string, Route>)
    requires Enumerates(list, routes) && forall rid | rid in routes :: routes[rid].ID() == rid
    ensures ListsRoutes(list, routes)
  {
    var order: seq<string> :| EnumeratesIn(list, routes, order);
    forall i | 0 <= i < |list|
      ensures list[i].ID() == order[i]
    {}
    forall rid | rid in routes
      ensures exists i | 0 <= i < |list| :: list[i].ID() == rid
    {
      var i :| 0 <= i < |order| && order[i] == rid;
    }
  }

  ghost predicate IsRecordOf(c: Cluster, list: seq<Gateway>, i: nat, r: Route, bind: bool, g: Gateway) {
    i < |list| && list[i].WellFormed() && g == Rebound(c, list[i], r, bind) && Reports(c, list[i], r, bind)
  }

  ghost predicate HasSource(c: Cluster, list: seq<Gateway>, r: Route, bind: bool, g: Gateway) {
    exists i: nat :: IsRecordOf(c, list, i, r, bind, g)
  }

  /** mods are the rebound forms of exactly the gateways of list that are reported as modified. */
  ghost predicate ModifiedRecords(c: Cluster, list: seq<Gateway>, r: Route, bind: bool, mods: seq<Gateway>)
    requires forall i | 0 <= i < |list| :: list[i].WellFormed()
  {
    && (forall k | 0 <= k < |mods| :: HasSource(c, list, r, bind, mods[k]))
    && (forall i | 0 <= i < |list| && Reports(c, list[i], r, bind) :: Rebound(c, list[i], r, bind) in mods)
  }

  lemma {:induction false} ModifiedRecordAt(c: Cluster, gateways: map<GatewayID, Gateway>, list: seq<Gateway>, r: Route,
                                            bind: bool, skip: set<GatewayID>, mods: seq<Gateway>, id: GatewayID)
    requires ListsGateways(list, gateways)
    requires forall i | 0 <= i < |list| :: list[i].WellFormed()
    requires ModifiedRecords(c, list, r, bind, mods)
    requires forall id | id in gateways :: gateways[id].WellFormed()
    ensures id in RecordMap(mods, skip) <==> id in Modified(c, gateways, r, bind, skip)
    ensures id in RecordMap(mods, skip) ==> RecordMap(mods, skip)[id] == Modified(c, gateways, r, bind, skip)[id]
  {
    RecordMapContents(mods, skip, id);
    if id in RecordMap(mods, skip) {
      var k :| 0 <= k < |mods| && mods[k].ID() == id && RecordMap(mods, skip)[id] == mods[k];
      var i: nat :| IsRecordOf(c, list, i, r, bind, mods[k]);
    } else if id in gateways {
      var i :| 0 <= i < |list| && list[i].ID() == id;
      assert Reports(c, list[i], r, bind) ==> Rebound(c, list[i], r, bind) in mods;
    }
  }

  lemma {:induction false} ModifiedRecordMap(c: Cluster, gateways: map<GatewayID, Gateway>, list: seq<Gateway>,
                                             r: Route, bind: bool, skip: set<GatewayID>, mods: seq<Gateway>)
    requires ListsGateways(list, gateways)
    requires forall i | 0 <= i < |list| :: list[i].WellFormed()
    requires forall id | id in gateways :: gateways[id].WellFormed()
    requires ModifiedRecords(c, list, r, bind, mods)
    ensures RecordMap(mods, skip) == Modified(c, gateways, r, bind, skip)
  {
    var left, right := RecordMap(mods, skip), Modified(c, gateways, r, bind, skip);
    forall id: GatewayID
      ensures id in left <==> id in right
      ensures id in left ==> left[id] == right[id]
    {
      ModifiedRecordAt(c, gateways, list, r, bind, skip, mods, id);
    }
  }

  // ----- The store -----------------------------------------------------------------------------

  class Store {
    const cluster: Cluster
    const backend: MemoryBackend
    // What the adapter was last given for each gateway not cleared since, and, as specification
    // only, the gateway that was resolved to produce it.
    var given: map<GatewayID, ResolvedGateway>
    ghost var snapshots: map<GatewayID, Gateway>

    ghost function State(): StoreState
      reads this, backend
    {
      StoreState(backend.gateways, backend.routes, snapshots)
    }

    ghost predicate AdapterMatches()
      reads this
    {
      && given.Keys == snapshots.Keys
      && forall id | id in snapshots :: snapshots[id].WellFormed() && Resolves(given[id], snapshots[id])
    }

    ghost predicate Valid()
      reads this, backend
    {
      WellKeyed(State()) && AdapterMatches()
    }

    constructor (c: Cluster)
      ensures Valid() && fresh(backend) && cluster == c && State() == EMPTY
    {
      cluster := c;
      backend := new MemoryBackend();
      given, snapshots := map[], map[];
    }

    /** Unmarshals every stored gateway into an object of its own. */
    method ListGateways() returns (gs: seq<K8sGateway>)
      requires WellKeyed(State())
      ensures fresh(gs) && AllValid(gs) && Distinct(gs)
      ensures ListsGateways(Values(gs), backend.gateways)
    {
      var datas := backend.ListGateways();
      EnumerationLists(datas, backend.gateways);
      gs := Unmarshal(datas);
      assert Values(gs) == datas;
    }

    method UpsertGateways(gs: seq<K8sGateway>)
      requires AllValid(gs)
      modifies backend`gateways
      ensures backend.gateways == old(backend.gateways) + RecordMap(Values(gs), {})
    {
      var records: seq<Gateway> := [];
      for i := 0 to |gs|
        invariant |records| == i && forall k | 0 <= k < i :: records[k] == gs[k].Value()
      {
        records := records + [gs[i].Value()];
      }
      assert records == Values(gs);
      backend.UpsertGateways(records);
    }

    method SyncGateway(g: K8sGateway)
      requires g.Valid() && AdapterMatches()
      modifies this`given, this`snapshots
      ensures AdapterMatches() && snapshots == old(snapshots)[g.spec.ID() := g.Value()]
    {
      var rg := g.Resolve();
      given := given[g.spec.ID() := rg];
      snapshots := snapshots[g.spec.ID() := g.Value()];
    }

    /** Resolves and syncs each gateway whose deployment succeeds. */
    method SyncGateways(gs: seq<K8sGateway>, failed: set<GatewayID>)
      requires AllValid(gs) && AdapterMatches()
      modifies this`given, this`snapshots
      ensures AdapterMatches() && snapshots == old(snapshots) + RecordMap(Values(gs), failed)
    {
      ghost var values := Values(gs);
      for i := 0 to |gs|
        invariant AdapterMatches() && snapshots == old(snapshots) + RecordMap(values[..i], failed)
      {
        RecordMapStep(old(snapshots), values, i, failed);
        if gs[i].spec.ID() !in failed {
          SyncGateway(gs[i]);
        }
      }
      assert values[..|gs|] == values;
    }

    /** Writing back routes that are stored already changes nothing. */
    method UpsertModifiedRoutes(modified: map<string, Route>, routes: seq<Route>)
      requires ListsRoutes(routes, backend.routes)
      requires forall rid | rid in modified :: modified[rid] in routes && modified[rid].ID() == rid
      modifies backend`routes
      ensures backend.routes == old(backend.routes)
    {
      var records := MapValues(modified);
      EnumerationListsRoutes(records, modified);
      PrefixOfListing(records, modified);
      backend.UpsertRoutes(records);
    }

    method UpsertGateway(g: K8sGateway, accepts: Option<Gateway> -> bool, failed: set<GatewayID>)
      requires Valid() && g.Valid()
      modifies this`given, this`snapshots, backend, g
      ensures Valid() && g.Valid()
      ensures State() == Apply(cluster, old(State()),
                               Op.UpsertGateway(old(g.Value()), accepts(old(Lookup(backend.gateways, g.spec.ID()))),
                                                failed))
    {
      var current := backend.GetGateway(g.spec.ID());
      if !accepts(current) {
        return;
      }
      var routes, boundRoutes := BindStoredRoutes(cluster, backend, g);
      UpsertGateways([g]);
      assert Values([g]) == [g.Value()];
      RecordMapOfOne(old(backend.gateways), g.Value(), {});
      UpsertModifiedRoutes(boundRoutes, routes);
      SyncGateways([g], failed);
      RecordMapOfOne(old(snapshots), g.Value(), failed);
    }

    /** Binds or unbinds r on objects for all stored gateways; returns those reported as modified. */
    method RebindAll(r: Route, bind: bool) returns (modified: seq<K8sGateway>)
      requires WellKeyed(State())
      ensures fresh(modified) && AllValid(modified)
      ensures AreModified(Values(modified), cluster, backend.gateways, r, bind)
    {
      var gs := ListGateways();
      ghost var list := Values(gs);
      modified := BindOrUnbindOne(cluster, gs, r, bind);
      forall skip: set<GatewayID>
        ensures RecordMap(Values(modified), skip) == Modified(cluster, backend.gateways, r, bind, skip)
      {
        ModifiedRecordMap(cluster, backend.gateways, list, r, bind, skip, Values(modified));
      }
    }

    method UpsertRoute(r: Route, accepts: Option<Route> -> bool, failed: set<GatewayID>)
      requires Valid()
      modifies this`given, this`snapshots, backend
      ensures Valid()
      ensures State() == Apply(cluster, old(State()),
                               Op.UpsertRoute(r, accepts(old(Lookup(backend.routes, r.ID()))), failed))
    {
      var current := backend.GetRoute(r.ID());
      if !accepts(current) {
        return;
      }
      UpsertAcceptedRoute(r, failed);
      ApplyKeepsKeys(cluster, old(State()), Op.UpsertRoute(r, true, failed));
    }

    method UpsertAcceptedRoute(r: Route, failed: set<GatewayID>)
      requires Valid()
      modifies this`given, this`snapshots, backend
      ensures AdapterMatches()
      ensures backend.gateways == RebindGateways(cluster, old(backend.gateways), r, true)
      ensures backend.routes == old(backend.routes)[r.ID() := r]
      ensures snapshots == old(snapshots) + Modified(cluster, old(backend.gateways), r, true, failed)
    {
      var modified := RebindAll(r, true);
      PersistModified(modified, r, true);
      backend.UpsertRoutes([r]);
      PrefixOfOne(old(backend.routes), r);
      SyncModified(modified, old(backend.gateways), r, true, failed);
    }

    method PersistModified(modified: seq<K8sGateway>, ghost r: Route, ghost bind: bool)
      requires AllValid(modified) && (forall id | id in backend.gateways :: backend.gateways[id].WellFormed())
      requires AreModified(Values(modified), cluster, backend.gateways, r, bind)
      modifies backend`gateways
      ensures backend.gateways == RebindGateways(cluster, old(backend.gateways), r, bind)
    {
      UpsertGateways(modified);
      ModifiedSuffice(cluster, old(backend.gateways), r, bind);
    }

    method SyncModified(modified: seq<K8sGateway>, ghost gateways: map<GatewayID, Gateway>, ghost r: Route,
                        ghost bind: bool, failed: set<GatewayID>)
      requires AllValid(modified) && AdapterMatches() && (forall id | id in gateways :: gateways[id].WellFormed())
      requires AreModified(Values(modified), cluster, gateways, r, bind)
      modifies this`given, this`snapshots
      ensures AdapterMatches() && snapshots == old(snapshots) + Modified(cluster, gateways, r, bind, failed)
    {
      SyncGateways(modified, failed);
    }

    method DeleteRoute(id: string, failed: set<GatewayID>)
      requires Valid()
      modifies this`given, this`snapshots, backend
      ensures Valid()
      ensures State() == Apply(cluster, old(State()), Op.DeleteRoute(id, failed))
    {
      var route := backend.GetRoute(id);
      if route.None? {
        return;
      }
      DeleteStoredRoute(id, route.value, failed);
      ApplyKeepsKeys(cluster, old(State()), Op.DeleteRoute(id, failed));
    }

    method DeleteStoredRoute(id: string, r: Route, failed: set<GatewayID>)
      requires Valid() && id in backend.routes && backend.routes[id] == r
      modifies this`given, this`snapshots, backend
      ensures AdapterMatches()
      ensures backend.gateways == RebindGateways(cluster, old(backend.gateways), r, false)
      ensures backend.routes == old(backend.routes) - {id}
      ensures snapshots == old(snapshots) + Modified(cluster, old(backend.gateways), r, false, failed)
    {
      var modified := RebindAll(r, false);
      backend.DeleteRoute(id);
      PersistModified(modified, r, false);
      SyncModified(modified, old(backend.gateways), r, false, failed);
    }

    method DeleteGateway(id: GatewayID, cleared: bool)
      requires Valid()
      modifies this`given, this`snapshots, backend
      ensures Valid()
      ensures State() == Apply(cluster, old(State()), Op.DeleteGateway(id, cleared))
    {
      var data := backend.GetGateway(id);
      if data.None? || !cleared {
        return;
      }
      given, snapshots := given - {id}, snapshots - {id};
      var g := new K8sGateway(data.value);
      var routes, modifiedRoutes := UnbindStoredRoutes(cluster, backend, g);
      backend.DeleteGateway(id);
      UpsertModifiedRoutes(modifiedRoutes, routes);
    }
  }

  /** values are the rebound forms of exactly the gateways reported as modified. */
  ghost predicate AreModified(values: seq<Gateway>, c: Cluster, gateways: map<GatewayID, Gateway>, r: Route, bind: bool)
    requires forall id | id in gateways :: gateways[id].WellFormed()
  {
    forall skip: set<GatewayID> :: RecordMap(values, skip) == Modified(c, gateways, r, bind, skip)
  }

  ghost predicate RoutesKeyed(routes: map<string, Route>) {
    forall rid | rid in routes :: routes[rid].ID() == rid
  }

  /** Binds every stored route to g, as UpsertGateway does for the gateway it is given. */
  method BindStoredRoutes(c: Cluster, backend: MemoryBackend, g: K8sGateway)
    returns (routes: seq<Route>, bound: map<string, Route>)
    requires g.Valid() && RoutesKeyed(backend.routes)
    modifies g
    ensures g.Valid() && g.Value() == BindEvery(c, old(g.Value()), backend.routes)
    ensures ListsRoutes(routes, backend.routes)
    ensures forall rid | rid in bound :: bound[rid] in routes && bound[rid].ID() == rid
  {
    routes := backend.ListRoutes();
    EnumerationListsRoutes(routes, backend.routes);
    ghost var before := g.Value();
    var _, modified := BindOrUnbindRoutes(c, g, routes, true);
    bound := modified;
    BindingAllInAnyOrder(c, before, routes, backend.routes);
  }

  /** Unbinds every stored route from g, as DeleteGateway does for the gateway it removes. */
  method UnbindStoredRoutes(c: Cluster, backend: MemoryBackend, g: K8sGateway)
    returns (routes: seq<Route>, unbound: map<string, Route>)
    requires g.Valid() && RoutesKeyed(backend.routes)
    modifies g
    ensures g.Valid() && g.Value().spec == old(g.Value()).spec && |g.Value().states| == |old(g.Value()).states|
    ensures forall i | 0 <= i < |g.Value().states| ::
              g.Value().states[i] ==
              old(g.Value()).states[i].(routes := old(g.Value()).states[i].routes - backend.routes.Keys)
    ensures ListsRoutes(routes, backend.routes)
    ensures forall rid | rid in unbound :: unbound[rid] in routes && unbound[rid].ID() == rid
  {
    routes := backend.ListRoutes();
    EnumerationListsRoutes(routes, backend.routes);
    ghost var before := g.Value();
    var _, modified := BindOrUnbindRoutes(c, g, routes, false);
    unbound := modified;
    UnbindingAllInAnyOrder(c, before, routes, backend.routes);
  }

  /** bindOrUnbindAll for a single route. */
  method BindOrUnbindOne(c: Cluster, gs: seq<K8sGateway>, r: Route, bind: bool) returns (modified: seq<K8sGateway>)
    requires AllValid(gs) && Distinct(gs)
    modifies gs
    ensures AllValid(gs) && AllValid(modified)
    ensures forall k | 0 <= k < |modified| :: modified[k] in gs
    ensures ModifiedRecords(c, old(Values(gs)), r, bind, Values(modified))
  {
    ghost var list := Values(gs);
    var gateways, _ := BindOrUnbindAll(c, gs, [r], bind);
    modified := gateways;
    assert forall i | 0 <= i < |gs| :: ReportsAny(c, list[i], [r], 1, bind) == Reports(c, list[i], r, bind);
    ModifiedAreRecords(c, gs, list, r, bind, modified, Values(modified));
  }

  function Lookup<K, V>(m: map<K, V>, k: K): Option<V> {
    if k in m then Some(m[k]) else None
  }

  lemma {:induction false} RecordMapOfOne(base: map<GatewayID, Gateway>, g: Gateway, skip: set<GatewayID>)
    ensures base + RecordMap([g], skip) == if g.ID() in skip then base else base[g.ID() := g]
  {
    assert [g][..0] == [];
    assert RecordMap([g][..0], skip) == map[];
  }

  lemma {:induction false} PrefixOfOne(base: map<string, Route>, r: Route)
    ensures base + Prefix([r], 1) == base[r.ID() := r]
  {
    assert Prefix([r], 1) == Prefix([r], 0)[r.ID() := r];
  }

  /** What bindOrUnbindAll returns as modified are the records of the gateways reported as modified. */
  lemma {:induction false} ModifiedAreRecords(c: Cluster, gs: seq<K8sGateway>, list: seq<Gateway>, r: Route, bind: bool,
                           modified: seq<K8sGateway>, mods: seq<Gateway>)
    requires AllValid(gs) && |list| == |gs| && |mods| == |modified|
    requires forall i | 0 <= i < |list| :: list[i].WellFormed()
    requires forall i | 0 <= i < |gs| :: gs[i].Value() == Rebound(c, list[i], r, bind)
    requires forall i | 0 <= i < |gs| :: gs[i] in modified <==> Reports(c, list[i], r, bind)
    requires forall k | 0 <= k < |modified| ::
               modified[k] in gs && modified[k].Valid() && mods[k] == modified[k].Value()
    ensures ModifiedRecords(c, list, r, bind, mods)
  {
    forall k | 0 <= k < |mods|
      ensures HasSource(c, list, r, bind, mods[k])
    {
      var i: nat :| i < |gs| && gs[i] == modified[k];
      assert IsRecordOf(c, list, i, r, bind, mods[k]);
    }
    forall i | 0 <= i < |list| && Reports(c, list[i], r, bind)
      ensures Rebound(c, list[i], r, bind) in mods
    {
      var k :| 0 <= k < |modified| && modified[k] == gs[i];
      assert mods[k] == Rebound(c, list[i], r, bind);
    }
  }

  method Unmarshal(datas: seq<Gateway>) returns (gs: seq<K8sGateway>)
    requires DistinctIDs(datas) && forall i | 0 <= i < |datas| :: datas[i].WellFormed()
    ensures fresh(gs) && |gs| == |datas| && AllValid(gs) && Distinct(gs)
    ensures forall i | 0 <= i < |gs| :: gs[i].Value() == datas[i]
  {
    gs := [];
    for i := 0 to |datas|
      invariant |gs| == i && fresh(gs) && AllValid(gs)
      invariant forall k | 0 <= k < i :: gs[k].Value() == datas[k]
      invariant forall j, k | 0 <= j < k < i :: gs[j] != gs[k]
    {
      var g := new K8sGateway(datas[i]);
      gs := gs + [g];
    }
    forall j, k | 0 <= j < k < |gs|
      ensures gs[j].spec.ID() != gs[k].spec.ID()
    {
      assert gs[j].Value() == datas[j] && gs[k].Value() == datas[k];
    }
  }
}
