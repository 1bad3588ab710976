// What the store does to gateways and routes: it binds incrementally, persists and syncs only what
// binding reports as modified (internal/store/store.go). The store object itself is in LockingStore.dfy.

module StoreSpec {
  import opened Wrappers
  import opened Core
  import opened Gateways
  import opened Binder

  /**
   * What the store's callers can observe: the persisted gateways and routes, and, for each gateway
   * not cleared since, the gateway whose resolution was last passed to the adapter's Sync.
   */
  datatype StoreState = StoreState(gateways: map<GatewayID, Gateway>,
                                   routes: map<string, Route>,
                                   synced: map<GatewayID, Gateway>)

  const EMPTY := StoreState(map[], map[], map[])

  /**
   * One call of the store. accepted is the answer of the caller's update condition; failed is the
   * set of gateways whose deployment failed, so that Sync was not reached; cleared says whether the
   * adapter's Clear succeeded.
   */
  datatype Op =
    | UpsertGateway(gateway: Gateway, accepted: bool, failed: set<GatewayID>)
    | UpsertRoute(route: Route, accepted: bool, failed: set<GatewayID>)
    | DeleteRoute(rid: string, failed: set<GatewayID>)
    | DeleteGateway(gid: GatewayID, cleared: bool)

  // ----- One binding call on one gateway ------------------------------------------------------

  function Rebound(c: Cluster, g: Gateway, r: Route, bind: bool): (g': Gateway)
    requires g.WellFormed()
    ensures g'.WellFormed() && g'.spec == g.spec
  {
    if bind then BindGateway(c, g, r) else UnbindGateway(g, r)
  }

  /** What Bind (or Unbind) reports as its "modified" result. */
  predicate Reports(c: Cluster, g: Gateway, r: Route, bind: bool)
    requires g.WellFormed()
  {
    Recorded(g, r) || (bind && ReferencesGateway(r, g.spec) && SomeRefBinds(c, g, r))
  }

  /** Whatever is not reported as modified has not changed, so it need not be persisted or synced. */
  lemma {:induction false} UnreportedIsUnchanged(c: Cluster, g: Gateway, r: Route, bind: bool)
    requires g.WellFormed() && !Reports(c, g, r, bind)
    ensures Rebound(c, g, r, bind) == g
  {
    var g' := Rebound(c, g, r, bind);
    forall i | 0 <= i < |g.states|
      ensures g'.states[i] == g.states[i]
    {
      assert r.ID() !in g.states[i].routes;
      assert g.states[i].routes - {r.ID()} == g.states[i].routes;
    }
    assert g'.states == g.states;
  }

  /** The first n routes bound (or unbound) one after the other. */
  function ReboundAll(c: Cluster, g: Gateway, routes: seq<Route>, n: nat, bind: bool): (g': Gateway)
    requires g.WellFormed() && n <= |routes|
    ensures g'.WellFormed() && g'.spec == g.spec
  {
    if n == 0 then g else Rebound(c, ReboundAll(c, g, routes, n - 1, bind), routes[n - 1], bind)
  }

  predicate ReportsAny(c: Cluster, g: Gateway, routes: seq<Route>, n: nat, bind: bool)
    requires g.WellFormed() && n <= |routes|
  {
    n > 0 && (ReportsAny(c, g, routes, n - 1, bind) ||
              Reports(c, ReboundAll(c, g, routes, n - 1, bind), routes[n - 1], bind))
  }

  // ----- Recomputation from scratch ------------------------------------------------------------

  /** The attachments listener i should have, computed from all stored routes at once. */
  function Recompute(c: Cluster, g: Gateway, i: nat, routes: map<string, Route>): map<string, ResolvedRoute>
    requires g.WellFormed() && i < |g.states|
  {
    map rid | rid in routes && Attaches(c, g, i, routes[rid]) ::
      ResolveRoute(routes[rid], g.spec, g.spec.listeners[i])
  }

  /** g with the entries of all given routes recomputed; entries of other routes stay. */
  function BindEvery(c: Cluster, g: Gateway, routes: map<string, Route>): (g': Gateway)
    requires g.WellFormed()
    ensures g'.WellFormed() && g'.spec == g.spec
  {
    Gateway(g.spec, seq(|g.states|, i requires 0 <= i < |g.states| =>
      g.states[i].(routes := (g.states[i].routes - routes.Keys) + Recompute(c, g, i, routes))))
  }

  ghost predicate ListsRoutes(list: seq<Route>, routes: map<string, Route>) {
    && (forall k | 0 <= k < |list| :: list[k].ID() in routes && routes[list[k].ID()] == list[k])
    && (forall j, k | 0 <= j < k < |list| :: list[j].ID() != list[k].ID())
    && (forall rid | rid in routes :: exists k | 0 <= k < |list| :: list[k].ID() == rid)
  }

  function Prefix(list: seq<Route>, n: nat): map<string, Route>
    requires n <= |list|
  {
    if n == 0 then map[] else Prefix(list, n - 1)[list[n - 1].ID() := list[n - 1]]
  }

  lemma {:induction false} PrefixKeys(list: seq<Route>, n: nat, rid: string)
    requires n <= |list|
    ensures rid in Prefix(list, n) ==> exists k | 0 <= k < n :: list[k].ID() == rid && Prefix(list, n)[rid] == list[k]
    ensures rid !in Prefix(list, n) ==> forall k | 0 <= k < n :: list[k].ID() != rid
  {
    if n > 0 {
      PrefixKeys(list, n - 1, rid);
      if list[n - 1].ID() == rid {
        assert Prefix(list, n)[rid] == list[n - 1];
      } else if rid in Prefix(list, n) {
        var k :| 0 <= k < n - 1 && list[k].ID() == rid && Prefix(list, n - 1)[rid] == list[k];
        assert Prefix(list, n)[rid] == list[k];
      }
    }
  }

  lemma {:induction false} PrefixOfListing(list: seq<Route>, routes: map<string, Route>)
    requires ListsRoutes(list, routes)
    ensures Prefix(list, |list|) == routes
  {
    var p := Prefix(list, |list|);
    forall rid: string
      ensures rid in p <==> rid in routes
      ensures rid in p ==> p[rid] == routes[rid]
    {
      PrefixEntry(list, routes, rid);
    }
  }

  lemma {:induction false} PrefixEntry(list: seq<Route>, routes: map<string, Route>, rid: string)
    requires ListsRoutes(list, routes)
    ensures rid in Prefix(list, |list|) <==> rid in routes
    ensures rid in routes ==> Prefix(list, |list|)[rid] == routes[rid]
  {
    PrefixKeys(list, |list|, rid);
    if rid in Prefix(list, |list|) {
      var k :| 0 <= k < |list| && list[k].ID() == rid && Prefix(list, |list|)[rid] == list[k];
      assert list[k].ID() in routes && routes[list[k].ID()] == list[k];
    }
  }

  lemma {:induction false} RecomputeOneMore(c: Cluster, g: Gateway, i: nat, routes: map<string, Route>, r: Route)
    requires g.WellFormed() && i < |g.states|
    ensures Recompute(c, g, i, routes[r.ID() := r]) ==
            if Attaches(c, g, i, r)
            then Recompute(c, g, i, routes)[r.ID() := ResolveRoute(r, g.spec, g.spec.listeners[i])]
            else Recompute(c, g, i, routes) - {r.ID()}
  {
    ChosenOneMore(routes, Attacher(c, g, i), Resolver(g, i), r);
    RecomputeIsChosen(c, g, i, routes);
    RecomputeIsChosen(c, g, i, routes[r.ID() := r]);
  }

  function Attacher(c: Cluster, g: Gateway, i: nat): Route -> bool
    requires g.WellFormed() && i < |g.states|
  {
    (x: Route) => Attaches(c, g, i, x)
  }

  function Resolver(g: Gateway, i: nat): Route -> ResolvedRoute
    requires g.WellFormed() && i < |g.states|
  {
    (x: Route) => ResolveRoute(x, g.spec, g.spec.listeners[i])
  }

  lemma {:induction false} RecomputeIsChosen(c: Cluster, g: Gateway, i: nat, routes: map<string, Route>)
    requires g.WellFormed() && i < |g.states|
    ensures Recompute(c, g, i, routes) == Chosen(routes, Attacher(c, g, i), Resolver(g, i))
  {}

  function Chosen(routes: map<string, Route>, attaches: Route -> bool, resolve: Route -> ResolvedRoute)
    : map<string, ResolvedRoute>
  {
    map rid | rid in routes && attaches(routes[rid]) :: resolve(routes[rid])
  }

  lemma {:induction false} ChosenOneMore(routes: map<string, Route>, attaches: Route -> bool,
                                         resolve: Route -> ResolvedRoute, r: Route)
    ensures Chosen(routes[r.ID() := r], attaches, resolve) ==
            if attaches(r) then Chosen(routes, attaches, resolve)[r.ID() := resolve(r)]
            else Chosen(routes, attaches, resolve) - {r.ID()}
  {}

  /** Binding r on top of any set of already bound routes recomputes exactly r's entry. */
  lemma {:induction false} BindOneMore(c: Cluster, g: Gateway, routes: map<string, Route>, r: Route)
    requires g.WellFormed()
    ensures BindGateway(c, BindEvery(c, g, routes), r) == BindEvery(c, g, routes[r.ID() := r])
  {
    var h, id := BindEvery(c, g, routes), r.ID();
    var left, right := BindGateway(c, h, r), BindEvery(c, g, routes[id := r]);
    forall i | 0 <= i < |g.states|
      ensures left.states[i] == right.states[i]
    {
      RecomputeOneMore(c, g, i, routes, r);
      var kept, resolved := g.states[i].routes - routes.Keys, ResolveRoute(r, g.spec, g.spec.listeners[i]);
      var computed := Recompute(c, g, i, routes);
      OneMoreEntry(g.states[i].routes, routes.Keys, computed, id, resolved);
      assert routes[id := r].Keys == routes.Keys + {id};
      assert Attaches(c, h, i, r) == Attaches(c, g, i, r);
      assert h.states[i].routes == kept + computed;
    }
    assert left.states == right.states;
  }

  lemma {:induction false} OneMoreEntry<V>(m: map<string, V>, keys: set<string>, computed: map<string, V>, id: string,
                                           v: V)
    ensures ((m - keys) + computed)[id := v] == (m - (keys + {id})) + computed[id := v]
    ensures ((m - keys) + computed) - {id} == (m - (keys + {id})) + (computed - {id})
  {}

  lemma {:induction false} ReboundAllIsBindEvery(c: Cluster, g: Gateway, list: seq<Route>, n: nat)
    requires g.WellFormed() && n <= |list|
    ensures ReboundAll(c, g, list, n, true) == BindEvery(c, g, Prefix(list, n))
  {
    if n == 0 {
      var h := BindEvery(c, g, map[]);
      forall i | 0 <= i < |g.states|
        ensures h.states[i] == g.states[i]
      {
        assert h.states[i].routes == g.states[i].routes;
      }
      assert h.states == g.states;
    } else {
      ReboundAllIsBindEvery(c, g, list, n - 1);
      BindOneMore(c, g, Prefix(list, n - 1), list[n - 1]);
    }
  }

  /** Binding every stored route one after the other, in any order, is recomputation. */
  lemma {:induction false} BindingAllInAnyOrder(c: Cluster, g: Gateway, list: seq<Route>, routes: map<string, Route>)
    requires g.WellFormed() && ListsRoutes(list, routes)
    ensures ReboundAll(c, g, list, |list|, true) == BindEvery(c, g, routes)
  {
    ReboundAllIsBindEvery(c, g, list, |list|);
    PrefixOfListing(list, routes);
  }

  lemma {:induction false} ReboundAllForgets(c: Cluster, g: Gateway, list: seq<Route>, n: nat, i: nat)
    requires g.WellFormed() && n <= |list| && i < |g.states|
    ensures var g' := ReboundAll(c, g, list, n, false);
            && |g'.states| == |g.states|
            && g'.states[i] == g.states[i].(routes := g.states[i].routes - Prefix(list, n).Keys)
  {
    if n == 0 {
      assert g.states[i].routes - Prefix(list, 0).Keys == g.states[i].routes;
    } else {
      ReboundAllForgets(c, g, list, n - 1, i);
      var id, keys := list[n - 1].ID(), Prefix(list, n - 1).Keys;
      assert Prefix(list, n).Keys == keys + {id};
      assert (g.states[i].routes - keys) - {id} == g.states[i].routes - (keys + {id});
    }
  }

  /** Unbinding every stored route one after the other, in any order, leaves the attachments of none of them. */
  lemma {:induction false} UnbindingAllInAnyOrder(c: Cluster, g: Gateway, list: seq<Route>, routes: map<string, Route>)
    requires g.WellFormed() && ListsRoutes(list, routes)
    ensures var g' := ReboundAll(c, g, list, |list|, false);
            && |g'.states| == |g.states|
            && forall i | 0 <= i < |g.states| ::
                 g'.states[i] == g.states[i].(routes := g.states[i].routes - routes.Keys)
  {
    PrefixOfListing(list, routes);
    forall i | 0 <= i < |g.states|
      ensures var g' := ReboundAll(c, g, list, |list|, false);
              |g'.states| == |g.states| && g'.states[i] == g.states[i].(routes := g.states[i].routes - routes.Keys)
    {
      ReboundAllForgets(c, g, list, |list|, i);
    }
  }

  // ----- The effect of each call ---------------------------------------------------------------

  ghost predicate WellKeyed(s: StoreState) {
    && (forall id | id in s.gateways :: s.gateways[id].WellFormed() && s.gateways[id].ID() == id)
    && (forall rid | rid in s.routes :: s.routes[rid].ID() == rid)
  }

  function RebindGateways(c: Cluster, gateways: map<GatewayID, Gateway>, r: Route, bind: bool): map<GatewayID, Gateway>
    requires forall id | id in gateways :: gateways[id].WellFormed()
  {
    map id | id in gateways :: Rebound(c, gateways[id], r, bind)
  }

  /** The rebound forms of the gateways reported as modified, less those in skip. */
  function Modified(c: Cluster, gateways: map<GatewayID, Gateway>, r: Route, bind: bool,
                    skip: set<GatewayID>): map<GatewayID, Gateway>
    requires forall id | id in gateways :: gateways[id].WellFormed()
  {
    map id | id in gateways && id !in skip && Reports(c, gateways[id], r, bind) :: Rebound(c, gateways[id], r, bind)
  }

  /** Laying only the reported gateways over the stored ones gives all of them their rebound form. */
  lemma {:induction false} ModifiedSuffice(c: Cluster, gateways: map<GatewayID, Gateway>, r: Route, bind: bool)
    requires forall id | id in gateways :: gateways[id].WellFormed()
    ensures gateways + Modified(c, gateways, r, bind, {}) == RebindGateways(c, gateways, r, bind)
  {
    forall id | id in gateways && !Reports(c, gateways[id], r, bind)
      ensures Rebound(c, gateways[id], r, bind) == gateways[id]
    {
      UnreportedIsUnchanged(c, gateways[id], r, bind);
    }
  }

  ghost predicate Legal(op: Op) {
    op.UpsertGateway? ==> op.gateway.WellFormed() && Fresh(op.gateway)
  }

  ghost function Apply(c: Cluster, s: StoreState, op: Op): StoreState
    requires WellKeyed(s)
    requires op.UpsertGateway? ==> op.gateway.WellFormed()
  {
    match op
    case UpsertGateway(g, accepted, failed) =>
      if !accepted then s
      else
        var bound := BindEvery(c, g, s.routes);
        StoreState(s.gateways[g.ID() := bound], s.routes,
                   if g.ID() in failed then s.synced else s.synced[g.ID() := bound])
    case UpsertRoute(r, accepted, failed) =>
      if !accepted then s
      else StoreState(RebindGateways(c, s.gateways, r, true), s.routes[r.ID() := r],
                      s.synced + Modified(c, s.gateways, r, true, failed))
    case DeleteRoute(rid, failed) =>
      if rid !in s.routes then s
      else StoreState(RebindGateways(c, s.gateways, s.routes[rid], false), s.routes - {rid},
                      s.synced + Modified(c, s.gateways, s.routes[rid], false, failed))
    case DeleteGateway(gid, cleared) =>
      if gid !in s.gateways || !cleared then s
      else StoreState(s.gateways - {gid}, s.routes, s.synced - {gid})
  }

  lemma {:induction false} ApplyKeepsKeys(c: Cluster, s: StoreState, op: Op)
    requires WellKeyed(s)
    requires op.UpsertGateway? ==> op.gateway.WellFormed()
    ensures WellKeyed(Apply(c, s, op))
  {}

  // ----- Incremental binding equals recomputation ----------------------------------------------

  /** Every listener of g holds exactly the recomputed attachments. */
  ghost predicate BoundFromScratch(c: Cluster, g: Gateway, routes: map<string, Route>)
    requires g.WellFormed()
  {
    forall i | 0 <= i < |g.states| :: g.states[i].routes == Recompute(c, g, i, routes)
  }

  ghost predicate Inv(c: Cluster, s: StoreState) {
    WellKeyed(s) && forall id | id in s.gateways :: BoundFromScratch(c, s.gateways[id], s.routes)
  }

  lemma {:induction false} FreshBindIsFromScratch(c: Cluster, g: Gateway, routes: map<string, Route>)
    requires g.WellFormed() && Fresh(g)
    ensures BoundFromScratch(c, BindEvery(c, g, routes), routes)
  {
    var h := BindEvery(c, g, routes);
    forall i | 0 <= i < |h.states|
      ensures h.states[i].routes == Recompute(c, h, i, routes)
    {
      assert g.states[i].routes == map[];
      assert forall rid | rid in routes :: Attaches(c, h, i, routes[rid]) == Attaches(c, g, i, routes[rid]);
    }
  }

  lemma {:induction false} BindKeepsFromScratch(c: Cluster, g: Gateway, routes: map<string, Route>, r: Route)
    requires g.WellFormed() && BoundFromScratch(c, g, routes)
    ensures BoundFromScratch(c, BindGateway(c, g, r), routes[r.ID() := r])
  {
    var h, routes' := BindGateway(c, g, r), routes[r.ID() := r];
    forall i | 0 <= i < |h.states|
      ensures h.states[i].routes == Recompute(c, h, i, routes')
    {
      assert g.states[i].routes == Recompute(c, g, i, routes);
      assert forall x: Route :: Attaches(c, h, i, x) == Attaches(c, g, i, x);
    }
  }

  lemma {:induction false} UnbindKeepsFromScratch(c: Cluster, g: Gateway, routes: map<string, Route>, r: Route)
    requires g.WellFormed() && BoundFromScratch(c, g, routes)
    ensures BoundFromScratch(c, UnbindGateway(g, r), routes - {r.ID()})
  {
    var h, routes' := UnbindGateway(g, r), routes - {r.ID()};
    forall i | 0 <= i < |h.states|
      ensures h.states[i].routes == Recompute(c, h, i, routes')
    {
      assert g.states[i].routes == Recompute(c, g, i, routes);
      assert forall x: Route :: Attaches(c, h, i, x) == Attaches(c, g, i, x);
    }
  }

  /** Every call keeps the invariant, whatever the adapter does. */
  lemma {:induction false} ApplyKeepsInv(c: Cluster, s: StoreState, op: Op)
    requires Inv(c, s) && Legal(op)
    ensures Inv(c, Apply(c, s, op))
  {
    match op
    case UpsertGateway(g, accepted, failed) =>
      FreshBindIsFromScratch(c, g, s.routes);
    case UpsertRoute(r, accepted, failed) =>
      forall id | id in s.gateways
        ensures BoundFromScratch(c, BindGateway(c, s.gateways[id], r), s.routes[r.ID() := r])
      {
        BindKeepsFromScratch(c, s.gateways[id], s.routes, r);
      }
    case DeleteRoute(rid, failed) =>
      if rid in s.routes {
        forall id | id in s.gateways
          ensures BoundFromScratch(c, UnbindGateway(s.gateways[id], s.routes[rid]), s.routes - {rid})
        {
          UnbindKeepsFromScratch(c, s.gateways[id], s.routes, s.routes[rid]);
        }
      }
    case DeleteGateway(gid, cleared) =>
  }

  /** s' is reached from s by the calls ops. */
  ghost predicate Run(c: Cluster, s: StoreState, ops: seq<Op>, s': StoreState)
    decreases |ops|
  {
    if ops == [] then s' == s
    else WellKeyed(s) && Legal(ops[0]) && Run(c, Apply(c, s, ops[0]), ops[1..], s')
  }

  lemma {:induction false} RunKeepsInv(c: Cluster, s: StoreState, ops: seq<Op>, s': StoreState)
    requires Inv(c, s) && Run(c, s, ops, s')
    ensures Inv(c, s')
    decreases |ops|
  {
    if ops != [] {
      ApplyKeepsInv(c, s, ops[0]);
      RunKeepsInv(c, Apply(c, s, ops[0]), ops[1..], s');
    }
  }

  /**
   * In every state reached from the empty store, whatever the adapter's failures: a route is
   * recorded on a listener exactly when it is stored and belongs there, and what is recorded is the
   * resolution of the route as now stored. Nothing dangles, nothing is missing, nothing is stale.
   */
  lemma {:induction false} IncrementalBindingIsRecomputation(c: Cluster, ops: seq<Op>, s: StoreState, id: GatewayID,
                                                             i: nat, rid: string)
    requires Run(c, EMPTY, ops, s)
    requires id in s.gateways
    requires s.gateways[id].WellFormed() && i < |s.gateways[id].states|
    ensures rid in s.gateways[id].states[i].routes <==>
            rid in s.routes && Attaches(c, s.gateways[id], i, s.routes[rid])
    ensures rid in s.gateways[id].states[i].routes ==>
            s.gateways[id].states[i].routes[rid] ==
            ResolveRoute(s.routes[rid], s.gateways[id].spec, s.gateways[id].spec.listeners[i])
  {
    RunKeepsInv(c, EMPTY, ops, s);
    assert BoundFromScratch(c, s.gateways[id], s.routes);
    assert s.gateways[id].states[i].routes == Recompute(c, s.gateways[id], i, s.routes);
  }

  /** The same by the fields of what is stored. */
  lemma {:induction false} RecordedIffBelongs(c: Cluster, ops: seq<Op>, s: StoreState, id: GatewayID, i: nat,
                                              rid: string)
    requires Run(c, EMPTY, ops, s)
    requires id in s.gateways
    requires s.gateways[id].WellFormed() && i < |s.gateways[id].states|
    ensures rid in s.gateways[id].states[i].routes <==>
            rid in s.routes && BelongsOn(c, s.gateways[id], i, s.routes[rid])
    ensures rid in s.gateways[id].states[i].routes ==>
            RecordedAs(s.gateways[id].states[i].routes[rid], s.routes[rid], s.gateways[id].spec,
                       s.gateways[id].spec.listeners[i])
  {
    IncrementalBindingIsRecomputation(c, ops, s, id, i, rid);
    if rid in s.routes {
      AttachesIffBelongs(c, s.gateways[id], i, s.routes[rid]);
      ResolvedIsRecorded(s.routes[rid], s.gateways[id].spec, s.gateways[id].spec.listeners[i]);
    }
  }

  // ----- What is stored is what was last accepted -----------------------------------------------

  /** The call decides whether, and as what, the route of that identifier is stored. */
  ghost predicate AboutRoute(op: Op, rid: string) {
    (op.UpsertRoute? && op.accepted && op.route.ID() == rid) || (op.DeleteRoute? && op.rid == rid)
  }

  ghost predicate AboutGateway(op: Op, id: GatewayID) {
    (op.UpsertGateway? && op.accepted && op.gateway.ID() == id) || (op.DeleteGateway? && op.cleared && op.gid == id)
  }

  ghost function RouteOps(rid: string): Op -> bool { op => AboutRoute(op, rid) }

  ghost function GatewayOps(id: GatewayID): Op -> bool { op => AboutGateway(op, id) }

  ghost predicate LastAbout(ops: seq<Op>, k: nat, about: Op -> bool) {
    k < |ops| && about(ops[k]) && forall j | k < j < |ops| :: !about(ops[j])
  }

  /** The last one about it is the last of the rest, or the first if the rest has none. */
  lemma {:induction false} LastOfRest(ops: seq<Op>, about: Op -> bool)
    requires ops != []
    ensures forall k: nat | k > 0 :: LastAbout(ops, k, about) <==> LastAbout(ops[1..], k - 1, about)
    ensures (exists k: nat :: LastAbout(ops[1..], k, about)) ==> exists k: nat :: k > 0 && LastAbout(ops, k, about)
    ensures LastAbout(ops, 0, about) <==> about(ops[0]) && forall k: nat :: !LastAbout(ops[1..], k, about)
  {
    var rest := ops[1..];
    forall k: nat | k > 0
      ensures LastAbout(ops, k, about) <==> LastAbout(rest, k - 1, about)
    {
      assert forall j | 0 <= j < |rest| :: rest[j] == ops[j + 1];
    }
    if k: nat :| LastAbout(rest, k, about) {
      assert LastAbout(ops, k + 1, about);
    } else if about(ops[0]) {
      LastExists(rest, about);
      assert forall j | 1 <= j < |ops| :: ops[j] == rest[j - 1];
    }
  }

  lemma {:induction false} LastExists(ops: seq<Op>, about: Op -> bool)
    ensures (exists k: nat :: LastAbout(ops, k, about)) <==> exists k | 0 <= k < |ops| :: about(ops[k])
  {
    if k :| 0 <= k < |ops| && about(ops[k]) {
      var last: nat := k;
      for j := k + 1 to |ops|
        invariant k <= last < j && about(ops[last]) && forall i | last < i < j :: !about(ops[i])
      {
        if about(ops[j]) {
          last := j;
        }
      }
      assert LastAbout(ops, last, about);
    }
  }

  /** The gateway as it was given, apart from the routes bound to it. */
  ghost predicate GivenAs(g: Gateway, given: Gateway) {
    && g.spec == given.spec && |g.states| == |given.states|
    && forall i | 0 <= i < |g.states| :: g.states[i].(routes := map[]) == given.states[i].(routes := map[])
  }

  lemma {:induction false} ApplyStoresRoute(c: Cluster, s: StoreState, op: Op, rid: string)
    requires WellKeyed(s) && Legal(op)
    ensures var routes := Apply(c, s, op).routes;
            && (AboutRoute(op, rid) ==> (rid in routes <==> op.UpsertRoute?))
            && (AboutRoute(op, rid) && op.UpsertRoute? ==> routes[rid] == op.route)
            && (!AboutRoute(op, rid) ==>
                  (rid in routes <==> rid in s.routes) && (rid in routes ==> routes[rid] == s.routes[rid]))
  {}

  lemma {:induction false} ReboundIsGiven(c: Cluster, g: Gateway, r: Route, bind: bool)
    requires g.WellFormed()
    ensures GivenAs(Rebound(c, g, r, bind), g)
  {}

  lemma {:induction false} ApplyStoresGateway(c: Cluster, s: StoreState, op: Op, id: GatewayID)
    requires WellKeyed(s) && Legal(op)
    ensures var gateways := Apply(c, s, op).gateways;
            && (AboutGateway(op, id) ==> (id in gateways <==> op.UpsertGateway?))
            && (AboutGateway(op, id) && op.UpsertGateway? ==> GivenAs(gateways[id], op.gateway))
            && (!AboutGateway(op, id) ==> (id in gateways <==> id in s.gateways))
            && (!AboutGateway(op, id) && id in gateways ==> GivenAs(gateways[id], s.gateways[id]))
  {
    match op
    case UpsertGateway(g, _, _) =>
      assert GivenAs(BindEvery(c, g, s.routes), g);
    case UpsertRoute(r, _, _) =>
      if id in s.gateways { ReboundIsGiven(c, s.gateways[id], r, true); }
    case DeleteRoute(rid, _) =>
      if id in s.gateways && rid in s.routes { ReboundIsGiven(c, s.gateways[id], s.routes[rid], false); }
    case DeleteGateway(_, _) =>
  }

  /**
   * After every run a route is stored exactly if the last call that decided on its identifier, if any, was
   * an accepted upsert, and it is stored as that call gave it.
   */
  lemma {:induction false} StoredRoutesAreTheLast(c: Cluster, s: StoreState, ops: seq<Op>, s': StoreState, rid: string)
    requires WellKeyed(s) && Run(c, s, ops, s')
    ensures forall k: nat | LastAbout(ops, k, RouteOps(rid)) ::
              (rid in s'.routes <==> ops[k].UpsertRoute?) && (rid in s'.routes ==> s'.routes[rid] == ops[k].route)
    ensures (forall k: nat :: !LastAbout(ops, k, RouteOps(rid))) ==>
              (rid in s'.routes <==> rid in s.routes) && (rid in s'.routes ==> s'.routes[rid] == s.routes[rid])
    decreases |ops|
  {
    if ops != [] {
      ApplyKeepsKeys(c, s, ops[0]);
      ApplyStoresRoute(c, s, ops[0], rid);
      StoredRoutesAreTheLast(c, Apply(c, s, ops[0]), ops[1..], s', rid);
      LastOfRest(ops, RouteOps(rid));
    }
  }

  /** The same for gateways, which keep all they were given with but the routes; a Clear that fails deletes none. */
  lemma {:induction false} StoredGatewaysAreTheLast(c: Cluster, s: StoreState, ops: seq<Op>, s': StoreState,
                                                    id: GatewayID)
    requires WellKeyed(s) && Run(c, s, ops, s')
    ensures forall k: nat | LastAbout(ops, k, GatewayOps(id)) ::
              && (id in s'.gateways <==> ops[k].UpsertGateway?)
              && (id in s'.gateways ==> GivenAs(s'.gateways[id], ops[k].gateway))
    ensures (forall k: nat :: !LastAbout(ops, k, GatewayOps(id))) ==>
              && (id in s'.gateways <==> id in s.gateways)
              && (id in s'.gateways ==> GivenAs(s'.gateways[id], s.gateways[id]))
    decreases |ops|
  {
    if ops != [] {
      ApplyKeepsKeys(c, s, ops[0]);
      ApplyStoresGateway(c, s, ops[0], id);
      StoredGatewaysAreTheLast(c, Apply(c, s, ops[0]), ops[1..], s', id);
      LastOfRest(ops, GatewayOps(id));
    }
  }

  ghost function Failing(op: Op): set<GatewayID> {
    if op.DeleteGateway? then {} else op.failed
  }

  /**
   * A gateway whose deployment fails keeps what was synced before; any other that changes is synced as it is
   * now stored; and nothing else is ever synced. A gateway that goes is no longer synced.
   */
  lemma {:induction false} SyncsWhatChanged(c: Cluster, s: StoreState, op: Op, id: GatewayID)
    requires WellKeyed(s) && Legal(op)
    ensures var s' := Apply(c, s, op);
            && (id in s'.gateways && id in Failing(op) ==>
                  (id in s'.synced <==> id in s.synced) && (id in s.synced ==> s'.synced[id] == s.synced[id]))
            && (id in s'.gateways && id !in Failing(op) && (id !in s.gateways || s'.gateways[id] != s.gateways[id]) ==>
                  id in s'.synced && s'.synced[id] == s'.gateways[id])
            && (id in s'.synced ==> (id in s.synced && s'.synced[id] == s.synced[id]) ||
                                    (id in s'.gateways && s'.synced[id] == s'.gateways[id]))
            && (op.DeleteGateway? && op.gid == id && id in s.gateways ==>
                  (id in s'.synced <==> !op.cleared && id in s.synced))
  {
    match op
    case UpsertGateway(_, _, _) =>
    case UpsertRoute(r, _, _) =>
      if id in s.gateways && !Reports(c, s.gateways[id], r, true) { UnreportedIsUnchanged(c, s.gateways[id], r, true); }
    case DeleteRoute(rid, _) =>
      if id in s.gateways && rid in s.routes && !Reports(c, s.gateways[id], s.routes[rid], false) {
        UnreportedIsUnchanged(c, s.gateways[id], s.routes[rid], false);
      }
    case DeleteGateway(_, _) =>
  }

  // ----- Store and adapter never diverge -------------------------------------------------------

  ghost predicate FailureFree(op: Op) {
    match op
    case UpsertGateway(_, _, failed) => failed == {}
    case UpsertRoute(_, _, failed) => failed == {}
    case DeleteRoute(_, failed) => failed == {}
    case DeleteGateway(_, cleared) => cleared
  }

  lemma {:induction false} ApplyKeepsAgreement(c: Cluster, s: StoreState, op: Op)
    requires Inv(c, s) && Legal(op) && FailureFree(op) && s.synced == s.gateways
    ensures Apply(c, s, op).synced == Apply(c, s, op).gateways
  {
    match op
    case UpsertGateway(g, accepted, failed) =>
    case UpsertRoute(r, accepted, failed) =>
      ModifiedSuffice(c, s.gateways, r, true);
    case DeleteRoute(rid, failed) =>
      if rid in s.routes {
        ModifiedSuffice(c, s.gateways, s.routes[rid], false);
      }
    case DeleteGateway(gid, cleared) =>
  }

  lemma {:induction false} RunKeepsAgreement(c: Cluster, s: StoreState, ops: seq<Op>, s': StoreState)
    requires Inv(c, s) && s.synced == s.gateways && Run(c, s, ops, s')
    requires forall k | 0 <= k < |ops| :: FailureFree(ops[k])
    ensures s'.synced == s'.gateways
    decreases |ops|
  {
    if ops != [] {
      ApplyKeepsInv(c, s, ops[0]);
      ApplyKeepsAgreement(c, s, ops[0]);
      RunKeepsAgreement(c, Apply(c, s, ops[0]), ops[1..], s');
    }
  }

  /**
   * After any failure-free run the adapter was last given exactly the stored gateways, although
   * only modified ones are synced, and it holds nothing for any gateway no longer stored.
   */
  lemma {:induction false} StoreAndAdapterNeverDiverge(c: Cluster, ops: seq<Op>, s: StoreState)
    requires Run(c, EMPTY, ops, s)
    requires forall k | 0 <= k < |ops| :: FailureFree(ops[k])
    ensures s.synced == s.gateways
  {
    RunKeepsAgreement(c, EMPTY, ops, s);
  }

  // ----- The last reference decides ------------------------------------------------------------

  /** What should decide: some reference to this gateway may bind on listener i. */
  predicate Asked(c: Cluster, g: Gateway, i: nat, r: Route)
    requires g.WellFormed() && i < |g.states|
  {
    exists k | 0 <= k < |r.parentRefs| ::
      RefNamesGateway(r.parentRefs[k], r.namespace, g.spec) && CanBindAt(c, g, i, r.parentRefs[k], r)
  }

  /** Everything that binding checks and that does not depend on the reference. */
  predicate Admits(c: Cluster, g: Gateway, i: nat, r: Route)
    requires g.WellFormed() && i < |g.states|
  {
    CanBindAt(c, g, i, ParentRef(None, None, None, "", None), r)
  }

  /** Some reference to this gateway names listener i, or names no listener. */
  predicate NamedByRef(g: GatewaySpec, i: nat, r: Route)
    requires i < |g.listeners|
  {
    exists k | 0 <= k < |r.parentRefs| ::
      RefNamesGateway(r.parentRefs[k], r.namespace, g) &&
      MatchesListener(g.listeners[i].name, r.parentRefs[k].sectionName)
  }

  /** The last reference, whichever gateway it is to, names listener i or names no listener. */
  predicate NamedByLast(g: GatewaySpec, i: nat, r: Route)
    requires i < |g.listeners| && r.parentRefs != []
  {
    MatchesListener(g.listeners[i].name, r.parentRefs[|r.parentRefs| - 1].sectionName)
  }

  lemma {:induction false} BindsIffNamed(c: Cluster, g: Gateway, i: nat, ref: ParentRef, r: Route)
    requires g.WellFormed() && i < |g.states|
    ensures CanBindAt(c, g, i, ref, r) <==>
            Admits(c, g, i, r) && MatchesListener(g.spec.listeners[i].name, ref.sectionName)
  {}

  /**
   * Where a route attaches and where it asked to attach differ in exactly two ways, told from the
   * references and the listener's name: a listener that a reference to this gateway names is lost when
   * the last reference names another, and one that no reference to this gateway names is gained when the
   * last reference, to another gateway, names it.
   */
  lemma {:induction false} AttachesAsAskedIff(c: Cluster, g: Gateway, i: nat, r: Route)
    requires g.WellFormed() && i < |g.states|
    ensures Asked(c, g, i, r) && !Attaches(c, g, i, r) <==>
            Admits(c, g, i, r) && NamedByRef(g.spec, i, r) && !NamedByLast(g.spec, i, r)
    ensures Attaches(c, g, i, r) && !Asked(c, g, i, r) <==>
            Admits(c, g, i, r) && ReferencesGateway(r, g.spec) && !NamedByRef(g.spec, i, r) && NamedByLast(g.spec, i, r)
  {
    forall k | 0 <= k < |r.parentRefs|
      ensures CanBindAt(c, g, i, r.parentRefs[k], r) <==>
              Admits(c, g, i, r) && MatchesListener(g.spec.listeners[i].name, r.parentRefs[k].sectionName)
    {
      BindsIffNamed(c, g, i, r.parentRefs[k], r);
    }
  }

  /** A route with a single reference attaches exactly where it asked to. */
  lemma {:induction false} SingleReferenceAsAsked(c: Cluster, g: Gateway, i: nat, r: Route)
    requires g.WellFormed() && i < |g.states| && |r.parentRefs| == 1
    ensures Attaches(c, g, i, r) <==> Asked(c, g, i, r)
  {
    AttachesAsAskedIff(c, g, i, r);
    assert NamedByRef(g.spec, i, r) ==> NamedByLast(g.spec, i, r);
    assert ReferencesGateway(r, g.spec) && NamedByLast(g.spec, i, r) ==> NamedByRef(g.spec, i, r) by {
      if ReferencesGateway(r, g.spec) {
        assert RefNamesGateway(r.parentRefs[0], r.namespace, g.spec);
      }
    }
  }

  function TwoListeners(): Gateway {
    var a := Listener("a", None, 80, TCP, None, None);
    var b := Listener("b", None, 81, TCP, None, None);
    Gateway(GatewaySpec("ns", "gw", "", [], [a, b], None), [InitialListenerState(a), InitialListenerState(b)])
  }

  function RouteTo(first: ParentRef, second: ParentRef): Route {
    Route(GATEWAY_GROUP, "TCPRoute", "ns", "r", [first, second], TCPSpec(ResolvedService("", "s")), false)
  }

  lemma {:induction false} BothListenersAdmit(c: Cluster, first: ParentRef, second: ParentRef)
    ensures Admits(c, TwoListeners(), 0, RouteTo(first, second)) && Admits(c, TwoListeners(), 1, RouteTo(first, second))
  {
    var r, kinds := RouteTo(first, second), SupportedKindsFor(TCP).value;
    assert kinds[0].kind == r.kind;
    assert KindAllowed(SupportedKindsFor(TCP), r);
  }

  /** Two references naming two listeners of one gateway: the route is kept only on the second. */
  lemma {:induction false} EarlierSectionIsLost(c: Cluster)
    ensures var r := RouteTo(ParentRef(None, None, None, "gw", Some("a")),
                             ParentRef(None, None, None, "gw", Some("b")));
            Asked(c, TwoListeners(), 0, r) && !Attaches(c, TwoListeners(), 0, r)
  {
    var g, toA := TwoListeners(), ParentRef(None, None, None, "gw", Some("a"));
    var toB := ParentRef(None, None, None, "gw", Some("b"));
    var r := RouteTo(toA, toB);
    BothListenersAdmit(c, toA, toB);
    assert RefNamesGateway(r.parentRefs[0], r.namespace, g.spec);
    assert "a"[0] != "b"[0];
    AttachesAsAskedIff(c, g, 0, r);
  }

  /** A reference to another gateway, coming last, attaches the route to a listener nobody asked for. */
  lemma {:induction false} ForeignSectionIsGained(c: Cluster)
    ensures var r := RouteTo(ParentRef(None, None, None, "gw", Some("a")),
                             ParentRef(None, None, None, "other", Some("b")));
            Attaches(c, TwoListeners(), 1, r) && !Asked(c, TwoListeners(), 1, r)
  {
    var g, toA := TwoListeners(), ParentRef(None, None, None, "gw", Some("a"));
    var toB := ParentRef(None, None, None, "other", Some("b"));
    var r := RouteTo(toA, toB);
    BothListenersAdmit(c, toA, toB);
    assert RefNamesGateway(r.parentRefs[0], r.namespace, g.spec);
    assert "a"[0] != "b"[0] && |"other"| != |"gw"|;
    assert !RefNamesGateway(r.parentRefs[1], r.namespace, g.spec);
    AttachesAsAskedIff(c, g, 1, r);
  }
}
