// Only ready listeners reach Consul: validation, binding, the store, resolution and the computation of
// config entries taken together (validator/gateway.go, binder.go, store.go, gateway.go, consul/sync.go).

module Readiness {
  import opened Wrappers
  import opened Core
  import opened ConsulEntries
  import opened ChainSpec
  import opened Gateways
  import opened Binder
  import opened StoreSpec
  import opened Validator
  import DC = DiscoveryChain
  import SyncAdapter

  /** Validated against one of the states the cluster has been in; the cluster may change between calls. */
  ghost predicate ValidatedIn(envs: seq<Env>, g: Gateway) {
    exists k | 0 <= k < |envs| :: Validated(envs[k], g)
  }

  /** Routes are bound only to listeners without a Ready error. */
  ghost predicate OnlyReadyBound(g: Gateway) {
    forall i | 0 <= i < |g.states| && g.states[i].routes != map[] :: !g.states[i].status.ReadyHasError()
  }

  ghost predicate Sound(envs: seq<Env>, g: Gateway) {
    g.WellFormed() && ValidatedIn(envs, g) && OnlyReadyBound(g)
  }

  // ----- Binding changes nothing but the routes ------------------------------------------------------------

  ghost predicate SameButRoutes(g: Gateway, h: Gateway) {
    && g.spec == h.spec && |g.states| == |h.states|
    && forall i | 0 <= i < |g.states| :: g.states[i].(routes := map[]) == h.states[i].(routes := map[])
  }

  lemma {:induction false} ValidationIgnoresRoutes(envs: seq<Env>, g: Gateway, h: Gateway)
    requires ValidatedIn(envs, g) && SameButRoutes(g, h) && h.WellFormed()
    ensures ValidatedIn(envs, h)
  {
    var k :| 0 <= k < |envs| && Validated(envs[k], g);
    forall i | 0 <= i < |h.states|
      ensures ValidatedAt(envs[k], h.spec, i, h.states[i])
    {
      assert ValidatedAt(envs[k], g.spec, i, g.states[i]);
      assert g.states[i].(routes := map[]) == h.states[i].(routes := map[]);
    }
    assert Validated(envs[k], h);
  }

  lemma {:induction false} BindEveryKeepsSound(c: Cluster, envs: seq<Env>, g: Gateway, routes: map<string, Route>)
    requires Sound(envs, g)
    ensures Sound(envs, BindEvery(c, g, routes))
  {
    var h := BindEvery(c, g, routes);
    ValidationIgnoresRoutes(envs, g, h);
    forall i | 0 <= i < |h.states| && h.states[i].routes != map[]
      ensures !h.states[i].status.ReadyHasError()
    {
      if g.states[i].routes == map[] {
        assert g.states[i].routes - routes.Keys == map[];
        var rid :| rid in Recompute(c, g, i, routes);
        assert Attaches(c, g, i, routes[rid]);
      }
    }
  }

  lemma {:induction false} ReboundKeepsSound(c: Cluster, envs: seq<Env>, g: Gateway, r: Route, bind: bool)
    requires Sound(envs, g)
    ensures Sound(envs, Rebound(c, g, r, bind))
  {
    var h := Rebound(c, g, r, bind);
    ValidationIgnoresRoutes(envs, g, h);
    forall i | 0 <= i < |h.states| && g.states[i].routes == map[] && !(bind && Attaches(c, g, i, r))
      ensures h.states[i].routes == map[]
    {
      assert h.states[i].routes == g.states[i].routes - {r.ID()};
    }
  }

  // ----- Every run --------------------------------------------------------------------------------------------

  ghost predicate AllSound(envs: seq<Env>, s: StoreState) {
    && (forall id | id in s.gateways :: Sound(envs, s.gateways[id]))
    && (forall id | id in s.synced :: Sound(envs, s.synced[id]))
  }

  /** Gateways are stored as validation produced them. */
  ghost predicate FromValidation(envs: seq<Env>, op: Op) {
    op.UpsertGateway? ==> ValidatedIn(envs, op.gateway)
  }

  lemma {:induction false} ApplyKeepsSound(c: Cluster, envs: seq<Env>, s: StoreState, op: Op)
    requires WellKeyed(s) && Legal(op) && AllSound(envs, s) && FromValidation(envs, op)
    ensures AllSound(envs, Apply(c, s, op))
  {
    match op
    case UpsertGateway(g, accepted, failed) =>
      BindEveryKeepsSound(c, envs, g, s.routes);
    case UpsertRoute(r, accepted, failed) =>
      forall id | id in s.gateways
        ensures Sound(envs, Rebound(c, s.gateways[id], r, true))
      {
        ReboundKeepsSound(c, envs, s.gateways[id], r, true);
      }
    case DeleteRoute(rid, failed) =>
      if rid in s.routes {
        forall id | id in s.gateways
          ensures Sound(envs, Rebound(c, s.gateways[id], s.routes[rid], false))
        {
          ReboundKeepsSound(c, envs, s.gateways[id], s.routes[rid], false);
        }
      }
    case DeleteGateway(gid, cleared) =>
  }

  lemma {:induction false} RunKeepsSound(c: Cluster, envs: seq<Env>, s: StoreState, ops: seq<Op>, s': StoreState)
    requires Run(c, s, ops, s') && AllSound(envs, s)
    requires forall k | 0 <= k < |ops| :: FromValidation(envs, ops[k])
    ensures AllSound(envs, s')
    decreases |ops|
  {
    if ops != [] {
      ApplyKeepsSound(c, envs, s, ops[0]);
      RunKeepsSound(c, envs, Apply(c, s, ops[0]), ops[1..], s');
    }
  }

  // ----- From the store to Consul -------------------------------------------------------------------------------

  /**
   * The ingress listener il is that of listener i of g, which is in order and in no conflict; il carries
   * a certificate exactly if the listener asks for one, namely its first, which is a secret the gateway
   * may refer to and is then allowed to fetch.
   */
  ghost predicate ReadySource(v: Env, g: Gateway, i: nat, il: IngressListener)
    requires g.WellFormed()
  {
    && i < |g.states|
    && var l := g.spec.listeners[i];
    && !g.states[i].status.ReadyHasError() && g.states[i].Valid()
    && !ProtocolsClash(g.spec.listeners, i) && !HostnamesClash(g.spec.listeners, i)
    && InOrder(v, g.spec, l, OptionsOf(l))
    && il.port == l.port && il.protocol == ProtocolToConsul(l.protocol).0
    && (l.tls.None? ==> il.tls.certResource == None && !ProtocolToConsul(l.protocol).1)
    && (l.tls.Some? ==> CarriesCertificate(v, g, l.tls.value, il))
  }

  ghost predicate CarriesCertificate(v: Env, g: Gateway, tls: ListenerTLS, il: IngressListener) {
    && tls.certificateRefs != []
    && var ref := tls.certificateRefs[0];
    && il.tls.certResource == Some(CertificateName(v, g.spec, ref))
    && CertificateUsable(v, g.spec, ref)
    && Carries(g.states, CertificateName(v, g.spec, ref))
  }

  lemma {:induction false} TcpRoutesAreRoutes(routes: seq<ResolvedRoute>)
    ensures DC.TcpRoutes(routes) != [] ==> routes != []
  {}

  /** A listener that is emitted has a bound route. */
  lemma {:induction false} EmittedHasRoutes(rl: ResolvedListener, l: Listener, st: ListenerState)
    requires ResolvesListener(rl, l, st) && DC.Serves(rl)
    ensures st.routes != map[]
  {
    TcpRoutesAreRoutes(rl.routes);
    assert rl.routes != [];
    var order: seq<string> :| EnumeratesIn(rl.routes, st.routes, order);
    assert order[0] in st.routes;
  }

  lemma {:induction false} EmittedIsReady(v: Env, g: Gateway, i: nat, rl: ResolvedListener, il: IngressListener)
    requires Validated(v, g) && OnlyReadyBound(g) && i < |g.states| && g.states[i].Valid()
    requires ResolvesListener(rl, g.spec.listeners[i], g.states[i]) && DC.Serves(rl)
    requires il.port == rl.port && il.protocol == rl.protocol && il.tls == DC.IngressTLS(rl.tls)
    ensures ReadySource(v, g, i, il)
  {
    EmittedHasRoutes(rl, g.spec.listeners[i], g.states[i]);
    ReadyListeners(v, g, i);
    var l := g.spec.listeners[i];
    if l.tls.Some? {
      assert TlsAcceptable(v, g.spec, l, OptionsOf(l));
      assert CertificateName(v, g.spec, l.tls.value.certificateRefs[0]) in g.states[i].tls.certificates;
    }
  }

  /** Every ingress listener of what is computed for a sound gateway has a ready source. */
  lemma {:induction false} SoundGatewaysEmitReady(envs: seq<Env>, g: Gateway, rg: ResolvedGateway, e: Computed,
                                                  crc: string -> nat, j: nat)
    returns (k: nat, i: nat)
    requires Sound(envs, g) && Resolves(rg, g) && SyncAdapter.ComputedBy(e, rg, crc) && j < |e.ingress.listeners|
    ensures k < |envs| && Validated(envs[k], g) && ReadySource(envs[k], g, i, e.ingress.listeners[j])
  {
    var list: seq<ResolvedRoute>, origins: seq<Origin>, from: seq<nat> :|
      SyncAdapter.ComputedAs(e, rg, crc, list, origins, from);
    k :| 0 <= k < |envs| && Validated(envs[k], g);
    var valid := ValidBelow(g, |g.states|);
    i := valid[from[j]];
    EmittedIsReady(envs[k], g, i, rg.listeners[from[j]], e.ingress.listeners[j]);
  }

  /**
   * In every run, and however the cluster changes along it: each listener of an ingress gateway entry
   * computed from what was last synced stems from a listener that is ready, and carries its certificate.
   */
  lemma {:induction false} OnlyReadyListenersReachConsul(c: Cluster, envs: seq<Env>, ops: seq<Op>, s: StoreState,
                                                         id: GatewayID, rg: ResolvedGateway, e: Computed,
                                                         crc: string -> nat, j: nat)
    requires Run(c, EMPTY, ops, s) && forall k | 0 <= k < |ops| :: FromValidation(envs, ops[k])
    requires id in s.synced && s.synced[id].WellFormed() && Resolves(rg, s.synced[id])
    requires SyncAdapter.ComputedBy(e, rg, crc) && j < |e.ingress.listeners|
    ensures exists k, i: nat :: 0 <= k < |envs| && ReadySource(envs[k], s.synced[id], i, e.ingress.listeners[j])
  {
    RunKeepsSound(c, envs, EMPTY, ops, s);
    var k, i := SoundGatewaysEmitReady(envs, s.synced[id], rg, e, crc, j);
  }

  /** Ingress listeners that share a port share its protocol. */
  lemma {:induction false} OneProtocolPerPort(c: Cluster, envs: seq<Env>, ops: seq<Op>, s: StoreState, id: GatewayID,
                           rg: ResolvedGateway, e: Computed, crc: string -> nat, j: nat, j': nat)
    requires Run(c, EMPTY, ops, s) && forall k | 0 <= k < |ops| :: FromValidation(envs, ops[k])
    requires id in s.synced && s.synced[id].WellFormed() && Resolves(rg, s.synced[id])
    requires SyncAdapter.ComputedBy(e, rg, crc) && j < |e.ingress.listeners| && j' < |e.ingress.listeners|
    requires e.ingress.listeners[j].port == e.ingress.listeners[j'].port
    ensures e.ingress.listeners[j].protocol == e.ingress.listeners[j'].protocol
  {
    RunKeepsSound(c, envs, EMPTY, ops, s);
    var k, i := SoundGatewaysEmitReady(envs, s.synced[id], rg, e, crc, j);
    var k', i' := SoundGatewaysEmitReady(envs, s.synced[id], rg, e, crc, j');
    ValidListenersShareTheirPort(envs[k], s.synced[id], i, i');
  }
}
