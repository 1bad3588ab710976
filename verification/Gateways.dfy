// Kubernetes gateways and routes as the reconciler sees them: specifications, listener state,
// and the conversion of a bound route into its resolved form
// (internal/k8s/reconciler/gateway.go, route.go, state/gateway.go, converter/).

module Gateways {
  import opened Wrappers
  import opened Core
  import opened Hostnames

  const GATEWAY_GROUP := "gateway.networking.k8s.io"

  datatype NamespacedName = NamespacedName(namespace: string, name: string)

  datatype Protocol = HTTP | HTTPS | TCP | TLS | UDP | OtherProtocol(proto: string)

  datatype RouteGroupKind = RouteGroupKind(group: Option<string>, kind: string)

  // ----- Listener specifications ------------------------------------------------------------

  datatype Requirement =
    | In(key: string, values: set<string>)
    | NotIn(key: string, values: set<string>)
    | Exists(key: string)
    | DoesNotExist(key: string)

  datatype Selector = NilSelector | MalformedSelector | Requirements(reqs: seq<Requirement>)

  /** The From field is a string; absent or empty means "Same". */
  datatype RouteNamespaces = RouteNamespaces(from: Option<string>, selector: Selector)

  datatype AllowedRoutes = AllowedRoutes(namespaces: Option<RouteNamespaces>, kinds: seq<RouteGroupKind>)

  datatype SecretRef = SecretRef(group: Option<string>, kind: Option<string>,
                                 namespace: Option<string>, name: string)

  datatype ListenerTLS = ListenerTLS(passthrough: bool, certificateRefs: seq<SecretRef>,
                                     options: map<string, string>)

  datatype Listener = Listener(name: string, hostname: Option<string>, port: int, protocol: Protocol,
                               allowedRoutes: Option<AllowedRoutes>, tls: Option<ListenerTLS>)

  // ----- Listener state ---------------------------------------------------------------------

  /** Each flag says that the error of that name is set. */
  datatype ListenerStatus = ListenerStatus(
    hostnameConflict: bool, protocolConflict: bool, routeConflict: bool,
    unsupportedProtocol: bool, unsupportedAddress: bool,
    invalidCertificateRef: bool, invalidRouteKinds: bool, refNotPermitted: bool,
    readyInvalid: bool, readyPending: bool)
  {
    predicate Valid() {
      && !hostnameConflict && !protocolConflict && !routeConflict
      && !unsupportedProtocol && !unsupportedAddress
      && !invalidCertificateRef && !invalidRouteKinds && !refNotPermitted
    }
    predicate ReadyHasError() {
      readyInvalid || readyPending
    }
  }

  const CLEAR_STATUS :=
    ListenerStatus(false, false, false, false, false, false, false, false, false, false)

  datatype ListenerState = ListenerState(routes: map<string, ResolvedRoute>, protocol: Protocol,
                                         name: string, tls: TLSParams, status: ListenerStatus)
  {
    /** A TCP listener with more than one bound route is not valid. */
    predicate Valid() {
      !(protocol == TCP && |routes| > 1) && status.Valid()
    }
  }

  // ----- Gateways ---------------------------------------------------------------------------

  datatype GatewaySpec = GatewaySpec(namespace: string, name: string, consulNamespace: string,
                                     addresses: seq<string>, listeners: seq<Listener>,
                                     maxConnections: Option<int>)
  {
    function ID(): GatewayID { GatewayID(consulNamespace, name) }
    function Name(): NamespacedName { NamespacedName(namespace, name) }
  }

  /** The stored form of a gateway: its specification and one state per listener. */
  datatype Gateway = Gateway(spec: GatewaySpec, states: seq<ListenerState>)
  {
    predicate WellFormed() { |states| == |spec.listeners| }
    function ID(): GatewayID { spec.ID() }
  }

  function InitialListenerState(l: Listener): ListenerState {
    ListenerState(map[], l.protocol, l.name, NO_TLS, CLEAR_STATUS)
  }

  /** No route is recorded as bound yet, as in a state the validator has just produced. */
  predicate Fresh(g: Gateway) {
    forall i | 0 <= i < |g.states| :: g.states[i].routes == map[]
  }

  // ----- Routes -----------------------------------------------------------------------------

  datatype ParentRef = ParentRef(group: Option<string>, kind: Option<string>, namespace: Option<string>,
                                 name: string, sectionName: Option<string>)

  datatype RouteSpec =
    | HTTPSpec(hostnames: seq<string>, rules: seq<HTTPRouteRule>)
    | TCPSpec(service: ResolvedService)

  datatype Route = Route(group: string, kind: string, namespace: string, name: string,
                         parentRefs: seq<ParentRef>, spec: RouteSpec, resolutionErrors: bool)
  {
    function ID(): string {
      (if spec.HTTPSpec? then "http-" else "tcp-") + namespace + "/" + name
    }
    predicate MatchesHostname(hostname: Option<string>) {
      spec.HTTPSpec? ==> RouteMatchesListenerHostname(hostname, spec.hostnames)
    }
  }

  function ListenerHostname(l: Listener): string {
    if l.hostname.Some? then l.hostname.value else ""
  }

  function ListenerName(l: Listener): string {
    if l.name != "" then l.name else "default"
  }

  function RouteMeta(r: Route, g: GatewaySpec): Meta {
    var kind := if r.spec.HTTPSpec? then "HTTPRoute" else "TCPRoute";
    map["external-source" := "consul-api-gateway",
        "consul-api-gateway/k8s/Gateway.Name" := g.name,
        "consul-api-gateway/k8s/Gateway.Namespace" := g.namespace,
        "consul-api-gateway/k8s/" + kind + ".Name" := r.name,
        "consul-api-gateway/k8s/" + kind + ".Namespace" := r.namespace]
  }

  /** A route without hostnames takes the listener's, or "*" when the listener has none. */
  function ResolvedHostnames(hostnames: seq<string>, l: Listener): (hosts: seq<string>)
    ensures hosts != []
  {
    if hostnames != [] then hostnames
    else if ListenerHostname(l) == "" then ["*"]
    else [ListenerHostname(l)]
  }

  function ResolveRoute(r: Route, g: GatewaySpec, l: Listener): ResolvedRoute {
    match r.spec
    case HTTPSpec(hostnames, rules) =>
      HTTPRoute(RouteMeta(r, g), "consul-api-gateway_" + g.name + "_" + r.name, g.consulNamespace,
                ResolvedHostnames(hostnames, l), rules)
    case TCPSpec(service) =>
      TCPRoute(RouteMeta(r, g), r.name, g.consulNamespace, service)
  }

  // ----- Resolving a gateway ----------------------------------------------------------------

  /** Protocol name for Consul and whether the protocol demands TLS. */
  function ProtocolToConsul(p: Protocol): (string, bool) {
    match p
    case TCP => ("tcp", false)
    case TLS => ("tcp", true)
    case HTTP => ("http", false)
    case HTTPS => ("http", true)
    case _ => ("", false)
  }

  function GatewayMeta(g: GatewaySpec): Meta {
    map["external-source" := "consul-api-gateway",
        "consul-api-gateway/k8s/Gateway.Name" := g.name,
        "consul-api-gateway/k8s/Gateway.Namespace" := g.namespace]
  }

  /** s lists the values of m, each key once, in some order. */
  ghost predicate Enumerates<K(!new), V>(s: seq<V>, m: map<K, V>) {
    exists order: seq<K> :: EnumeratesIn(s, m, order)
  }

  ghost predicate EnumeratesIn<K, V>(s: seq<V>, m: map<K, V>, order: seq<K>) {
    && |order| == |s|
    && (forall i | 0 <= i < |order| :: order[i] in m && m[order[i]] == s[i])
    && (forall i, j | 0 <= i < j < |order| :: order[i] != order[j])
    && (forall k | k in m :: k in order)
  }

  /** rl is the resolved form of the listener l in state st, for some order of the bound routes. */
  ghost predicate ResolvesListener(rl: ResolvedListener, l: Listener, st: ListenerState) {
    && rl.name == ListenerName(l)
    && rl.hostname == ListenerHostname(l)
    && rl.port == l.port
    && rl.protocol == ProtocolToConsul(st.protocol).0
    && rl.tls == st.tls
    && Enumerates(rl.routes, st.routes)
  }

  /** The listeners below index n whose state is valid, in order. */
  function ValidBelow(g: Gateway, n: nat): (r: seq<nat>)
    requires g.WellFormed() && n <= |g.states|
    ensures forall k | 0 <= k < |r| :: r[k] < n && g.states[r[k]].Valid()
    ensures forall i | 0 <= i < n && g.states[i].Valid() :: i in r
    ensures forall j, k | 0 <= j < k < |r| :: r[j] < r[k]
  {
    if n == 0 then []
    else if g.states[n - 1].Valid() then ValidBelow(g, n - 1) + [n - 1]
    else ValidBelow(g, n - 1)
  }

  /** rg is a result of resolving g: exactly its valid listeners, in order. */
  ghost predicate Resolves(rg: ResolvedGateway, g: Gateway)
    requires g.WellFormed()
  {
    var valid := ValidBelow(g, |g.states|);
    && rg.id == g.ID()
    && rg.meta == GatewayMeta(g.spec)
    && rg.maxConnections == g.spec.maxConnections
    && |rg.listeners| == |valid|
    && forall k | 0 <= k < |valid| ::
        ResolvesListener(rg.listeners[k], g.spec.listeners[valid[k]], g.states[valid[k]])
  }

  /** Lists the values of a map by visiting its keys in an arbitrary order. */
  method MapValues<K(==,!new), V>(m: map<K, V>) returns (s: seq<V>)
    ensures Enumerates(s, m)
  {
    s := [];
    var order: seq<K> := [];
    var rest := m.Keys;
    while rest != {}
      invariant rest <= m.Keys
      invariant |order| == |s|
      invariant forall i | 0 <= i < |order| :: order[i] in m && order[i] !in rest && m[order[i]] == s[i]
      invariant forall i, j | 0 <= i < j < |order| :: order[i] != order[j]
      invariant forall k | k in m && k !in rest :: k in order
      decreases rest
    {
      var k :| k in rest;
      s := s + [m[k]];
      order := order + [k];
      rest := rest - {k};
    }
    assert EnumeratesIn(s, m, order);
  }
}
