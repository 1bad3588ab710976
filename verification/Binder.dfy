// Binding routes to the listeners of a gateway (internal/k8s/reconciler/binder.go) and the
// gateway object whose listener states binding updates (internal/k8s/reconciler/gateway.go).

module Binder {
  import opened Wrappers
  import opened Core
  import opened Gateways
  import opened Hostnames

  const NAMESPACE_NAME_LABEL := "kubernetes.io/metadata.name"

  /** The part of the cluster that binding consults: the labels of each existing namespace. */
  datatype Cluster = Cluster(namespaceLabels: map<string, map<string, string>>)

  // ----- May a route bind to a listener through a parent reference? --------------------------

  function SupportedKindsFor(p: Protocol): Option<seq<RouteGroupKind>> {
    match p
    case HTTP => Some([RouteGroupKind(Some(GATEWAY_GROUP), "HTTPRoute")])
    case HTTPS => Some([RouteGroupKind(Some(GATEWAY_GROUP), "HTTPRoute")])
    case TCP => Some([RouteGroupKind(Some(GATEWAY_GROUP), "TCPRoute")])
    case _ => None
  }

  predicate KindAllowed(kinds: Option<seq<RouteGroupKind>>, r: Route) {
    kinds.Some? ==>
      exists i | 0 <= i < |kinds.value| ::
        var k := kinds.value[i];
        var group := if k.group.Some? && k.group.value != "" then k.group.value else GATEWAY_GROUP;
        k.kind == r.kind && group == r.group
  }

  predicate Satisfies(req: Requirement, labels: map<string, string>) {
    match req
    case In(key, values) => key in labels && labels[key] in values
    case NotIn(key, values) => key !in labels || labels[key] !in values
    case Exists(key) => key in labels
    case DoesNotExist(key) => key !in labels
  }

  /** The namespace's labels, with the name label implicitly present. */
  function NamespaceSet(name: string, labels: map<string, string>): map<string, string> {
    labels[NAMESPACE_NAME_LABEL := name]
  }

  /** A malformed selector and a failed namespace lookup are errors, which do not allow the route. */
  predicate SelectorAllows(c: Cluster, s: Selector, namespace: string) {
    && s.Requirements?
    && namespace in c.namespaceLabels
    && forall i | 0 <= i < |s.reqs| ::
         Satisfies(s.reqs[i], NamespaceSet(namespace, c.namespaceLabels[namespace]))
  }

  predicate AllowedForNamespaces(c: Cluster, gatewayNS: string, allowed: Option<AllowedRoutes>, r: Route) {
    var ns := if allowed.Some? then allowed.value.namespaces else None;
    var from := if ns.Some? && ns.value.from.Some? && ns.value.from.value != "" then ns.value.from.value else "Same";
    if from == "All" then true
    else if from == "Same" then gatewayNS == r.namespace
    else if from == "Selector" && ns.Some? then SelectorAllows(c, ns.value.selector, r.namespace)
    else false
  }

  predicate MatchesListener(listenerName: string, sectionName: Option<string>) {
    sectionName.None? || listenerName == sectionName.value
  }

  /** The boolean that canBind computes; it reads nothing that binding changes. */
  predicate CanBind(c: Cluster, gatewayNS: string, l: Listener, status: ListenerStatus, ref: ParentRef, r: Route) {
    && !status.ReadyHasError()
    && MatchesListener(l.name, ref.sectionName)
    && KindAllowed(SupportedKindsFor(l.protocol), r)
    && AllowedForNamespaces(c, gatewayNS, l.allowedRoutes, r)
    && r.MatchesHostname(l.hostname)
    && !r.resolutionErrors
  }

  predicate RefNamesGateway(ref: ParentRef, routeNS: string, g: GatewaySpec) {
    && (ref.group.Some? ==> ref.group.value == GATEWAY_GROUP)
    && (ref.kind.Some? ==> ref.kind.value == "Gateway")
    && (if ref.namespace.Some? then ref.namespace.value else routeNS) == g.namespace
    && ref.name == g.name
  }

  predicate ReferencesGateway(r: Route, g: GatewaySpec) {
    exists i | 0 <= i < |r.parentRefs| :: RefNamesGateway(r.parentRefs[i], r.namespace, g)
  }

  // ----- What binding amounts to, listener by listener ---------------------------------------

  /** Whether ref alone lets r bind to listener i. */
  predicate CanBindAt(c: Cluster, g: Gateway, i: nat, ref: ParentRef, r: Route)
    requires g.WellFormed() && i < |g.states|
  {
    CanBind(c, g.spec.namespace, g.spec.listeners[i], g.states[i].status, ref, r)
  }

  /** The route belongs on listener i: it names the gateway and its last reference may bind there. */
  predicate Attaches(c: Cluster, g: Gateway, i: nat, r: Route)
    requires g.WellFormed() && i < |g.states|
  {
    ReferencesGateway(r, g.spec) && CanBindAt(c, g, i, r.parentRefs[|r.parentRefs| - 1], r)
  }

  function WithRoute(g: Gateway, i: nat, r: Route): ListenerState
    requires g.WellFormed() && i < |g.states|
  {
    var st := g.states[i];
    st.(routes := st.routes[r.ID() := ResolveRoute(r, g.spec, g.spec.listeners[i])])
  }

  function WithoutRoute(g: Gateway, i: nat, r: Route): ListenerState
    requires g.WellFormed() && i < |g.states|
  {
    var st := g.states[i];
    st.(routes := st.routes - {r.ID()})
  }

  function UnbindGateway(g: Gateway, r: Route): (g': Gateway)
    requires g.WellFormed()
    ensures g'.WellFormed() && g'.spec == g.spec
  {
    Gateway(g.spec, seq(|g.states|, i requires 0 <= i < |g.states| => WithoutRoute(g, i, r)))
  }

  /** Each listener ends up with the route exactly when the route belongs on it. */
  function BindGateway(c: Cluster, g: Gateway, r: Route): (g': Gateway)
    requires g.WellFormed()
    ensures g'.WellFormed() && g'.spec == g.spec
  {
    Gateway(g.spec, seq(|g.states|, i requires 0 <= i < |g.states| =>
                          if Attaches(c, g, i, r) then WithRoute(g, i, r) else WithoutRoute(g, i, r)))
  }

  /** r is recorded on some listener of g. */
  predicate Recorded(g: Gateway, r: Route) {
    exists i | 0 <= i < |g.states| :: r.ID() in g.states[i].routes
  }

  /** Some reference lets r bind somewhere on g, whether or not a later reference undoes it. */
  predicate SomeRefBinds(c: Cluster, g: Gateway, r: Route)
    requires g.WellFormed()
  {
    exists k, i | 0 <= k < |r.parentRefs| && 0 <= i < |g.states| :: CanBindAt(c, g, i, r.parentRefs[k], r)
  }

  // ----- The same, by the fields of gateway, listener and route ------------------------------

  /** The listener's policy on namespaces is given, and reads text. */
  predicate Says(l: Listener, text: string) {
    && l.allowedRoutes.Some? && l.allowedRoutes.value.namespaces.Some?
    && l.allowedRoutes.value.namespaces.value.from == Some(text)
  }

  /** It is absent, or absent at some level, or empty. */
  predicate SaysNothing(l: Listener) {
    || l.allowedRoutes.None? || l.allowedRoutes.value.namespaces.None?
    || l.allowedRoutes.value.namespaces.value.from.None? || l.allowedRoutes.value.namespaces.value.from == Some("")
  }

  /** A namespace with these labels has the value v for key; every namespace is labelled with its name. */
  predicate Labelled(namespace: string, labels: map<string, string>, key: string, v: string) {
    if key == "kubernetes.io/metadata.name" then v == namespace else key in labels && labels[key] == v
  }

  ghost predicate Meets(req: Requirement, namespace: string, labels: map<string, string>) {
    match req
    case In(key, values) => exists v | v in values :: Labelled(namespace, labels, key, v)
    case NotIn(key, values) => forall v | v in values :: !Labelled(namespace, labels, key, v)
    case Exists(key) => exists v: string :: Labelled(namespace, labels, key, v)
    case DoesNotExist(key) => forall v: string :: !Labelled(namespace, labels, key, v)
  }

  /** The namespace is known, and meets every requirement of the selector. */
  ghost predicate Selected(c: Cluster, s: Selector, namespace: string) {
    && s.Requirements? && namespace in c.namespaceLabels
    && forall req | req in s.reqs :: Meets(req, namespace, c.namespaceLabels[namespace])
  }

  /** The listener takes routes from the namespace. */
  ghost predicate NamespaceFits(c: Cluster, g: GatewaySpec, l: Listener, namespace: string) {
    || Says(l, "All")
    || ((SaysNothing(l) || Says(l, "Same")) && namespace == g.namespace)
    || (Says(l, "Selector") && Selected(c, l.allowedRoutes.value.namespaces.value.selector, namespace))
  }

  /** HTTP listeners take HTTP routes, TCP listeners TCP routes; other protocols do not choose. */
  predicate KindFits(l: Listener, r: Route) {
    && (l.protocol.HTTP? || l.protocol.HTTPS? ==> r.group == "gateway.networking.k8s.io" && r.kind == "HTTPRoute")
    && (l.protocol.TCP? ==> r.group == "gateway.networking.k8s.io" && r.kind == "TCPRoute")
  }

  /** Some hostname of an HTTP route shares a host with the listener's, where both name any. */
  ghost predicate HostFits(l: Listener, r: Route) {
    r.spec.TCPSpec? || l.hostname.None? || r.spec.hostnames == [] ||
    exists i | 0 <= i < |r.spec.hostnames| :: Overlap(r.spec.hostnames[i], l.hostname.value)
  }

  predicate PointsAt(ref: ParentRef, r: Route, g: GatewaySpec) {
    && ref.name == g.name
    && (ref.namespace == Some(g.namespace) || (ref.namespace.None? && r.namespace == g.namespace))
    && (ref.group.None? || ref.group == Some("gateway.networking.k8s.io"))
    && (ref.kind.None? || ref.kind == Some("Gateway"))
  }

  /** All that a route must meet to be recorded on listener i. */
  ghost predicate BelongsOn(c: Cluster, g: Gateway, i: nat, r: Route)
    requires g.WellFormed() && i < |g.states|
  {
    var l, status := g.spec.listeners[i], g.states[i].status;
    && (exists k | 0 <= k < |r.parentRefs| :: PointsAt(r.parentRefs[k], r, g.spec))
    && r.parentRefs[|r.parentRefs| - 1].sectionName in {None, Some(l.name)}
    && !status.readyInvalid && !status.readyPending && !r.resolutionErrors
    && KindFits(l, r) && NamespaceFits(c, g.spec, l, r.namespace) && HostFits(l, r)
  }

  lemma {:induction false} MeetsIff(req: Requirement, namespace: string, labels: map<string, string>)
    ensures Satisfies(req, NamespaceSet(namespace, labels)) <==> Meets(req, namespace, labels)
  {
    var all := NamespaceSet(namespace, labels);
    assert forall key, v :: Labelled(namespace, labels, key, v) <==> key in all && all[key] == v;
    match req
    case In(key, values) =>
    case NotIn(key, values) =>
    case Exists(key) =>
      assert key in all ==> Labelled(namespace, labels, key, all[key]);
    case DoesNotExist(key) =>
      assert key in all ==> Labelled(namespace, labels, key, all[key]);
  }

  lemma {:induction false} SelectedIff(c: Cluster, s: Selector, namespace: string)
    ensures SelectorAllows(c, s, namespace) <==> Selected(c, s, namespace)
  {
    if s.Requirements? && namespace in c.namespaceLabels {
      var labels := c.namespaceLabels[namespace];
      forall i | 0 <= i < |s.reqs|
        ensures Satisfies(s.reqs[i], NamespaceSet(namespace, labels)) <==> Meets(s.reqs[i], namespace, labels)
      {
        MeetsIff(s.reqs[i], namespace, labels);
      }
    }
  }

  lemma {:induction false} NamespaceFitsIff(c: Cluster, g: GatewaySpec, l: Listener, r: Route)
    ensures AllowedForNamespaces(c, g.namespace, l.allowedRoutes, r) <==> NamespaceFits(c, g, l, r.namespace)
  {
    if Says(l, "Selector") {
      SelectedIff(c, l.allowedRoutes.value.namespaces.value.selector, r.namespace);
    }
  }

  lemma {:induction false} OneKind(k: RouteGroupKind, r: Route)
    requires k.group == Some(GATEWAY_GROUP)
    ensures KindAllowed(Some([k]), r) <==> k.kind == r.kind && r.group == GATEWAY_GROUP
  {
    assert [k][0] == k;
  }

  lemma {:induction false} KindFitsIff(l: Listener, r: Route)
    ensures KindAllowed(SupportedKindsFor(l.protocol), r) <==> KindFits(l, r)
  {
    var kinds := SupportedKindsFor(l.protocol);
    if kinds.Some? {
      OneKind(kinds.value[0], r);
      assert kinds.value == [kinds.value[0]];
    }
  }

  lemma {:induction false} PointsAtIff(ref: ParentRef, r: Route, g: GatewaySpec)
    ensures RefNamesGateway(ref, r.namespace, g) <==> PointsAt(ref, r, g)
  {}

  lemma {:induction false} HostFitsIff(l: Listener, r: Route)
    ensures r.MatchesHostname(l.hostname) <==> HostFits(l, r)
  {
    if r.spec.HTTPSpec? {
      RouteHostnameCheckIsOverlap(l.hostname, r.spec.hostnames);
    }
  }

  /** What binding tests, step by step, is that the route belongs on the listener. */
  lemma {:induction false} AttachesIffBelongs(c: Cluster, g: Gateway, i: nat, r: Route)
    requires g.WellFormed() && i < |g.states|
    ensures Attaches(c, g, i, r) <==> BelongsOn(c, g, i, r)
  {
    var l := g.spec.listeners[i];
    ReferencesIff(r, g.spec);
    NamespaceFitsIff(c, g.spec, l, r);
    KindFitsIff(l, r);
    HostFitsIff(l, r);
    if r.parentRefs != [] {
      SectionFitsIff(l, r.parentRefs[|r.parentRefs| - 1]);
    }
  }

  lemma {:induction false} SectionFitsIff(l: Listener, ref: ParentRef)
    ensures MatchesListener(l.name, ref.sectionName) <==> ref.sectionName in {None, Some(l.name)}
  {}

  lemma {:induction false} ReferencesIff(r: Route, g: GatewaySpec)
    ensures ReferencesGateway(r, g) <==> exists k | 0 <= k < |r.parentRefs| :: PointsAt(r.parentRefs[k], r, g)
  {
    forall k | 0 <= k < |r.parentRefs|
      ensures RefNamesGateway(r.parentRefs[k], r.namespace, g) <==> PointsAt(r.parentRefs[k], r, g)
    {
      PointsAtIff(r.parentRefs[k], r, g);
    }
  }

  /** Who made the entry, and for which gateway and route. */
  ghost predicate LabelledFor(meta: Meta, r: Route, g: GatewaySpec, kind: string) {
    && "external-source" in meta && meta["external-source"] == "consul-api-gateway"
    && "consul-api-gateway/k8s/Gateway.Name" in meta && meta["consul-api-gateway/k8s/Gateway.Name"] == g.name
    && "consul-api-gateway/k8s/Gateway.Namespace" in meta
    && meta["consul-api-gateway/k8s/Gateway.Namespace"] == g.namespace
    && "consul-api-gateway/k8s/" + kind + ".Name" in meta && meta["consul-api-gateway/k8s/" + kind + ".Name"] == r.name
    && "consul-api-gateway/k8s/" + kind + ".Namespace" in meta
    && meta["consul-api-gateway/k8s/" + kind + ".Namespace"] == r.namespace
  }

  /** v is what a route is recorded as: its rules under its hostnames, or the listener's, or all; or its service. */
  ghost predicate RecordedAs(v: ResolvedRoute, r: Route, g: GatewaySpec, l: Listener) {
    match r.spec
    case HTTPSpec(hostnames, rules) =>
      && v.HTTPRoute? && v.rules == rules && v.namespace == g.consulNamespace
      && v.name == "consul-api-gateway_" + g.name + "_" + r.name
      && (hostnames != [] ==> v.hostnames == hostnames)
      && (hostnames == [] && l.hostname in {None, Some("")} ==> v.hostnames == ["*"])
      && (hostnames == [] && l.hostname !in {None, Some("")} ==> v.hostnames == [l.hostname.value])
      && LabelledFor(v.meta, r, g, "HTTPRoute")
    case TCPSpec(service) =>
      && v.TCPRoute? && v.service == service && v.namespace == g.consulNamespace && v.name == r.name
      && LabelledFor(v.meta, r, g, "TCPRoute")
  }

  lemma {:induction false} ResolvedIsRecorded(r: Route, g: GatewaySpec, l: Listener)
    ensures RecordedAs(ResolveRoute(r, g, l), r, g, l)
  {
    var kind := if r.spec.HTTPSpec? then "HTTPRoute" else "TCPRoute";
    DistinctKeys(kind);
  }

  lemma {:induction false} DistinctKeys(kind: string)
    requires kind == "HTTPRoute" || kind == "TCPRoute"
    ensures "consul-api-gateway/k8s/" + kind + ".Name" != "consul-api-gateway/k8s/" + kind + ".Namespace"
    ensures "consul-api-gateway/k8s/" + kind + ".Name" !in
            {"external-source", "consul-api-gateway/k8s/Gateway.Name", "consul-api-gateway/k8s/Gateway.Namespace"}
    ensures "consul-api-gateway/k8s/" + kind + ".Namespace" !in
            {"external-source", "consul-api-gateway/k8s/Gateway.Name", "consul-api-gateway/k8s/Gateway.Namespace"}
  {
    var name, namespace := "consul-api-gateway/k8s/" + kind + ".Name", "consul-api-gateway/k8s/" + kind + ".Namespace";
    assert name[23] == kind[0] && namespace[23] == kind[0] && kind[0] != 'G';
    assert "consul-api-gateway/k8s/Gateway.Name"[23] == 'G' && "consul-api-gateway/k8s/Gateway.Namespace"[23] == 'G';
    assert name[0] == 'c' && namespace[0] == 'c' && "external-source"[0] == 'e';
    assert |name| + 5 == |namespace|;
  }

  /** Two routes have one identifier only if they are of one kind and of one name in one namespace. */
  lemma {:induction false} RouteIDUnique(a: Route, b: Route)
    requires '/' !in a.namespace && '/' !in b.namespace
    ensures a.ID() == b.ID() <==>
            a.spec.HTTPSpec? == b.spec.HTTPSpec? && a.namespace == b.namespace && a.name == b.name
  {
    if a.ID() == b.ID() {
      assert a.ID()[0] == (if a.spec.HTTPSpec? then 'h' else 't');
      assert b.ID()[0] == (if b.spec.HTTPSpec? then 'h' else 't');
      var n := if a.spec.HTTPSpec? then 5 else 4;
      var s := a.ID()[n..];
      assert s == a.namespace + "/" + a.name && b.ID()[n..] == b.namespace + "/" + b.name;
      assert s[|a.namespace|] == '/' && s[|b.namespace|] == '/';
      assert forall k | 0 <= k < |a.namespace| :: s[k] == a.namespace[k];
      assert forall k | 0 <= k < |b.namespace| :: s[k] == b.namespace[k];
      assert |a.namespace| == |b.namespace|;
      assert a.namespace == s[..|a.namespace|] == b.namespace;
      assert a.name == s[|a.namespace| + 1..] == b.name;
    }
  }

  /** The new states: the route is recorded exactly where it belongs, and nothing else changes. */
  ghost predicate BoundByFields(c: Cluster, g: Gateway, g': Gateway, r: Route)
    requires g.WellFormed() && g'.WellFormed() && g'.spec == g.spec
  {
    forall i | 0 <= i < |g.states| ::
      && (r.ID() in g'.states[i].routes <==> BelongsOn(c, g, i, r))
      && (r.ID() in g'.states[i].routes ==> RecordedAs(g'.states[i].routes[r.ID()], r, g.spec, g.spec.listeners[i]))
      && g'.states[i].routes - {r.ID()} == g.states[i].routes - {r.ID()}
      && g'.states[i].(routes := map[]) == g.states[i].(routes := map[])
  }

  lemma {:induction false} BindGatewayByFields(c: Cluster, g: Gateway, r: Route)
    requires g.WellFormed()
    ensures BoundByFields(c, g, BindGateway(c, g, r), r)
  {
    var g' := BindGateway(c, g, r);
    forall i | 0 <= i < |g.states|
      ensures r.ID() in g'.states[i].routes <==> BelongsOn(c, g, i, r)
      ensures r.ID() in g'.states[i].routes ==>
                RecordedAs(g'.states[i].routes[r.ID()], r, g.spec, g.spec.listeners[i])
      ensures g'.states[i].routes - {r.ID()} == g.states[i].routes - {r.ID()}
    {
      AttachesIffBelongs(c, g, i, r);
      ResolvedIsRecorded(r, g.spec, g.spec.listeners[i]);
    }
  }

  // ----- Resolved gateways, by their fields ------------------------------------------------------

  /** Nothing has been found wrong with the listener, and a TCP listener has no two routes. */
  ghost predicate Emitted(st: ListenerState) {
    var s := st.status;
    && !s.hostnameConflict && !s.protocolConflict && !s.routeConflict && !s.unsupportedProtocol
    && !s.unsupportedAddress && !s.invalidCertificateRef && !s.invalidRouteKinds && !s.refNotPermitted
    && (st.protocol == TCP ==> forall a, b | a in st.routes && b in st.routes :: a == b)
  }

  /** rl is the listener l in state st: named, on its port, with its routes, in Consul's terms. */
  ghost predicate ListenerByFields(rl: ResolvedListener, l: Listener, st: ListenerState) {
    && rl.port == l.port && rl.tls == st.tls && Enumerates(rl.routes, st.routes)
    && (l.name != "" ==> rl.name == l.name) && (l.name == "" ==> rl.name == "default")
    && (l.hostname.Some? ==> rl.hostname == l.hostname.value) && (l.hostname.None? ==> rl.hostname == "")
    && (st.protocol in {HTTP, HTTPS} ==> rl.protocol == "http")
    && (st.protocol in {TCP, TLS} ==> rl.protocol == "tcp")
  }

  ghost predicate ResolvedByFields(rg: ResolvedGateway, g: Gateway)
    requires g.WellFormed()
  {
    && rg.id.service == g.spec.name && rg.id.consulNamespace == g.spec.consulNamespace
    && rg.maxConnections == g.spec.maxConnections
    && rg.meta == map["external-source" := "consul-api-gateway",
                      "consul-api-gateway/k8s/Gateway.Name" := g.spec.name,
                      "consul-api-gateway/k8s/Gateway.Namespace" := g.spec.namespace]
    && exists from: seq<nat> :: EmittedFrom(rg.listeners, g, from)
  }

  /** Listener k of the result is listener from[k]; exactly those to be emitted occur, in order. */
  ghost predicate EmittedFrom(listeners: seq<ResolvedListener>, g: Gateway, from: seq<nat>)
    requires g.WellFormed()
  {
    && |listeners| == |from|
    && (forall k | 0 <= k < |from| :: from[k] < |g.states|)
    && (forall k | 0 <= k < |from| :: ListenerByFields(listeners[k], g.spec.listeners[from[k]], g.states[from[k]]))
    && (forall j, k | 0 <= j < k < |from| :: from[j] < from[k])
    && (forall i: nat | i < |g.states| :: i in from <==> Emitted(g.states[i]))
  }

  lemma {:induction false} MoreThanOneRoute<V>(m: map<string, V>)
    ensures |m| <= 1 <==> forall a, b | a in m && b in m :: a == b
  {
    assert |m| == |m.Keys|;
    if |m| > 1 {
      var a :| a in m.Keys;
      assert |m.Keys - {a}| == |m| - 1;
      var b :| b in m.Keys - {a};
      assert a in m && b in m && a != b;
    } else if a, b :| a in m && b in m && a != b {
      assert {a, b} <= m.Keys;
      SubsetSize({a, b}, m.Keys);
      assert false;
    }
  }

  lemma {:induction false} SubsetSize<T>(a: set<T>, b: set<T>)
    requires a <= b
    ensures |a| <= |b|
  {
    assert b == a + (b - a);
  }

  lemma {:induction false} ValidIffEmitted(st: ListenerState)
    ensures st.Valid() <==> Emitted(st)
  {
    MoreThanOneRoute(st.routes);
  }

  lemma {:induction false} ResolvesByFields(rg: ResolvedGateway, g: Gateway)
    requires g.WellFormed() && Resolves(rg, g)
    ensures ResolvedByFields(rg, g)
  {
    var from := ValidBelow(g, |g.states|);
    forall i: nat | i < |g.states|
      ensures i in from <==> Emitted(g.states[i])
    {
      ValidIffEmitted(g.states[i]);
    }
    forall k | 0 <= k < |from|
      ensures ListenerByFields(rg.listeners[k], g.spec.listeners[from[k]], g.states[from[k]])
    {
      assert ResolvesListener(rg.listeners[k], g.spec.listeners[from[k]], g.states[from[k]]);
    }
    assert EmittedFrom(rg.listeners, g, from);
  }

  // ----- The gateway object ------------------------------------------------------------------

  class K8sGateway {
    const spec: GatewaySpec
    var states: seq<ListenerState>

    ghost predicate Valid()
      reads this
    {
      |states| == |spec.listeners|
    }

    function Value(): (g: Gateway)
      reads this
      requires Valid()
      ensures g.WellFormed()
    {
      Gateway(spec, states)
    }

    /** Unmarshalling a stored gateway gives a new object. */
    constructor (g: Gateway)
      requires g.WellFormed()
      ensures Valid() && Value() == g
    {
      spec := g.spec;
      states := g.states;
    }

    method Resolve() returns (rg: ResolvedGateway)
      requires Valid()
      ensures Resolves(rg, Value()) && ResolvedByFields(rg, Value())
    {
      var listeners: seq<ResolvedListener> := [];
      for i := 0 to |states|
        invariant ResolvesBelow(listeners, Value(), i)
      {
        if states[i].Valid() {
          var resolved := ResolveListener(spec.listeners[i], states[i]);
          listeners := listeners + [resolved];
        }
      }
      rg := ResolvedGateway(spec.ID(), GatewayMeta(spec), listeners, spec.maxConnections);
      ResolvesByFields(rg, Value());
    }

    /** A gateway may fetch exactly the certificates that some listener of it carries. */
    method CanFetchSecrets(secrets: seq<string>) returns (allowed: bool)
      ensures allowed <==> forall s | s in secrets :: Carries(states, s)
    {
      var certificates: set<string> := {};
      for i := 0 to |states|
        invariant forall s :: s in certificates <==> Carries(states[..i], s)
      {
        certificates := certificates + set s | s in states[i].tls.certificates;
        assert states[..i + 1] == states[..i] + [states[i]];
      }
      assert states[..|states|] == states;
      for k := 0 to |secrets|
        invariant forall j | 0 <= j < k :: secrets[j] in certificates
      {
        if secrets[k] !in certificates {
          assert secrets[k] in secrets;
          return false;
        }
      }
      return true;
    }
  }

  predicate Carries(states: seq<ListenerState>, secret: string) {
    exists i | 0 <= i < |states| :: secret in states[i].tls.certificates
  }

  ghost predicate ResolvesBelow(listeners: seq<ResolvedListener>, g: Gateway, n: nat)
    requires g.WellFormed() && n <= |g.states|
  {
    var valid := ValidBelow(g, n);
    && |listeners| == |valid|
    && forall k | 0 <= k < |valid| ::
        ResolvesListener(listeners[k], g.spec.listeners[valid[k]], g.states[valid[k]])
  }

  method ResolveListener(l: Listener, st: ListenerState) returns (rl: ResolvedListener)
    ensures ResolvesListener(rl, l, st)
  {
    var routes := MapValues(st.routes);
    rl := ResolvedListener(ListenerName(l), ListenerHostname(l), l.port,
                           ProtocolToConsul(st.protocol).0, st.tls, routes);
  }

  // ----- Binding -------------------------------------------------------------------------------

  method Unbind(g: K8sGateway, r: Route) returns (removed: bool)
    requires g.Valid()
    modifies g
    ensures g.Valid() && g.Value() == UnbindGateway(old(g.Value()), r)
    ensures removed <==> old(Recorded(g.Value(), r))
  {
    removed := false;
    ghost var before := g.Value();
    for i := 0 to |g.states|
      invariant g.Valid()
      invariant forall j | 0 <= j < i :: g.states[j] == WithoutRoute(before, j, r)
      invariant forall j | i <= j < |g.states| :: g.states[j] == before.states[j]
      invariant removed <==> exists j | 0 <= j < i :: r.ID() in before.states[j].routes
    {
      if r.ID() in g.states[i].routes {
        removed := true;
        g.states := g.states[i := g.states[i].(routes := g.states[i].routes - {r.ID()})];
      } else {
        assert g.states[i].routes - {r.ID()} == g.states[i].routes;
      }
    }
    assert g.states == UnbindGateway(before, r).states;
  }

  /** The state of listener i after references up to and including ref have been tried. */
  ghost function AfterRef(c: Cluster, g: Gateway, i: nat, ref: ParentRef, r: Route): ListenerState
    requires g.WellFormed() && i < |g.states|
  {
    if CanBindAt(c, g, i, ref, r) then WithRoute(g, i, r) else WithoutRoute(g, i, r)
  }

  /** The state of listener i once the first k references have been tried. */
  ghost function AfterRefs(c: Cluster, g: Gateway, i: nat, k: nat, r: Route): ListenerState
    requires g.WellFormed() && i < |g.states| && k <= |r.parentRefs|
  {
    if k == 0 then g.states[i] else AfterRef(c, g, i, r.parentRefs[k - 1], r)
  }

  /** Some binding or recorded attachment has been met once k references, and i listeners of the next, are done. */
  ghost predicate Met(c: Cluster, g: Gateway, r: Route, k: nat, i: nat)
    requires g.WellFormed() && k <= |r.parentRefs| && i <= |g.states|
  {
    || (exists k', i' | 0 <= k' < |r.parentRefs| && 0 <= i' < |g.states| && (k' < k || (k' == k && i' < i)) ::
          CanBindAt(c, g, i', r.parentRefs[k'], r))
    || (exists i' | 0 <= i' < |g.states| && (0 < k || i' < i) :: r.ID() in g.states[i'].routes)
  }

  lemma {:induction false} MetNextRef(c: Cluster, g: Gateway, r: Route, k: nat)
    requires g.WellFormed() && k < |r.parentRefs|
    ensures Met(c, g, r, k, |g.states|) <==> Met(c, g, r, k + 1, 0)
  {}

  lemma {:induction false} MetByAll(c: Cluster, g: Gateway, r: Route)
    requires g.WellFormed() && r.parentRefs != []
    ensures Met(c, g, r, |r.parentRefs|, 0) <==> (Recorded(g, r) || SomeRefBinds(c, g, r))
  {}

  method Bind(c: Cluster, g: K8sGateway, r: Route) returns (modified: bool)
    requires g.Valid()
    modifies g
    ensures g.Valid() && g.Value() == BindGateway(c, old(g.Value()), r)
    ensures BoundByFields(c, old(g.Value()), g.Value(), r)
    ensures modified <==>
            old(Recorded(g.Value(), r) || (ReferencesGateway(r, g.spec) && SomeRefBinds(c, g.Value(), r)))
  {
    ghost var before := g.Value();
    BindGatewayByFields(c, before, r);
    if !ReferencesGateway(r, g.spec) {
      modified := Unbind(g, r);
      assert g.states == BindGateway(c, before, r).states;
      return;
    }

    modified := false;
    for k := 0 to |r.parentRefs|
      invariant g.Valid()
      invariant forall j | 0 <= j < |g.states| :: g.states[j] == AfterRefs(c, before, j, k, r)
      invariant modified <==> Met(c, before, r, k, 0)
    {
      for i := 0 to |g.states|
        invariant g.Valid()
        invariant forall j | 0 <= j < i :: g.states[j] == AfterRef(c, before, j, r.parentRefs[k], r)
        invariant forall j | i <= j < |g.states| :: g.states[j] == AfterRefs(c, before, j, k, r)
        invariant modified <==> Met(c, before, r, k, i)
      {
        modified := TryRef(c, g, i, before, k, r, modified);
      }
      MetNextRef(c, before, r, k);
    }
    assert g.states == BindGateway(c, before, r).states;
    MetByAll(c, before, r);
  }

  /** One round of Bind's inner loop: reference k against listener i. */
  method TryRef(c: Cluster, g: K8sGateway, i: nat, ghost before: Gateway, k: nat, r: Route, modified: bool)
    returns (modified': bool)
    requires g.Valid() && before.WellFormed() && before.spec == g.spec
    requires i < |g.states| && k < |r.parentRefs|
    requires g.states[i] == AfterRefs(c, before, i, k, r)
    requires modified <==> Met(c, before, r, k, i)
    modifies g
    ensures g.Valid() && g.states == old(g.states)[i := AfterRef(c, before, i, r.parentRefs[k], r)]
    ensures modified' <==> Met(c, before, r, k, i + 1)
  {
    var st, id := g.states[i], r.ID();
    assert CanBindAt(c, before, i, r.parentRefs[k], r) ==
           CanBind(c, g.spec.namespace, g.spec.listeners[i], st.status, r.parentRefs[k], r);
    if CanBind(c, g.spec.namespace, g.spec.listeners[i], st.status, r.parentRefs[k], r) {
      modified' := true;
      var resolved := ResolveRoute(r, g.spec, g.spec.listeners[i]);
      assert st.routes[id := resolved] == before.states[i].routes[id := resolved];
      g.states := g.states[i := st.(routes := st.routes[id := resolved])];
    } else if id in st.routes {
      modified' := true;
      assert st.routes - {id} == before.states[i].routes - {id};
      if k > 0 {
        assert CanBindAt(c, before, i, r.parentRefs[k - 1], r);
      }
      g.states := g.states[i := st.(routes := st.routes - {id})];
    } else {
      modified' := modified;
      assert st.routes == before.states[i].routes - {id};
    }
  }
}
