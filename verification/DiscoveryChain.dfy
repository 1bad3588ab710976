// Computing the config entries of a gateway (internal/adapters/consul/sync.go), with the loops of
// the source, proved against ChainSpec.

module DiscoveryChain {
  import opened Wrappers
  import opened Core
  import opened ConsulEntries
  import opened ConfigEntries
  import opened HttpMeaning
  import opened Naming
  import opened HttpCompile
  import opened Precedence
  import opened HttpCorrect
  import opened HttpChain
  import opened ChainSpec
  import Tls

  // ----- Merging the routes of a listener -----------------------------------------------------------

  /** For every host: the consolidator knows it exactly when it is listed, with its candidates. */
  ghost predicate Gathers(m: map<string, seq<Candidate>>, routes: seq<ResolvedRoute>) {
    forall h: string :: (h in m <==> ListedIn(routes, h)) && Entry(m, h) == Collected(routes, h)
  }

  lemma {:induction false} GathersOneMore(m: map<string, seq<Candidate>>, routes: seq<ResolvedRoute>, n: nat)
    requires n < |routes| && Gathers(m, routes[..n])
    ensures var r := routes[n];
            Gathers(if r.HTTPRoute? then WithMentions(m, r.hostnames, RulesCandidates(r.rules, |r.rules|)) else m,
                    routes[..n + 1])
  {
    var r := routes[n];
    var m' := if r.HTTPRoute? then WithMentions(m, r.hostnames, RulesCandidates(r.rules, |r.rules|)) else m;
    forall h: string
      ensures h in m' <==> ListedIn(routes[..n + 1], h)
      ensures Entry(m', h) == Collected(routes[..n + 1], h)
    {
      assert routes[..n + 1][..n] == routes[..n];
      ListedOneMore(routes, n, h);
      if r.HTTPRoute? {
        WithMentionsEntry(m, r.hostnames, RulesCandidates(r.rules, |r.rules|), h);
      } else {
        assert Collected(routes[..n], h) + [] == Collected(routes[..n], h);
      }
    }
  }

  lemma {:induction false} ListedOneMore(routes: seq<ResolvedRoute>, n: nat, h: string)
    requires n < |routes|
    ensures ListedIn(routes[..n + 1], h) <==>
            ListedIn(routes[..n], h) || (routes[n].HTTPRoute? && h in routes[n].hostnames)
  {
    var longer, shorter := routes[..n + 1], routes[..n];
    if ListedIn(shorter, h) {
      var i :| 0 <= i < n && shorter[i].HTTPRoute? && h in shorter[i].hostnames;
      assert longer[i] == shorter[i];
    }
    if ListedIn(longer, h) {
      var i :| 0 <= i < n + 1 && longer[i].HTTPRoute? && h in longer[i].hostnames;
      assert i < n ==> shorter[i] == longer[i];
    }
    if routes[n].HTTPRoute? && h in routes[n].hostnames {
      assert longer[n] == routes[n];
    }
  }

  /** http holds one consolidated route for each of hosts, which are exactly the listed ones. */
  ghost predicate Consolidation(http: seq<ResolvedRoute>, hosts: seq<string>, g: ResolvedGateway, crc: string -> nat,
                                l: ResolvedListener) {
    && |http| == |hosts|
    && (forall k | 0 <= k < |hosts| :: Lists(l, hosts[k]) && ConsolidatedFor(http[k], g, crc, l, hosts[k]))
    && (forall j, k | 0 <= j < k < |hosts| :: hosts[j] != hosts[k])
    && (forall h: string | Lists(l, h) :: h in hosts)
  }

  ghost predicate OnePerHost(http: seq<ResolvedRoute>, g: ResolvedGateway, crc: string -> nat, l: ResolvedListener) {
    exists hosts: seq<string> :: Consolidation(http, hosts, g, crc, l)
  }

  method ConsolidateHost(g: ResolvedGateway, crc: string -> nat, l: ResolvedListener, host: string,
                         rules: seq<Candidate>)
    returns (route: ResolvedRoute)
    requires rules == Collected(l.routes, host)
    ensures ConsolidatedFor(route, g, crc, l, host)
  {
    var sorted := SliceStable(rules);
    var routeRules: seq<HTTPRouteRule> := [];
    for i := 0 to |sorted|
      invariant routeRules == AsRules(sorted)[..i]
    {
      routeRules := routeRules + [HTTPRouteRule([sorted[i].httpMatch], sorted[i].filters, sorted[i].services)];
    }
    route := HTTPRoute(g.meta, RouterName(g.id.service, crc, host), g.id.consulNamespace, [host], routeRules);
    assert route.rules == AsRules(sorted);
  }

  /** One route per hostname, in the arbitrary order in which the map is visited. */
  method Consolidate(m: map<string, seq<Candidate>>, g: ResolvedGateway, crc: string -> nat, l: ResolvedListener)
    returns (http: seq<ResolvedRoute>, ghost hosts: seq<string>)
    requires Gathers(m, l.routes)
    ensures Consolidation(http, hosts, g, crc, l)
    ensures OnePerHost(http, g, crc, l)
  {
    http, hosts := [], [];
    var rest := m.Keys;
    while rest != {}
      invariant rest <= m.Keys && |http| == |hosts|
      invariant forall k | 0 <= k < |http| :: ConsolidatedFor(http[k], g, crc, l, hosts[k])
      invariant Visited(m.Keys, rest, hosts)
      decreases rest
    {
      var host :| host in rest;
      assert Entry(m, host) == Collected(l.routes, host);
      var route := ConsolidateHost(g, crc, l, host, m[host]);
      http, hosts := http + [route], hosts + [host];
      rest := rest - {host};
    }
    forall h: string
      ensures h in m <==> Lists(l, h)
    {
      assert Entry(m, h) == Collected(l.routes, h);
    }
    assert Consolidation(http, hosts, g, crc, l);
  }

  /** visited lists the keys no longer in rest, each once. */
  ghost predicate Visited(keys: set<string>, rest: set<string>, visited: seq<string>) {
    && (forall k | 0 <= k < |visited| :: visited[k] in keys && visited[k] !in rest)
    && (forall j, k | 0 <= j < k < |visited| :: visited[j] != visited[k])
    && (forall h | h in keys && h !in rest :: h in visited)
  }

  function TcpRoutes(routes: seq<ResolvedRoute>): (tcp: seq<ResolvedRoute>)
    ensures forall i | 0 <= i < |tcp| :: tcp[i].TCPRoute?
  {
    if routes == [] then []
    else TcpRoutes(routes[..|routes| - 1]) + (if routes[|routes| - 1].TCPRoute? then [routes[|routes| - 1]] else [])
  }

  function AtMostFirst(routes: seq<ResolvedRoute>): seq<ResolvedRoute> {
    if routes == [] then [] else [routes[0]]
  }

  method FlattenHTTPRoutes(g: ResolvedGateway, crc: string -> nat, l: ResolvedListener)
    returns (merged: seq<ResolvedRoute>, ghost http: seq<ResolvedRoute>, ghost hosts: seq<string>)
    ensures Consolidation(http, hosts, g, crc, l)
    ensures merged == TcpRoutes(l.routes) + http
    ensures TcpRoutes(l.routes) <= merged && OnePerHost(merged[|TcpRoutes(l.routes)|..], g, crc, l)
  {
    var consolidator := new RouteConsolidator();
    var unmerged: seq<ResolvedRoute> := [];
    for i := 0 to |l.routes|
      invariant fresh(consolidator)
      invariant Gathers(consolidator.matchesByHostname, l.routes[..i])
      invariant unmerged == TcpRoutes(l.routes[..i])
    {
      GathersOneMore(consolidator.matchesByHostname, l.routes, i);
      assert l.routes[..i + 1][..i] == l.routes[..i];
      if l.routes[i].HTTPRoute? {
        consolidator.Add(l.routes[i]);
      } else {
        unmerged := unmerged + [l.routes[i]];
      }
    }
    assert l.routes[..|l.routes|] == l.routes;
    var consolidated;
    consolidated, hosts := Consolidate(consolidator.matchesByHostname, g, crc, l);
    http := consolidated;
    merged := unmerged + consolidated;
    assert merged[|TcpRoutes(l.routes)|..] == consolidated;
  }

  /** At most one TCP route is kept per listener. */
  method FilterTCPRoutes(routes: seq<ResolvedRoute>, ghost tcp: seq<ResolvedRoute>, ghost http: seq<ResolvedRoute>)
    returns (filtered: seq<ResolvedRoute>)
    requires routes == tcp + http
    requires forall i | 0 <= i < |tcp| :: tcp[i].TCPRoute?
    requires forall i | 0 <= i < |http| :: http[i].HTTPRoute?
    ensures filtered == AtMostFirst(tcp) + http
  {
    filtered := [];
    var found := false;
    for i := 0 to |routes|
      invariant found <==> i > 0 && |tcp| > 0
      invariant filtered == (if i == 0 then [] else AtMostFirst(tcp)) + http[..if i < |tcp| then 0 else i - |tcp|]
    {
      if routes[i].TCPRoute? {
        if !found {
          found := true;
          filtered := filtered + [routes[i]];
        }
      } else {
        filtered := filtered + [routes[i]];
      }
    }
    assert http[..|http|] == http;
  }

  method MergeRoutes(g: ResolvedGateway, crc: string -> nat, l: ResolvedListener)
    returns (merged: seq<ResolvedRoute>, ghost http: seq<ResolvedRoute>, ghost hosts: seq<string>)
    ensures Consolidation(http, hosts, g, crc, l)
    ensures merged == AtMostFirst(TcpRoutes(l.routes)) + http
    ensures AtMostFirst(TcpRoutes(l.routes)) <= merged
    ensures OnePerHost(merged[|AtMostFirst(TcpRoutes(l.routes))|..], g, crc, l)
  {
    var flat;
    flat, http, hosts := FlattenHTTPRoutes(g, crc, l);
    merged := FilterTCPRoutes(flat, TcpRoutes(l.routes), http);
    assert merged[|AtMostFirst(TcpRoutes(l.routes))|..] == http;
  }

  // ----- Weights of a consolidated route ---------------------------------------------------------------

  ghost predicate ListenerWeightsInRange(l: ResolvedListener) {
    forall i | 0 <= i < |l.routes| :: RuleWeightsInRange(l.routes[i])
  }

  lemma {:induction false} RuleCandidateServices(rules: seq<HTTPRouteRule>, n: nat, c: Candidate)
    requires n <= |rules| && c in RulesCandidates(rules, n)
    ensures exists i | 0 <= i < |rules| :: c.services == rules[i].services
  {
    if c in RulesCandidates(rules, n - 1) {
      RuleCandidateServices(rules, n - 1, c);
    } else {
      assert c in RuleCandidates(rules[n - 1]);
      assert c.services == rules[n - 1].services;
    }
  }

  lemma {:induction false} CandidateInRange(routes: seq<ResolvedRoute>, host: string, c: Candidate)
    requires forall i | 0 <= i < |routes| :: RuleWeightsInRange(routes[i])
    requires c in Candidates(routes, host)
    ensures WeightsInRange(c.services)
  {
    var init, last := routes[..|routes| - 1], routes[|routes| - 1];
    if c in Candidates(init, host) {
      CandidateInRange(init, host, c);
    } else {
      RuleCandidateServices(last.rules, |last.rules|, c);
    }
  }

  lemma {:induction false} ConsolidatedInRange(route: ResolvedRoute, l: ResolvedListener, host: string)
    requires ListenerWeightsInRange(l) && Consolidates(route, Collected(l.routes, host))
    ensures RuleWeightsInRange(route)
  {
    var sorted :| StablySorted(Collected(l.routes, host), sorted) && route.rules == AsRules(sorted);
    CollectedElements(l.routes, host);
    SortedElements(Collected(l.routes, host), sorted);
    forall i | 0 <= i < |route.rules|
      ensures WeightsInRange(route.rules[i].services)
    {
      assert sorted[i] in Candidates(l.routes, host);
      CandidateInRange(l.routes, host, sorted[i]);
    }
  }

  // ----- The entries of one route ------------------------------------------------------------------------

  function ServiceOf(route: ResolvedRoute): IngressService {
    match route
    case HTTPRoute(_, name, namespace, hostnames, _) => IngressService(name, hostnames, namespace)
    case TCPRoute(_, _, _, service) => IngressService(service.service, [], service.consulNamespace)
  }

  method RouteDiscoveryChain(route: ResolvedRoute)
    returns (service: IngressService, router: Option<ServiceRouter>, splits: ConfigEntryIndex?,
             defaults: ConfigEntryIndex?)
    requires RuleWeightsInRange(route)
    ensures service == ServiceOf(route)
    ensures route.TCPRoute? ==> router == None && splits == null && defaults == null
    ensures route.HTTPRoute? ==> router == Some(RouterOf(route)) && splits != null && defaults != null
    ensures splits != null ==> fresh(splits) && splits.Valid() && splits.kind == SplitterKind && route.HTTPRoute? &&
                               splits.idx == SplitterEntries(SplittersOf(route))
    ensures defaults != null ==>
              fresh(defaults) && defaults.Valid() && defaults.kind == DefaultsKind &&
              route.HTTPRoute? && defaults.idx == RouteDefaults(route)
  {
    if route.TCPRoute? {
      return ServiceOf(route), None, null, null;
    }
    var r, splitters := HttpRouteDiscoveryChain(route);
    forall i | 0 <= i < |splitters|
      ensures splitters[i].namespace == route.namespace
    {
      SplitterFields(route.name, route.namespace, route.meta, route.rules, |route.rules|, i);
    }
    splits, defaults := IndexSplitters(r.name, r.namespace, route.meta, splitters);
    service, router := ServiceOf(route), Some(r);
  }

  method IndexSplitters(name: string, namespace: string, meta: Meta, ss: seq<ServiceSplitter>)
    returns (s: ConfigEntryIndex, d: ConfigEntryIndex)
    requires forall i | 0 <= i < |ss| :: ss[i].namespace == namespace
    ensures fresh(s) && s.Valid() && s.kind == SplitterKind && s.idx == SplitterEntries(ss)
    ensures fresh(d) && d.Valid() && d.kind == DefaultsKind &&
            d.idx == DefaultsOf({name} + SplitterNames(ss), namespace, meta)
  {
    s := new ConfigEntryIndex(SplitterKind);
    d := new ConfigEntryIndex(DefaultsKind);
    d.Add(DefaultOf(name, namespace, meta));
    for i := 0 to |ss|
      invariant fresh(s) && s.Valid() && s.kind == SplitterKind && s.idx == SplitterEntries(ss[..i])
      invariant fresh(d) && d.Valid() && d.kind == DefaultsKind && d != s
      invariant d.idx == DefaultsOf({name} + SplitterNames(ss[..i]), namespace, meta)
    {
      assert ss[..i + 1][..i] == ss[..i];
      OneMoreDefault(name, namespace, meta, ss, i);
      s.Add(SplitterEntry(ss[i]));
      if ss[i].name != name {
        d.Add(DefaultOf(ss[i].name, ss[i].namespace, meta));
      }
    }
    assert ss[..|ss|] == ss;
  }

  lemma {:induction false} OneMoreDefault(name: string, namespace: string, meta: Meta, ss: seq<ServiceSplitter>, i: nat)
    requires i < |ss|
    ensures DefaultsOf({name} + SplitterNames(ss[..i + 1]), namespace, meta) ==
            DefaultsOf({name} + SplitterNames(ss[..i]), namespace, meta)
            [ss[i].name := DefaultOf(ss[i].name, namespace, meta)]
    ensures ss[i].name == name ==>
            DefaultsOf({name} + SplitterNames(ss[..i + 1]), namespace, meta) ==
            DefaultsOf({name} + SplitterNames(ss[..i]), namespace, meta)
  {
    var names, names' := SplitterNames(ss[..i]), SplitterNames(ss[..i + 1]);
    forall n
      ensures n in names' <==> n in names || n == ss[i].name
    {
      if n in names {
        var k :| 0 <= k < i && ss[..i][k].name == n;
        assert ss[..i + 1][k].name == n;
      }
      if n in names' {
        var k :| 0 <= k < i + 1 && ss[..i + 1][k].name == n;
        assert k < i ==> ss[..i][k].name == n;
      }
      assert ss[..i + 1][i].name == ss[i].name;
    }
  }

  /** Splitters stand in the namespace of their route, with its meta. */
  lemma {:induction false} SplitterFields(name: string, namespace: string, meta: Meta, rules: seq<HTTPRouteRule>,
                                          n: nat, k: nat)
    requires n <= |rules| && forall i | 0 <= i < |rules| :: WeightsInRange(rules[i].services)
    requires k < |SplittersBelow(name, namespace, meta, rules, n)|
    ensures var s := SplittersBelow(name, namespace, meta, rules, n)[k]; s.namespace == namespace && s.meta == meta
  {
    if n > 0 {
      var init := SplittersBelow(name, namespace, meta, rules, n - 1);
      var o := SplitterOf(name, namespace, meta, n - 1, rules[n - 1]);
      assert SplittersBelow(name, namespace, meta, rules, n) == init + Optional(o);
      if k < |init| {
        SplitterFields(name, namespace, meta, rules, n - 1, k);
      } else {
        assert o.Some? && o.value.namespace == namespace && o.value.meta == meta;
      }
    }
  }

  // ----- The entries of a gateway ------------------------------------------------------------------------

  /** TLS settings of an ingress listener: secure defaults, and the first certificate if any. */
  function IngressTLS(tls: TLSParams): GatewayTLS {
    GatewayTLS(if tls.minVersion != "" then tls.minVersion else "TLSv1_2",
               tls.maxVersion,
               if tls.cipherSuites != [] then tls.cipherSuites else Tls.DEFAULT_CIPHER_SUITES,
               if tls.certificates != [] then Some(tls.certificates[0]) else None)
  }

  /** The ingress service through which a listener reaches the router of one of its hosts. */
  function HostService(g: ResolvedGateway, crc: string -> nat, host: string): IngressService {
    IngressService(RouterName(g.id.service, crc, host), [host], g.id.consulNamespace)
  }

  /** services are, after the listener's first TCP route if any, one service for each of hosts. */
  ghost predicate ServicesFor(services: seq<IngressService>, hosts: seq<string>, g: ResolvedGateway, crc: string -> nat,
                              l: ResolvedListener) {
    var tcp := AtMostFirst(TcpRoutes(l.routes));
    && |services| == |tcp| + |hosts|
    && (forall i | 0 <= i < |tcp| :: services[i] == ServiceOf(tcp[i]))
    && (forall k | 0 <= k < |hosts| :: services[|tcp| + k] == HostService(g, crc, hosts[k]))
    && (forall j, k | 0 <= j < k < |hosts| :: hosts[j] != hosts[k])
    && (forall h: string :: Lists(l, h) <==> h in hosts)
  }

  /** Exactly the services of the listener: each listed host once, in some order, and at most one TCP route. */
  ghost predicate ServicesOf(services: seq<IngressService>, g: ResolvedGateway, crc: string -> nat,
                             l: ResolvedListener) {
    exists hosts: seq<string> :: ServicesFor(services, hosts, g, crc, l)
  }

  /** The listener has something to serve. */
  ghost predicate Serves(l: ResolvedListener) {
    TcpRoutes(l.routes) != [] || exists h: string :: Lists(l, h)
  }

  lemma {:induction false} ServesIff(services: seq<IngressService>, g: ResolvedGateway, crc: string -> nat,
                                     l: ResolvedListener)
    requires ServicesOf(services, g, crc, l)
    ensures services != [] <==> Serves(l)
  {
    var hosts :| ServicesFor(services, hosts, g, crc, l);
    if hosts != [] {
      assert Lists(l, hosts[0]);
    }
  }

  ghost predicate ListenerOf(il: IngressListener, g: ResolvedGateway, crc: string -> nat, l: ResolvedListener) {
    && il.port == l.port && il.protocol == l.protocol && il.tls == IngressTLS(l.tls)
    && ServicesOf(il.services, g, crc, l) && Serves(l)
  }

  /** The ingress listeners are those of the gateway that have something to serve, in order; from says which. */
  ghost predicate ListenersOf(ingress: seq<IngressListener>, g: ResolvedGateway, crc: string -> nat, n: nat,
                              from: seq<nat>) {
    && |from| == |ingress| && Increasing(from)
    && (forall j | 0 <= j < |from| ::
          from[j] < n <= |g.listeners| && ListenerOf(ingress[j], g, crc, g.listeners[from[j]]))
    && ServingIn(g, n, from)
  }

  ghost predicate Increasing(from: seq<nat>) {
    forall i, j | 0 <= i < j < |from| :: from[i] < from[j]
  }

  ghost predicate ServingIn(g: ResolvedGateway, n: nat, from: seq<nat>) {
    forall i | 0 <= i < n <= |g.listeners| && Serves(g.listeners[i]) :: i in from
  }

  /** Every HTTP service of the listeners names a route of the list. */
  ghost predicate ServedBy(services: seq<IngressService>, list: seq<ResolvedRoute>) {
    forall s | 0 <= s < |services| && services[s].hosts != [] ::
      exists k: nat :: k < |list| && list[k].name == services[s].name
  }

  lemma {:induction false} ServedByMore(services: seq<IngressService>, list: seq<ResolvedRoute>,
                                        more: seq<ResolvedRoute>)
    requires ServedBy(services, list)
    ensures ServedBy(services, list + more)
  {
    forall s | 0 <= s < |services| && services[s].hosts != []
      ensures exists k: nat :: k < |list + more| && (list + more)[k].name == services[s].name
    {
      var k: nat :| k < |list| && list[k].name == services[s].name;
      assert (list + more)[k].name == services[s].name;
    }
  }

  /** The three indexes hold exactly the entries of the list. */
  ghost predicate Holds(routers: ConfigEntryIndex, splitters: ConfigEntryIndex, defaults: ConfigEntryIndex,
                        list: seq<ResolvedRoute>)
    reads routers, splitters, defaults
  {
    && routers != splitters && routers != defaults && splitters != defaults
    && routers.kind == RouterKind && splitters.kind == SplitterKind && defaults.kind == DefaultsKind
    && routers.Valid() && splitters.Valid() && defaults.Valid()
    && Compilable(list)
    && routers.idx == RouterIndex(list) && splitters.idx == SplitterIndex(list) && defaults.idx == DefaultsIndex(list)
  }

  method AddRoute(route: ResolvedRoute, routers: ConfigEntryIndex, splitters: ConfigEntryIndex,
                  defaults: ConfigEntryIndex, ghost list: seq<ResolvedRoute>)
    returns (service: IngressService)
    requires Holds(routers, splitters, defaults, list) && RuleWeightsInRange(route)
    modifies routers, splitters, defaults
    ensures service == ServiceOf(route)
    ensures Holds(routers, splitters, defaults, if route.HTTPRoute? then list + [route] else list)
  {
    var router, splits, serviceDefaults;
    service, router, splits, serviceDefaults := RouteDiscoveryChain(route);
    if router.Some? {
      assert (list + [route])[..|list|] == list;
      routers.Add(RouterEntry(router.value));
    }
    splitters.Merge(splits);
    defaults.Merge(serviceDefaults);
  }

  lemma {:induction false} ChainOneMore(list: seq<ResolvedRoute>, origins: seq<Origin>, g: ResolvedGateway,
                                        crc: string -> nat, n: nat, http: seq<ResolvedRoute>, hosts: seq<string>)
    requires ChainBelow(list, origins, g, crc, n) && n < |g.listeners|
    requires Consolidation(http, hosts, g, crc, g.listeners[n]) && Compilable(http)
    ensures ChainBelow(list + http, origins + OriginsAt(n, hosts), g, crc, n + 1)
  {
    var list', origins' := list + http, origins + OriginsAt(n, hosts);
    forall k | 0 <= k < |list'|
      ensures var o := origins'[k];
              o.listener < n + 1 && Lists(g.listeners[o.listener], o.host) &&
              ConsolidatedFor(list'[k], g, crc, g.listeners[o.listener], o.host)
    {
      if k >= |list| {
        assert list'[k] == http[k - |list|] && origins'[k] == Origin(n, hosts[k - |list|]);
      } else {
        assert list'[k] == list[k] && origins'[k] == origins[k];
      }
    }
    forall l, h | 0 <= l < n + 1 && Lists(g.listeners[l], h)
      ensures Origin(l, h) in origins'
    {
      if l == n {
        assert h in hosts;
        var k :| 0 <= k < |hosts| && hosts[k] == h;
        assert origins'[|origins| + k] == Origin(l, h);
      } else {
        assert Origin(l, h) in origins;
      }
    }
  }

  ghost function OriginsAt(n: nat, hosts: seq<string>): seq<Origin> {
    seq(|hosts|, k requires 0 <= k < |hosts| => Origin(n, hosts[k]))
  }

  lemma {:induction false} ConsolidationInRange(http: seq<ResolvedRoute>, hosts: seq<string>, g: ResolvedGateway,
                                                crc: string -> nat, l: ResolvedListener)
    requires Consolidation(http, hosts, g, crc, l) && ListenerWeightsInRange(l)
    ensures Compilable(http)
  {
    forall k | 0 <= k < |http|
      ensures http[k].HTTPRoute? && RuleWeightsInRange(http[k])
    {
      assert ConsolidatedFor(http[k], g, crc, l, hosts[k]);
      ConsolidatedInRange(http[k], l, hosts[k]);
    }
  }

  ghost function HttpOf(routes: seq<ResolvedRoute>): seq<ResolvedRoute> {
    if routes == [] then []
    else HttpOf(routes[..|routes| - 1]) + (if routes[|routes| - 1].HTTPRoute? then [routes[|routes| - 1]] else [])
  }

  lemma {:induction false} HttpOfMerged(tcp: seq<ResolvedRoute>, http: seq<ResolvedRoute>)
    requires forall i | 0 <= i < |tcp| :: tcp[i].TCPRoute?
    requires forall i | 0 <= i < |http| :: http[i].HTTPRoute?
    ensures HttpOf(AtMostFirst(tcp) + http) == http
  {
    var merged := AtMostFirst(tcp) + http;
    if http == [] {
      assert merged == AtMostFirst(tcp);
      if tcp != [] {
        assert merged[..0] == [];
      }
    } else {
      var init := http[..|http| - 1];
      HttpOfMerged(tcp, init);
      assert merged[..|merged| - 1] == AtMostFirst(tcp) + init;
      assert init + [http[|http| - 1]] == http;
    }
  }

  function Services(merged: seq<ResolvedRoute>): (services: seq<IngressService>)
    ensures |services| == |merged| && forall i | 0 <= i < |merged| :: services[i] == ServiceOf(merged[i])
  {
    if merged == [] then [] else Services(merged[..|merged| - 1]) + [ServiceOf(merged[|merged| - 1])]
  }

  lemma {:induction false} HttpOfOneMore(merged: seq<ResolvedRoute>, i: nat, list: seq<ResolvedRoute>)
    requires i < |merged|
    ensures list + HttpOf(merged[..i + 1]) ==
            if merged[i].HTTPRoute? then list + HttpOf(merged[..i]) + [merged[i]] else list + HttpOf(merged[..i])
    ensures Services(merged[..i + 1]) == Services(merged[..i]) + [ServiceOf(merged[i])]
  {
    assert merged[..i + 1][..i] == merged[..i];
  }

  /** Adds the merged routes of a listener one by one and collects their ingress services. */
  method AddRoutes(merged: seq<ResolvedRoute>, routers: ConfigEntryIndex, splitters: ConfigEntryIndex,
                   defaults: ConfigEntryIndex, ghost list: seq<ResolvedRoute>)
    returns (services: seq<IngressService>)
    requires Holds(routers, splitters, defaults, list)
    requires forall i | 0 <= i < |merged| :: RuleWeightsInRange(merged[i])
    modifies routers, splitters, defaults
    ensures Holds(routers, splitters, defaults, list + HttpOf(merged))
    ensures services == Services(merged)
  {
    services := [];
    assert list + HttpOf(merged[..0]) == list;
    for i := 0 to |merged|
      invariant Holds(routers, splitters, defaults, list + HttpOf(merged[..i]))
      invariant services == Services(merged[..i])
    {
      ghost var before := list + HttpOf(merged[..i]);
      HttpOfOneMore(merged, i, list);
      var service := AddRoute(merged[i], routers, splitters, defaults, before);
      services := services + [service];
    }
    assert merged[..|merged|] == merged;
  }

  lemma {:induction false} AllAreServed(merged: seq<ResolvedRoute>, list: seq<ResolvedRoute>)
    ensures ServedBy(Services(merged), list + HttpOf(merged))
  {
    if merged != [] {
      var init, last := merged[..|merged| - 1], merged[|merged| - 1];
      AllAreServed(init, list);
      var more := if last.HTTPRoute? then [last] else [];
      ServedByMore(Services(init), list + HttpOf(init), more);
      assert list + HttpOf(merged) == list + HttpOf(init) + more;
      if last.HTTPRoute? {
        assert (list + HttpOf(merged))[|list + HttpOf(init)|].name == ServiceOf(last).name;
      }
    }
  }

  method AddListener(g: ResolvedGateway, crc: string -> nat, n: nat,
                     routers: ConfigEntryIndex, splitters: ConfigEntryIndex, defaults: ConfigEntryIndex,
                     ghost list: seq<ResolvedRoute>, ghost origins: seq<Origin>)
    returns (services: seq<IngressService>, ghost list': seq<ResolvedRoute>, ghost origins': seq<Origin>)
    requires n < |g.listeners| && ListenerWeightsInRange(g.listeners[n])
    requires Holds(routers, splitters, defaults, list) && ChainBelow(list, origins, g, crc, n)
    modifies routers, splitters, defaults
    ensures Holds(routers, splitters, defaults, list') && ChainBelow(list', origins', g, crc, n + 1)
    ensures ServedBy(services, list') && list <= list'
    ensures ServicesOf(services, g, crc, g.listeners[n])
  {
    var merged, http, hosts := MergeRoutes(g, crc, g.listeners[n]);
    MergedFacts(g, crc, g.listeners[n], merged, http, hosts);
    ChainOneMore(list, origins, g, crc, n, http, hosts);
    services := AddRoutes(merged, routers, splitters, defaults, list);
    AllAreServed(merged, list);
    ServicesOfMerged(g, crc, g.listeners[n], merged, http, hosts);
    list', origins' := list + http, origins + OriginsAt(n, hosts);
  }

  lemma {:induction false} ServicesOfMerged(g: ResolvedGateway, crc: string -> nat, l: ResolvedListener,
                         merged: seq<ResolvedRoute>, http: seq<ResolvedRoute>, hosts: seq<string>)
    requires Consolidation(http, hosts, g, crc, l) && merged == AtMostFirst(TcpRoutes(l.routes)) + http
    ensures ServicesOf(Services(merged), g, crc, l)
  {
    var tcp, services := AtMostFirst(TcpRoutes(l.routes)), Services(merged);
    forall k | 0 <= k < |hosts|
      ensures services[|tcp| + k] == HostService(g, crc, hosts[k])
    {
      assert merged[|tcp| + k] == http[k];
      ServiceOfConsolidated(http[k], g, crc, l, hosts[k]);
    }
    assert forall i | 0 <= i < |tcp| :: merged[i] == tcp[i];
    assert ServicesFor(services, hosts, g, crc, l);
  }

  lemma {:induction false} ServiceOfConsolidated(route: ResolvedRoute, g: ResolvedGateway, crc: string -> nat,
                                                 l: ResolvedListener, host: string)
    requires ConsolidatedFor(route, g, crc, l, host)
    ensures ServiceOf(route) == HostService(g, crc, host)
  {}

  lemma {:induction false} MergedFacts(g: ResolvedGateway, crc: string -> nat, l: ResolvedListener,
                                       merged: seq<ResolvedRoute>, http: seq<ResolvedRoute>, hosts: seq<string>)
    requires ListenerWeightsInRange(l) && Consolidation(http, hosts, g, crc, l)
    requires merged == AtMostFirst(TcpRoutes(l.routes)) + http
    ensures Compilable(http)
    ensures forall i | 0 <= i < |merged| :: RuleWeightsInRange(merged[i])
    ensures HttpOf(merged) == http
  {
    ConsolidationInRange(http, hosts, g, crc, l);
    HttpOfMerged(TcpRoutes(l.routes), http);
  }

  ghost predicate AllServed(listeners: seq<IngressListener>, list: seq<ResolvedRoute>) {
    forall j | 0 <= j < |listeners| :: ServedBy(listeners[j].services, list)
  }

  lemma {:induction false} AllServedMore(listeners: seq<IngressListener>, list: seq<ResolvedRoute>,
                                         list': seq<ResolvedRoute>)
    requires AllServed(listeners, list) && list <= list'
    ensures AllServed(listeners, list')
  {
    assert list + list'[|list|..] == list';
    forall j | 0 <= j < |listeners|
      ensures ServedBy(listeners[j].services, list')
    {
      ServedByMore(listeners[j].services, list, list'[|list|..]);
    }
  }

  lemma {:induction false} OneMoreListener(listeners: seq<IngressListener>, g: ResolvedGateway, crc: string -> nat,
                                           n: nat, from: seq<nat>, services: seq<IngressService>)
    requires n < |g.listeners| && ListenersOf(listeners, g, crc, n, from)
    requires ServicesOf(services, g, crc, g.listeners[n])
    ensures services == [] ==> ListenersOf(listeners, g, crc, n + 1, from)
    ensures services != [] ==>
              ListenersOf(listeners + [IngressListenerOf(g.listeners[n], services)], g, crc, n + 1, from + [n])
  {
    ServesIff(services, g, crc, g.listeners[n]);
    if services != [] {
      OneMoreServed(listeners, g, crc, n, from, services);
    }
  }

  lemma {:induction false} OneMoreServed(listeners: seq<IngressListener>, g: ResolvedGateway, crc: string -> nat,
                                         n: nat, from: seq<nat>, services: seq<IngressService>)
    requires n < |g.listeners| && ListenersOf(listeners, g, crc, n, from)
    requires ServicesOf(services, g, crc, g.listeners[n]) && Serves(g.listeners[n])
    ensures ListenersOf(listeners + [IngressListenerOf(g.listeners[n], services)], g, crc, n + 1, from + [n])
  {
    var listeners', from' := listeners + [IngressListenerOf(g.listeners[n], services)], from + [n];
    OneMoreServing(g, n, from);
    forall j | 0 <= j < |from'|
      ensures from'[j] < n + 1 <= |g.listeners| && ListenerOf(listeners'[j], g, crc, g.listeners[from'[j]])
    {
      assert j < |from| ==> from'[j] == from[j] && listeners'[j] == listeners[j];
    }
    assert Increasing(from');
  }

  lemma {:induction false} OneMoreServing(g: ResolvedGateway, n: nat, from: seq<nat>)
    requires n < |g.listeners| && ServingIn(g, n, from)
    ensures ServingIn(g, n + 1, from + [n])
  {
    forall i | 0 <= i < n + 1 && Serves(g.listeners[i])
      ensures i in from + [n]
    {
      assert i < n ==> i in from;
    }
  }

  function IngressListenerOf(l: ResolvedListener, services: seq<IngressService>): IngressListener {
    IngressListener(l.port, l.protocol, services, IngressTLS(l.tls))
  }

  /** Emits the ingress listener of listener n, unless it has nothing to serve. */
  method EmitListener(listeners: seq<IngressListener>, g: ResolvedGateway, crc: string -> nat, n: nat,
                      services: seq<IngressService>, ghost from: seq<nat>, ghost before: seq<ResolvedRoute>,
                      ghost list: seq<ResolvedRoute>)
    returns (listeners': seq<IngressListener>, ghost from': seq<nat>)
    requires n < |g.listeners| && ListenersOf(listeners, g, crc, n, from) &&
             ServicesOf(services, g, crc, g.listeners[n])
    requires AllServed(listeners, before) && before <= list && ServedBy(services, list)
    ensures ListenersOf(listeners', g, crc, n + 1, from') && AllServed(listeners', list)
  {
    AllServedMore(listeners, before, list);
    OneMoreListener(listeners, g, crc, n, from, services);
    if |services| > 0 {
      listeners' := listeners + [IngressListenerOf(g.listeners[n], services)];
      from' := from + [n];
    } else {
      listeners', from' := listeners, from;
    }
  }

  // ----- The same, by the fields of gateway, listeners and routes ----------------------------------------

  /** Versions and cipher suites as given, or the defaults; the first certificate, if any. */
  ghost predicate TlsByFields(t: GatewayTLS, tls: TLSParams) {
    && t.minVersion == (if tls.minVersion != "" then tls.minVersion else "TLSv1_2") && t.maxVersion == tls.maxVersion
    && (tls.cipherSuites != [] ==> t.cipherSuites == tls.cipherSuites)
    && (tls.cipherSuites == [] ==> t.cipherSuites == ["TLS_ECDHE_ECDSA_WITH_AES_128_GCM_SHA256",
                                                      "TLS_ECDHE_ECDSA_WITH_CHACHA20_POLY1305_SHA256",
                                                      "TLS_ECDHE_RSA_WITH_AES_128_GCM_SHA256",
                                                      "TLS_ECDHE_RSA_WITH_CHACHA20_POLY1305_SHA256",
                                                      "TLS_ECDHE_ECDSA_WITH_AES_256_GCM_SHA384",
                                                      "TLS_ECDHE_RSA_WITH_AES_256_GCM_SHA384"])
    && (tls.certificates == [] ==> t.certResource == None)
    && (tls.certificates != [] ==> t.certResource == Some(tls.certificates[0]))
  }

  /** Route i is the first TCP route of the listener. */
  ghost predicate FirstTcp(l: ResolvedListener, i: nat) {
    i < |l.routes| && l.routes[i].TCPRoute? && forall j | 0 <= j < i :: l.routes[j].HTTPRoute?
  }

  /** s is the service of the listener's first TCP route. */
  ghost predicate TcpService(s: IngressService, l: ResolvedListener) {
    exists i: nat :: FirstTcp(l, i) && s.name == l.routes[i].service.service && s.hosts == [] &&
                     s.namespace == l.routes[i].service.consulNamespace
  }

  /** s is the router of the host, named after the gateway and the host's checksum. */
  ghost predicate HttpService(s: IngressService, g: ResolvedGateway, crc: string -> nat, host: string) {
    && s.hosts == [host] && s.namespace == g.id.consulNamespace
    && exists hex: string :: s.name == g.id.service + "-" + hex && Writes(hex, crc(host), 16)
  }

  ghost predicate ListsHost(l: ResolvedListener, host: string) {
    exists i | 0 <= i < |l.routes| :: l.routes[i].HTTPRoute? && host in l.routes[i].hostnames
  }

  /** The services are that of the first TCP route, if any, and one for each host that a route lists. */
  ghost predicate ServicesByFields(services: seq<IngressService>, g: ResolvedGateway, crc: string -> nat,
                                   l: ResolvedListener) {
    && (forall s | s in services ::
          TcpService(s, l) || exists host: string :: ListsHost(l, host) && HttpService(s, g, crc, host))
    && (forall host: string | ListsHost(l, host) :: exists s | s in services :: HttpService(s, g, crc, host))
    && ((exists i: nat :: FirstTcp(l, i)) ==> exists s | s in services :: TcpService(s, l))
  }

  ghost predicate ListenerByFields(il: IngressListener, g: ResolvedGateway, crc: string -> nat, l: ResolvedListener) {
    && il.port == l.port && il.protocol == l.protocol && TlsByFields(il.tls, l.tls)
    && ServicesByFields(il.services, g, crc, l)
  }

  /** Every entry is under its own name, in the gateway's namespace and with its meta; defaults say "http". */
  ghost predicate EntriesByFields(routers: Index, splitters: Index, defaults: Index, g: ResolvedGateway) {
    && (forall n | n in routers :: routers[n].RouterEntry? && routers[n].router.name == n &&
          routers[n].router.namespace == g.id.consulNamespace && routers[n].router.meta == g.meta)
    && (forall n | n in splitters :: splitters[n].SplitterEntry? && splitters[n].splitter.name == n &&
          splitters[n].splitter.namespace == g.id.consulNamespace && splitters[n].splitter.meta == g.meta)
    && (forall n | n in defaults ::
          defaults[n] == DefaultsEntry(ServiceDefaults(n, g.id.consulNamespace, "http", g.meta)))
  }

  lemma {:induction false} FirstTcpIs(routes: seq<ResolvedRoute>)
    ensures TcpRoutes(routes) != [] ==> exists i | 0 <= i < |routes| :: routes[i] == TcpRoutes(routes)[0] &&
                                          routes[i].TCPRoute? && forall j | 0 <= j < i :: routes[j].HTTPRoute?
    ensures TcpRoutes(routes) == [] ==> forall i | 0 <= i < |routes| :: routes[i].HTTPRoute?
  {
    if routes != [] {
      var init, last := routes[..|routes| - 1], routes[|routes| - 1];
      FirstTcpIs(init);
      assert forall i | 0 <= i < |init| :: init[i] == routes[i];
      if TcpRoutes(init) != [] {
        var i :| 0 <= i < |init| && init[i] == TcpRoutes(init)[0] && init[i].TCPRoute? &&
                 forall j | 0 <= j < i :: init[j].HTTPRoute?;
        assert routes[i] == TcpRoutes(routes)[0];
      } else if last.TCPRoute? {
        assert routes[|routes| - 1] == TcpRoutes(routes)[0];
      }
    }
  }

  lemma {:induction false} TcpServiceIs(l: ResolvedListener)
    ensures TcpRoutes(l.routes) != [] ==> TcpService(ServiceOf(TcpRoutes(l.routes)[0]), l)
    ensures TcpRoutes(l.routes) == [] <==> forall i: nat :: !FirstTcp(l, i)
  {
    FirstTcpIs(l.routes);
    if TcpRoutes(l.routes) != [] {
      var i :| 0 <= i < |l.routes| && l.routes[i] == TcpRoutes(l.routes)[0] && l.routes[i].TCPRoute? &&
               forall j | 0 <= j < i :: l.routes[j].HTTPRoute?;
      assert FirstTcp(l, i);
    }
  }

  lemma {:induction false} HostServiceIs(g: ResolvedGateway, crc: string -> nat, host: string)
    ensures HttpService(HostService(g, crc, host), g, crc, host)
  {
    var hex, _ := NamesAreWritten(g.id.service, crc, host, 0);
  }

  lemma {:induction false} ServicesOfByFields(services: seq<IngressService>, g: ResolvedGateway, crc: string -> nat,
                                              l: ResolvedListener)
    requires ServicesOf(services, g, crc, l)
    ensures ServicesByFields(services, g, crc, l)
  {
    var hosts :| ServicesFor(services, hosts, g, crc, l);
    var tcp := AtMostFirst(TcpRoutes(l.routes));
    TcpServiceIs(l);
    forall s | s in services
      ensures TcpService(s, l) || exists host: string :: ListsHost(l, host) && HttpService(s, g, crc, host)
    {
      var i :| 0 <= i < |services| && services[i] == s;
      if i >= |tcp| {
        var host := hosts[i - |tcp|];
        assert services[|tcp| + (i - |tcp|)] == HostService(g, crc, host) && Lists(l, host);
        HostServiceIs(g, crc, host);
        assert ListsHost(l, host);
      }
    }
    forall host: string | ListsHost(l, host)
      ensures exists s | s in services :: HttpService(s, g, crc, host)
    {
      assert Lists(l, host);
      var k :| 0 <= k < |hosts| && hosts[k] == host;
      HostServiceIs(g, crc, host);
      assert services[|tcp| + k] in services;
    }
    if i: nat :| FirstTcp(l, i) {
      assert services[0] == ServiceOf(tcp[0]) && services[0] in services;
    }
  }

  lemma {:induction false} ListenerOfByFields(il: IngressListener, g: ResolvedGateway, crc: string -> nat,
                                              l: ResolvedListener)
    requires ListenerOf(il, g, crc, l)
    ensures ListenerByFields(il, g, crc, l)
  {
    ServicesOfByFields(il.services, g, crc, l);
  }

  lemma {:induction false} SplitterEntriesByFields(ss: seq<ServiceSplitter>, namespace: string, meta: Meta)
    requires forall i | 0 <= i < |ss| :: ss[i].namespace == namespace && ss[i].meta == meta
    ensures forall n | n in SplitterEntries(ss) ::
              var e := SplitterEntries(ss)[n];
              e.SplitterEntry? && e.splitter.name == n && e.splitter.namespace == namespace && e.splitter.meta == meta
  {
    if ss != [] {
      SplitterEntriesByFields(ss[..|ss| - 1], namespace, meta);
    }
  }

  lemma {:induction false} IndexesByFields(list: seq<ResolvedRoute>, g: ResolvedGateway)
    requires Compilable(list)
    requires forall k | 0 <= k < |list| :: list[k].namespace == g.id.consulNamespace && list[k].meta == g.meta
    ensures EntriesByFields(RouterIndex(list), SplitterIndex(list), DefaultsIndex(list), g)
  {
    if list != [] {
      var init, last := list[..|list| - 1], list[|list| - 1];
      IndexesByFields(init, g);
      var ss := SplittersOf(last);
      forall i | 0 <= i < |ss|
        ensures ss[i].namespace == last.namespace && ss[i].meta == last.meta
      {
        SplitterFields(last.name, last.namespace, last.meta, last.rules, |last.rules|, i);
      }
      SplitterEntriesByFields(ss, last.namespace, last.meta);
    }
  }

  /** All listeners in turn: the entries of their routes, and the ingress listeners. */
  method AddListeners(g: ResolvedGateway, crc: string -> nat,
                      routers: ConfigEntryIndex, splitters: ConfigEntryIndex, defaults: ConfigEntryIndex)
    returns (listeners: seq<IngressListener>, ghost list: seq<ResolvedRoute>, ghost origins: seq<Origin>,
             ghost from: seq<nat>)
    requires forall n | 0 <= n < |g.listeners| :: ListenerWeightsInRange(g.listeners[n])
    requires Holds(routers, splitters, defaults, [])
    modifies routers, splitters, defaults
    ensures Holds(routers, splitters, defaults, list) && Chain(list, origins, g, crc)
    ensures ListenersOf(listeners, g, crc, |g.listeners|, from) && AllServed(listeners, list)
  {
    listeners := [];
    list, origins, from := [], [], [];
    for n := 0 to |g.listeners|
      invariant Holds(routers, splitters, defaults, list) && ChainBelow(list, origins, g, crc, n)
      invariant ListenersOf(listeners, g, crc, n, from) && AllServed(listeners, list)
    {
      ghost var before := list;
      var services;
      services, list, origins := AddListener(g, crc, n, routers, splitters, defaults, list, origins);
      listeners, from := EmitListener(listeners, g, crc, n, services, from, before, list);
    }
  }

  method DiscoveryChain(g: ResolvedGateway, crc: string -> nat)
    returns (ingress: IngressGateway, routers: ConfigEntryIndex, splitters: ConfigEntryIndex,
             defaults: ConfigEntryIndex, ghost list: seq<ResolvedRoute>, ghost origins: seq<Origin>,
             ghost from: seq<nat>)
    requires forall n | 0 <= n < |g.listeners| :: ListenerWeightsInRange(g.listeners[n])
    ensures fresh(routers) && fresh(splitters) && fresh(defaults)
    ensures Holds(routers, splitters, defaults, list) && Chain(list, origins, g, crc)
    ensures ingress.name == g.id.service && ingress.namespace == g.id.consulNamespace && ingress.meta == g.meta
    ensures ingress.maxConnections == g.maxConnections
    ensures ListenersOf(ingress.listeners, g, crc, |g.listeners|, from)
    ensures forall j | 0 <= j < |from| :: ListenerByFields(ingress.listeners[j], g, crc, g.listeners[from[j]])
    ensures EntriesByFields(routers.idx, splitters.idx, defaults.idx, g)
    ensures Consistent(Computed(ingress, routers.idx, splitters.idx, defaults.idx))
  {
    routers := new ConfigEntryIndex(RouterKind);
    splitters := new ConfigEntryIndex(SplitterKind);
    defaults := new ConfigEntryIndex(DefaultsKind);
    var listeners;
    listeners, list, origins, from := AddListeners(g, crc, routers, splitters, defaults);
    ingress := IngressGateway(g.id.service, g.id.consulNamespace, g.meta, g.maxConnections, listeners);
    ComputedIsConsistent(ingress, list, origins, g, crc);
    IndexesByFields(list, g);
    forall j | 0 <= j < |from|
      ensures ListenerByFields(listeners[j], g, crc, g.listeners[from[j]])
    {
      ListenerOfByFields(listeners[j], g, crc, g.listeners[from[j]]);
    }
  }

  /** What is computed for a gateway has the properties the write order relies on. */
  lemma {:induction false} ComputedIsConsistent(ingress: IngressGateway, list: seq<ResolvedRoute>, origins: seq<Origin>,
                                                g: ResolvedGateway, crc: string -> nat)
    requires Chain(list, origins, g, crc)
    requires AllServed(ingress.listeners, list)
    ensures Consistent(Computed(ingress, RouterIndex(list), SplitterIndex(list), DefaultsIndex(list)))
  {
    DefaultsCoverExactly(list);
    RoutersAndSplittersApart(list, g.id.service, crc,
                             seq(|list|, k requires 0 <= k < |list| && |origins| == |list| => origins[k].host));
    forall n | IsHttpService(ingress, n)
      ensures n in RouterIndex(list)
    {
      var l, s :| 0 <= l < |ingress.listeners| && 0 <= s < |ingress.listeners[l].services| &&
                  ingress.listeners[l].services[s].name == n && ingress.listeners[l].services[s].hosts != [];
      assert ServedBy(ingress.listeners[l].services, list);
      RouterKeyIsName(list, n);
    }
  }
}
